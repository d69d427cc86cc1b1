/**
 * What the dashboard derives from the loaded city list: the statistics
 * (sums by left-to-right reduction, and the mean satisfaction) and the
 * pages of five cities it shows at a time.
 */
module View {
  import opened CityData

  const ITEMS_PER_PAGE: nat := 5

  // ----- statistics -----

  /** `cs.reduce((sum, c) => sum + f(c), 0)`. */
  function Sum(cs: seq<City>, f: City -> int): int {
    if cs == [] then 0 else Sum(cs[..|cs| - 1], f) + f(cs[|cs| - 1])
  }

  function Population(c: City): int { c.population }
  function Buildings(c: City): int { c.buildings }
  function SatisfactionOf(c: City): int { c.satisfaction }

  /** Total population: 0 for no cities, and never negative when no population is. */
  function TotalPopulation(cs: seq<City>): (t: int)
    ensures cs == [] ==> t == 0
    ensures (forall i :: 0 <= i < |cs| ==> 0 <= cs[i].population) ==> 0 <= t
  {
    SumNonNegative(cs, Population);
    Sum(cs, Population)
  }

  /** Total buildings: 0 for no cities, and never negative when no count is. */
  function TotalBuildings(cs: seq<City>): (t: int)
    ensures cs == [] ==> t == 0
    ensures (forall i :: 0 <= i < |cs| ==> 0 <= cs[i].buildings) ==> 0 <= t
  {
    SumNonNegative(cs, Buildings);
    Sum(cs, Buildings)
  }

  lemma {:induction false} SumNonNegative(cs: seq<City>, f: City -> int)
    ensures (forall i :: 0 <= i < |cs| ==> 0 <= f(cs[i])) ==> 0 <= Sum(cs, f)
  {
    if cs != [] {
      SumNonNegative(cs[..|cs| - 1], f);
    }
  }

  /** The mean satisfaction, and 0 for an empty list. */
  function AverageSatisfaction(cs: seq<City>): (avg: real)
    ensures cs == [] ==> avg == 0.0
    ensures cs != [] ==> avg * (|cs| as real) == Sum(cs, SatisfactionOf) as real
  {
    if |cs| > 0 then Sum(cs, SatisfactionOf) as real / |cs| as real else 0.0
  }

  lemma {:induction false} SumAppend(a: seq<City>, b: seq<City>, f: City -> int)
    ensures Sum(a + b, f) == Sum(a, f) + Sum(b, f)
  {
    if b == [] {
      assert a + b == a;
    } else {
      var b' := b[..|b| - 1];
      assert (a + b)[..|a + b| - 1] == a + b';
      assert (a + b)[|a + b| - 1] == b[|b| - 1];
      SumAppend(a, b', f);
    }
  }

  /** A sum does not depend on the order of the list (so sorting keeps every statistic). */
  lemma {:induction false} SumPermutation(a: seq<City>, b: seq<City>, f: City -> int)
    requires multiset(a) == multiset(b)
    ensures Sum(a, f) == Sum(b, f)
  {
    if a != [] {
      var n := |a| - 1;
      var x := a[n];
      assert x in multiset(b);
      var j :| 0 <= j < |b| && b[j] == x;
      var b' := b[..j] + b[j + 1..];
      assert b == b[..j] + [x] + b[j + 1..];
      assert a == a[..n] + [x];
      calc {
        multiset(a[..n]) + multiset{x};
        multiset(a);
        multiset(b);
        multiset(b[..j]) + multiset{x} + multiset(b[j + 1..]);
        multiset(b') + multiset{x};
      }
      assert multiset(a[..n]) == (multiset(a[..n]) + multiset{x}) - multiset{x};
      assert multiset(b') == (multiset(b') + multiset{x}) - multiset{x};
      SumPermutation(a[..n], b', f);
      SumAppend(b[..j] + [x], b[j + 1..], f);
      SumAppend(b[..j], [x], f);
      SumAppend(b[..j], b[j + 1..], f);
      assert Sum([x], f) == f(x) by { assert [x][..0] == []; }
    }
  }

  /** Every summand within [lo, hi] puts the sum within [lo * n, hi * n]. */
  lemma {:induction false} SumBounds(cs: seq<City>, f: City -> int, lo: int, hi: int)
    requires forall i :: 0 <= i < |cs| ==> lo <= f(cs[i]) <= hi
    ensures lo * |cs| <= Sum(cs, f) <= hi * |cs|
  {
    if cs != [] {
      var n := |cs| - 1;
      SumBounds(cs[..n], f, lo, hi);
      assert lo * |cs| == lo * n + lo && hi * |cs| == hi * n + hi;
    }
  }

  /** Satisfactions within [0, 100] give a mean within [0, 100]. */
  lemma AverageSatisfactionBounds(cs: seq<City>)
    requires forall i :: 0 <= i < |cs| ==> 0 <= cs[i].satisfaction <= 100
    ensures 0.0 <= AverageSatisfaction(cs) <= 100.0
  {
    if cs != [] {
      SumBounds(cs, SatisfactionOf, 0, 100);
      var n := |cs| as real;
      var s := Sum(cs, SatisfactionOf) as real;
      assert 0.0 <= s <= 100.0 * n;
      assert AverageSatisfaction(cs) == s / n;
    }
  }

  /** The statistics of a list and of any reordering of it agree. */
  lemma StatisticsPermutation(a: seq<City>, b: seq<City>)
    requires multiset(a) == multiset(b)
    ensures TotalPopulation(a) == TotalPopulation(b)
    ensures TotalBuildings(a) == TotalBuildings(b)
    ensures AverageSatisfaction(a) == AverageSatisfaction(b)
  {
    SumPermutation(a, b, Population);
    SumPermutation(a, b, Buildings);
    SumPermutation(a, b, SatisfactionOf);
    assert |a| == |multiset(a)| == |multiset(b)| == |b|;
  }

  // ----- pagination -----

  /** `Math.ceil(n / 5)`: the fewest pages of five that hold n items. */
  function TotalPages(n: nat): (pages: nat)
    ensures n <= ITEMS_PER_PAGE * pages
    ensures pages == 0 || ITEMS_PER_PAGE * (pages - 1) < n
  {
    (n + ITEMS_PER_PAGE - 1) / ITEMS_PER_PAGE
  }

  /** A `slice` bound: negative counts back from the end, and both ends are clamped. */
  function SliceIndex(i: int, len: nat): (r: nat)
    ensures r <= len
    ensures 0 <= i <= len ==> r == i
    ensures len < i ==> r == len
  {
    if i < 0 then (if len + i < 0 then 0 else len + i)
    else if i > len then len
    else i
  }

  /** `s.slice(start, end)`. */
  function Slice(s: seq<City>, start: int, end: int): (r: seq<City>)
    ensures |r| <= |s|
    ensures |r| == if SliceIndex(start, |s|) < SliceIndex(end, |s|)
                   then SliceIndex(end, |s|) - SliceIndex(start, |s|) else 0
    ensures forall i :: 0 <= i < |r| ==> SliceIndex(start, |s|) + i < |s| && r[i] == s[SliceIndex(start, |s|) + i]
  {
    var from := SliceIndex(start, |s|);
    var to := SliceIndex(end, |s|);
    if from < to then s[from..to] else []
  }

  /** `cities.slice((page - 1) * 5, page * 5)`. */
  function Page(cs: seq<City>, page: int): (r: seq<City>)
    ensures |r| <= ITEMS_PER_PAGE
  {
    Slice(cs, (page - 1) * ITEMS_PER_PAGE, page * ITEMS_PER_PAGE)
  }

  /** Page p (from 1) holds the cities at positions [(p-1)*5, min(p*5, n)), in order. */
  lemma PageContents(cs: seq<City>, page: int)
    requires 1 <= page
    ensures var start := (page - 1) * ITEMS_PER_PAGE;
      |Page(cs, page)| == (if |cs| <= start then 0
                           else if page * ITEMS_PER_PAGE <= |cs| then ITEMS_PER_PAGE
                           else |cs| - start)
    ensures forall i :: 0 <= i < |Page(cs, page)| ==>
      Page(cs, page)[i] == cs[(page - 1) * ITEMS_PER_PAGE + i]
  {
  }

  /** Exactly the pages 1 .. TotalPages are non-empty. */
  lemma PageEmptyIff(cs: seq<City>, page: int)
    requires 1 <= page
    ensures Page(cs, page) == [] <==> TotalPages(|cs|) < page
  {
    PageContents(cs, page);
    var start := (page - 1) * ITEMS_PER_PAGE;
    var pages := TotalPages(|cs|);
    if pages < page {
      assert ITEMS_PER_PAGE * pages <= start;
    } else {
      assert pages == 0 || ITEMS_PER_PAGE * (page - 1) <= ITEMS_PER_PAGE * (pages - 1);
    }
  }

  /** Pages 1 .. k, one after another. */
  function FirstPages(cs: seq<City>, k: nat): seq<City> {
    if k == 0 then [] else FirstPages(cs, k - 1) + Page(cs, k)
  }

  /** The first k pages are the list's first min(5k, n) cities. */
  lemma {:induction false} FirstPagesPrefix(cs: seq<City>, k: nat)
    ensures var m := if ITEMS_PER_PAGE * k <= |cs| then ITEMS_PER_PAGE * k else |cs|;
      FirstPages(cs, k) == cs[..m]
  {
    if k > 0 {
      FirstPagesPrefix(cs, k - 1);
      PageContents(cs, k);
      var start := (k - 1) * ITEMS_PER_PAGE;
      if start < |cs| {
        var end := if k * ITEMS_PER_PAGE <= |cs| then k * ITEMS_PER_PAGE else |cs|;
        assert Page(cs, k) == cs[start..end];
        assert cs[..start] + cs[start..end] == cs[..end];
      }
    }
  }

  /** Paging through every page shows every city once, in list order. */
  lemma PagesCoverList(cs: seq<City>)
    ensures FirstPages(cs, TotalPages(|cs|)) == cs
  {
    FirstPagesPrefix(cs, TotalPages(|cs|));
  }

  /** Twelve cities make pages of 5, 5 and 2, and a fourth page is empty. */
  lemma TwelveCitiesPaging(cs: seq<City>)
    requires |cs| == 12
    ensures TotalPages(|cs|) == 3
    ensures |Page(cs, 1)| == 5 && |Page(cs, 2)| == 5 && |Page(cs, 3)| == 2 && Page(cs, 4) == []
  {
    PageContents(cs, 1);
    PageContents(cs, 2);
    PageContents(cs, 3);
    PageContents(cs, 4);
  }
}
