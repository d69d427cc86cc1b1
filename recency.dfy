/**
 * Ordering of the loaded list: newest first by timestamp.  The application
 * sorts with the runtime's stable sort and the comparator
 * `(a, b) => b.timestamp - a.timestamp`, so cities with equal timestamps
 * keep the order in which they were loaded.  `SortByRecency` is that sort,
 * written as an insertion sort; the lemmas below show it is ordered, a
 * permutation of its input, and stable.
 */
module Recency {
  import opened CityData

  /** Non-increasing by timestamp. */
  predicate NewestFirst(cs: seq<City>) {
    forall i, j :: 0 <= i < j < |cs| ==> cs[i].timestamp >= cs[j].timestamp
  }

  /** The cities of `cs` with timestamp `t`, in their order in `cs`. */
  function WithStamp(cs: seq<City>, t: int): seq<City> {
    if cs == [] then []
    else (if cs[0].timestamp == t then [cs[0]] else []) + WithStamp(cs[1..], t)
  }

  /** Places `x` in front of the first city that is not newer than it. */
  function Insert(x: City, cs: seq<City>): (r: seq<City>)
    ensures |r| == |cs| + 1
  {
    if cs == [] || cs[0].timestamp <= x.timestamp then [x] + cs
    else [cs[0]] + Insert(x, cs[1..])
  }

  /** The sort; it keeps the list's length (the lemmas below pin order, contents and stability). */
  function SortByRecency(cs: seq<City>): (r: seq<City>)
    ensures |r| == |cs|
  {
    if cs == [] then [] else Insert(cs[0], SortByRecency(cs[1..]))
  }

  lemma {:induction false} InsertPermutes(x: City, cs: seq<City>)
    ensures multiset(Insert(x, cs)) == multiset(cs) + multiset{x}
  {
    if cs != [] && cs[0].timestamp > x.timestamp {
      InsertPermutes(x, cs[1..]);
      assert cs == [cs[0]] + cs[1..];
    }
  }

  lemma {:induction false} InsertNewestFirst(x: City, cs: seq<City>)
    requires NewestFirst(cs)
    ensures NewestFirst(Insert(x, cs))
  {
    if cs != [] && cs[0].timestamp > x.timestamp {
      var c := cs[0];
      var r := Insert(x, cs[1..]);
      InsertNewestFirst(x, cs[1..]);
      InsertPermutes(x, cs[1..]);
      forall k | 0 <= k < |r| ensures c.timestamp >= r[k].timestamp {
        assert r[k] in multiset(r);
        if r[k] != x {
          assert r[k] in cs[1..];
        }
      }
      assert Insert(x, cs) == [c] + r;
    }
  }

  lemma {:induction false} SortNewestFirst(cs: seq<City>)
    ensures NewestFirst(SortByRecency(cs))
    ensures multiset(SortByRecency(cs)) == multiset(cs)
  {
    if cs != [] {
      SortNewestFirst(cs[1..]);
      InsertNewestFirst(cs[0], SortByRecency(cs[1..]));
      InsertPermutes(cs[0], SortByRecency(cs[1..]));
      assert cs == [cs[0]] + cs[1..];
    }
  }

  lemma WithStampCons(x: City, cs: seq<City>, t: int)
    ensures WithStamp([x] + cs, t) == (if x.timestamp == t then [x] else []) + WithStamp(cs, t)
  {
    assert ([x] + cs)[1..] == cs;
  }

  lemma {:induction false} InsertStable(x: City, cs: seq<City>, t: int)
    requires NewestFirst(cs)
    ensures WithStamp(Insert(x, cs), t) == WithStamp([x] + cs, t)
  {
    if cs != [] && cs[0].timestamp > x.timestamp {
      var c := cs[0];
      assert cs == [c] + cs[1..];
      InsertStable(x, cs[1..], t);
      WithStampCons(c, Insert(x, cs[1..]), t);
      WithStampCons(x, cs[1..], t);
      WithStampCons(x, cs, t);
      WithStampCons(c, cs[1..], t);
    }
  }

  /** Stability: the cities sharing any one timestamp keep their relative order. */
  lemma {:induction false} SortStable(cs: seq<City>, t: int)
    ensures WithStamp(SortByRecency(cs), t) == WithStamp(cs, t)
  {
    if cs != [] {
      SortNewestFirst(cs[1..]);
      InsertStable(cs[0], SortByRecency(cs[1..]), t);
      SortStable(cs[1..], t);
      WithStampCons(cs[0], SortByRecency(cs[1..]), t);
    }
  }
}
