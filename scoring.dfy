/**
 * The satisfaction score computed when a city is created (and shown as a
 * preview in the create form): `min(100, floor(buildings / (population /
 * 1000) * 10))`, evaluated here in exact arithmetic.
 */
module Scoring {

  const MAX_SATISFACTION: int := 100

  function Min(a: int, b: int): (m: int)
    ensures m <= a && m <= b && (m == a || m == b)
  {
    if a <= b then a else b
  }

  /**
   * The score in integers.  The result is the largest integer that is at
   * most 100 and at most 10000 * buildings / population.
   */
  function Satisfaction(population: int, buildings: int): (r: int)
    requires 0 < population && 0 <= buildings
    ensures 0 <= r <= MAX_SATISFACTION
    ensures r * population <= 10000 * buildings
    ensures r < MAX_SATISFACTION ==> 10000 * buildings < (r + 1) * population
  {
    var q := 10000 * buildings / population;
    assert q * population <= 10000 * buildings < (q + 1) * population;
    if q <= MAX_SATISFACTION then q
    else
      assert MAX_SATISFACTION * population <= q * population;
      MAX_SATISFACTION
  }

  /** The formula as the application writes it, in real arithmetic. */
  function RealFormula(population: int, buildings: int): int
    requires population != 0
  {
    Min(MAX_SATISFACTION, ((buildings as real) / ((population as real) / 1000.0) * 10.0).Floor)
  }

  /** The integer score agrees with the application's formula everywhere it is defined. */
  lemma SatisfactionIsFormula(population: int, buildings: int)
    requires 0 < population && 0 <= buildings
    ensures Satisfaction(population, buildings) == RealFormula(population, buildings)
  {
    var p := population as real;
    var b := buildings as real;
    var x := b / (p / 1000.0) * 10.0;
    assert x == (10000 * buildings) as real / p;
    var q := 10000 * buildings / population;
    var rem := 10000 * buildings % population;
    assert 10000 * buildings == q * population + rem;
    assert (10000 * buildings) as real == (q as real) * p + (rem as real);
    assert x == q as real + (rem as real) / p;
    assert 0.0 <= (rem as real) / p < 1.0;
    assert x.Floor == q;
  }

  /** Two worked values: 10000 citizens with 10 buildings score 10; 1000 citizens with 20 buildings are clamped to 100. */
  lemma SatisfactionExamples()
    ensures Satisfaction(10000, 10) == 10
    ensures Satisfaction(1000, 20) == 100
  {
  }

  /** More buildings never lower the score. */
  lemma SatisfactionMonotone(population: int, b1: int, b2: int)
    requires 0 < population && 0 <= b1 <= b2
    ensures Satisfaction(population, b1) <= Satisfaction(population, b2)
  {
    var r1 := Satisfaction(population, b1);
    var r2 := Satisfaction(population, b2);
    if r2 < r1 {
      assert r2 < MAX_SATISFACTION;
      assert 10000 * b2 < (r2 + 1) * population;
      MultiplyMonotone(r2 + 1, r1, population);
      assert false;
    }
  }

  lemma MultiplyMonotone(a: int, b: int, k: int)
    requires a <= b && 0 < k
    ensures a * k <= b * k
  {
    assert b * k - a * k == (b - a) * k;
  }
}
