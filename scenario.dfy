/**
 * Two cities created one after the other on an empty registry, then loaded
 * and summarised: the walk-through of the whole registry in one statement.
 */
module Scenarios {
  import opened CityData
  import opened Store
  import opened Keys
  import opened Scoring
  import opened Recency
  import opened Registry
  import opened View
  import opened CityApp

  /** Two creates on an empty registry index both ids, in order. */
  lemma TwoCreatesIndex(data: Data, mid: Data, after: Data, idA: string, recA: Record, idB: string, recB: Record)
    requires IndexIds(data) == []
    requires mid == Committed(data, idA, recA) && after == Committed(mid, idB, recB)
    ensures IndexIds(after) == [idA, idB]
  {
    CommittedIndex(data, idA, recA);
    CommittedIndex(mid, idB, recB);
  }

  /** After two creates, both ids load back their records, in index order. */
  lemma TwoCreatesScan(data: Data, mid: Data, after: Data, idA: string, recA: Record, idB: string, recB: Record)
    requires idA != idB && idA != "keys" && idB != "keys"
    requires mid == Committed(data, idA, recA) && after == Committed(mid, idB, recB)
    ensures Scan(after, {}, [idA, idB]) == [WithId(idA, recA), WithId(idB, recB)]
  {
    RecordKeyIsIndexKey(idA);
    RecordKeyIsIndexKey(idB);
    CommittedEntry(data, {}, idA, recA);
    CommittedOtherEntry(mid, {}, idB, recB, idA);
    CommittedEntry(mid, {}, idB, recB);
    ScanAppend(after, {}, [idA], [idB]);
    ScanSingle(after, {}, idA);
    ScanSingle(after, {}, idB);
    assert [idA] + [idB] == [idA, idB];
  }

  /** After two creates, the later one is listed first. */
  lemma TwoCreatesLoaded(data: Data, mid: Data, after: Data, idA: string, recA: Record, idB: string, recB: Record)
    requires IndexIds(data) == []
    requires idA != idB && idA != "keys" && idB != "keys"
    requires recA.timestamp < recB.timestamp
    requires mid == Committed(data, idA, recA) && after == Committed(mid, idB, recB)
    ensures Loaded(after, {}) == [WithId(idB, recB), WithId(idA, recA)]
  {
    TwoCreatesIndex(data, mid, after, idA, recA, idB, recB);
    TwoCreatesScan(data, mid, after, idA, recA, idB, recB);
    SortTwo(WithId(idA, recA), WithId(idB, recB));
  }

  lemma SortTwo(a: City, b: City)
    requires a.timestamp < b.timestamp
    ensures SortByRecency([a, b]) == [b, a]
  {
    assert [a, b][1..] == [b];
    assert [b][1..] == [];
    assert SortByRecency([b]) == [b];
    assert [b][1..] == [];
    assert Insert(a, [b]) == [b] + Insert(a, []);
  }

  /**
   * "Alpha" (10000 citizens, 10 buildings) and then "Beta" (5000 citizens,
   * 5 buildings, created a second or more later) load back as two cities,
   * Beta first, with 15000 citizens, 15 buildings and a mean score of 10.
   */
  lemma AlphaThenBeta(data: Data, idA: string, idB: string, millisA: nat, millisB: nat,
                      owner: string, encA: string, encB: string, after: Data)
    requires IndexIds(data) == []
    requires idA != idB && idA != "keys" && idB != "keys"
    requires millisA / 1000 < millisB / 1000
    requires after == Committed(Committed(data, idA, NewRecord(Draft("Alpha", 10000, 10), millisA, owner, encA)),
                                idB, NewRecord(Draft("Beta", 5000, 5), millisB, owner, encB))
    ensures var cities := Loaded(after, {});
      && |cities| == 2
      && cities[0].name == "Beta" && cities[1].name == "Alpha"
      && TotalPopulation(cities) == 15000
      && TotalBuildings(cities) == 15
      && AverageSatisfaction(cities) == 10.0
  {
    var recA := NewRecord(Draft("Alpha", 10000, 10), millisA, owner, encA);
    var recB := NewRecord(Draft("Beta", 5000, 5), millisB, owner, encB);
    assert recA.satisfaction == 10 && recB.satisfaction == 10 by { SatisfactionExamples(); }
    TwoCreatesLoaded(data, Committed(data, idA, recA), after, idA, recA, idB, recB);
    PairStatistics(WithId(idB, recB), WithId(idA, recA));
  }

  lemma PairStatistics(x: City, y: City)
    ensures TotalPopulation([x, y]) == x.population + y.population
    ensures TotalBuildings([x, y]) == x.buildings + y.buildings
    ensures AverageSatisfaction([x, y]) == (x.satisfaction + y.satisfaction) as real / 2.0
  {
    var cs := [x, y];
    assert cs[..|cs| - 1] == [x] && [x][..0] == [];
    assert Sum(cs, Population) == Sum([x], Population) + y.population;
    assert Sum(cs, Buildings) == Sum([x], Buildings) + y.buildings;
    assert Sum(cs, SatisfactionOf) == Sum([x], SatisfactionOf) + y.satisfaction;
  }
}
