/**
 * The registry layer as functions of the store's contents: what the index
 * reads as, what one index entry loads as, the whole load (`Loaded`), and
 * the two writes of a create (`Committed`).  The loading and writing
 * operations of module CityApp (`FetchAll`, `AppendToIndex`, `WriteCity`,
 * `App.LoadCities`, `App.HandleSubmit`, `App.SubmitCity`) are proved to
 * compute exactly these; the properties of the registry are proved here
 * about the functions.
 */
module Registry {
  import opened Wrappers
  import opened CityData
  import opened Codec
  import opened Store
  import opened Keys
  import opened Recency

  /**
   * The index as the application reads it: an empty value is the empty
   * list, and so is a value that does not parse.
   */
  function LoadIndex(bytes: seq<byte>): (ids: seq<string>)
    ensures |bytes| == 0 || DecodeKeys(bytes).None? ==> ids == []
    ensures DecodeKeys(bytes).Some? ==> ids == DecodeKeys(bytes).value
  {
    if |bytes| == 0 then []
    else
      match DecodeKeys(bytes)
      case Some(ids) => ids
      case None => []
  }

  /** Whatever list is written as the index is what is read back. */
  lemma LoadIndexRoundTrip(ids: seq<string>)
    ensures LoadIndex(EncodeKeys(ids)) == ids
  {
    KeysRoundTrip(ids);
  }

  /** The ids currently listed by the index. */
  function IndexIds(data: Data): seq<string> {
    LoadIndex(Lookup(data, INDEX_KEY))
  }

  /**
   * What the loop body makes of index entry `id`: nothing when fetching
   * the record raises, when the stored value is empty or when it does not
   * parse; otherwise the record, listed under `id`.
   */
  function Entry(data: Data, faults: set<string>, id: string): (r: Option<City>)
    ensures r.Some? ==> r.value.id == id
    ensures r.Some? ==> RecordKey(id) !in faults && DecodeRecord(Lookup(data, RecordKey(id))) == Some(Stored(r.value))
    ensures RecordKey(id) !in faults && DecodeRecord(Lookup(data, RecordKey(id))).Some? ==> r.Some?
  {
    if RecordKey(id) in faults then None
    else
      var bytes := Lookup(data, RecordKey(id));
      if |bytes| == 0 then None
      else
        match DecodeRecord(bytes)
        case None => None
        case Some(rec) => Some(WithId(id, rec))
  }

  function EntryList(data: Data, faults: set<string>, id: string): seq<City> {
    match Entry(data, faults, id)
    case None => []
    case Some(c) => [c]
  }

  /** The list the loop pushes to, for the index entries `ids` in order. */
  function Scan(data: Data, faults: set<string>, ids: seq<string>): (cs: seq<City>)
    ensures |cs| <= |ids|
    ensures forall i :: 0 <= i < |cs| ==> cs[i].id in ids
  {
    if ids == [] then []
    else Scan(data, faults, ids[..|ids| - 1]) + EntryList(data, faults, ids[|ids| - 1])
  }

  /** `loadCities` on a reachable store: scan the index, then newest first. */
  function Loaded(data: Data, faults: set<string>): (cs: seq<City>)
    ensures |cs| <= |IndexIds(data)|
  {
    SortByRecency(Scan(data, faults, IndexIds(data)))
  }

  /** The substrate calls a load issues for the index entries `ids`. */
  function ScanTrace(ids: seq<string>): seq<Access> {
    if ids == [] then [] else ScanTrace(ids[..|ids| - 1]) + [Read(RecordKey(ids[|ids| - 1]))]
  }

  /** A load reads the record key of every index entry, once each, in index order. */
  lemma {:induction false} ScanTraceReads(ids: seq<string>)
    ensures |ScanTrace(ids)| == |ids|
    ensures forall i :: 0 <= i < |ids| ==> ScanTrace(ids)[i] == Read(RecordKey(ids[i]))
  {
    if ids != [] {
      var n := |ids| - 1;
      ScanTraceReads(ids[..n]);
      assert forall i :: 0 <= i < n ==> ids[..n][i] == ids[i];
    }
  }

  /**
   * The store after both writes of a create: the record, then the index.
   */
  function Committed(data: Data, id: string, rec: Record): (d: Data)
    ensures d.Keys == data.Keys + {RecordKey(id), INDEX_KEY}
  {
    data[RecordKey(id) := EncodeRecord(rec)][INDEX_KEY := EncodeKeys(IndexIds(data) + [id])]
  }

  // ----- the load -----

  /** One index entry's result does not depend on the entries around it. */
  lemma {:induction false} ScanAppend(data: Data, faults: set<string>, a: seq<string>, b: seq<string>)
    ensures Scan(data, faults, a + b) == Scan(data, faults, a) + Scan(data, faults, b)
  {
    if b == [] {
      assert a + b == a;
    } else {
      var b' := b[..|b| - 1];
      assert (a + b)[..|a + b| - 1] == a + b';
      assert (a + b)[|a + b| - 1] == b[|b| - 1];
      ScanAppend(data, faults, a, b');
    }
  }

  lemma ScanSingle(data: Data, faults: set<string>, id: string)
    ensures Scan(data, faults, [id]) == EntryList(data, faults, id)
  {
    assert [id][..0] == [];
  }

  /** An entry that fails to load is skipped and leaves the rest of the list as it was. */
  lemma SkipFailedEntry(data: Data, faults: set<string>, a: seq<string>, id: string, b: seq<string>)
    requires Entry(data, faults, id).None?
    ensures Scan(data, faults, a + [id] + b) == Scan(data, faults, a + b)
  {
    ScanAppend(data, faults, a + [id], b);
    ScanAppend(data, faults, a, [id]);
    ScanSingle(data, faults, id);
    ScanAppend(data, faults, a, b);
  }

  /** An entry that loads is in the scanned list. */
  lemma {:induction false} ScanFinds(data: Data, faults: set<string>, ids: seq<string>, i: nat)
    requires i < |ids| && Entry(data, faults, ids[i]).Some?
    ensures Entry(data, faults, ids[i]).value in Scan(data, faults, ids)
  {
    var ids' := ids[..|ids| - 1];
    if i < |ids| - 1 {
      assert ids'[i] == ids[i];
      ScanFinds(data, faults, ids', i);
    }
  }

  /** Everything in the scanned list is what some index entry loads as. */
  lemma {:induction false} ScanSound(data: Data, faults: set<string>, ids: seq<string>, c: City)
    requires c in Scan(data, faults, ids)
    ensures c.id in ids && Entry(data, faults, c.id) == Some(c)
  {
    var ids' := ids[..|ids| - 1];
    if c in Scan(data, faults, ids') {
      ScanSound(data, faults, ids', c);
    }
  }

  /**
   * The loaded list: newest first, no longer than the index, and it holds
   * exactly the cities that the index's entries load as.
   */
  lemma LoadedSpec(data: Data, faults: set<string>)
    ensures NewestFirst(Loaded(data, faults))
    ensures |Loaded(data, faults)| <= |IndexIds(data)|
    ensures forall c :: c in Loaded(data, faults) <==>
      c.id in IndexIds(data) && Entry(data, faults, c.id) == Some(c)
  {
    var ids := IndexIds(data);
    var s := Scan(data, faults, ids);
    SortNewestFirst(s);
    assert |multiset(Loaded(data, faults))| == |multiset(s)|;
    forall c ensures c in Loaded(data, faults) <==> c.id in ids && Entry(data, faults, c.id) == Some(c) {
      assert c in Loaded(data, faults) <==> c in multiset(s);
      if c in s {
        ScanSound(data, faults, ids, c);
      }
      if c.id in ids && Entry(data, faults, c.id) == Some(c) {
        var i :| 0 <= i < |ids| && ids[i] == c.id;
        ScanFinds(data, faults, ids, i);
      }
    }
  }

  /** An index with one failing entry between two good ones loads as the two good records. */
  lemma OneBadEntry(data: Data, faults: set<string>, good1: string, bad: string, good2: string)
    requires Entry(data, faults, good1).Some? && Entry(data, faults, good2).Some?
    requires Entry(data, faults, bad).None?
    ensures Scan(data, faults, [good1, bad, good2]) ==
      [Entry(data, faults, good1).value, Entry(data, faults, good2).value]
  {
    SkipFailedEntry(data, faults, [good1], bad, [good2]);
    assert [good1] + [bad] + [good2] == [good1, bad, good2];
    ScanAppend(data, faults, [good1], [good2]);
    ScanSingle(data, faults, good1);
    ScanSingle(data, faults, good2);
  }

  // ----- the create -----

  /** Writing a record leaves the index as it was. */
  lemma RecordWriteKeepsIndex(data: Data, id: string, bytes: seq<byte>)
    requires RecordKey(id) != INDEX_KEY
    ensures IndexIds(data[RecordKey(id) := bytes]) == IndexIds(data)
  {
    assert Lookup(data[RecordKey(id) := bytes], INDEX_KEY) == Lookup(data, INDEX_KEY);
  }

  /** The index after a create is the old one with the new id appended. */
  lemma CommittedIndex(data: Data, id: string, rec: Record)
    ensures IndexIds(Committed(data, id, rec)) == IndexIds(data) + [id]
  {
    LoadIndexRoundTrip(IndexIds(data) + [id]);
  }

  /** A create changes the record key and the index key and no other. */
  lemma CommittedFrame(data: Data, id: string, rec: Record, k: string)
    requires k != RecordKey(id) && k != INDEX_KEY
    ensures Lookup(Committed(data, id, rec), k) == Lookup(data, k)
  {
  }

  /** A record written by a create loads back, under its id, with every field it was written with. */
  lemma CommittedEntry(data: Data, faults: set<string>, id: string, rec: Record)
    requires RecordKey(id) != INDEX_KEY && RecordKey(id) !in faults
    ensures Entry(Committed(data, id, rec), faults, id) == Some(WithId(id, rec))
  {
    RecordRoundTrip(rec);
  }

  /** A create leaves every other entry loading as before (the index key itself excepted). */
  lemma CommittedOtherEntry(data: Data, faults: set<string>, id: string, rec: Record, other: string)
    requires other != id && RecordKey(other) != INDEX_KEY
    ensures Entry(Committed(data, id, rec), faults, other) == Entry(data, faults, other)
  {
    RecordKeyInjective(id, other);
  }

  lemma {:induction false} ScanUnchanged(data: Data, data': Data, faults: set<string>, ids: seq<string>)
    requires forall k :: k in ids ==> Entry(data', faults, k) == Entry(data, faults, k)
    ensures Scan(data', faults, ids) == Scan(data, faults, ids)
  {
    if ids != [] {
      ScanUnchanged(data, data', faults, ids[..|ids| - 1]);
    }
  }

  /**
   * A create adds exactly the new city to what a load returns, provided its
   * id is new, no indexed id is "keys", and its record can be fetched.
   */
  lemma CommittedLoaded(data: Data, faults: set<string>, id: string, rec: Record)
    requires RecordKey(id) != INDEX_KEY && RecordKey(id) !in faults
    requires id !in IndexIds(data) && "keys" !in IndexIds(data)
    ensures multiset(Loaded(Committed(data, id, rec), faults)) ==
      multiset(Loaded(data, faults)) + multiset{WithId(id, rec)}
  {
    var data' := Committed(data, id, rec);
    var ids := IndexIds(data);
    CommittedIndex(data, id, rec);
    forall k | k in ids ensures Entry(data', faults, k) == Entry(data, faults, k) {
      RecordKeyIsIndexKey(k);
      CommittedOtherEntry(data, faults, id, rec, k);
    }
    ScanUnchanged(data, data', faults, ids);
    ScanAppend(data', faults, ids, [id]);
    ScanSingle(data', faults, id);
    CommittedEntry(data, faults, id, rec);
    SortNewestFirst(Scan(data, faults, ids));
    SortNewestFirst(Scan(data', faults, ids + [id]));
  }

  /** One more create on top of a store whose index already grew by `done`. */
  lemma CommittedIndexStep(base: seq<string>, done: seq<string>, before: Data, after: Data, id: string, rec: Record)
    requires after == Committed(before, id, rec)
    requires IndexIds(before) == base + done
    ensures IndexIds(after) == base + (done + [id])
  {
    CommittedIndex(before, id, rec);
    AppendAssoc(base, done, [id]);
  }

  lemma AppendLast<T>(a: seq<T>, b: seq<T>)
    requires b != []
    ensures a + (b[..|b| - 1] + [b[|b| - 1]]) == a + b
  {
    assert b[..|b| - 1] + [b[|b| - 1]] == b;
  }

  lemma AppendAssoc<T>(a: seq<T>, b: seq<T>, c: seq<T>)
    ensures a + b + c == a + (b + c)
  {
  }

  /**
   * The index invariant: every indexed id (other than "keys", whose record
   * key is the index key itself) has a record stored that decodes.
   */
  predicate IndexBacked(data: Data) {
    forall x :: x in IndexIds(data) && x != "keys" ==> DecodeRecord(Lookup(data, RecordKey(x))).Some?
  }

  /** Writing a record keeps every other indexed id's record, and the written one decodes. */
  lemma RecordWriteKeepsBacking(data: Data, after: Data, id: string, rec: Record, x: string)
    requires after == data[RecordKey(id) := EncodeRecord(rec)]
    requires x == id || DecodeRecord(Lookup(data, RecordKey(x))).Some?
    ensures DecodeRecord(Lookup(after, RecordKey(x))).Some?
  {
    if x == id {
      RecordRoundTrip(rec);
    } else {
      RecordKeyInjective(x, id);
    }
  }

  /** A create that stops after the record write leaves the index invariant in place. */
  lemma RecordWriteKeepsIndexBacked(data: Data, after: Data, id: string, rec: Record)
    requires IndexBacked(data) && RecordKey(id) != INDEX_KEY
    requires after == data[RecordKey(id) := EncodeRecord(rec)]
    ensures IndexBacked(after)
  {
    RecordWriteKeepsIndex(data, id, EncodeRecord(rec));
    forall x | x in IndexIds(after) && x != "keys"
      ensures DecodeRecord(Lookup(after, RecordKey(x))).Some?
    {
      RecordWriteKeepsBacking(data, after, id, rec, x);
    }
  }

  /**
   * Writing the record before the index keeps the index invariant: a
   * completed create indexes a record that is there.
   */
  lemma CommittedKeepsIndexBacked(data: Data, after: Data, id: string, rec: Record)
    requires IndexBacked(data) && RecordKey(id) != INDEX_KEY
    requires after == Committed(data, id, rec)
    ensures IndexBacked(after)
  {
    var mid := data[RecordKey(id) := EncodeRecord(rec)];
    RecordWriteKeepsIndexBacked(data, mid, id, rec);
    CommittedIndex(data, id, rec);
    assert after == mid[INDEX_KEY := EncodeKeys(IndexIds(data) + [id])];
    forall x | x in IndexIds(after) && x != "keys"
      ensures DecodeRecord(Lookup(after, RecordKey(x))).Some?
    {
      RecordKeyIsIndexKey(x);
      assert Lookup(after, RecordKey(x)) == Lookup(mid, RecordKey(x));
      if x != id {
        assert x in IndexIds(data);
      }
      RecordWriteKeepsBacking(data, mid, id, rec, x);
    }
  }

  /** The store after a sequence of creates, one per id, each with its record. */
  function CommittedAll(data: Data, ids: seq<string>, recs: seq<Record>): Data
    requires |ids| == |recs|
  {
    if ids == [] then data
    else Committed(CommittedAll(data, ids[..|ids| - 1], recs[..|recs| - 1]), ids[|ids| - 1], recs[|recs| - 1])
  }

  /** The index is append-only: n sequential creates append their n ids, in order. */
  lemma {:induction false} CommittedAllIndex(data: Data, ids: seq<string>, recs: seq<Record>)
    requires |ids| == |recs|
    ensures IndexIds(CommittedAll(data, ids, recs)) == IndexIds(data) + ids
  {
    if ids != [] {
      var n := |ids| - 1;
      var ids', recs' := ids[..n], recs[..n];
      var before := CommittedAll(data, ids', recs');
      var after := CommittedAll(data, ids, recs);
      assert after == Committed(before, ids[n], recs[n]);
      CommittedAllIndex(data, ids', recs');
      CommittedIndexStep(IndexIds(data), ids', before, after, ids[n], recs[n]);
      AppendLast(IndexIds(data), ids);
    }
  }
}
