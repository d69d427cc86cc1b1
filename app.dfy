/**
 * The application state the registry lives in (the `App` component's
 * `cities`, `currentPage` and create form) and the operations that change
 * it: `loadCities`, the create form's submit (`handleSubmit` then
 * `submitCity`), and the previous/next page buttons.  Each `await` is read
 * as an ordinary sequential step.
 *
 * The wallet is reduced to two fields: whether a provider is connected and
 * the connected account.  The substrate is the object `substrate`; the
 * inputs the application takes from the clock, the random generator, the
 * signer and the network are parameters of the methods.
 */
module CityApp {
  import opened Wrappers
  import opened CityData
  import opened Codec
  import opened Store
  import opened Keys
  import opened Scoring
  import opened Recency
  import opened Registry
  import opened View

  /** How a submission of the create form ended. */
  datatype Outcome =
    | NameMissing      // the form's own check: nothing is submitted
    | NotConnected     // no wallet provider
    | EncryptFailed    // the encryption step raised: nothing is written
    | NoSigner         // no contract with a signer
    | RecordNotWritten // writing the record raised
    | IndexNotRead     // reading the index raised: the record is written but not indexed
    | IndexNotWritten  // writing the index raised: the record is written but not indexed
    | Created(id: string)

  /** The values the create form's controls can hold: a 1000-step population slider and a buildings slider. */
  predicate InFormRange(d: Draft) {
    1000 <= d.population <= 100000 && d.population % 1000 == 0 && 1 <= d.buildings <= 20
  }

  /**
   * `btoa` accepts only characters up to U+00FF.  `JSON.stringify` of the
   * form writes its numbers and punctuation in ASCII, escapes only ASCII
   * characters and lone surrogates (which a Dafny `char` cannot be), and
   * leaves every other character of the name as it is; so the encryption
   * step raises exactly when the name holds a wider character.
   */
  predicate Latin1(name: string) {
    forall i :: 0 <= i < |name| ==> name[i] as int <= 0xFF
  }

  /** The record `submitCity` stores for the form `d`. */
  function NewRecord(d: Draft, stampMillis: nat, owner: string, encrypted: string): (r: Record)
    requires 0 < d.population && 0 <= d.buildings
    ensures r.name == d.name && r.population == d.population && r.buildings == d.buildings
    ensures 0 <= r.satisfaction <= MAX_SATISFACTION
    ensures r.timestamp * 1000 <= stampMillis < (r.timestamp + 1) * 1000
    ensures r.owner == owner && r.encryptedData == encrypted
  {
    Record(d.name, d.population, Satisfaction(d.population, d.buildings), d.buildings,
      stampMillis / 1000, owner, encrypted)
  }

  /** The create form's preview of the score, evaluated as the form writes it. */
  function PreviewSatisfaction(d: Draft): (r: int)
    requires d.population != 0
    ensures r <= MAX_SATISFACTION
    ensures 0 < d.population && 0 <= d.buildings ==> 0 <= r
  {
    RealFormula(d.population, d.buildings)
  }

  /** The preview shows exactly the score the submitted record is stored with. */
  lemma PreviewIsStored(d: Draft, stampMillis: nat, owner: string, encrypted: string)
    requires InFormRange(d)
    ensures PreviewSatisfaction(d) == NewRecord(d, stampMillis, owner, encrypted).satisfaction
  {
    SatisfactionIsFormula(d.population, d.buildings);
  }

  /** How `submitCity` ends for the new id `id`, given which substrate calls raise. */
  function SubmitOutcome(connected: bool, name: string, signer: bool, id: string,
                         readFaults: set<string>, writeFaults: set<string>): Outcome {
    if !connected then NotConnected
    else if !Latin1(name) then EncryptFailed
    else if !signer then NoSigner
    else WriteOutcome(id, readFaults, writeFaults)
  }

  /** No submission, however it ends, leaves an indexed id without its record. */
  lemma SubmitKeepsIndexBacked(data: Data, id: string, rec: Record, outcome: Outcome)
    requires IndexBacked(data) && RecordKey(id) != INDEX_KEY
    ensures IndexBacked(AfterSubmit(data, id, rec, outcome))
  {
    match outcome
    case Created(_) => CommittedKeepsIndexBacked(data, Committed(data, id, rec), id, rec);
    case IndexNotRead => RecordWriteKeepsIndexBacked(data, data[RecordKey(id) := EncodeRecord(rec)], id, rec);
    case IndexNotWritten => RecordWriteKeepsIndexBacked(data, data[RecordKey(id) := EncodeRecord(rec)], id, rec);
    case _ =>
  }

  /** A submission changes the store only for a name the encryption step accepts. */
  lemma WritesNeedLatin1(data: Data, connected: bool, d: Draft, signer: bool, id: string,
                         rec: Record, readFaults: set<string>, writeFaults: set<string>)
    requires AfterSubmit(data, id, rec, SubmitOutcome(connected, d.name, signer, id, readFaults, writeFaults)) != data
    ensures Latin1(d.name) && connected && signer
  {
  }

  /** A Cyrillic name makes the encryption step raise: no substrate call is issued and the store is unchanged. */
  lemma WideNameWritesNothing(data: Data, signer: bool, id: string, rec: Record,
                              readFaults: set<string>, writeFaults: set<string>)
    ensures var outcome := SubmitOutcome(true, "Москва", signer, id, readFaults, writeFaults);
      outcome == EncryptFailed && SubmitTrace(id, outcome) == [] && AfterSubmit(data, id, rec, outcome) == data
  {
    assert "Москва"[0] as int > 0xFF;
  }

  /** How the two writes of a create end: the first substrate call that raises stops them. */
  function WriteOutcome(id: string, readFaults: set<string>, writeFaults: set<string>): Outcome {
    if RecordKey(id) in writeFaults then RecordNotWritten
    else if INDEX_KEY in readFaults then IndexNotRead
    else if INDEX_KEY in writeFaults then IndexNotWritten
    else Created(id)
  }

  /** The substrate calls a submission with this outcome issues before any reload. */
  function SubmitTrace(id: string, outcome: Outcome): seq<Access> {
    match outcome
    case NameMissing => []
    case NotConnected => []
    case EncryptFailed => []
    case NoSigner => []
    case RecordNotWritten => [Write(RecordKey(id))]
    case IndexNotRead => [Write(RecordKey(id)), Read(INDEX_KEY)]
    case IndexNotWritten => [Write(RecordKey(id)), Read(INDEX_KEY), Write(INDEX_KEY)]
    case Created(_) => [Write(RecordKey(id)), Read(INDEX_KEY), Write(INDEX_KEY)]
  }

  /**
   * The store after a submission with this outcome: unchanged when it
   * stopped before the record write; the record alone when the index update
   * failed; the record and the index when it completed.  No other key changes.
   */
  function AfterSubmit(data: Data, id: string, rec: Record, outcome: Outcome): (r: Data)
    ensures forall k :: k != RecordKey(id) && k != INDEX_KEY ==> Lookup(r, k) == Lookup(data, k)
    ensures !outcome.Created? && !outcome.IndexNotRead? && !outcome.IndexNotWritten? ==> r == data
    ensures outcome.IndexNotRead? || outcome.IndexNotWritten? ==> r.Keys == data.Keys + {RecordKey(id)}
    ensures outcome.IndexNotRead? || outcome.IndexNotWritten? ==> Lookup(r, RecordKey(id)) == EncodeRecord(rec)
    ensures !outcome.Created? && RecordKey(id) != INDEX_KEY ==> Lookup(r, INDEX_KEY) == Lookup(data, INDEX_KEY)
  {
    match outcome
    case Created(_) => Committed(data, id, rec)
    case IndexNotRead => data[RecordKey(id) := EncodeRecord(rec)]
    case IndexNotWritten => data[RecordKey(id) := EncodeRecord(rec)]
    case _ => data
  }

  /**
   * The substrate calls `loadCities` issues: none when the substrate is
   * down; the index read; then, if it succeeded, one read per index entry.
   */
  function LoadTrace(available: bool, data: Data, faults: set<string>): seq<Access> {
    if !available then []
    else if INDEX_KEY in faults then [Read(INDEX_KEY)]
    else [Read(INDEX_KEY)] + ScanTrace(IndexIds(data))
  }

  /**
   * The loop of `loadCities` over the index entries `keys`: fetch each
   * entry's record in order and keep those that are present and parse,
   * each under its entry's id; an entry whose fetch raises, whose value is
   * empty or whose value does not parse is skipped.
   */
  method FetchAll(s: Substrate, keys: seq<string>, faults: set<string>) returns (list: seq<City>)
    modifies s`trace
    ensures list == Scan(s.data, faults, keys)
    ensures s.trace == old(s.trace) + ScanTrace(keys)
  {
    list := [];
    ghost var t0 := s.trace;
    var i := 0;
    while i < |keys|
      invariant 0 <= i <= |keys|
      invariant list == Scan(s.data, faults, keys[..i])
      invariant s.trace == t0 + ScanTrace(keys[..i])
    {
      var key := keys[i];
      assert keys[..i + 1][..i] == keys[..i];
      assert Scan(s.data, faults, keys[..i + 1]) == list + EntryList(s.data, faults, key);
      var cityBytes := s.GetData(RecordKey(key), faults);
      if cityBytes.Some? && |cityBytes.value| > 0 {
        match DecodeRecord(cityBytes.value)
        case Some(rec) =>
          list := list + [WithId(key, rec)];
        case None =>
      }
      i := i + 1;
    }
    assert keys[..i] == keys;
  }

  /** How the index update of a create ended. */
  datatype IndexStep = NotRead | NotWritten | Appended

  /**
   * The read-modify-write of the index: read it (an empty or malformed
   * value is the empty list), append `id` at the end, write the whole list
   * back.
   */
  method AppendToIndex(s: Substrate, id: string, readFaults: set<string>, writeFaults: set<string>)
    returns (step: IndexStep)
    modifies s`data, s`trace
    ensures step == (if INDEX_KEY in readFaults then NotRead
                     else if INDEX_KEY in writeFaults then NotWritten
                     else Appended)
    ensures step == Appended ==>
      s.data == old(s.data)[INDEX_KEY := EncodeKeys(IndexIds(old(s.data)) + [id])]
    ensures step != Appended ==> s.data == old(s.data)
    ensures s.trace == old(s.trace) + (if step == NotRead then [Read(INDEX_KEY)] else [Read(INDEX_KEY), Write(INDEX_KEY)])
  {
    var keysBytes := s.GetData(INDEX_KEY, readFaults);
    if keysBytes.None? {
      return NotRead;
    }
    var keys := LoadIndex(keysBytes.value);
    keys := keys + [id];
    var ok := s.SetData(INDEX_KEY, EncodeKeys(keys), writeFaults);
    step := if ok then Appended else NotWritten;
  }

  /**
   * The two writes of `submitCity`: the record under its key, then the
   * index with the new id appended.  A failure stops the sequence where it
   * happens, so a record can be left written but not indexed.
   */
  method WriteCity(s: Substrate, id: string, rec: Record, readFaults: set<string>, writeFaults: set<string>)
    returns (outcome: Outcome)
    requires RecordKey(id) != INDEX_KEY
    modifies s`data, s`trace
    ensures outcome == WriteOutcome(id, readFaults, writeFaults)
    ensures s.data == AfterSubmit(old(s.data), id, rec, outcome)
    ensures s.trace == old(s.trace) + SubmitTrace(id, outcome)
  {
    ghost var t0 := s.trace;
    var ok := s.SetData(RecordKey(id), EncodeRecord(rec), writeFaults);
    if !ok {
      return RecordNotWritten;
    }
    RecordWriteKeepsIndex(old(s.data), id, EncodeRecord(rec));
    var step := AppendToIndex(s, id, readFaults, writeFaults);
    if step == NotRead {
      AppendAssoc(t0, [Write(RecordKey(id))], [Read(INDEX_KEY)]);
      return IndexNotRead;
    }
    AppendAssoc(t0, [Write(RecordKey(id))], [Read(INDEX_KEY), Write(INDEX_KEY)]);
    if step == NotWritten {
      return IndexNotWritten;
    }
    return Created(id);
  }

  class App {
    const substrate: Substrate
    var connected: bool
    var account: string
    var draft: Draft
    var cities: seq<City>
    var currentPage: int

    ghost predicate Valid()
      reads this
    {
      1 <= currentPage && InFormRange(draft)
    }

    /** The state on first render: an empty list on page 1 and the form's defaults. */
    constructor (s: Substrate, wallet: bool, owner: string)
      ensures Valid()
      ensures substrate == s && connected == wallet && account == owner
      ensures cities == [] && currentPage == 1 && draft == Draft("", 1000, 5)
    {
      substrate := s;
      connected := wallet;
      account := owner;
      draft := Draft("", 1000, 5);
      cities := [];
      currentPage := 1;
    }

    /**
     * `loadCities`: when the substrate is up and its index can be read,
     * the list becomes every index entry that loads, newest first; the
     * index is read once and then each entry's record once, in index order.
     * Otherwise the list is left as it was.
     */
    method LoadCities(faults: set<string>)
      modifies this`cities, substrate`trace
      ensures substrate.trace == old(substrate.trace) + LoadTrace(substrate.available, substrate.data, faults)
      ensures substrate.available && INDEX_KEY !in faults ==> cities == Loaded(substrate.data, faults)
      ensures !substrate.available || INDEX_KEY in faults ==> cities == old(cities)
    {
      if !substrate.available {
        return;
      }
      ghost var t0 := substrate.trace;
      var keysBytes := substrate.GetData(INDEX_KEY, faults);
      if keysBytes.None? {
        return;
      }
      var keys := LoadIndex(keysBytes.value);
      var list := FetchAll(substrate, keys, faults);
      cities := SortByRecency(list);
      assert keys == IndexIds(substrate.data);
      AppendAssoc(t0, [Read(INDEX_KEY)], ScanTrace(keys));
    }

    /** `handleChange`: a control of the create form changed. */
    method EditForm(d: Draft)
      requires Valid() && InFormRange(d)
      modifies this`draft
      ensures Valid() && draft == d
    {
      draft := d;
    }

    /**
     * `handleSubmit` followed by `submitCity`.  The id is the millisecond
     * clock `idMillis` and the random `suffix`; the timestamp is the clock
     * `stampMillis` in whole seconds; `encrypted` is the opaque output of the
     * encryption step when it does not raise; `signer` says whether a
     * signing contract is obtained.  `readFaults` and `writeFaults` are the
     * keys whose calls raise during the create, `reloadFaults` those whose
     * calls raise during the reload that follows a completed create.
     */
    method HandleSubmit(idMillis: nat, suffix: string, stampMillis: nat, encrypted: string, signer: bool,
                        readFaults: set<string>, writeFaults: set<string>, reloadFaults: set<string>)
      returns (outcome: Outcome)
      requires Valid()
      modifies this`cities, substrate`data, substrate`trace
      ensures Valid()
      ensures outcome == (if draft.name == [] then NameMissing
                          else SubmitOutcome(connected, draft.name, signer, CityId(idMillis, suffix), readFaults, writeFaults))
      ensures var id := CityId(idMillis, suffix);
        substrate.data == AfterSubmit(old(substrate.data), id, NewRecord(draft, stampMillis, account, encrypted), outcome)
      ensures !outcome.Created? ==>
        substrate.trace == old(substrate.trace) + SubmitTrace(CityId(idMillis, suffix), outcome)
      ensures outcome.Created? ==>
        substrate.trace == old(substrate.trace) + SubmitTrace(CityId(idMillis, suffix), outcome) +
          LoadTrace(substrate.available, substrate.data, reloadFaults)
      ensures outcome.Created? && substrate.available && INDEX_KEY !in reloadFaults ==>
        cities == Loaded(substrate.data, reloadFaults)
      ensures !(outcome.Created? && substrate.available && INDEX_KEY !in reloadFaults) ==> cities == old(cities)
    {
      if draft.name == [] {
        return NameMissing;
      }
      outcome := SubmitCity(idMillis, suffix, stampMillis, encrypted, signer, readFaults, writeFaults, reloadFaults);
    }

    /**
     * `submitCity`, on a form whose name is present.  Nothing is written
     * without a wallet, when the encryption step raises, or without a
     * signer.  Otherwise the record is written first, then the index is
     * read, extended by the new id and written back; a failure stops the
     * sequence where it happens.  A completed create reloads the list, and
     * that reload can itself fail without undoing the create.
     */
    method SubmitCity(idMillis: nat, suffix: string, stampMillis: nat, encrypted: string, signer: bool,
                      readFaults: set<string>, writeFaults: set<string>, reloadFaults: set<string>)
      returns (outcome: Outcome)
      requires Valid() && draft.name != []
      modifies this`cities, substrate`data, substrate`trace
      ensures Valid()
      ensures outcome == SubmitOutcome(connected, draft.name, signer, CityId(idMillis, suffix), readFaults, writeFaults)
      ensures var id := CityId(idMillis, suffix);
        substrate.data == AfterSubmit(old(substrate.data), id, NewRecord(draft, stampMillis, account, encrypted), outcome)
      ensures !outcome.Created? ==>
        substrate.trace == old(substrate.trace) + SubmitTrace(CityId(idMillis, suffix), outcome)
      ensures outcome.Created? ==>
        substrate.trace == old(substrate.trace) + SubmitTrace(CityId(idMillis, suffix), outcome) +
          LoadTrace(substrate.available, substrate.data, reloadFaults)
      ensures outcome.Created? && substrate.available && INDEX_KEY !in reloadFaults ==>
        cities == Loaded(substrate.data, reloadFaults)
      ensures !(outcome.Created? && substrate.available && INDEX_KEY !in reloadFaults) ==> cities == old(cities)
    {
      if !connected {
        return NotConnected;
      }
      if !Latin1(draft.name) {
        return EncryptFailed;
      }
      if !signer {
        return NoSigner;
      }
      var id := CityId(idMillis, suffix);
      var rec := NewRecord(draft, stampMillis, account, encrypted);
      outcome := WriteCity(substrate, id, rec, readFaults, writeFaults);
      if outcome.Created? {
        LoadCities(reloadFaults);
      }
    }

    /** `handleNextPage`: moves forward only while there is a later page. */
    method NextPage()
      requires Valid()
      modifies this`currentPage
      ensures Valid()
      ensures currentPage == (if old(currentPage) < TotalPages(|cities|) then old(currentPage) + 1
                              else old(currentPage))
      ensures currentPage != old(currentPage) ==> Page(cities, currentPage) != []
    {
      if currentPage < TotalPages(|cities|) {
        currentPage := currentPage + 1;
        PageEmptyIff(cities, currentPage);
      }
    }

    /** `handlePrevPage`: moves back only while not on the first page. */
    method PrevPage()
      requires Valid()
      modifies this`currentPage
      ensures Valid()
      ensures currentPage == (if old(currentPage) > 1 then old(currentPage) - 1 else old(currentPage))
      ensures old(Page(cities, currentPage)) != [] && currentPage != old(currentPage) ==>
        Page(cities, currentPage) != []
    {
      if currentPage > 1 {
        PageEmptyIff(cities, currentPage);
        currentPage := currentPage - 1;
        PageEmptyIff(cities, currentPage);
      }
    }
  }
}
