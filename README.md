# CitySim registry — a Dafny model

CitySim keeps a shared list of cities in a key/value store that offers only
an availability probe, `getData(key)` and `setData(key, bytes)`. On top of
that store the web application (`frontend/web/src/App.tsx`) builds a small
registry:

- each city record is stored as JSON under the key `"city_" + id`;
- the index, a JSON array of all ids, is stored under `"city_keys"`;
- **create** (`submitCity`, after the form's name check in `handleSubmit`)
  scores the new city, writes its record, then reads the index, appends the
  new id and writes the whole index back;
- **load** (`loadCities`) reads the index (empty or malformed reads as
  `[]`), fetches and parses every entry's record, skips the ones that fail,
  and sorts the result newest first;
- the dashboard derives totals, the mean satisfaction, and pages of five
  cities with previous/next buttons.

The model is organised as follows:

| file | module | what it holds |
|---|---|---|
| `wrappers.dfy` | `Wrappers` | `Option`, with early return (`:-`) |
| `city_data.dfy` | `CityData` | `Record` (the stored object), `City` (a listed city), `Draft` (the create form) |
| `codec.dfy` | `Codec` | a concrete, total, round-tripping byte codec that stands in for UTF-8 JSON |
| `keys.dfy` | `Keys` | the key names and the id format `<millis>-<suffix>` |
| `store.dfy` | `Store` | the substrate as a class over `map<string, seq<byte>>`, with a ghost trace of calls |
| `scoring.dfy` | `Scoring` | the satisfaction score |
| `recency.dfy` | `Recency` | the stable newest-first sort |
| `registry.dfy` | `Registry` | load and create as functions of the store, and their properties |
| `view.dfy` | `View` | statistics and pagination |
| `app.dfy` | `CityApp` | the component state as a class: `LoadCities`, `HandleSubmit`/`SubmitCity`, `NextPage`/`PrevPage` |
| `scenario.dfy` | `Scenarios` | two creates followed by a load, end to end |

The loading and writing operations are proved to compute exactly the
functions of `Registry`:

- `CityApp.FetchAll` computes `Scan`.
- `CityApp.App.LoadCities` computes `Loaded`.
- `CityApp.AppendToIndex` appends to `IndexIds`.
- `CityApp.WriteCity`, `CityApp.App.SubmitCity` and `CityApp.App.HandleSubmit`
  compute `CityApp.AfterSubmit`, which is `Committed` for a completed create.

The registry's properties are then proved about those functions. The page
buttons (`CityApp.App.NextPage`, `CityApp.App.PrevPage`) are proved against
`View.TotalPages` and `View.Page`. `CityApp.App.EditForm` replaces the form
and keeps the class invariant.

Facts about the code that the model keeps as they are:

- Nothing in `submitCity` checks the population. The form's slider, whose
  minimum is 1000, is what keeps it positive; the model states this as the
  class invariant `InFormRange`.
- `loadCities` sorts the list newest first before showing it.
- `loadCities` returns without a status message when the store is unavailable (it only logs to the console), and
  `submitCity` catches every failure and only shows a message. The model's
  `Outcome` says where a submit stopped.
- The index gets the new id appended without any check for duplicates.
- When the index does not parse, `loadCities` lists nothing: the city list
  becomes empty rather than staying as it was.
- The encryption step runs `btoa`, which raises on a name with a character
  above U+00FF. `submitCity` then writes nothing.

## Model

| member | source | states |
|---|---|---|
| `CityData.WithId` | frontend/web/src/App.tsx:109-118 | a listed city takes its id from the index entry and every other field from the stored record |
| `Codec.KeysRoundTrip` | frontend/web/src/App.tsx:224-226 | the stored index decodes back to exactly the list of ids written |
| `Codec.RecordRoundTrip` | frontend/web/src/App.tsx:206-209 | a stored record decodes back to exactly the record written |
| `Codec.EncodeRecord` | frontend/web/src/App.tsx:206-209 | a stored record is never the empty value, which the store reads as "absent" |
| `Keys.RecordKey` | frontend/web/src/App.tsx:207 | a record key is `"city_"` followed by the id |
| `Keys.RecordKeyInjective` | frontend/web/src/App.tsx:105 | distinct ids have distinct record keys, and equal keys mean equal ids |
| `Keys.RecordKeyIsIndexKey` | frontend/web/src/App.tsx:225 | a record key equals the index key exactly when the id is `"keys"` |
| `Keys.Decimal` | frontend/web/src/App.tsx:193 | the clock prints as a non-empty string of decimal digits |
| `Keys.CityId` | frontend/web/src/App.tsx:193 | a generated id contains `'-'`, so its record key is never the index key |
| `Store.Lookup` | frontend/web/src/App.tsx:90-92 | a key that was never written reads as the empty value |
| `Store.Substrate.GetData` | frontend/web/src/App.tsx:90 | a read either raises or returns the stored value (empty when absent), and it is logged as one read of that key |
| `Store.Substrate.SetData` | frontend/web/src/App.tsx:206-209 | a write either raises and changes nothing, or replaces exactly that key's value; it is logged as one write of that key |
| `Scoring.Satisfaction` | frontend/web/src/App.tsx:186 | the score is in [0, 100]; it is the largest integer that is at most 100 and at most 10000·buildings/population |
| `Scoring.SatisfactionIsFormula` | frontend/web/src/App.tsx:186 | the integer score equals `min(100, floor(buildings / (population / 1000) * 10))` evaluated in exact real arithmetic |
| `Scoring.SatisfactionExamples` | frontend/web/src/App.tsx:186 | (10000, 10) scores 10 and (1000, 20) is clamped to 100 |
| `Scoring.SatisfactionMonotone` | frontend/web/src/App.tsx:185-186 | more buildings for the same population never lower the score |
| `Recency.SortByRecency` | frontend/web/src/App.tsx:128 | the sort keeps the list's length; `Recency.SortNewestFirst` and `Recency.SortStable` pin its order, its contents and its stability |
| `Recency.SortNewestFirst` | frontend/web/src/App.tsx:128 | the sorted list is non-increasing by timestamp and a permutation of the loaded list |
| `Recency.SortStable` | frontend/web/src/App.tsx:128 | cities with equal timestamps keep their load order |
| `Registry.LoadIndex` | frontend/web/src/App.tsx:90-99 | an empty or unparsable index reads as `[]`; a parsable one reads as its ids |
| `Registry.LoadIndexRoundTrip` | frontend/web/src/App.tsx:224-226 | the index as written is read back unchanged |
| `Registry.Entry` | frontend/web/src/App.tsx:104-125 | an entry loads exactly when its fetch succeeds and its bytes are non-empty and parse; it then carries the entry's id and the stored fields |
| `Registry.Scan` | frontend/web/src/App.tsx:101-126 | the loop's list is no longer than the index, and every listed id is in the index |
| `Registry.Loaded` | frontend/web/src/App.tsx:90-129 | the loaded list is no longer than the index; `Registry.LoadedSpec` pins its order and exactly which cities it holds |
| `Registry.ScanTraceReads` | frontend/web/src/App.tsx:103-105 | the loop reads each entry's record key once, in index order |
| `Registry.SkipFailedEntry` | frontend/web/src/App.tsx:103-126 | an entry that fails to load is skipped and leaves the results of the others unchanged |
| `Registry.ScanFinds` | frontend/web/src/App.tsx:103-118 | every entry that loads appears in the list |
| `Registry.ScanSound` | frontend/web/src/App.tsx:103-118 | everything in the list is what some index entry loads as |
| `Registry.LoadedSpec` | frontend/web/src/App.tsx:90-129 | the loaded list is newest first, no longer than the index, and holds exactly the cities the index entries load as |
| `Registry.OneBadEntry` | frontend/web/src/App.tsx:103-126 | an index of good, bad, good loads as the two good records, in order |
| `Registry.Committed` | frontend/web/src/App.tsx:206-227 | a create adds exactly the record key and the index key to the store's keys |
| `Registry.CommittedFrame` | frontend/web/src/App.tsx:206-227 | a create leaves every key other than those two as it was |
| `Registry.RecordWriteKeepsIndex` | frontend/web/src/App.tsx:206-216 | writing the record first does not change what the index then reads as |
| `Registry.CommittedIndex` | frontend/web/src/App.tsx:211-227 | the new index is the old one as read (`[]` when it was empty or malformed) with the new id appended, prior entries unchanged and in order |
| `Registry.CommittedEntry` | frontend/web/src/App.tsx:195-209 | the created record loads back under its id with every field it was written with |
| `Registry.CommittedOtherEntry` | frontend/web/src/App.tsx:206-209 | a create does not change how any other entry loads |
| `Registry.CommittedLoaded` | frontend/web/src/App.tsx:206-235 | after a create with a new id, the reload lists what it listed before plus the new city |
| `Registry.RecordWriteKeepsBacking` | frontend/web/src/App.tsx:206-209 | after a record write, the written id's record decodes and every other id's record decodes as before |
| `Registry.RecordWriteKeepsIndexBacked` | frontend/web/src/App.tsx:206-222 | a create that stops after the record write keeps the index invariant: every indexed id (other than `"keys"`) has a record that decodes |
| `Registry.CommittedKeepsIndexBacked` | frontend/web/src/App.tsx:206-227 | a completed create keeps the index invariant, because the record is written before the index names it |
| `Registry.CommittedAllIndex` | frontend/web/src/App.tsx:211-227 | n sequential creates append their n ids to the index, in order (the index is append-only) |
| `View.TotalPopulation` | frontend/web/src/App.tsx:43 | the total population is 0 for no cities and never negative when no population is; `View.StatisticsPermutation` and `View.SumAppend` pin it as the sum |
| `View.TotalBuildings` | frontend/web/src/App.tsx:44 | the total buildings are 0 for no cities and never negative when no count is; `View.StatisticsPermutation` and `View.SumAppend` pin it as the sum |
| `View.SumNonNegative` | frontend/web/src/App.tsx:43-44 | a total of non-negative summands is non-negative |
| `View.AverageSatisfaction` | frontend/web/src/App.tsx:45-47 | the mean is 0 for no cities, else the mean times the count is the satisfaction sum |
| `View.SumAppend` | frontend/web/src/App.tsx:43-44 | a total over two lists joined is the sum of their totals |
| `View.SumPermutation` | frontend/web/src/App.tsx:43-47 | a total does not depend on the order of the list |
| `View.SumBounds` | frontend/web/src/App.tsx:43-47 | summands within [lo, hi] put the total within [lo·n, hi·n] |
| `View.AverageSatisfactionBounds` | frontend/web/src/App.tsx:45-47 | scores within [0, 100] give a mean within [0, 100] |
| `View.StatisticsPermutation` | frontend/web/src/App.tsx:43-47 | total population, total buildings and the mean are the same for any reordering of the list |
| `View.TotalPages` | frontend/web/src/App.tsx:274 | the page count is the fewest pages of five that hold the list (`ceil(n / 5)`) |
| `View.SliceIndex` | frontend/web/src/App.tsx:275-278 | a slice bound is clamped into [0, n] and is itself when already in range |
| `View.Slice` | frontend/web/src/App.tsx:275-278 | a slice holds max(0, end − start) cities for the clamped bounds, and its i-th city is the list's city at the clamped start plus i |
| `View.Page` | frontend/web/src/App.tsx:275-278 | a page never holds more than five cities, for any page number; `View.PageContents` pins which ones |
| `View.PageContents` | frontend/web/src/App.tsx:275-278 | page p holds the cities at positions [(p-1)·5, min(p·5, n)), in order |
| `View.PageEmptyIff` | frontend/web/src/App.tsx:274-278 | page p ≥ 1 is empty exactly when p exceeds the page count |
| `View.FirstPagesPrefix` | frontend/web/src/App.tsx:275-278 | the first k pages together are the list's first min(5k, n) cities |
| `View.PagesCoverList` | frontend/web/src/App.tsx:274-278 | pages 1 to the page count, one after another, are the whole list |
| `View.TwelveCitiesPaging` | frontend/web/src/App.tsx:274-278 | twelve cities give 3 pages of sizes 5, 5 and 2, and page 4 is empty |
| `CityApp.NewRecord` | frontend/web/src/App.tsx:195-203 | the record keeps the form's name, population and buildings, has a score in [0, 100], the clock in whole seconds, the account and the encryption output |
| `CityApp.PreviewSatisfaction` | frontend/web/src/App.tsx:667-669 | the form's preview is at most 100, and not negative for a positive population and non-negative buildings; `CityApp.PreviewIsStored` ties it to the stored score |
| `CityApp.AfterSubmit` | frontend/web/src/App.tsx:184-227 | a submit changes no key but the record key and the index key; it changes nothing when it stops before the record write; a failed index update leaves the encoded record stored under its key and the index as it was |
| `CityApp.SubmitKeepsIndexBacked` | frontend/web/src/App.tsx:169-263 | no submission, however it ends, leaves an indexed id without a record that decodes |
| `CityApp.WritesNeedLatin1` | frontend/web/src/App.tsx:170-191 | a submit that changes the store had a wallet, a signer and a name the encryption step accepts |
| `CityApp.WideNameWritesNothing` | frontend/web/src/App.tsx:184 | a Cyrillic name makes the encryption step raise: no substrate call, store unchanged |
| `CityApp.PreviewIsStored` | frontend/web/src/App.tsx:667-669 | the form's preview shows exactly the score the record is stored with |
| `CityApp.FetchAll` | frontend/web/src/App.tsx:101-126 | the loop returns the scan of the index entries and reads each record key once, in order |
| `CityApp.AppendToIndex` | frontend/web/src/App.tsx:211-227 | the index read-modify-write appends the id and writes only the index key; a failed read writes nothing |
| `CityApp.WriteCity` | frontend/web/src/App.tsx:205-227 | the record is written before the index; a failure stops the sequence where it happens, and a record can be left unindexed |
| `CityApp.App.constructor` | frontend/web/src/App.tsx:19-40 | the first state: no cities, page 1, the form's defaults |
| `CityApp.App.LoadCities` | frontend/web/src/App.tsx:77-136 | when the store is up and the index is read, the list becomes the loaded list; otherwise it is left unchanged, and no record is read when the store is down |
| `CityApp.App.EditForm` | frontend/web/src/App.tsx:592-598 | a form change within the controls' ranges keeps the invariant |
| `CityApp.App.HandleSubmit` | frontend/web/src/App.tsx:600-607 | without a name nothing is called or written; otherwise its outcome, store, substrate calls and list are those of `SubmitCity` |
| `CityApp.App.SubmitCity` | frontend/web/src/App.tsx:169-263 | without a wallet, with a name outside Latin-1, or without a signer nothing is called or written; otherwise the store afterwards and the substrate calls issued, in order, are fixed by where the sequence stopped; a completed create reloads the list, which becomes the loaded list unless the store is down or the reload's index read raises, when it stays as it was |
| `CityApp.App.NextPage` | frontend/web/src/App.tsx:280-284 | the page advances only while it is before the last page, keeps `currentPage >= 1`, and never moves onto an empty page |
| `CityApp.App.PrevPage` | frontend/web/src/App.tsx:286-290 | the page goes back only from above 1, keeps `currentPage >= 1`, and moves from a non-empty page only to a non-empty one |
| `Scenarios.TwoCreatesIndex` | frontend/web/src/App.tsx:211-227 | two creates on an empty registry leave the index as the two ids, in order |
| `Scenarios.TwoCreatesScan` | frontend/web/src/App.tsx:103-126 | after two creates both entries load back their records, in index order |
| `Scenarios.TwoCreatesLoaded` | frontend/web/src/App.tsx:128-129 | after two creates the later city is listed first |
| `Scenarios.PairStatistics` | frontend/web/src/App.tsx:43-47 | the totals and mean of a two-city list |
| `Scenarios.AlphaThenBeta` | frontend/web/src/App.tsx:43-47 | creating Alpha (10000, 10) and then Beta (5000, 5) lists Beta then Alpha, with 15000 citizens, 15 buildings and a mean score of 10 |

## Left out

- JSON text: `JSON.stringify`, `JSON.parse` and UTF-8 are replaced by a byte codec with the same guarantees: encoding is total and never empty, decoding never faults, and decoding undoes encoding. Values that JSON accepts but this codec rejects are not modelled. Examples are an index that parses to something other than an array, which the code would iterate or fail on, and a record object that lacks fields, which the code would list with `undefined` fields.
- Wallet connection, the account listener and disconnect (`frontend/web/src/App.tsx:53-75`): the wallet is reduced to a `connected` flag and the `account` string given to the constructor.
- The contract factory `./contract` is not part of this model. `getContractReadOnly()` returning nothing, or `isAvailable()` failing, leaves the list unchanged; the model folds both into the substrate's `available` flag. `getContractWithSigner()` is the `signer` parameter.
- Failures of individual substrate calls are the parameters `faults`, `readFaults`, `writeFaults` and `reloadFaults`: the sets of keys whose calls raise during that operation (the reload after a create has its own set). Within one load, a fault is per key, so an index that lists the same id twice has both reads of that record fail or both succeed.
- The clock and randomness (`Date.now()`, `Math.random()`): the id's millisecond clock, its random suffix and the timestamp's clock are parameters. The suffix is any string.
- The text the encryption step produces (`FHE-` followed by `btoa` of the form) is the opaque string parameter `encrypted`. Whether the step raises is modelled (`CityApp.Latin1`).
- Floating point: the score is computed exactly in integers and proved equal to the formula in exact real arithmetic. The mean is an exact real, not `toFixed` output. `parseInt` producing NaN cannot happen within the sliders' ranges, which the model assumes (`InFormRange`).
- `CityApp.App.LoadCities`: `list.sort` runs the runtime's stable sort in place. The model assigns the value of a stable sort (`Recency.SortByRecency`), so it does not model the in-place algorithm.
- Transaction-status messages, `handleCheckAvailability`, and the timers (`frontend/web/src/App.tsx:138-167, 229-259`) are notifications only. That includes the timer that closes the modal and resets the form after a successful create, so the model leaves the form as it was submitted.
- The `loading`, `isRefreshing` and `creating` flags, `toggleCityExpand`, `isOwner`, the chart and all rendering are presentation.
- Concurrent creates racing on the index read-modify-write (the lost update) are not modelled: every operation runs to completion before the next one starts.
- The code has no operation that reads one city by id; only the whole list is loaded.
- `Registry.CommittedLoaded`: requires that the new id is not already indexed and that no indexed id is `"keys"`. The code checks neither, and its ids are not guaranteed unique.
