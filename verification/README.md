# TRON transfer ledger and Koinly export, modelled in Dafny

This is a model of the two scripts of a small TRON account exporter.

`index.js` builds a newest-first ledger of every transfer that touches one TRON address:

- it downloads the list of TRC20 tokens, page by page;
- it works out the parameter names of each token's `Transfer` event;
- it classifies the account's TRX and TRC10 transactions into ten-field records, and looks up TRC10 asset metadata through a process-lifetime cache;
- it merges all record sets by timestamp.

`koinly.js` turns that ledger into Koinly's import rows:

- it formats each timestamp as `YYYY-MM-DD HH:mm:ss UTC`;
- it builds the currency, label and description cells;
- it reports each record as sent, received or not involving the address.

Modules (one per concern, all files at top level):

- `wrappers.dfy`: `Option`, `Result`.
- `remote.dfy`: a paginated TronGrid reply (`success`, `data`, `fingerprint`) and a listing as the sequence of its replies.
- `records.dfy`: the ten-field ledger record, with an amount stored as raw units plus a decimal count.
- `digits.dfy`: `/\d/`, `Number.prototype.toString`, `padStart` and the leading-digit match.
- `assets.dfy`: `lookup_trc10`. `AssetCache` is a class whose `entries` map is updated in place. Its `Lookup` method is proved against the pure resolver `Resolve`.
- `transfer_params.dfy`: the `Transfer` parameter detection, a method that splices its key list.
- `token_list.dfy`: the TRC20 token-list `do … while` loop, proved against `TokensFrom`.
- `classifier.dfy`: the transaction classification (`Classify`) and the per-page loop (`ClassifyAll`). Also the download loop over pages (`CollectFrom`), implemented by methods that consult the asset cache.
- `merge.dfy`: the k-way merge loop, proved against the pure `Merged`.
- `koinly.dfy`: `formatDate`, `processRecord` and `records.map(processRecord).filter(r => !!r)`, as pure functions with lemmas.

The remote APIs are modelled as data:

- A listing is the sequence of replies it returns, in request order.
- A request beyond the recorded replies gets an unsuccessful, empty reply. This also bounds every paging loop.
- The asset directory is a `Directory`: the reply to a lookup by ID, and the pages of a listing by name.
- The hex-to-base58 address conversion is a function parameter, `fromHex`.
- The `Date` decomposition into UTC fields is a function parameter, `utc`.

## Model

| member | source | states |
|---|---|---|
| Assets.ResolveById | index.js:17-23 | a lookup by ID succeeds exactly when the reply is successful and non-empty, and then answers its first entry; otherwise it is the ID error |
| Assets.Decimals | index.js:232 | the asset's precision, or 0 when it has none, as the source's fallback to 0 does (no contract of its own; its use is stated by `Classifier.Classify`) |
| Assets.ScanByName | index.js:25-43 | the name search answers only an entry of exactly that name, and fails only with `NameLookupFailed` or `NoExactMatch`; which entry and which error are stated by the `Scan…` lemmas |
| Assets.Resolve | index.js:13-44 | what an uncached lookup answers: a numeral is looked up by ID only and succeeds exactly on a successful non-empty reply; any other identifier is answered by an entry of that exact name; every error names the identifier, and the ID error is exactly the numeral's |
| Assets.FirstNamed | index.js:31-36 | the index found holds an entry named exactly `name` and no earlier entry has that name; no index means no entry has it |
| Assets.ScanSkips | index.js:27-39 | pages that are successful, non-empty, matchless and carry a fingerprint do not change the result of the name search |
| Assets.ScanFindsFirstMatch | index.js:27-36 | when entry `i` of page `j` is the first exact match (every earlier page read through), the search answers that entry |
| Assets.ScanAnswersFirstMatch | index.js:27-43 | every entry the search answers is the first exact match in page order and then entry order |
| Assets.ScanErrors | index.js:27-42 | reaching an unsuccessful or empty page is `NameLookupFailed`; a last page (no fingerprint) without a match is `NoExactMatch` |
| Assets.ProbeAsWritten | index.js:12-16 | the probe `asset_cache[asset]` on a plain object: an own key gives its entry, and a name not cached is a hit exactly when it is an `Object.prototype` member |
| Assets.InheritedNameShortCircuits | index.js:12-16 | with an empty cache the non-numeral asset name `toString` is a hit on the inherited member, so no directory lookup happens |
| Assets.AssetCache.constructor | index.js:12 | the cache starts empty |
| Assets.AssetCache.Lookup | index.js:13-45 | a hit answers the stored entry and changes nothing; a miss answers `Resolve` (by ID for a numeral, else by name), caches a success under the key asked for and caches nothing on error; the cache stays consistent with the directory |
| TransferParams.IndexOf | index.js:104-105 | `indexOf`: -1 exactly when the key is absent; otherwise the position of its first occurrence |
| TransferParams.Splice | index.js:107 | `splice(index, 1)` removes exactly the element at `index`: one shorter, same multiset less that element |
| TransferParams.DetectTransferParams | index.js:99-132 | skipped exactly when there are not 3 keys or neither `from`/`_from` or neither `to`/`_to` is present; `from` is preferred to `_from`, `to` to `_to`; the three names are the event's keys; with distinct keys the value key differs from both |
| TokenList.TokensFrom | index.js:76-87 | the tokens of every reply up to and including the first one that is not exactly full (no contract of its own; `TokenList.DownloadsWholeList` states what it collects) |
| TokenList.DownloadsWholeList | index.js:76-87 | against a server that serves one fixed list by offset, the pages collected are exactly that list, also when its length is a multiple of the page size |
| TokenList.PushPage | index.js:78-85 | the inner loop appends the whole reply, in order |
| TokenList.DownloadTokens | index.js:76-87 | the loop collects every page up to and including the first one that is not full, and so the whole list of a consistent server |
| Classifier.TrxRecord | index.js:211-222 | the TRX record layout (no contract of its own; stated by `Classifier.Classify`) |
| Classifier.Trc10Record | index.js:225-236 | the TRC10 record layout from the looked-up asset (no contract of its own; stated by `Classifier.Classify`) |
| Classifier.Classify | index.js:205-266 | rejected internal transactions and other contract types give no record; a call value naming other than one asset is an error; the `_` key gives the `Internal` TRX record of the value under it, and a TransferContract gives the `Transaction` TRX record of its owner, receiver and amount, both at 6 decimals with abbr `TRX` and no token id; other assets are resolved and give a TRC10 record with its id, abbr, name and precision or lookup error; records keep the id and timestamp |
| Classifier.ClassifyTx | index.js:205-266 | one pass of the loop body, with lookups through the cache, answers exactly `Classify`; the cache stays consistent, keeps every entry it had, and gains at most the entry of the asset this transaction looks up, and holds that asset whenever the directory resolves it (index.js:22, 33), so the new cache is determined |
| Classifier.ClassifyPage | index.js:204-267 | the loop over `reply.data` answers `ClassifyAll` of the page: the kept records in page order, or the first error; the cache keeps every entry it had and gains only entries of assets the page's transactions look up; every transaction the loop reaches (all before it classify) has its resolved asset cached |
| Classifier.ClassifyAll | index.js:204-267 | a page's records in order, the first error ending it (no contract of its own; the `ClassifyAll…` lemmas state what it answers) |
| Classifier.ClassifyAllAppend | index.js:204-267 | classifying a concatenation gives the first part's records then the second's, and the first part's error wins |
| Classifier.ClassifyAllOk | index.js:204-267 | a page succeeds exactly when every transaction on it classifies without error |
| Classifier.ClassifyAllErrorIsFirst | index.js:204-267 | a failing page has a first failing transaction, and fails with its error |
| Classifier.ClassifyAllFailsAtFirst | index.js:204-267 | a page whose transaction `i` is the first to fail fails with that error |
| Classifier.ClassifyAllFirstError | index.js:204-267 | a page fails with `e` if and only if some transaction is the first to fail and fails with `e` |
| Classifier.ClassifyFailsAt | index.js:204-267 | an error at a position whose predecessors succeed is the page's error |
| Classifier.ClassifierKeepsIdAndTime | index.js:211-265 | every record carries its transaction's id and block timestamp |
| Classifier.ClassifyAllKeepsOrder | index.js:204-267 | a page's records number at most its transactions, each comes from one of them, and a newest-first page gives newest-first records |
| Classifier.CollectFrom | index.js:199-277 | the records collected so far are a prefix of the download's result; its full outcome is stated by `Classifier.DownloadOutcome` |
| Classifier.CollectSkips | index.js:200-273 | pages that are successful, classify and carry a fingerprint only append their records, page after page |
| Classifier.CollectStopsAt | index.js:200-277 | the first page the download does not read on past decides it: unsuccessful is `UnsuccessfulResponse`, a failing transaction is its error, otherwise the records of all earlier pages followed by its own |
| Classifier.StopFrom | index.js:200-277 | some recorded page (or the first request past them) stops the download |
| Classifier.DownloadOutcome | index.js:199-277 | every download stops at a first page it does not read on past, and answers as `CollectStopsAt` states: the records of every page, page after page, up to the first reply without a fingerprint, or the first unsuccessful reply, or the first failing transaction's error |
| Classifier.DownloadTransactions | index.js:199-277 | the download loop answers `CollectFrom` from the first page (characterised by `Classifier.DownloadOutcome`); the cache stays consistent, keeps every entry it had and gains only entries of assets the listing's transactions look up; on every successful page the download reaches, each transaction the page's loop reaches has its resolved asset cached |
| Merge.FirstMax | index.js:283-290 | the set chosen has a head at least as new as every other head, and strictly newer than the head of every earlier set |
| Merge.ScanHeads | index.js:283-290 | the running-maximum scan starting at 0 with strict `>` settles on `FirstMax` when timestamps are positive |
| Merge.Advance | index.js:291-294 | `shift` on the chosen set and `splice` once it is empty (no contract of its own; stated by `Merge.AdvanceTakesHead`, `Merge.AdvanceKeepsSets` and `Merge.ShiftThenSplice`) |
| Merge.AdvanceTakesHead | index.js:291-294 | taking a head removes exactly that record: what is left is the old multiset less that head, one record shorter |
| Merge.AdvanceKeepsSets | index.js:291-294 | after the `shift` and the `splice` no set is empty, and positive timestamps and newest-first sets stay so |
| Merge.MergeStep | index.js:283-294 | one round emits the `FirstMax` head, leaves exactly one record fewer, and the merge of what remains is the rest of the ledger |
| Merge.TakeNewest | index.js:283-294 | one pass of the loop emits the next record of the merged ledger and leaves sets that merge into the rest, with one record fewer |
| Merge.Merged | index.js:282-296 | the ledger of repeatedly taking the `FirstMax` head (no contract of its own; `Merge.MergedIsPermutation` and `Merge.MergedIsNewestFirst` state what it is) |
| Merge.MergedIsPermutation | index.js:282-296 | the merged ledger holds every record of every set exactly once |
| Merge.HeadIsNewest | index.js:283-291 | with every set newest first, the chosen head is at least as new as every record still in the sets |
| Merge.MergedIsNewestFirst | index.js:282-296 | merging newest-first sets gives a newest-first ledger |
| Merge.MergeRecordSets | index.js:282-296 | the loop terminates and emits `Merged`: a permutation of all records, newest first when every set is |
| Digits.IsNumeral | index.js:17 | `/^\d+$/`: a non-empty run of ASCII digits and nothing else (no contract of its own; it is the dispatch `Assets.Resolve` states) |
| Digits.NatToString | koinly.js:15-20 | `toString()` of a non-negative integer is a numeral with no leading zero, one digit exactly below 10 |
| Digits.NatToStringRoundTrip | koinly.js:15-20 | reading the rendered digits back gives the number |
| Digits.PadStart | koinly.js:15-20 | `padStart` keeps the string as its suffix, fills the front with the fill character and never truncates |
| Digits.PaddedRoundTrip | koinly.js:15 | a zero-padded rendering still reads back as the number |
| Digits.LeadingDigits | koinly.js:39 | `/^\d+/` matches the longest all-digit prefix |
| Koinly.Pad2Reads | koinly.js:16-20 | below 100, the two-digit padding reads back as the number |
| Koinly.DateTailLayout | koinly.js:16-21 | after the year: 19 characters, with `-`, `-`, space, `:`, `:` and ` UTC` in place, month counted from 1 |
| Koinly.YearTextLength | koinly.js:15 | the padded year has at least 4 characters, exactly 4 up to year 9999 |
| Koinly.FormatDate | koinly.js:14-22 | the `YYYY-MM-DD HH:mm:ss UTC` layout (no contract of its own; stated by `Koinly.FormatDateLength` and `Koinly.FormatDateRoundTrip`) |
| Koinly.FormatDateLength | koinly.js:14-22 | `formatDate` gives 23 characters for years up to 9999, more only for longer years |
| Koinly.FormatDateRoundTrip | koinly.js:14-22 | the formatted date reads back as the date it came from, for every valid date |
| Koinly.Label | koinly.js:44 | `staking` exactly for `Withdraw`, the empty string otherwise |
| Koinly.Description | koinly.js:45-54 | types, then ` from …` exactly when there is a sender, then ` to …` exactly when there is a receiver |
| Koinly.DateCell | koinly.js:37-42 | no date exactly for an empty timestamp; an error exactly when a non-empty timestamp does not start with a digit, numbered from 1 |
| Koinly.ProcessRecord | koinly.js:24-77 | wrong length is an error; a non-empty timestamp without leading digits is an error, and an empty one leaves no date; a row exactly when the address is the sender or the receiver; sent (checked first, so a self-transfer is sent) or received, with currency `symbol (name; id)`; hash, label and description cells |
| Koinly.Involving | koinly.js:56-76 | every record it keeps has ten fields and has the address as sender or receiver |
| Koinly.MapFilterKeepsInvolving | koinly.js:82 | for a callback that gives a row exactly for involving records, whatever the index, map-then-filter yields, in order, exactly the row of each such record |
| Koinly.ProcessKeepsInvolving | koinly.js:82 | the export is, in ledger order, exactly the row `processRecord` makes of each ledger record involving the address |
| Koinly.ProcessRecordIgnoresIndex | koinly.js:24-77 | an accepted record gives the same row whatever its index; the index only numbers the errors |
| Koinly.MapFilter | koinly.js:82 | `records.map(process).filter(r => !!r)` from record `i` on (no contract of its own; stated by `Koinly.MapFilterKeepsInvolving` and `Koinly.MapFilterFailsAtFirstError`) |
| Koinly.ProcessAll | koinly.js:82 | the whole conversion with `processRecord` (no contract of its own; stated by `Koinly.ProcessKeepsInvolving` and `Koinly.ProcessFailsAtFirstError`) |
| Koinly.MapFilterFailsAtFirstError | koinly.js:82 | `map` fails exactly when some call fails, and then with the first failing call's error |
| Koinly.ProcessFailsAtFirstError | koinly.js:82 | the export fails exactly when some record is malformed, and then with the error of the first malformed record |

## Left out

- Network calls (`rpn`, `tronGrid.*`, `tronWeb.getEventResult`) are modelled as recorded reply sequences.
- The per-token event handling is not part of this model. It covers:
  - skipping a token whose first-event probe is empty (index.js:91-95);
  - the two `Transfer` event downloads paged by `previousLastEventFingerprint` (index.js:136-187);
  - building the TRC20 records there, with the amount scaled by the token's decimals (index.js:143-154, 169-180);
  - pushing only the non-empty `transfersOut`/`transfersIn` sets onto `record_sets` (index.js:188-193).
  The merge takes non-empty sets as a precondition instead.
- Address conversion (`tronWeb.address.fromHex`/`toHex`) is an external library. It is the opaque function parameter `fromHex`.
- Amounts are JavaScript floats (`value / 10**decimals`). They are modelled as `Amount(raw, decimals)` with no float rounding.
- Asset precision with its fallback to 0 is modelled as an optional natural number that defaults to 0 (`Assets.Decimals`).
- CSV parsing and stringifying, file open/write/close, argv handling and console logging are I/O.
- The CSV parser is assumed to yield each row as a list of strings (`koinly.js` line 81).
- The `Date` decomposition into UTC fields is the parameter `utc`.
- Koinly.ProcessRecord: `parseInt` is taken as exact. Above 2^53 JavaScript loses precision, and beyond the `Date` range the fields become `NaN`; neither is modelled.
- `index.js` has no retry bound, no check that successive pages overlap, no Trigger/Withdraw classification of transactions and no transaction-id tie-break in the merge, and neither does the model.
- Merge.MergeRecordSets: positive timestamps are a precondition. When every head timestamp is at most 0, the index in `index.js` stays undefined and the script crashes; that crash is not modelled.
- A listing's fingerprint is `Option<string>`. `None` stands for every falsy `meta.fingerprint` (absent, `null` or the empty string), because the source tests it for truthiness (index.js:37, 271).
- Classifier.Classify: an internal transaction's `call_value` is given as its list of key/value entries. The key-count check and the `_` test read that list. `Object.values(...)[0]` is the first entry's value.
- TransferParams.DetectTransferParams: the value key is shown to be distinct from the other two only when the event's keys are distinct. The keys of a JavaScript object always are.
- Some loop bodies are separate methods: `TokenList.PushPage`, `Classifier.ClassifyTx`, `Classifier.ClassifyPage`, `Merge.ScanHeads` and `Merge.TakeNewest`. Each one is the body of a loop that is inline in `index.js`.

## Findings

| source | as written | input that shows it | evidently intended | confidence | as-written member | corrected member |
|---|---|---|---|---|---|---|
| index.js:12-16 | `asset_cache` is `{}`, and the hit test is the truthiness of `asset_cache[asset]`, so names inherited from `Object.prototype` count as cached | a transaction whose TRC10 asset name is `toString`: `lookup_trc10` returns the inherited function (no `abbr`, `id` or `precision`; its `name` is the function's own, `toString`, which becomes the record's token name) without asking TronGrid | only identifiers looked up before are hits (e.g. `Object.create(null)`, a `Map`, or `hasOwnProperty`) | medium, not executed | Assets.InheritedNameShortCircuits | Assets.AssetCache.Lookup |
