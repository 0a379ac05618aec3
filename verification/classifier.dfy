/** Turning the account's raw transactions into ledger records
    (index.js, the transaction download and its classification loop). */
module Classifier {
  import opened Wrappers
  import opened Remote
  import opened Records
  import opened Assets

  /** `raw_data.contract[0].type` of a contract transaction. */
  datatype ContractType = TransferContract | TransferAssetContract | OtherContract(name: string)

  /** A raw transaction as TronGrid lists it for an account. An internal
      transaction (one with an `internal_tx_id`) carries its `call_value`
      object as the list of its entries in key order. Addresses are hex, as
      the API gives them. */
  datatype RawTx =
    | InternalTx(txId: string, blockTimestamp: int, fromHex: string, toHex: string,
                 rejected: bool, callValue: seq<(string, int)>)
    | ContractTx(txId: string, blockTimestamp: int, contractType: ContractType,
                 ownerHex: string, toHex: string, amount: int, assetName: string)

  datatype ClassifyError =
    | UnhandledCallValue(count: nat)     // an internal call value naming other than one asset
    | AssetLookup(cause: LookupError)    // the TRC10 asset could not be looked up
    | UnsuccessfulResponse               // a page of the transaction listing was unsuccessful

  /** The key under which `call_value` carries TRX. */
  const TrxKey: string := "_"

  /** A TRX record (`transfer_type` `TRX`, amount in sun, 6 decimals). */
  function TrxRecord(txId: string, timestamp: int, transactionType: string,
                     from: string, to: string, raw: int): Record
  {
    Record(txId, timestamp, transactionType, "TRX", from, to, Amount(raw, 6), "TRX", "Tronix", "")
  }

  /** A TRC10 record, described by the asset entry that was looked up. */
  function Trc10Record(txId: string, timestamp: int, transactionType: string,
                       from: string, to: string, raw: int, asset: AssetInfo): Record
  {
    Record(txId, timestamp, transactionType, "TRC10", from, to,
           Amount(raw, Decimals(asset)), asset.abbr, asset.name, asset.id)
  }

  /** The record one raw transaction yields, if any; `fromHex` is the address
      library's hex-to-base58 conversion, taken as given. */
  function Classify(tx: RawTx, dir: Directory, fromHex: string -> string): (r: Result<Option<Record>, ClassifyError>)
    // what becomes of a raw transaction: a record, nothing, or an error
    ensures tx.InternalTx? && tx.rejected ==> r == Ok(None)
    ensures tx.InternalTx? && !tx.rejected && |tx.callValue| != 1 ==> r == Err(UnhandledCallValue(|tx.callValue|))
    ensures tx.ContractTx? && tx.contractType.OtherContract? ==> r == Ok(None)
    ensures tx.ContractTx? && tx.contractType == TransferContract ==>
      r == Ok(Some(TrxRecord(tx.txId, tx.blockTimestamp, "Transaction", fromHex(tx.ownerHex), fromHex(tx.toHex), tx.amount)))
    ensures r == Ok(None) ==> (tx.InternalTx? && tx.rejected) || (tx.ContractTx? && tx.contractType.OtherContract?)
    ensures r.Err? && r.error.AssetLookup? ==> (tx.InternalTx? || tx.contractType == TransferAssetContract)
    // a record keeps the transaction's id and block timestamp
    ensures r.Ok? && r.value.Some? ==>
      r.value.value.transactionId == tx.txId && r.value.value.timestamp == tx.blockTimestamp
    // a TRX record is TRX at 6 decimals with no token id; it is the `_` key or a TransferContract
    ensures r.Ok? && r.value.Some? && r.value.value.transferType == "TRX" ==>
      && r.value.value.tokenAbbr == "TRX" && r.value.value.tokenId == "" && r.value.value.amount.decimals == 6
      && (if tx.InternalTx? then tx.callValue[0].0 == TrxKey else tx.contractType == TransferContract)
    // an internal transfer of the `_` key is TRX of the value under that key
    ensures tx.InternalTx? && !tx.rejected && |tx.callValue| == 1 && tx.callValue[0].0 == TrxKey ==>
      r == Ok(Some(TrxRecord(tx.txId, tx.blockTimestamp, "Internal", fromHex(tx.fromHex), fromHex(tx.toHex), tx.callValue[0].1)))
    // any other asset is looked up, and the record takes its id, abbr, name and precision
    ensures tx.InternalTx? && !tx.rejected && |tx.callValue| == 1 && tx.callValue[0].0 != TrxKey ==>
      match Resolve(tx.callValue[0].0, dir)
      case Err(e) => r == Err(AssetLookup(e))
      case Ok(a) => r == Ok(Some(Trc10Record(tx.txId, tx.blockTimestamp, "Internal",
                                             fromHex(tx.fromHex), fromHex(tx.toHex), tx.callValue[0].1, a)))
    ensures tx.ContractTx? && tx.contractType == TransferAssetContract ==>
      match Resolve(tx.assetName, dir)
      case Err(e) => r == Err(AssetLookup(e))
      case Ok(a) => r == Ok(Some(Trc10Record(tx.txId, tx.blockTimestamp, "Transaction",
                                             fromHex(tx.ownerHex), fromHex(tx.toHex), tx.amount, a)))
  {
    match tx
    case InternalTx(txId, ts, fromAddr, toAddr, rejected, callValue) =>
      if rejected then Ok(None)
      else if |callValue| != 1 then Err(UnhandledCallValue(|callValue|))
      else if callValue[0].0 == TrxKey then
        Ok(Some(TrxRecord(txId, ts, "Internal", fromHex(fromAddr), fromHex(toAddr), callValue[0].1)))
      else (
        match Resolve(callValue[0].0, dir)
        case Err(e) => Err(AssetLookup(e))
        case Ok(a) => Ok(Some(Trc10Record(txId, ts, "Internal", fromHex(fromAddr), fromHex(toAddr), callValue[0].1, a))))
    case ContractTx(txId, ts, ctype, owner, toAddr, amount, assetName) =>
      match ctype
      case TransferContract =>
        Ok(Some(TrxRecord(txId, ts, "Transaction", fromHex(owner), fromHex(toAddr), amount)))
      case TransferAssetContract => (
        match Resolve(assetName, dir)
        case Err(e) => Err(AssetLookup(e))
        case Ok(a) => Ok(Some(Trc10Record(txId, ts, "Transaction", fromHex(owner), fromHex(toAddr), amount, a))))
      case OtherContract(_) => Ok(None)
  }

  /** Classifying one transaction, as a step applied along a page. */
  type Step = RawTx -> Result<Option<Record>, ClassifyError>

  /** The step `Classify` takes for a given asset directory and address
      conversion. */
  function Classifier(dir: Directory, fromHex: string -> string): Step
  {
    (tx: RawTx) => Classify(tx, dir, fromHex)
  }

  /** The records of one page's data, in order; the first error stops it. */
  function ClassifyAll(data: seq<RawTx>, step: Step): Result<seq<Record>, ClassifyError>
  {
    if data == [] then Ok([])
    else match ClassifyAll(data[..|data| - 1], step)
      case Err(e) => Err(e)
      case Ok(rs) =>
        match step(data[|data| - 1])
        case Err(e) => Err(e)
        case Ok(o) => Ok(rs + OptionToSeq(o))
  }

  /** Classifying a concatenation: the records of the first part, then those
      of the second, and the first part's error wins. */
  lemma {:induction false} ClassifyAllAppend(a: seq<RawTx>, b: seq<RawTx>, step: Step)
    ensures ClassifyAll(a + b, step) ==
      match ClassifyAll(a, step)
      case Err(e) => Err(e)
      case Ok(ra) =>
        match ClassifyAll(b, step)
        case Err(e) => Err(e)
        case Ok(rb) => Ok(ra + rb)
    decreases |b|
  {
    if b == [] {
      assert a + b == a;
      match ClassifyAll(a, step)
      case Err(_) =>
      case Ok(ra) => assert ra + [] == ra;
    } else {
      var b' := b[..|b| - 1];
      assert (a + b)[..|a + b| - 1] == a + b';
      ClassifyAllAppend(a, b', step);
      match ClassifyAll(a, step)
      case Err(_) =>
      case Ok(ra) =>
        match ClassifyAll(b', step)
        case Err(_) =>
        case Ok(rb') =>
          match step(b[|b| - 1])
          case Err(_) =>
          case Ok(o) => assert ra + rb' + OptionToSeq(o) == ra + (rb' + OptionToSeq(o));
    }
  }

  /** Every transaction of `data` is classified without error. */
  ghost predicate AllClassify(data: seq<RawTx>, step: Step)
  {
    forall j :: 0 <= j < |data| ==> step(data[j]).Ok?
  }

  /** The transaction at `i` is the first of `data` to fail, with `e`. */
  ghost predicate FirstFailure(data: seq<RawTx>, i: nat, e: ClassifyError, step: Step)
  {
    i < |data| && step(data[i]) == Err(e) && AllClassify(data[..i], step)
  }

  /** A page that fails has a first failing transaction, whose error it is. */
  lemma {:induction false} ClassifyAllErrorIsFirst(data: seq<RawTx>, step: Step)
    requires ClassifyAll(data, step).Err?
    ensures exists i: nat :: FirstFailure(data, i, ClassifyAll(data, step).error, step)
  {
    var n := |data| - 1;
    var init := data[..n];
    var e := ClassifyAll(data, step).error;
    if ClassifyAll(init, step).Err? {
      ClassifyAllErrorIsFirst(init, step);
      var i: nat :| FirstFailure(init, i, e, step);
      assert data[..i] == init[..i];
      assert FirstFailure(data, i, e, step);
    } else {
      ClassifyAllOk(init, step);
      assert FirstFailure(data, n, e, step);
    }
  }

  /** A page whose transaction `i` is the first to fail fails with its error. */
  lemma ClassifyAllFailsAtFirst(data: seq<RawTx>, i: nat, e: ClassifyError, step: Step)
    requires FirstFailure(data, i, e, step)
    ensures ClassifyAll(data, step) == Err(e)
  {
    ClassifyAllOk(data[..i], step);
    ClassifyFailsAt(data, i, step);
  }

  /** A page fails exactly when one of its transactions fails, and then with
      the error of the first one that does. */
  lemma ClassifyAllFirstError(data: seq<RawTx>, step: Step, e: ClassifyError)
    ensures ClassifyAll(data, step) == Err(e) <==> exists i: nat :: FirstFailure(data, i, e, step)
  {
    if ClassifyAll(data, step) == Err(e) {
      ClassifyAllErrorIsFirst(data, step);
    }
    if exists i: nat :: FirstFailure(data, i, e, step) {
      var i: nat :| FirstFailure(data, i, e, step);
      ClassifyAllFailsAtFirst(data, i, e, step);
    }
  }

  /** A page succeeds exactly when all its transactions do. */
  lemma {:induction false} ClassifyAllOk(data: seq<RawTx>, step: Step)
    ensures ClassifyAll(data, step).Ok? <==> AllClassify(data, step)
  {
    if data != [] {
      var init := data[..|data| - 1];
      ClassifyAllOk(init, step);
      assert forall i :: 0 <= i < |init| ==> init[i] == data[i];
    }
  }

  /** An error at position `i` of a page whose earlier transactions succeed
      is the page's error. */
  lemma ClassifyFailsAt(data: seq<RawTx>, i: nat, step: Step)
    requires i < |data|
    requires ClassifyAll(data[..i], step).Ok?
    requires step(data[i]).Err?
    ensures ClassifyAll(data, step) == Err(step(data[i]).error)
  {
    assert data[..i + 1][..i] == data[..i];
    ClassifyAllAppend(data[..i + 1], data[i + 1..], step);
    assert data[..i + 1] + data[i + 1..] == data;
  }

  /** The step makes records that carry the id and block timestamp of the
      transaction they come from. */
  ghost predicate KeepsIdAndTime(step: Step)
  {
    forall tx :: step(tx).Ok? && step(tx).value.Some? ==>
      step(tx).value.value.transactionId == tx.txId && step(tx).value.value.timestamp == tx.blockTimestamp
  }

  lemma ClassifierKeepsIdAndTime(dir: Directory, fromHex: string -> string)
    ensures KeepsIdAndTime(Classifier(dir, fromHex))
  {
    forall tx: RawTx
      ensures var r := Classifier(dir, fromHex)(tx);
        r.Ok? && r.value.Some? ==> r.value.value.transactionId == tx.txId && r.value.value.timestamp == tx.blockTimestamp
    {
      var r := Classify(tx, dir, fromHex);
    }
  }

  /** Every record of the page comes from one of its transactions, with
      that transaction's id and block timestamp. */
  ghost predicate FromTransactions(rs: seq<Record>, data: seq<RawTx>)
  {
    forall r :: r in rs ==>
      exists i :: 0 <= i < |data| && r.transactionId == data[i].txId && r.timestamp == data[i].blockTimestamp
  }

  /** The records of a page are in the order of the transactions they come
      from: a page listed newest first gives records newest first, and no
      more records than transactions. */
  lemma {:induction false} ClassifyAllKeepsOrder(data: seq<RawTx>, step: Step)
    requires KeepsIdAndTime(step)
    requires forall i, j :: 0 <= i < j < |data| ==> data[i].blockTimestamp >= data[j].blockTimestamp
    requires ClassifyAll(data, step).Ok?
    ensures |ClassifyAll(data, step).value| <= |data|
    ensures NonIncreasing(ClassifyAll(data, step).value)
    ensures FromTransactions(ClassifyAll(data, step).value, data)
  {
    if data != [] {
      var init := data[..|data| - 1];
      var last := data[|data| - 1];
      ClassifyAllKeepsOrder(init, step);
      var rs := ClassifyAll(init, step).value;
      var o := step(last).value;
      KeepsOrderStep(data, rs, o);
    }
  }

  /** One step of the induction above: the records so far, then the last
      transaction's. */
  lemma KeepsOrderStep(data: seq<RawTx>, rs: seq<Record>, o: Option<Record>)
    requires |data| > 0
    requires forall i, j :: 0 <= i < j < |data| ==> data[i].blockTimestamp >= data[j].blockTimestamp
    requires NonIncreasing(rs) && FromTransactions(rs, data[..|data| - 1])
    requires o.Some? ==> o.value.transactionId == data[|data| - 1].txId && o.value.timestamp == data[|data| - 1].blockTimestamp
    ensures NonIncreasing(rs + OptionToSeq(o))
    ensures FromTransactions(rs + OptionToSeq(o), data)
  {
    var init := data[..|data| - 1];
    var last := data[|data| - 1];
    assert forall r :: r in rs ==> r.timestamp >= last.blockTimestamp by {
      forall r | r in rs ensures r.timestamp >= last.blockTimestamp {
        var i :| 0 <= i < |init| && r.transactionId == init[i].txId && r.timestamp == init[i].blockTimestamp;
        assert init[i] == data[i];
      }
    }
    var all := rs + OptionToSeq(o);
    forall r | r in all
      ensures exists i :: 0 <= i < |data| && r.transactionId == data[i].txId && r.timestamp == data[i].blockTimestamp
    {
      if r in rs {
        var i :| 0 <= i < |init| && r.transactionId == init[i].txId && r.timestamp == init[i].blockTimestamp;
        assert init[i] == data[i];
      } else {
        assert r == o.value;
      }
    }
    forall i, j | 0 <= i < j < |all| ensures all[i].timestamp >= all[j].timestamp {
      if j >= |rs| {
        assert all[i] in rs;
      }
    }
  }

  /** The records of the whole listing from page `k` on, appended to `acc`:
      each page's records in order, page after page while the reply carries
      a fingerprint; an unsuccessful reply is an error. */
  function CollectFrom(pages: seq<Page<RawTx>>, k: nat, acc: seq<Record>, step: Step): (r: Result<seq<Record>, ClassifyError>)
    ensures r.Ok? ==> acc <= r.value
    decreases |pages| - k
  {
    var p := PageAt(pages, k);
    if !p.success then Err(UnsuccessfulResponse)
    else match ClassifyAll(p.data, step)
      case Err(e) => Err(e)
      case Ok(rs) =>
        if p.fingerprint.Some? then CollectFrom(pages, k + 1, acc + rs, step) else Ok(acc + rs)
  }

  /** The records a page yields when all its transactions classify. */
  function PageRecords(p: Page<RawTx>, step: Step): seq<Record>
  {
    match ClassifyAll(p.data, step)
    case Ok(rs) => rs
    case Err(_) => []
  }

  /** The records of pages `k` up to (not including) `n`, page after page. */
  function RecordsBetween(pages: seq<Page<RawTx>>, k: nat, n: nat, step: Step): seq<Record>
    decreases n - k
  {
    if k >= n then [] else PageRecords(PageAt(pages, k), step) + RecordsBetween(pages, k + 1, n, step)
  }

  /** The download reads on past page `j`: the reply is successful, every
      transaction on it classifies, and it carries a fingerprint. */
  ghost predicate ReadsOn(pages: seq<Page<RawTx>>, j: nat, step: Step)
  {
    var p := PageAt(pages, j);
    p.success && ClassifyAll(p.data, step).Ok? && p.fingerprint.Some?
  }

  /** The download reads on past every page from `k` up to (not including) `n`. */
  ghost predicate ReadsThrough(pages: seq<Page<RawTx>>, k: nat, n: nat, step: Step)
  {
    k <= n && forall j :: k <= j < n ==> ReadsOn(pages, j, step)
  }

  /** Pages read through only add their records. */
  lemma {:induction false} CollectSkips(pages: seq<Page<RawTx>>, k: nat, n: nat, acc: seq<Record>, step: Step)
    requires ReadsThrough(pages, k, n, step)
    ensures CollectFrom(pages, k, acc, step) == CollectFrom(pages, n, acc + RecordsBetween(pages, k, n, step), step)
    decreases n - k
  {
    if k < n {
      assert ReadsOn(pages, k, step);
      var rs := PageRecords(PageAt(pages, k), step);
      assert CollectFrom(pages, k, acc, step) == CollectFrom(pages, k + 1, acc + rs, step);
      assert RecordsBetween(pages, k, n, step) == rs + RecordsBetween(pages, k + 1, n, step);
      CollectSkips(pages, k + 1, n, acc + rs, step);
      assert acc + rs + RecordsBetween(pages, k + 1, n, step) == acc + RecordsBetween(pages, k, n, step);
    } else {
      assert acc + [] == acc;
    }
  }

  /** The answer of a download that stops at page `n`: an unsuccessful
      reply is `UnsuccessfulResponse`, a failing transaction on it is that
      error, and otherwise the records of every page before it followed by
      its own. */
  function StopAnswer(pages: seq<Page<RawTx>>, n: nat, step: Step): Result<seq<Record>, ClassifyError>
  {
    var p := PageAt(pages, n);
    if !p.success then Err(UnsuccessfulResponse)
    else match ClassifyAll(p.data, step)
      case Err(e) => Err(e)
      case Ok(rs) => Ok(RecordsBetween(pages, 0, n, step) + rs)
  }

  /** The first page the download does not read on past decides it: an
      unsuccessful reply is `UnsuccessfulResponse`, a failing transaction on
      it is that error, and otherwise the answer is the records of every page
      before it followed by its own. */
  lemma CollectStopsAt(pages: seq<Page<RawTx>>, n: nat, step: Step)
    requires ReadsThrough(pages, 0, n, step) && !ReadsOn(pages, n, step)
    ensures CollectFrom(pages, 0, [], step) == StopAnswer(pages, n, step)
  {
    CollectSkips(pages, 0, n, [], step);
    assert [] + RecordsBetween(pages, 0, n, step) == RecordsBetween(pages, 0, n, step);
  }

  /** From page `k` on, some page stops the download: at the latest the
      first request past the recorded replies, which is unsuccessful. */
  lemma {:induction false} StopFrom(pages: seq<Page<RawTx>>, k: nat, step: Step)
    requires k <= |pages|
    ensures exists n: nat :: n <= |pages| && ReadsThrough(pages, k, n, step) && !ReadsOn(pages, n, step)
    decreases |pages| - k
  {
    if ReadsOn(pages, k, step) {
      assert k < |pages|;
      StopFrom(pages, k + 1, step);
      var n: nat :| n <= |pages| && ReadsThrough(pages, k + 1, n, step) && !ReadsOn(pages, n, step);
      assert ReadsThrough(pages, k, n, step);
    } else {
      assert ReadsThrough(pages, k, k, step);
    }
  }

  /** Every download ends at a first page it does not read on past, and
      that page determines the answer as `CollectStopsAt` states. */
  lemma DownloadOutcome(pages: seq<Page<RawTx>>, step: Step)
    ensures exists n: nat ::
      && n <= |pages| && ReadsThrough(pages, 0, n, step) && !ReadsOn(pages, n, step)
      && CollectFrom(pages, 0, [], step) == StopAnswer(pages, n, step)
  {
    StopFrom(pages, 0, step);
    var n: nat :| n <= |pages| && ReadsThrough(pages, 0, n, step) && !ReadsOn(pages, n, step);
    CollectStopsAt(pages, n, step);
  }

  /** The identifier whose TRC10 asset classifying `tx` looks up, if any. */
  function AssetKey(tx: RawTx): Option<string>
  {
    match tx
    case InternalTx(_, _, _, _, rejected, callValue) =>
      if !rejected && |callValue| == 1 && callValue[0].0 != TrxKey then Some(callValue[0].0) else None
    case ContractTx(_, _, ctype, _, _, _, assetName) =>
      if ctype == TransferAssetContract then Some(assetName) else None
  }

  /** The asset `tx` looks up, when the directory resolves it, is in `entries`. */
  ghost predicate CachesAsset(entries: map<string, AssetInfo>, tx: RawTx, dir: Directory)
  {
    AssetKey(tx).Some? && Resolve(AssetKey(tx).value, dir).Ok? ==> AssetKey(tx).value in entries
  }

  /** Every transaction of `data` that the loop over the page reaches (all
      before it classify) has its resolved asset in `entries`. */
  ghost predicate CachesPage(entries: map<string, AssetInfo>, data: seq<RawTx>, dir: Directory, fromHex: string -> string)
  {
    forall i :: 0 <= i < |data| && AllClassify(data[..i], Classifier(dir, fromHex)) ==> CachesAsset(entries, data[i], dir)
  }

  /** The first `n` transactions of `data` have their resolved assets in `entries`. */
  ghost predicate CachesPrefix(entries: map<string, AssetInfo>, data: seq<RawTx>, n: nat, dir: Directory)
  {
    forall i :: 0 <= i < n && i < |data| ==> CachesAsset(entries, data[i], dir)
  }

  /** Entries that are kept keep a prefix cached. */
  lemma CachesPrefixKept(before: map<string, AssetInfo>, after: map<string, AssetInfo>, data: seq<RawTx>, n: nat, dir: Directory)
    requires KeepsEntries(before, after)
    requires CachesPrefix(before, data, n, dir)
    ensures CachesPrefix(after, data, n, dir)
  {
    forall i | 0 <= i < n && i < |data|
      ensures CachesAsset(after, data[i], dir)
    {
      assert CachesAsset(before, data[i], dir);
    }
  }

  /** A loop over the page that ends at transaction `n` (the end of the
      page, or the first failure) has reached exactly the transactions up
      to `n`, so a cached prefix through `n` caches the page. */
  lemma CachesPageAt(entries: map<string, AssetInfo>, data: seq<RawTx>, n: nat, dir: Directory, fromHex: string -> string)
    requires n == |data| || (n < |data| && Classify(data[n], dir, fromHex).Err?)
    requires CachesPrefix(entries, data, n + 1, dir)
    ensures CachesPage(entries, data, dir, fromHex)
  {
    forall i | 0 <= i < |data| && AllClassify(data[..i], Classifier(dir, fromHex))
      ensures CachesAsset(entries, data[i], dir)
    {
      if n < i {
        assert false;
      }
    }
  }

  /** Entries that are kept keep a page cached. */
  lemma CachesPageKept(before: map<string, AssetInfo>, after: map<string, AssetInfo>, data: seq<RawTx>, dir: Directory, fromHex: string -> string)
    requires KeepsEntries(before, after)
    requires CachesPage(before, data, dir, fromHex)
    ensures CachesPage(after, data, dir, fromHex)
  {
    forall i | 0 <= i < |data| && AllClassify(data[..i], Classifier(dir, fromHex))
      ensures CachesAsset(after, data[i], dir)
    {
      assert CachesAsset(before, data[i], dir);
    }
  }

  /** Pages `0..k-1` are cached as far as the loop over each reached. */
  ghost predicate CachesPages(entries: map<string, AssetInfo>, pages: seq<Page<RawTx>>, k: nat, dir: Directory, fromHex: string -> string)
  {
    forall j :: 0 <= j < k && j < |pages| ==> CachesPage(entries, pages[j].data, dir, fromHex)
  }

  /** Entries that are kept keep pages cached. */
  lemma CachesPagesKept(before: map<string, AssetInfo>, after: map<string, AssetInfo>, pages: seq<Page<RawTx>>, k: nat, dir: Directory, fromHex: string -> string)
    requires KeepsEntries(before, after)
    requires CachesPages(before, pages, k, dir, fromHex)
    ensures CachesPages(after, pages, k, dir, fromHex)
  {
    forall j | 0 <= j < k && j < |pages|
      ensures CachesPage(after, pages[j].data, dir, fromHex)
    {
      CachesPageKept(before, after, pages[j].data, dir, fromHex);
    }
  }

  /** A download that stops at page `k` has read exactly the pages up to
      `k`, and those it classified (the successful ones) are cached. */
  lemma CachesPagesAt(entries: map<string, AssetInfo>, pages: seq<Page<RawTx>>, k: nat, dir: Directory, fromHex: string -> string)
    requires ReadsThrough(pages, 0, k, Classifier(dir, fromHex)) && !ReadsOn(pages, k, Classifier(dir, fromHex))
    requires CachesPages(entries, pages, k, dir, fromHex)
    requires k < |pages| && pages[k].success ==> CachesPage(entries, pages[k].data, dir, fromHex)
    ensures forall j :: 0 <= j < |pages| && ReadsThrough(pages, 0, j, Classifier(dir, fromHex)) && pages[j].success ==>
      CachesPage(entries, pages[j].data, dir, fromHex)
  {
    forall j | 0 <= j < |pages| && ReadsThrough(pages, 0, j, Classifier(dir, fromHex)) && pages[j].success
      ensures CachesPage(entries, pages[j].data, dir, fromHex)
    {
      if k < j {
        assert false;
      }
    }
  }

  /** The transaction download: every page of the listing, each
      transaction classified in page order, the records pushed onto
      `transactions`. Asset lookups go through `cache`, which only gains
      entries, for identifiers the listing's transactions look up. */
  method DownloadTransactions(pages: seq<Page<RawTx>>, cache: AssetCache, dir: Directory, fromHex: string -> string)
    returns (r: Result<seq<Record>, ClassifyError>)
    requires cache.ConsistentWith(dir)
    modifies cache
    ensures cache.ConsistentWith(dir)
    ensures r == CollectFrom(pages, 0, [], Classifier(dir, fromHex))
    ensures KeepsEntries(old(cache.entries), cache.entries)
    ensures forall key :: key in cache.entries && key !in old(cache.entries) ==>
      exists j, i :: 0 <= j < |pages| && 0 <= i < |pages[j].data| && AssetKey(pages[j].data[i]) == Some(key)
    ensures forall j :: 0 <= j < |pages| && ReadsThrough(pages, 0, j, Classifier(dir, fromHex)) && pages[j].success ==>
      CachesPage(cache.entries, pages[j].data, dir, fromHex)
  {
    var transactions: seq<Record> := [];
    var k := 0;
    var reply := PageAt(pages, k);
    while true
      invariant k <= |pages|
      invariant reply == PageAt(pages, k)
      invariant cache.ConsistentWith(dir)
      invariant CollectFrom(pages, k, transactions, Classifier(dir, fromHex)) == CollectFrom(pages, 0, [], Classifier(dir, fromHex))
      invariant KeepsEntries(old(cache.entries), cache.entries)
      invariant forall key :: key in cache.entries && key !in old(cache.entries) ==>
        exists j, i :: 0 <= j < k && 0 <= i < |pages[j].data| && AssetKey(pages[j].data[i]) == Some(key)
      invariant ReadsThrough(pages, 0, k, Classifier(dir, fromHex))
      invariant CachesPages(cache.entries, pages, k, dir, fromHex)
      decreases |pages| - k
    {
      if !reply.success {
        CachesPagesAt(cache.entries, pages, k, dir, fromHex);
        return Err(UnsuccessfulResponse);
      }
      ghost var before := cache.entries;
      var page := ClassifyPage(reply.data, cache, dir, fromHex);
      CachesPagesKept(before, cache.entries, pages, k, dir, fromHex);
      forall key | key in cache.entries && key !in old(cache.entries)
        ensures exists j, i :: 0 <= j < k + 1 && 0 <= i < |pages[j].data| && AssetKey(pages[j].data[i]) == Some(key)
      {
        if key !in before {
          var i :| 0 <= i < |reply.data| && AssetKey(reply.data[i]) == Some(key);
          assert pages[k].data[i] == reply.data[i];
        }
      }
      if page.Err? {
        CachesPagesAt(cache.entries, pages, k, dir, fromHex);
        return Err(page.error);
      }
      transactions := transactions + page.value;
      if reply.fingerprint.Some? {
        assert ReadsOn(pages, k, Classifier(dir, fromHex));
        assert CachesPages(cache.entries, pages, k + 1, dir, fromHex);
        k := k + 1;
        reply := PageAt(pages, k);
      } else {
        CachesPagesAt(cache.entries, pages, k, dir, fromHex);
        return Ok(transactions);
      }
    }
  }

  /** The loop over `reply.data`: each transaction classified in turn, the
      records it yields kept; the first error ends the download. The cache
      only gains entries, for identifiers the page's transactions look up. */
  method ClassifyPage(data: seq<RawTx>, cache: AssetCache, dir: Directory, fromHex: string -> string)
    returns (r: Result<seq<Record>, ClassifyError>)
    requires cache.ConsistentWith(dir)
    modifies cache
    ensures cache.ConsistentWith(dir)
    ensures r == ClassifyAll(data, Classifier(dir, fromHex))
    ensures KeepsEntries(old(cache.entries), cache.entries)
    ensures forall key :: key in cache.entries && key !in old(cache.entries) ==>
      exists i :: 0 <= i < |data| && AssetKey(data[i]) == Some(key)
    ensures CachesPage(cache.entries, data, dir, fromHex)
  {
    var records: seq<Record> := [];
    assert data[..0] == [];
    for i := 0 to |data|
      invariant cache.ConsistentWith(dir)
      invariant ClassifyAll(data[..i], Classifier(dir, fromHex)) == Ok(records)
      invariant KeepsEntries(old(cache.entries), cache.entries)
      invariant forall key :: key in cache.entries && key !in old(cache.entries) ==>
        exists i' :: 0 <= i' < i && AssetKey(data[i']) == Some(key)
      invariant CachesPrefix(cache.entries, data, i, dir)
    {
      assert data[..i + 1][..i] == data[..i];
      ghost var before := cache.entries;
      var kept := ClassifyTx(data[i], cache, dir, fromHex);
      CachesPrefixKept(before, cache.entries, data, i, dir);
      assert CachesPrefix(cache.entries, data, i + 1, dir);
      if kept.Err? {
        ClassifyFailsAt(data, i, Classifier(dir, fromHex));
        CachesPageAt(cache.entries, data, i, dir, fromHex);
        return Err(kept.error);
      }
      records := records + OptionToSeq(kept.value);
    }
    CachesPageAt(cache.entries, data, |data|, dir, fromHex);
    assert data[..|data|] == data;
    return Ok(records);
  }

  /** The body of the loop over `reply.data`: one transaction classified,
      its TRC10 asset looked up through `cache`, which keeps every entry and
      gains at most the one for that asset. */
  method ClassifyTx(tx: RawTx, cache: AssetCache, dir: Directory, fromHex: string -> string)
    returns (r: Result<Option<Record>, ClassifyError>)
    requires cache.ConsistentWith(dir)
    modifies cache
    ensures cache.ConsistentWith(dir)
    ensures r == Classify(tx, dir, fromHex)
    ensures KeepsEntries(old(cache.entries), cache.entries)
    ensures forall key :: key in cache.entries && key !in old(cache.entries) ==> AssetKey(tx) == Some(key)
    ensures CachesAsset(cache.entries, tx, dir)
  {
    var kept: Option<Record> := None;
    match tx {
      case InternalTx(txId, ts, fromAddr, toAddr, rejected, callValue) =>
        if !rejected {
          if |callValue| != 1 {
            return Err(UnhandledCallValue(|callValue|));
          }
          if callValue[0].0 == TrxKey {
            kept := Some(TrxRecord(txId, ts, "Internal", fromHex(fromAddr), fromHex(toAddr), callValue[0].1));
          } else {
            var asset := cache.Lookup(callValue[0].0, dir);
            if asset.Err? {
              return Err(AssetLookup(asset.error));
            }
            kept := Some(Trc10Record(txId, ts, "Internal", fromHex(fromAddr), fromHex(toAddr), callValue[0].1, asset.value));
          }
        }
      case ContractTx(txId, ts, ctype, owner, toAddr, amount, assetName) =>
        if ctype == TransferContract {
          kept := Some(TrxRecord(txId, ts, "Transaction", fromHex(owner), fromHex(toAddr), amount));
        } else if ctype == TransferAssetContract {
          var asset := cache.Lookup(assetName, dir);
          if asset.Err? {
            return Err(AssetLookup(asset.error));
          }
          kept := Some(Trc10Record(txId, ts, "Transaction", fromHex(owner), fromHex(toAddr), amount, asset.value));
        }
    }
    r := Ok(kept);
  }
}
