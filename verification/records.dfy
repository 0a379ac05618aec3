/** The flat, ten-field ledger record that index.js writes, one per CSV row. */
module Records {

  /** An amount as the chain gives it: an integer number of base units and
      the number of decimal places, standing for `raw / 10^decimals`. */
  datatype Amount = Amount(raw: int, decimals: nat)

  datatype Record = Record(
    transactionId: string,
    timestamp: int,
    transactionType: string,
    transferType: string,
    fromAddress: string,
    toAddress: string,
    amount: Amount,
    tokenAbbr: string,
    tokenName: string,
    tokenId: string)

  /** Newest first: timestamps never increase along `s`. */
  ghost predicate NonIncreasing(s: seq<Record>)
  {
    forall i, j :: 0 <= i < j < |s| ==> s[i].timestamp >= s[j].timestamp
  }
}
