/** The conversion of the ledger CSV into Koinly's import format
    (koinly.js): one report row per ledger record that involves the focal
    address. */
module Koinly {
  import opened Wrappers
  import opened Digits

  /** The UTC calendar fields of a `Date` as its `getUTC…` methods give
      them; `month` counts from 0, as `getUTCMonth()` does. */
  datatype DateParts = DateParts(year: nat, month: nat, day: nat, hours: nat, minutes: nat, seconds: nat)

  /** Fields a `Date` can have. */
  predicate ValidParts(d: DateParts)
  {
    d.month < 12 && 1 <= d.day <= 31 && d.hours < 24 && d.minutes < 60 && d.seconds < 60
  }

  function Pad2(n: nat): string
  {
    PadStart(NatToString(n), 2, '0')
  }

  /** `formatDate`: `YYYY-MM-DD HH:mm:ss UTC`, the year padded to at least
      four digits, the other fields to two, the month counted from 1. */
  function FormatDate(d: DateParts): string
  {
    YearText(d.year) + DateTail(d)
  }

  /** The year, zero-padded to at least four digits. */
  function YearText(year: nat): string
  {
    PadStart(NatToString(year), 4, '0')
  }

  /** Everything after the year: `-MM-DD HH:mm:ss UTC`. */
  function DateTail(d: DateParts): string
  {
    "-" + Pad2(d.month + 1) + "-" + Pad2(d.day) + " "
      + Pad2(d.hours) + ":" + Pad2(d.minutes) + ":" + Pad2(d.seconds) + " UTC"
  }

  /** Reads a `YYYY-MM-DD HH:mm:ss UTC` string back into its fields (the
      year part being everything before the last 19 characters). */
  function ParseDate(s: string): Option<DateParts>
  {
    if |s| < 23 then None else ParseFields(s[..|s| - 19], s[|s| - 19..])
  }

  /** The year digits, then `-MM-DD HH:mm:ss UTC` in `t`. */
  function ParseFields(y: string, t: string): Option<DateParts>
    requires |t| == 19
  {
    if !AllDigits(y) then None
    else if t[0] != '-' || t[3] != '-' || t[6] != ' ' || t[9] != ':' || t[12] != ':' || t[15..] != " UTC" then None
    else match (TwoDigits(t[1..3]), TwoDigits(t[4..6]), TwoDigits(t[7..9]), TwoDigits(t[10..12]), TwoDigits(t[13..15]))
      case (Some(mo), Some(d), Some(h), Some(mi), Some(se)) =>
        if mo == 0 then None else Some(DateParts(DigitsValue(y), mo - 1, d, h, mi, se))
      case _ => None
  }

  /** A two-character string of digits and the number it denotes. */
  function TwoDigits(s: string): Option<nat>
  {
    if |s| == 2 && IsDigit(s[0]) && IsDigit(s[1]) then Some(DigitValue(s[0]) * 10 + DigitValue(s[1])) else None
  }

  /** Below 100, `String(n).padStart(2, '0')` is the tens digit, then the units digit. */
  lemma Pad2Chars(n: nat)
    requires n < 100
    ensures Pad2(n) == [DigitChar(n / 10), DigitChar(n % 10)]
  {
    var s := NatToString(n);
    if n < 10 {
      assert s == [DigitChar(n)];
      assert PadStart(s, 2, '0') == ['0'] + s;
    } else {
      assert NatToString(n / 10) == [DigitChar(n / 10)];
      assert s == [DigitChar(n / 10), DigitChar(n % 10)];
    }
  }

  /** Below 100, the two-digit rendering reads back as the number. */
  lemma Pad2Reads(n: nat)
    requires n < 100
    ensures |Pad2(n)| == 2 && TwoDigits(Pad2(n)) == Some(n)
  {
    Pad2Chars(n);
    TwoDigitsOf(n / 10, n % 10);
  }

  lemma TwoDigitsOf(tens: nat, units: nat)
    requires tens < 10 && units < 10
    ensures TwoDigits([DigitChar(tens), DigitChar(units)]) == Some(tens * 10 + units)
  {
    assert DigitValue(DigitChar(tens)) == tens;
    assert DigitValue(DigitChar(units)) == units;
  }

  /** The layout after the year: 19 characters with the separators in place
      and each two-digit field, where `ParseFields` reads it, holding its value. */
  lemma DateTailLayout(d: DateParts)
    requires ValidParts(d)
    ensures var t := DateTail(d);
      && |t| == 19
      && t[0] == '-' && t[3] == '-' && t[6] == ' ' && t[9] == ':' && t[12] == ':' && t[15..] == " UTC"
      && TwoDigits(t[1..3]) == Some(d.month + 1) && TwoDigits(t[4..6]) == Some(d.day)
      && TwoDigits(t[7..9]) == Some(d.hours) && TwoDigits(t[10..12]) == Some(d.minutes)
      && TwoDigits(t[13..15]) == Some(d.seconds)
  {
    Pad2Reads(d.month + 1);
    Pad2Reads(d.day);
    Pad2Reads(d.hours);
    Pad2Reads(d.minutes);
    Pad2Reads(d.seconds);
    FieldsLayout(Pad2(d.month + 1), Pad2(d.day), Pad2(d.hours), Pad2(d.minutes), Pad2(d.seconds));
  }

  lemma DateTailLength(d: DateParts)
    requires ValidParts(d)
    ensures |DateTail(d)| == 19
  {
    Pad2Reads(d.month + 1);
    Pad2Reads(d.day);
    Pad2Reads(d.hours);
    Pad2Reads(d.minutes);
    Pad2Reads(d.seconds);
  }

  /** The separators and the two-character fields of `-MM-DD HH:mm:ss UTC`
      sit at fixed positions. */
  lemma FieldsLayout(mo: string, dd: string, hh: string, mi: string, ss: string)
    requires |mo| == |dd| == |hh| == |mi| == |ss| == 2
    ensures var t := "-" + mo + "-" + dd + " " + hh + ":" + mi + ":" + ss + " UTC";
      && |t| == 19
      && t[0] == '-' && t[3] == '-' && t[6] == ' ' && t[9] == ':' && t[12] == ':' && t[15..] == " UTC"
      && t[1..3] == mo && t[4..6] == dd && t[7..9] == hh && t[10..12] == mi && t[13..15] == ss
  {
    var t := "-" + mo + "-" + dd + " " + hh + ":" + mi + ":" + ss + " UTC";
    var c := ['-', mo[0], mo[1], '-', dd[0], dd[1], ' ', hh[0], hh[1], ':', mi[0], mi[1], ':', ss[0], ss[1], ' ', 'U', 'T', 'C'];
    assert t == c;
    TwoAt(c, 1, mo);
    TwoAt(c, 4, dd);
    TwoAt(c, 7, hh);
    TwoAt(c, 10, mi);
    TwoAt(c, 13, ss);
    assert c[15..] == " UTC";
  }

  /** The two characters of `t` from `i` on are `a`. */
  lemma TwoAt(t: string, i: nat, a: string)
    requires i + 2 <= |t| && |a| == 2 && t[i] == a[0] && t[i + 1] == a[1]
    ensures t[i..i + 2] == a
  {
  }

  /** `formatDate` gives 23 characters while the year has at most four
      digits, and more only for a longer year. */
  lemma FormatDateLength(d: DateParts)
    requires ValidParts(d)
    ensures |FormatDate(d)| >= 23
    ensures d.year <= 9999 ==> |FormatDate(d)| == 23
  {
    YearTextLength(d.year);
    DateTailLength(d);
  }

  /** The string `formatDate` makes reads back as the date it was made
      from: no field is lost or shifted, whatever the year. */
  lemma FormatDateRoundTrip(d: DateParts)
    requires ValidParts(d)
    ensures ParseDate(FormatDate(d)) == Some(d)
  {
    var yy := YearText(d.year);
    var t := DateTail(d);
    var r := FormatDate(d);
    DateTailLayout(d);
    assert r == yy + t;
    assert r[..|r| - 19] == yy && r[|r| - 19..] == t;
    PaddedRoundTrip(d.year, 4);
    TailRoundTrip(yy, t, d);
  }

  /** A year and a well-laid-out tail read back as the fields they hold. */
  lemma TailRoundTrip(y: string, t: string, d: DateParts)
    requires AllDigits(y) && DigitsValue(y) == d.year
    requires |t| == 19
    requires t[0] == '-' && t[3] == '-' && t[6] == ' ' && t[9] == ':' && t[12] == ':' && t[15..] == " UTC"
    requires TwoDigits(t[1..3]) == Some(d.month + 1) && TwoDigits(t[4..6]) == Some(d.day)
    requires TwoDigits(t[7..9]) == Some(d.hours) && TwoDigits(t[10..12]) == Some(d.minutes)
    requires TwoDigits(t[13..15]) == Some(d.seconds)
    ensures ParseFields(y, t) == Some(d)
  {
  }

  /** The year takes four characters up to 9999 and more after it. */
  lemma YearTextLength(y: nat)
    ensures |YearText(y)| >= 4
    ensures y <= 9999 ==> |YearText(y)| == 4
  {
    var s := NatToString(y);
    if y <= 9999 && |s| > 4 {
      NatToStringRoundTrip(y);
      LongNumeral(s);
    }
  }

  /** A numeral of five or more digits without a leading zero is at least 10000. */
  lemma {:induction false} LongNumeral(s: string)
    requires IsNumeral(s) && |s| > 4 && s[0] != '0'
    ensures DigitsValue(s) >= 10000
    decreases |s|
  {
    var init := s[..|s| - 1];
    if |init| > 4 {
      LongNumeral(init);
    } else {
      AtLeastLeading(init);
    }
  }

  /** A four-digit numeral without a leading zero is at least 1000. */
  lemma AtLeastLeading(s: string)
    requires IsNumeral(s) && |s| == 4 && s[0] != '0'
    ensures DigitsValue(s) >= 1000
  {
    assert s[..3][..2][..1] == [s[0]];
    assert s[..3][..2] == s[..2];
    assert DigitsValue(s[..3]) >= 100;
  }

  /** One row of Koinly's import file; absent cells are `undefined`. */
  datatype KoinlyRow = KoinlyRow(
    date: Option<string>,
    sentAmount: Option<string>,
    sentCurrency: Option<string>,
    receivedAmount: Option<string>,
    receivedCurrency: Option<string>,
    labelText: string,
    description: string,
    txHash: string)

  /** The errors `processRecord` throws; records are numbered from 1. */
  datatype KoinlyError = WrongLength(recordNumber: nat) | InvalidTimestamp(recordNumber: nat)

  /** Withdrawals are staking rewards; nothing else gets a label. */
  function Label(transactionType: string): (r: string)
    ensures r == "staking" <==> transactionType == "Withdraw"
    ensures r != "staking" ==> r == ""
  {
    if transactionType == "Withdraw" then "staking" else ""
  }

  /** The description: the transaction and transfer types, then ` from …`
      when there is a sender and ` to …` when there is a receiver. */
  function Description(transactionType: string, transferType: string, from: string, to: string): (r: string)
    ensures r == transactionType + " " + transferType
      + (if from != "" then " from " + from else "")
      + (if to != "" then " to " + to else "")
  {
    if from != "" && to != "" then transactionType + " " + transferType + " from " + from + " to " + to
    else if from != "" then transactionType + " " + transferType + " from " + from
    else if to != "" then transactionType + " " + transferType + " to " + to
    else transactionType + " " + transferType
  }

  /** The date cell: none for an empty timestamp; otherwise the leading
      digits, read as milliseconds since the epoch, formatted in UTC (`utc`
      stands for the `Date` decomposition); no leading digit is an error. */
  function DateCell(timestamp: string, index: nat, utc: nat -> DateParts): (r: Result<Option<string>, KoinlyError>)
    ensures r == Ok(None) <==> timestamp == ""
    ensures r.Err? <==> timestamp != "" && !IsDigit(timestamp[0])
    ensures r.Err? ==> r.error == InvalidTimestamp(index + 1)
  {
    if timestamp == "" then Ok(None)
    else
      var digits := LeadingDigits(timestamp);
      if digits == "" then Err(InvalidTimestamp(index + 1))
      else Ok(Some(FormatDate(utc(DigitsValue(digits)))))
  }

  /** `processRecord(record, index)` for the focal `address`. */
  function ProcessRecord(record: seq<string>, index: nat, address: string, utc: nat -> DateParts): (r: Result<Option<KoinlyRow>, KoinlyError>)
    // the errors
    ensures r == Err(WrongLength(index + 1)) <==> |record| != 10
    ensures |record| == 10 ==> (r.Err? <==> record[1] != "" && !IsDigit(record[1][0]))
    ensures |record| == 10 && r.Err? ==> r.error == InvalidTimestamp(index + 1)
    // a row exactly for records that involve the address
    ensures r.Ok? ==> (r.value.Some? <==> record[4] == address || record[5] == address)
    // sent when the sender is the address (also for a transfer to itself), received otherwise
    ensures r.Ok? && record[4] == address ==>
      && r.value.Some?
      && r.value.value.sentAmount == Some(record[6])
      && r.value.value.sentCurrency == Some(record[7] + " (" + record[8] + "; " + record[9] + ")")
      && r.value.value.receivedAmount.None? && r.value.value.receivedCurrency.None?
    ensures r.Ok? && record[4] != address && record[5] == address ==>
      && r.value.Some?
      && r.value.value.receivedAmount == Some(record[6])
      && r.value.value.receivedCurrency == Some(record[7] + " (" + record[8] + "; " + record[9] + ")")
      && r.value.value.sentAmount.None? && r.value.value.sentCurrency.None?
    // the other cells
    ensures r.Ok? && r.value.Some? ==>
      && r.value.value.txHash == record[0]
      && r.value.value.labelText == Label(record[2])
      && r.value.value.description == Description(record[2], record[3], record[4], record[5])
      && (r.value.value.date.None? <==> record[1] == "")
    ensures r.Ok? && r.value.Some? && r.value.value.date.Some? ==>
      var digits := LeadingDigits(record[1]);
      digits != "" && r.value.value.date.value == FormatDate(utc(DigitsValue(digits)))
  {
    if |record| != 10 then Err(WrongLength(index + 1))
    else
      var transactionId, timestamp, transactionType, transferType := record[0], record[1], record[2], record[3];
      var from, to, amount := record[4], record[5], record[6];
      var symbol, name, id := record[7], record[8], record[9];
      match DateCell(timestamp, index, utc)
      case Err(e) => Err(e)
      case Ok(date) =>
        var currency := symbol + " (" + name + "; " + id + ")";
        var labelText := Label(transactionType);
        var description := Description(transactionType, transferType, from, to);
        if from == address then
          Ok(Some(KoinlyRow(date, Some(amount), Some(currency), None, None, labelText, description, transactionId)))
        else if to == address then
          Ok(Some(KoinlyRow(date, None, None, Some(amount), Some(currency), labelText, description, transactionId)))
        else Ok(None)
  }

  /** `records.map(process).filter(r => !!r)` from record `i` on: `map`
      hands each record its index, the first error thrown stops it, `null`
      results are dropped and the rest keep their order. */
  function MapFilter(records: seq<seq<string>>, i: nat, process: (seq<string>, nat) -> Result<Option<KoinlyRow>, KoinlyError>): Result<seq<KoinlyRow>, KoinlyError>
    decreases |records| - i
  {
    if i >= |records| then Ok([])
    else match process(records[i], i)
      case Err(e) => Err(e)
      case Ok(row) =>
        match MapFilter(records, i + 1, process)
        case Err(e) => Err(e)
        case Ok(rest) => Ok(OptionToSeq(row) + rest)
  }

  /** The whole conversion for the focal `address`. */
  function ProcessAll(records: seq<seq<string>>, address: string, utc: nat -> DateParts): Result<seq<KoinlyRow>, KoinlyError>
  {
    MapFilter(records, 0, Processor(address, utc))
  }

  /** `processRecord` as the callback `map` calls. */
  function Processor(address: string, utc: nat -> DateParts): (seq<string>, nat) -> Result<Option<KoinlyRow>, KoinlyError>
  {
    (record: seq<string>, index: nat) => ProcessRecord(record, index, address, utc)
  }

  /** The ledger records that involve `address`, in ledger order. */
  function Involving(records: seq<seq<string>>, address: string): (r: seq<seq<string>>)
    ensures forall k :: 0 <= k < |r| ==> |r[k]| == 10 && (r[k][4] == address || r[k][5] == address)
  {
    if records == [] then []
    else
      var rest := Involving(records[1..], address);
      var r := records[0];
      if |r| == 10 && (r[4] == address || r[5] == address) then [r] + rest else rest
  }

  /** What `processRecord` promises about a record it accepts: it is ten
      fields long, it gives a row exactly when the record involves
      `address`, and the outcome does not depend on the record's index. */
  ghost predicate RowsForInvolving(process: (seq<string>, nat) -> Result<Option<KoinlyRow>, KoinlyError>, address: string)
  {
    forall r, n :: process(r, n).Ok? ==>
      && |r| == 10
      && (process(r, n).value.Some? <==> r[4] == address || r[5] == address)
      && process(r, n) == process(r, 0)
  }

  /** For such a callback, map-then-filter gives, in order, the row of each
      record that involves `address`, and nothing else. */
  lemma {:induction false} MapFilterKeepsInvolving(records: seq<seq<string>>, i: nat, address: string, process: (seq<string>, nat) -> Result<Option<KoinlyRow>, KoinlyError>)
    requires i <= |records| && RowsForInvolving(process, address)
    requires MapFilter(records, i, process).Ok?
    ensures var rows := MapFilter(records, i, process).value;
      && |rows| == |Involving(records[i..], address)|
      && forall k :: 0 <= k < |rows| ==> process(Involving(records[i..], address)[k], 0) == Ok(Some(rows[k]))
    decreases |records| - i
  {
    if i < |records| {
      var here := process(records[i], i);
      assert here.Ok?;
      var rest := MapFilter(records, i + 1, process).value;
      MapFilterKeepsInvolving(records, i + 1, address, process);
      assert records[i..][0] == records[i] && records[i..][1..] == records[i + 1..];
      assert MapFilter(records, i, process).value == OptionToSeq(here.value) + rest;
      assert here == process(records[i], 0);
    }
  }

  /** A record that `processRecord` accepts gives the same row whatever its
      index: the index only numbers the errors. */
  lemma ProcessRecordIgnoresIndex(record: seq<string>, index: nat, address: string, utc: nat -> DateParts)
    requires ProcessRecord(record, index, address, utc).Ok?
    ensures ProcessRecord(record, index, address, utc) == ProcessRecord(record, 0, address, utc)
  {
    DateCellIgnoresIndex(record[1], index, utc);
  }

  lemma DateCellIgnoresIndex(timestamp: string, index: nat, utc: nat -> DateParts)
    requires DateCell(timestamp, index, utc).Ok?
    ensures DateCell(timestamp, index, utc) == DateCell(timestamp, 0, utc)
  {
  }

  /** The report has, in ledger order, exactly the row `processRecord` makes
      of each ledger record that involves the address. */
  lemma ProcessKeepsInvolving(records: seq<seq<string>>, address: string, utc: nat -> DateParts)
    requires ProcessAll(records, address, utc).Ok?
    ensures var rows := ProcessAll(records, address, utc).value;
      && |rows| == |Involving(records, address)|
      && forall k :: 0 <= k < |rows| ==> ProcessRecord(Involving(records, address)[k], 0, address, utc) == Ok(Some(rows[k]))
  {
    var process := Processor(address, utc);
    forall r: seq<string>, n: nat
      ensures process(r, n).Ok? ==>
        && |r| == 10
        && (process(r, n).value.Some? <==> r[4] == address || r[5] == address)
        && process(r, n) == process(r, 0)
    {
      var p := ProcessRecord(r, n, address, utc);
      assert process(r, n) == p;
      assert process(r, 0) == ProcessRecord(r, 0, address, utc);
      if p.Ok? {
        ProcessRecordIgnoresIndex(r, n, address, utc);
      }
    }
    assert records[0..] == records;
    MapFilterKeepsInvolving(records, 0, address, process);
    var rows := ProcessAll(records, address, utc).value;
    forall k | 0 <= k < |rows|
      ensures ProcessRecord(Involving(records, address)[k], 0, address, utc) == Ok(Some(rows[k]))
    {
      assert process(Involving(records, address)[k], 0) == ProcessRecord(Involving(records, address)[k], 0, address, utc);
    }
  }

  /** `map` fails exactly when some call fails, and then with the error of
      the first failing record. */
  lemma {:induction false} MapFilterFailsAtFirstError(records: seq<seq<string>>, i: nat, process: (seq<string>, nat) -> Result<Option<KoinlyRow>, KoinlyError>)
    requires i <= |records|
    ensures MapFilter(records, i, process).Err? <==>
      exists j :: i <= j < |records| && process(records[j], j).Err?
    ensures MapFilter(records, i, process).Err? ==>
      exists j :: i <= j < |records| && process(records[j], j) == Err(MapFilter(records, i, process).error)
        && forall j' :: i <= j' < j ==> process(records[j'], j').Ok?
    decreases |records| - i
  {
    if i < |records| {
      MapFilterFailsAtFirstError(records, i + 1, process);
      var here := process(records[i], i);
      var rest := MapFilter(records, i + 1, process);
      if here.Err? {
        assert MapFilter(records, i, process) == Err(here.error);
      } else {
        assert MapFilter(records, i, process).Err? <==> rest.Err?;
        if rest.Err? {
          assert MapFilter(records, i, process) == Err(rest.error);
        }
      }
    }
  }

  /** The conversion fails exactly when some record is malformed, and then
      with the error of the first malformed record. */
  lemma ProcessFailsAtFirstError(records: seq<seq<string>>, address: string, utc: nat -> DateParts)
    ensures ProcessAll(records, address, utc).Err? <==>
      exists j :: 0 <= j < |records| && ProcessRecord(records[j], j, address, utc).Err?
    ensures ProcessAll(records, address, utc).Err? ==>
      exists j :: 0 <= j < |records| && ProcessRecord(records[j], j, address, utc) == Err(ProcessAll(records, address, utc).error)
        && forall j' :: 0 <= j' < j ==> ProcessRecord(records[j'], j', address, utc).Ok?
  {
    var process := Processor(address, utc);
    MapFilterFailsAtFirstError(records, 0, process);
  }
}
