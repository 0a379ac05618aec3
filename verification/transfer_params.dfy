/** Detection of the parameter names of a TRC20 token's `Transfer` event
    (index.js, the key splicing that precedes the event download). */
module TransferParams {
  import opened Wrappers

  /** The names under which an event carries the sender, the receiver and
      the transferred value. */
  datatype TransferParams = TransferParams(from: string, to: string, value: string)

  /** `keys.indexOf(x)`: the first position of `x`, or -1 when absent. */
  function IndexOf(keys: seq<string>, x: string): (r: int)
    ensures -1 <= r < |keys|
    ensures r == -1 <==> x !in keys
    ensures r >= 0 ==> keys[r] == x && x !in keys[..r]
  {
    if keys == [] then -1
    else if keys[0] == x then 0
    else
      var r := IndexOf(keys[1..], x);
      assert keys[1..][..if r < 0 then 0 else r] == keys[1..if r < 0 then 1 else r + 1];
      if r == -1 then -1 else r + 1
  }

  /** `keys.splice(index, 1)`: `keys` without its element at `index`. */
  function Splice(keys: seq<string>, index: nat): (r: seq<string>)
    requires index < |keys|
    ensures |r| == |keys| - 1
    ensures multiset(r) + multiset{keys[index]} == multiset(keys)
  {
    assert keys == keys[..index] + [keys[index]] + keys[index + 1..];
    keys[..index] + keys[index + 1..]
  }

  /** No key occurs twice (as with the keys of a JavaScript object). */
  predicate Distinct(keys: seq<string>)
  {
    forall i, j :: 0 <= i < j < |keys| ==> keys[i] != keys[j]
  }

  /** The detection on the keys of the first `Transfer` event of a token:
      `None` when the token is skipped. `from` is preferred to `_from` and
      `to` to `_to`; the value parameter is the key left over once those two
      are taken out. */
  method DetectTransferParams(eventKeys: seq<string>) returns (r: Option<TransferParams>)
    ensures r.None? <==>
      || |eventKeys| != 3
      || ("from" !in eventKeys && "_from" !in eventKeys)
      || ("to" !in eventKeys && "_to" !in eventKeys)
    ensures r.Some? ==> r.value.from == if "from" in eventKeys then "from" else "_from"
    ensures r.Some? ==> r.value.to == if "to" in eventKeys then "to" else "_to"
    ensures r.Some? ==> multiset(eventKeys) == multiset{r.value.from, r.value.to, r.value.value}
    ensures r.Some? && Distinct(eventKeys) ==>
      r.value.value in eventKeys && r.value.value != r.value.from && r.value.value != r.value.to
  {
    var keys := eventKeys;
    if |keys| != 3 {
      return None;
    }
    var paramFrom: string;
    var index := IndexOf(keys, "from");
    if index > -1 {
      paramFrom := "from";
      keys := Splice(keys, index);
    } else {
      index := IndexOf(keys, "_from");
      if index > -1 {
        paramFrom := "_from";
        keys := Splice(keys, index);
      } else {
        return None;
      }
    }
    SpliceKeeps(eventKeys, paramFrom, keys, "to");
    SpliceKeeps(eventKeys, paramFrom, keys, "_to");
    ghost var afterFrom := keys;
    var paramTo: string;
    index := IndexOf(keys, "to");
    if index > -1 {
      paramTo := "to";
      keys := Splice(keys, index);
    } else {
      index := IndexOf(keys, "_to");
      if index > -1 {
        paramTo := "_to";
        keys := Splice(keys, index);
      } else {
        return None;
      }
    }
    r := Some(TransferParams(paramFrom, paramTo, keys[0]));
    Leftover(eventKeys, paramFrom, afterFrom, paramTo, keys);
    if Distinct(eventKeys) {
      LeftoverDistinct(eventKeys, paramFrom, paramTo, keys[0]);
    }
  }

  /** Taking out one key keeps every other key's presence. */
  lemma SpliceKeeps(keys: seq<string>, taken: string, rest: seq<string>, x: string)
    requires multiset(rest) + multiset{taken} == multiset(keys)
    requires x != taken
    ensures x in rest <==> x in keys
  {
    assert x in rest <==> x in multiset(rest);
    assert x in keys <==> x in multiset(keys);
  }

  /** Three keys less two taken out leave exactly the third. */
  lemma Leftover(keys: seq<string>, f: string, mid: seq<string>, t: string, rest: seq<string>)
    requires |keys| == 3 && |mid| == 2 && |rest| == 1
    requires multiset(mid) + multiset{f} == multiset(keys)
    requires multiset(rest) + multiset{t} == multiset(mid)
    ensures multiset(keys) == multiset{f, t, rest[0]}
  {
    assert rest == [rest[0]];
  }

  /** Without repeated keys, the leftover key is one of them and differs
      from the two taken out. */
  lemma LeftoverDistinct(keys: seq<string>, f: string, t: string, v: string)
    requires Distinct(keys)
    requires multiset(keys) == multiset{f, t, v}
    ensures v in keys && v != f && v != t
  {
    assert v in multiset(keys);
    DistinctCount(keys, v);
  }

  /** In a sequence without repeats, every element occurs at most once. */
  lemma {:induction false} DistinctCount(keys: seq<string>, x: string)
    requires Distinct(keys)
    ensures multiset(keys)[x] <= 1
  {
    if keys != [] {
      DistinctCount(keys[1..], x);
      assert keys == [keys[0]] + keys[1..];
      if keys[0] == x {
        assert x !in keys[1..];
        assert multiset(keys[1..])[x] == 0;
      }
    }
  }
}
