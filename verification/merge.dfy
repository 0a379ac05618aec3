/** The final k-way merge of the record sets into one newest-first ledger
    (index.js, the `while (record_sets.length)` loop). */
module Merge {
  import opened Records

  /** All records of all sets, set after set. */
  function Flatten(sets: seq<seq<Record>>): seq<Record>
  {
    if sets == [] then [] else Flatten(sets[..|sets| - 1]) + sets[|sets| - 1]
  }

  /** No set is empty (`record_sets` only ever receives non-empty sets, and
      a set is removed once it runs empty). */
  ghost predicate AllNonEmpty(sets: seq<seq<Record>>)
  {
    forall i :: 0 <= i < |sets| ==> |sets[i]| > 0
  }

  ghost predicate AllPositive(sets: seq<seq<Record>>)
  {
    forall i, j :: 0 <= i < |sets| && 0 <= j < |sets[i]| ==> sets[i][j].timestamp > 0
  }

  ghost predicate AllNonIncreasing(sets: seq<seq<Record>>)
  {
    forall i :: 0 <= i < |sets| ==> NonIncreasing(sets[i])
  }

  /** The set whose head is taken next: the first one whose head timestamp
      is largest, so that on a tie the earliest set wins. */
  function FirstMax(sets: seq<seq<Record>>): (m: nat)
    requires |sets| > 0 && AllNonEmpty(sets)
    ensures m < |sets|
    ensures forall j :: 0 <= j < |sets| ==> sets[j][0].timestamp <= sets[m][0].timestamp
    ensures forall j :: 0 <= j < m ==> sets[j][0].timestamp < sets[m][0].timestamp
  {
    if |sets| == 1 then 0
    else
      var m := FirstMax(sets[..|sets| - 1]);
      if sets[|sets| - 1][0].timestamp > sets[m][0].timestamp then |sets| - 1 else m
  }

  /** The sets after the head of set `m` is taken: `shift` it off, and drop
      the set when that leaves it empty. */
  function Advance(sets: seq<seq<Record>>, m: nat): seq<seq<Record>>
    requires m < |sets| && |sets[m]| > 0
  {
    if |sets[m]| == 1 then sets[..m] + sets[m + 1..] else sets[m := sets[m][1..]]
  }

  lemma {:induction false} FlattenAppend(a: seq<seq<Record>>, b: seq<seq<Record>>)
    ensures Flatten(a + b) == Flatten(a) + Flatten(b)
    decreases |b|
  {
    if b == [] {
      assert a + b == a;
    } else {
      var b' := b[..|b| - 1];
      assert (a + b)[..|a + b| - 1] == a + b';
      FlattenAppend(a, b');
    }
  }

  /** Taking a head removes exactly that record. */
  lemma AdvanceTakesHead(sets: seq<seq<Record>>, m: nat)
    requires m < |sets| && AllNonEmpty(sets)
    ensures multiset(Flatten(sets)) == multiset(Flatten(Advance(sets, m))) + multiset{sets[m][0]}
    ensures |Flatten(Advance(sets, m))| == |Flatten(sets)| - 1
  {
    var s := sets[m];
    var pre, post := Flatten(sets[..m]), Flatten(sets[m + 1..]);
    AdvanceSplits(sets, m);
    assert s == [s[0]] + s[1..];
    calc {
      multiset(Flatten(sets));
      multiset(pre + [s[0]] + s[1..] + post);
      multiset(pre + s[1..] + post) + multiset{s[0]};
      multiset(Flatten(Advance(sets, m))) + multiset{s[0]};
    }
  }

  /** The records before and after set `m` stay where they are when its
      head is taken. */
  lemma AdvanceSplits(sets: seq<seq<Record>>, m: nat)
    requires m < |sets| && |sets[m]| > 0
    ensures Flatten(sets) == Flatten(sets[..m]) + sets[m] + Flatten(sets[m + 1..])
    ensures Flatten(Advance(sets, m)) == Flatten(sets[..m]) + sets[m][1..] + Flatten(sets[m + 1..])
  {
    var s := sets[m];
    var pre, post := sets[..m], sets[m + 1..];
    assert sets == pre + [s] + post;
    FlattenAppend(pre + [s], post);
    FlattenAppend(pre, [s]);
    assert Flatten([s]) == s by {
      var one: seq<seq<Record>> := [s];
      assert one[..0] == [];
    }
    var rest: seq<seq<Record>> := if |s| == 1 then [] else [s[1..]];
    assert Advance(sets, m) == pre + rest + post;
    FlattenAppend(pre + rest, post);
    FlattenAppend(pre, rest);
    assert Flatten(rest) == s[1..] by {
      if rest != [] {
        var none: seq<seq<Record>> := [];
        assert rest[..0] == none;
      }
    }
  }

  /** Taking a head keeps every set non-empty, positive and newest first. */
  lemma AdvanceKeepsSets(sets: seq<seq<Record>>, m: nat)
    requires m < |sets| && AllNonEmpty(sets)
    ensures AllNonEmpty(Advance(sets, m))
    ensures AllPositive(sets) ==> AllPositive(Advance(sets, m))
    ensures AllNonIncreasing(sets) ==> AllNonIncreasing(Advance(sets, m))
  {
    var a := Advance(sets, m);
    var s := sets[m];
    if |s| == 1 {
      assert forall i :: 0 <= i < |a| ==> a[i] == sets[if i < m then i else i + 1];
    } else {
      assert forall i :: 0 <= i < |a| && i != m ==> a[i] == sets[i];
      assert a[m] == s[1..];
      assert forall j :: 0 <= j < |s| - 1 ==> s[1..][j] == s[j + 1];
    }
  }

  /** A running maximum that is first among the largest heads is `FirstMax`. */
  lemma FirstMaxUnique(sets: seq<seq<Record>>, m: nat)
    requires |sets| > 0 && AllNonEmpty(sets) && m < |sets|
    requires forall j :: 0 <= j < |sets| ==> sets[j][0].timestamp <= sets[m][0].timestamp
    requires forall j :: 0 <= j < m ==> sets[j][0].timestamp < sets[m][0].timestamp
    ensures m == FirstMax(sets)
  {
  }

  /** `shift` on set `m`, then `splice` when it ran empty, is `Advance`. */
  lemma ShiftThenSplice(sets: seq<seq<Record>>, m: nat, shifted: seq<seq<Record>>, after: seq<seq<Record>>)
    requires m < |sets| && |sets[m]| > 0
    requires shifted == sets[m := sets[m][1..]]
    requires after == if |shifted[m]| == 0 then shifted[..m] + shifted[m + 1..] else shifted
    ensures after == Advance(sets, m)
  {
    assert shifted[..m] == sets[..m];
    assert shifted[m + 1..] == sets[m + 1..];
  }

  /** Every record of the sets, set by set: a record of `Flatten(sets)` is
      some element of some set. */
  lemma {:induction false} FlattenMember(sets: seq<seq<Record>>, x: Record)
    requires x in Flatten(sets)
    ensures exists i, j :: 0 <= i < |sets| && 0 <= j < |sets[i]| && sets[i][j] == x
  {
    var init := sets[..|sets| - 1];
    if x in Flatten(init) {
      FlattenMember(init, x);
      var i, j :| 0 <= i < |init| && 0 <= j < |init[i]| && init[i][j] == x;
      assert sets[i] == init[i];
    } else {
      var last := sets[|sets| - 1];
      var j :| 0 <= j < |last| && last[j] == x;
    }
  }

  /** The ledger the merge produces: repeatedly the head of `FirstMax`, until
      every set is used up. */
  function Merged(sets: seq<seq<Record>>): seq<Record>
    requires AllNonEmpty(sets)
    decreases |Flatten(sets)|
  {
    if |sets| == 0 then []
    else
      var m := FirstMax(sets);
      AdvanceTakesHead(sets, m);
      AdvanceKeepsSets(sets, m);
      [sets[m][0]] + Merged(Advance(sets, m))
  }

  /** The merged ledger holds every record of every set exactly once. */
  lemma {:induction false} MergedIsPermutation(sets: seq<seq<Record>>)
    requires AllNonEmpty(sets)
    ensures multiset(Merged(sets)) == multiset(Flatten(sets))
    decreases |Flatten(sets)|
  {
    if |sets| > 0 {
      var m := FirstMax(sets);
      AdvanceTakesHead(sets, m);
      AdvanceKeepsSets(sets, m);
      MergedIsPermutation(Advance(sets, m));
    }
  }

  /** When every set is newest first, the head that `FirstMax` picks is at
      least as new as every record still in the sets. */
  lemma HeadIsNewest(sets: seq<seq<Record>>, x: Record)
    requires |sets| > 0 && AllNonEmpty(sets) && AllNonIncreasing(sets)
    requires x in Flatten(sets)
    ensures x.timestamp <= sets[FirstMax(sets)][0].timestamp
  {
    FlattenMember(sets, x);
    var i, j :| 0 <= i < |sets| && 0 <= j < |sets[i]| && sets[i][j] == x;
    assert NonIncreasing(sets[i]);
    if j > 0 {
      assert sets[i][0].timestamp >= sets[i][j].timestamp;
    }
  }

  /** Merging sets that are each newest first gives a ledger that is newest
      first. */
  lemma {:induction false} MergedIsNewestFirst(sets: seq<seq<Record>>)
    requires AllNonEmpty(sets) && AllNonIncreasing(sets)
    ensures NonIncreasing(Merged(sets))
    decreases |Flatten(sets)|
  {
    if |sets| > 0 {
      var m := FirstMax(sets);
      var head := sets[m][0];
      var next := Advance(sets, m);
      AdvanceTakesHead(sets, m);
      AdvanceKeepsSets(sets, m);
      MergedIsNewestFirst(next);
      var rest := Merged(next);
      MergedIsPermutation(next);
      forall x | x in rest
        ensures x.timestamp <= head.timestamp
      {
        assert x in multiset(Flatten(next));
        assert x in multiset(Flatten(sets));
        HeadIsNewest(sets, x);
      }
      var r := [head] + rest;
      assert r == Merged(sets);
      forall i, j | 0 <= i < j < |r|
        ensures r[i].timestamp >= r[j].timestamp
      {
        assert r[j] in rest;
        if i > 0 {
          assert r[i] == rest[i - 1] && r[j] == rest[j - 1];
        }
      }
    }
  }

  /** The scan for the next head: a running maximum that starts at 0 and is
      replaced only by a strictly larger head timestamp. With positive
      timestamps it always settles on a set, and on the first of the sets
      whose head is newest. */
  method ScanHeads(recordSets: seq<seq<Record>>) returns (maxIndex: nat)
    requires |recordSets| > 0 && AllNonEmpty(recordSets) && AllPositive(recordSets)
    ensures maxIndex == FirstMax(recordSets)
  {
    var maxTimestamp := 0;
    var index := -1;  // `undefined` until a head beats the running maximum
    for i := 0 to |recordSets|
      invariant i == 0 ==> index == -1 && maxTimestamp == 0
      invariant i > 0 ==> 0 <= index < i && maxTimestamp == recordSets[index][0].timestamp
      invariant forall j :: 0 <= j < i ==> recordSets[j][0].timestamp <= maxTimestamp
      invariant forall j :: 0 <= j < index ==> recordSets[j][0].timestamp < maxTimestamp
    {
      if recordSets[i][0].timestamp > maxTimestamp {
        maxTimestamp := recordSets[i][0].timestamp;
        index := i;
      }
    }
    maxIndex := index;
    FirstMaxUnique(recordSets, maxIndex);
  }

  /** One round of the merge loop: the head of `FirstMax` comes first, and
      the sets after the `shift` (and, when that empties the set, the
      `splice`) merge into the rest. */
  lemma MergeStep(sets: seq<seq<Record>>, m: nat, shifted: seq<seq<Record>>, after: seq<seq<Record>>)
    requires |sets| > 0 && AllNonEmpty(sets) && AllPositive(sets) && m == FirstMax(sets)
    requires shifted == sets[m := sets[m][1..]]
    requires after == if |shifted[m]| == 0 then shifted[..m] + shifted[m + 1..] else shifted
    ensures AllNonEmpty(after) && AllPositive(after)
    ensures |Flatten(after)| == |Flatten(sets)| - 1
    ensures Merged(sets) == [sets[m][0]] + Merged(after)
  {
    ShiftThenSplice(sets, m, shifted, after);
    AdvanceTakesHead(sets, m);
    AdvanceKeepsSets(sets, m);
  }

  /** One pass of the merge loop: pick the set with `ScanHeads`, `shift`
      its head off and `splice` the set out once it is empty. The record is
      the next one of the merged ledger and the sets left merge into the rest. */
  method TakeNewest(recordSets: seq<seq<Record>>) returns (record: Record, rest: seq<seq<Record>>)
    requires |recordSets| > 0 && AllNonEmpty(recordSets) && AllPositive(recordSets)
    ensures AllNonEmpty(rest) && AllPositive(rest)
    ensures |Flatten(rest)| == |Flatten(recordSets)| - 1
    ensures Merged(recordSets) == [record] + Merged(rest)
  {
    var maxIndex := ScanHeads(recordSets);
    record := recordSets[maxIndex][0];
    rest := recordSets[maxIndex := recordSets[maxIndex][1..]];
    ghost var shifted := rest;
    if |rest[maxIndex]| == 0 {
      rest := rest[..maxIndex] + rest[maxIndex + 1..];
    }
    MergeStep(recordSets, maxIndex, shifted, rest);
  }

  /** The merge loop: while sets remain, emit the newest head. */
  method MergeRecordSets(sets: seq<seq<Record>>) returns (out: seq<Record>)
    requires AllNonEmpty(sets) && AllPositive(sets)
    ensures out == Merged(sets)
    ensures multiset(out) == multiset(Flatten(sets))
    ensures AllNonIncreasing(sets) ==> NonIncreasing(out)
  {
    var recordSets := sets;
    out := [];
    while |recordSets| > 0
      invariant AllNonEmpty(recordSets) && AllPositive(recordSets)
      invariant out + Merged(recordSets) == Merged(sets)
      decreases |Flatten(recordSets)|
    {
      var record;
      record, recordSets := TakeNewest(recordSets);
      out := out + [record];
    }
    MergedIsPermutation(sets);
    if AllNonIncreasing(sets) {
      MergedIsNewestFirst(sets);
    }
  }
}
