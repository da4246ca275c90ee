/**
 * The metrics checkpoints of readBulkRequest: rowsIngestedTotal is not
 * bumped per row but by deltas n - nCheckpoint. Policy AsWritten is the
 * condition of the loop, n >= 1000; Policy Intended is batchSize >= 1000,
 * the condition the variable batchSize was computed for.
 */
module Checkpoints {

  /** The row count at which the loop starts checkpointing. */
  const CheckpointRows: nat := 1000

  datatype Policy = AsWritten | Intended

  /** Whether the loop checkpoints once row n is counted, nCheckpoint being c. */
  predicate ShouldCheckpoint(policy: Policy, n: nat, c: nat)
  {
    match policy
    case AsWritten => n >= CheckpointRows
    case Intended => n - c >= CheckpointRows
  }

  /** nCheckpoint after n rows. */
  function CheckpointAfter(policy: Policy, n: nat): nat
  {
    if n == 0 then 0
    else
      var c := CheckpointAfter(policy, n - 1);
      if ShouldCheckpoint(policy, n, c) then n else c
  }

  /** The deltas added inside the loop while n rows were counted. */
  function LoopAdds(policy: Policy, n: nat): seq<int>
  {
    if n == 0 then []
    else
      var c := CheckpointAfter(policy, n - 1);
      LoopAdds(policy, n - 1) + (if ShouldCheckpoint(policy, n, c) then [n - c] else [])
  }

  /**
   * The loop's bookkeeping for row n + 1: with adds the counter's deltas so
   * far and c the last checkpoint, a checkpoint appends n + 1 - c and moves c
   * to n + 1, and otherwise nothing changes.
   */
  lemma {:induction false} CountOneMore(policy: Policy, base: seq<int>, adds: seq<int>, n: nat, c: nat)
    requires adds == base + LoopAdds(policy, n) && c == CheckpointAfter(policy, n)
    ensures ShouldCheckpoint(policy, n + 1, c) ==>
      adds + [n + 1 - c] == base + LoopAdds(policy, n + 1) && CheckpointAfter(policy, n + 1) == n + 1
    ensures !ShouldCheckpoint(policy, n + 1, c) ==>
      adds == base + LoopAdds(policy, n + 1) && CheckpointAfter(policy, n + 1) == c
  {
    assert LoopAdds(policy, n) + [] == LoopAdds(policy, n);
  }

  /** The delta added when the loop ends after n rows completes IngestedAdds. */
  lemma {:induction false} CountFinal(policy: Policy, base: seq<int>, adds: seq<int>, n: nat, c: nat)
    requires adds == base + LoopAdds(policy, n) && c == CheckpointAfter(policy, n)
    ensures adds + [n - c] == base + IngestedAdds(policy, n)
  {
    assert adds + [n - c] == base + (LoopAdds(policy, n) + [n - c]);
  }

  /** Every delta one readBulkRequest adds when n rows were decoded: the loop's, then the final one. */
  function IngestedAdds(policy: Policy, n: nat): seq<int>
  {
    LoopAdds(policy, n) + [n - CheckpointAfter(policy, n)]
  }

  function Sum(s: seq<int>): int
  {
    if s == [] then 0 else Sum(s[..|s| - 1]) + s[|s| - 1]
  }

  lemma SumAppend(s: seq<int>, t: seq<int>)
    ensures Sum(s + t) == Sum(s) + Sum(t)
    decreases |t|
  {
    if t != [] {
      var u := t[..|t| - 1];
      assert (s + t)[..|s + t| - 1] == s + u;
      SumAppend(s, u);
      assert Sum(s + t) == Sum(s + u) + t[|t| - 1];
    } else {
      assert s + t == s;
    }
  }

  /** The checkpoints telescope: what the loop added so far is nCheckpoint, which never exceeds n. */
  lemma {:induction false} LoopAddsSum(policy: Policy, n: nat)
    ensures Sum(LoopAdds(policy, n)) == CheckpointAfter(policy, n) <= n
  {
    if n > 0 {
      LoopAddsSum(policy, n - 1);
      var c := CheckpointAfter(policy, n - 1);
      var d := if ShouldCheckpoint(policy, n, c) then [n - c] else [];
      SumAppend(LoopAdds(policy, n - 1), d);
    }
  }

  /** Under either policy the counter grows by exactly the number of rows decoded. */
  lemma IngestedAddsSum(policy: Policy, n: nat)
    ensures Sum(IngestedAdds(policy, n)) == n
  {
    LoopAddsSum(policy, n);
    SumAppend(LoopAdds(policy, n), [n - CheckpointAfter(policy, n)]);
  }

  /**
   * As written, once 1000 rows are counted every further row is its own
   * checkpoint: the loop adds 1000 and then 1 per row, and the final delta
   * is 0.
   */
  lemma {:induction false} AsWrittenCheckpointsEveryRow(n: nat)
    ensures CheckpointAfter(AsWritten, n) == if n >= CheckpointRows then n else 0
    ensures LoopAdds(AsWritten, n) ==
      if n < CheckpointRows then [] else [1000] + seq(n - CheckpointRows, _ => 1)
  {
    if n > 0 {
      AsWrittenCheckpointsEveryRow(n - 1);
      if n > CheckpointRows {
        assert [1000] + seq(n - 1 - CheckpointRows, _ => 1) + [1] == [1000] + seq(n - CheckpointRows, _ => 1);
      }
    }
  }

  /** 2500 rows cost 1502 counter updates as written. */
  lemma AsWrittenUpdatesFor2500Rows()
    ensures |IngestedAdds(AsWritten, 2500)| == 1502
  {
    AsWrittenCheckpointsEveryRow(2500);
  }

  /**
   * With batchSize >= 1000 the checkpoints fall on the multiples of 1000,
   * each adding exactly 1000.
   */
  lemma {:induction false} IntendedCheckpointsAtMultiples(n: nat)
    ensures CheckpointAfter(Intended, n) == n - n % CheckpointRows
    ensures |LoopAdds(Intended, n)| == n / CheckpointRows
    ensures forall k :: 0 <= k < |LoopAdds(Intended, n)| ==> LoopAdds(Intended, n)[k] == CheckpointRows
  {
    if n > 0 {
      IntendedCheckpointsAtMultiples(n - 1);
      var m := n - 1;
      assert m == 1000 * (m / 1000) + m % 1000;
      if m % 1000 == 999 {
        assert n == 1000 * (m / 1000 + 1);
        assert n % 1000 == 0 && n / 1000 == m / 1000 + 1;
      } else {
        assert n == 1000 * (m / 1000) + (m % 1000 + 1);
        assert n % 1000 == m % 1000 + 1 && n / 1000 == m / 1000;
      }
    }
  }

  /** So every delta lies within 0..1000 and there are n / 1000 + 1 of them. */
  lemma IntendedCheckpointsEvery1000(n: nat)
    ensures |IngestedAdds(Intended, n)| == n / CheckpointRows + 1
    ensures forall k :: 0 <= k < |IngestedAdds(Intended, n)| ==> 0 <= IngestedAdds(Intended, n)[k] <= CheckpointRows
  {
    IntendedCheckpointsAtMultiples(n);
  }

  /** 2500 rows cost 3 counter updates with the intended condition: 1000, 1000 and 500. */
  lemma IntendedUpdatesFor2500Rows()
    ensures |IngestedAdds(Intended, 2500)| == 3
  {
    IntendedCheckpointsEvery1000(2500);
  }
}
