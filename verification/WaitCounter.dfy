/** The task wait counter of src/mir_twc.c and the loops over its slots in src/mir_task.c. */
module WaitCounter {
  import opened ForkJoinInvariant

  class WaitCounter {
    var count: nat
    const countPerWorker: array<nat>

    /** How many tasks have been counted as finished. */
    ghost function Finished(): nat
      reads countPerWorker
    {
      SumTo(countPerWorker[..], countPerWorker.Length)
    }

    /** mir_twc_create */
    constructor (workers: nat)
      ensures count == 0 && fresh(countPerWorker) && countPerWorker.Length == workers
      ensures forall i :: 0 <= i < workers ==> countPerWorker[i] == 0
    {
      count := 0;
      countPerWorker := new nat[workers](_ => 0);
    }

    /** mir_twc_reduce: the sum of the slots against the counter. */
    method Reduce() returns (passed: bool)
      requires Finished() <= count
      ensures passed == (Finished() == count)
    {
      var sum := 0;
      for i := 0 to countPerWorker.Length
        invariant sum == SumTo(countPerWorker[..], i)
      {
        sum := sum + countPerWorker[i];
      }
      assert sum <= count;
      if sum < count {
        return false;
      } else {
        return true;
      }
    }

    /** The end of mir_task_wait_int. */
    method Reset(newval: nat)
      modifies this, countPerWorker
      ensures count == newval
      ensures forall i :: 0 <= i < countPerWorker.Length ==> countPerWorker[i] == 0
      ensures Finished() == 0
    {
      count := newval;
      for i := 0 to countPerWorker.Length
        invariant count == newval
        invariant forall j :: 0 <= j < i ==> countPerWorker[j] == 0
      {
        countPerWorker[i] := 0;
      }
      SumOfZeros(countPerWorker[..], countPerWorker.Length);
    }

    /** __sync_fetch_and_add of mir_task_create_common: a wait can no longer pass. */
    method Bump()
      modifies this
      ensures count == old(count) + 1
      ensures old(Finished() <= count) ==> Finished() < count
    {
      count := count + 1;
    }

    /** The slot increment of mir_task_execute_epilog by worker w. */
    method Finish(w: nat)
      requires w < countPerWorker.Length
      modifies countPerWorker
      ensures countPerWorker[..] == old(countPerWorker[..])[w := old(countPerWorker[w]) + 1]
      ensures Finished() == old(Finished()) + 1
    {
      ghost var before := countPerWorker[..];
      countPerWorker[w] := countPerWorker[w] + 1;
      assert countPerWorker[..] == before[w := before[w] + 1];
      SumOfBumped(before, w, |before|);
    }
  }

  lemma {:induction false} SumOfZeros(slots: seq<nat>, n: nat)
    requires n <= |slots| && forall i :: 0 <= i < |slots| ==> slots[i] == 0
    ensures SumTo(slots, n) == 0
  {
    if n > 0 {
      SumOfZeros(slots, n - 1);
    }
  }

  lemma {:induction false} SumOfBumped(slots: seq<nat>, w: nat, n: nat)
    requires w < |slots| && n <= |slots|
    ensures SumTo(slots[w := slots[w] + 1], n) == SumTo(slots, n) + (if w < n then 1 else 0)
  {
    if n > 0 {
      SumOfBumped(slots, w, n - 1);
    }
  }
}
