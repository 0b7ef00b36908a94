/**
The search for a task in the other workers' queues: the do-while loop that pop_ws of
src/scheduling/mir_sched_pol_ws.c and pop_ws_de of src/scheduling/mir_sched_pol_ws_de.c
share. Worker identifiers and the loop counter are 16-bit words.
*/
module VictimScan {
  import opened Wrappers

  /** The queue visited after k others by worker id. */
  function Victim(id: nat, k: nat, n: nat): nat {
    if id + k < n then id + k else id + k - n
  }

  /** When worker id visits queue v. */
  function Turn(id: nat, v: nat, n: nat): nat
    requires id < n
  {
    if v >= id then v - id else v + n - id
  }

  /** The cyclic order visits each of the n queues once. */
  lemma EachVictimOnce(id: nat, n: nat, v: nat, k: nat)
    requires id < n && v < n && k < n
    ensures Turn(id, v, n) < n && Victim(id, Turn(id, v, n), n) == v
    ensures Victim(id, k, n) == v <==> k == Turn(id, v, n)
  {
  }

  /** The counter at the top of the loop, before it is wrapped around. */
  predicate Counter(ctr: nat, id: nat, k: nat, n: nat) {
    && (id + k < n ==> ctr == id + k)
    && (id + k == n ==> ctr == n % UINT16)
    && (id + k > n ==> ctr == id + k - n)
    && (k == n ==> id == 0 && n < UINT16)
  }

  /** One increment of the counter: the next victim, or back at the start. */
  lemma NextCounter(ctr: nat, id: nat, k: nat, n: nat)
    requires id < n <= UINT16 && k < n && ctr == Victim(id, k, n)
    ensures var next := (ctr + 1) % UINT16;
      if next == id then k + 1 == n else Counter(next, id, k + 1, n)
  {
  }

  /**
  The loop, with each queue's answer given: whatever other workers do meanwhile, the k-th
  queue asked either has a task for this worker or does not.
  */
  method Scan(n: nat, id: nat, answers: nat -> bool) returns (visited: seq<nat>, found: bool)
    requires id < n <= UINT16
    ensures |visited| <= n && forall k :: 0 <= k < |visited| ==> visited[k] == Victim(id, k, n)
    ensures forall j, k :: 0 <= j < k < |visited| ==> visited[j] != visited[k]
    ensures found ==> visited != [] && answers(|visited| - 1)
    ensures forall k :: 0 <= k < (if found then |visited| - 1 else |visited|) ==> !answers(k)
    ensures !found ==> forall v :: 0 <= v < n ==> v in visited
  {
    visited, found := [], false;
    var ctr: nat := id;
    while true
      invariant |visited| <= n && Counter(ctr, id, |visited|, n)
      invariant forall k :: 0 <= k < |visited| ==> visited[k] == Victim(id, k, n) && !answers(k)
      decreases n - |visited|
    {
      if ctr == n {
        if id == 0 {
          break;
        }
        ctr := 0;
      }
      visited := visited + [ctr];
      if answers(|visited| - 1) {
        found := true;
        return;
      }
      NextCounter(ctr, id, |visited| - 1, n);
      ctr := (ctr + 1) % UINT16;
      if ctr == id { break; }
    }
    forall v | 0 <= v < n
      ensures v in visited
    {
      EachVictimOnce(id, n, v, 0);
      assert visited[Turn(id, v, n)] == v;
    }
  }
}
