/**
The policies ws and ws-de of src/scheduling as objects, their bodies run without
interference. A queue stands for its contents, oldest first, and changes as the contracts
of `Queue.BoundedQueue` and `Deque.WSDeque` say. What interference can do is the subject
of `Policy`.
*/
module WsPolicy {
  import opened Wrappers
  import opened VictimScan
  import opened PolicyMachine

  /** The tasks in all queues. */
  function Queued(qs: seq<seq<Task>>): nat {
    Total(qs, Length())
  }

  /** The copies of a task in all queues. */
  function Copies(qs: seq<seq<Task>>, t: Task): nat {
    Total(qs, Occurrences(t))
  }

  /** The scan of worker id finds its first task at its k-th victim. */
  predicate FirstAt(qs: seq<seq<Task>>, id: nat, k: nat)
    requires id < |qs|
  {
    k < |qs| && qs[Victim(id, k, |qs|)] != [] && NoneBefore(qs, id, k)
  }

  predicate NoneBefore(qs: seq<seq<Task>>, id: nat, k: nat)
    requires id < |qs| && k <= |qs|
  {
    forall j :: 0 <= j < k ==> qs[Victim(id, j, |qs|)] == []
  }

  /** A scan that finds nothing has seen every queue. */
  lemma NoneIsNone(qs: seq<seq<Task>>, id: nat)
    requires id < |qs| && NoneBefore(qs, id, |qs|)
    ensures forall v :: 0 <= v < |qs| ==> qs[v] == []
  {
    forall v | 0 <= v < |qs|
      ensures qs[v] == []
    {
      EachVictimOnce(id, |qs|, v, 0);
      assert qs[Victim(id, Turn(id, v, |qs|), |qs|)] == [];
    }
  }

  lemma OneFewer(qs: seq<seq<Task>>, v: nat)
    requires v < |qs| && qs[v] != []
    ensures (Queued(qs) % WORD + WORD - 1) % WORD == Queued(qs[v := qs[v][1..]]) % WORD
  {
    TotalUpdate(qs, v, qs[v][1..], Length());
  }

  lemma OneMore(qs: seq<seq<Task>>, v: nat, task: Task)
    requires v < |qs|
    ensures (Queued(qs) % WORD + 1) % WORD == Queued(qs[v := qs[v] + [task]]) % WORD
  {
    TotalUpdate(qs, v, qs[v] + [task], Length());
  }

  /** push_ws and pop_ws: one bounded queue per worker. */
  class Ws {
    const capacity: nat
    var queues: seq<seq<Task>>
    var waiting: nat                    // g_num_tasks_waiting

    predicate Valid()
      reads this
    {
      && |queues| <= UINT16
      && (forall q :: 0 <= q < |queues| ==> |queues[q]| <= capacity)
      && waiting == Queued(queues) % WORD
    }

    /** create_ws */
    constructor (workers: nat, size: nat)
      requires workers <= UINT16
      ensures Valid() && capacity == size && |queues| == workers
      ensures forall q :: 0 <= q < workers ==> queues[q] == []
    {
      capacity := size;
      queues := seq(workers, _ => []);
      waiting := 0;
      new;
      TotalOfNone(queues, Length());
    }

    /** push_ws: onto the worker's own queue; a refused task is for the caller to run at once. */
    method Push(id: nat, task: Task) returns (pushed: bool)
      requires Valid() && id < |queues|
      modifies this
      ensures Valid()
      ensures pushed == (|old(queues)[id]| < capacity)
      ensures queues == if pushed then old(queues)[id := old(queues)[id] + [task]] else old(queues)
    {
      if |queues[id]| == capacity {
        return false;
      }
      OneMore(queues, id, task);
      queues := queues[id := queues[id] + [task]];
      waiting := (waiting + 1) % WORD;
      return true;
    }

    /** pop_ws: the oldest task of the first non-empty queue, beginning with the worker's own. */
    method Pop(id: nat) returns (task: Option<Task>)
      requires Valid() && id < |queues|
      modifies this
      ensures Valid()
      ensures task == None ==> queues == old(queues) && forall q :: 0 <= q < |queues| ==> queues[q] == []
      ensures task.Some? ==> exists k: nat :: PopsOldest(old(queues), id, k, task.value, queues)
    {
      var n := |queues|;
      var ctr: nat := id;
      ghost var k := 0;
      while true
        invariant queues == old(queues) && waiting == old(waiting)
        invariant k <= n && Counter(ctr, id, k, n) && NoneBefore(queues, id, k)
        decreases n - k
      {
        if ctr == n {
          if id == 0 {
            break;
          }
          ctr := 0;
        }
        if queues[ctr] != [] {
          task := Some(queues[ctr][0]);
          OneFewer(queues, ctr);
          queues := queues[ctr := queues[ctr][1..]];
          waiting := (waiting + WORD - 1) % WORD;
          assert PopsOldest(old(queues), id, k, task.value, queues);
          return;
        }
        NextCounter(ctr, id, k, n);
        k := k + 1;
        ctr := (ctr + 1) % UINT16;
        if ctr == id { break; }
      }
      NoneIsNone(queues, id);
      return None;
    }
  }

  /** From the k-th victim, the first with a task, the oldest task. */
  predicate PopsOldest(qs: seq<seq<Task>>, id: nat, k: nat, task: Task, qs': seq<seq<Task>>)
    requires id < |qs|
  {
    FirstAt(qs, id, k) &&
    var v := Victim(id, k, |qs|);
    task == qs[v][0] && qs' == qs[v := qs[v][1..]]
  }

  // ----- ws-de ------------------------------------------------------------------------------------

  datatype Found = Found(task: Option<Task>, queues: seq<seq<Task>>)

  /** What worker id removes from queue v: its own newest task, another's oldest. */
  function Removed(q: seq<Task>, own: bool): (Task, seq<Task>)
    requires q != []
  {
    if own then (q[|q| - 1], q[..|q| - 1]) else (q[0], q[1..])
  }

  /** The scan from the k-th victim on: tasks already taken are dropped, and the scan goes on. */
  function ScanFrom(qs: seq<seq<Task>>, taken: set<Task>, id: nat, k: nat): (f: Found)
    requires id < |qs| && k <= |qs|
    ensures |f.queues| == |qs|
    decreases |qs| - k
  {
    if k == |qs| then Found(None, qs)
    else
      var v := Victim(id, k, |qs|);
      if qs[v] == [] then ScanFrom(qs, taken, id, k + 1)
      else
        var (t, rest) := Removed(qs[v], v == id);
        var qs' := qs[v := rest];
        if t in taken then ScanFrom(qs', taken, id, k + 1) else Found(Some(t), qs')
  }

  lemma RemovedCopies(q: seq<Task>, own: bool, t: Task)
    requires q != []
    ensures multiset(q)[t] == multiset(Removed(q, own).1)[t] + (if Removed(q, own).0 == t then 1 else 0)
  {
    var n := |q| - 1;
    assert q == q[..n] + [q[n]] && q == [q[0]] + q[1..];
  }

  /**
  Over any contents: a task found was not taken and leaves one copy fewer, and no task that
  is not taken loses a copy otherwise.
  */
  lemma {:induction false} ScanKeeps(qs: seq<seq<Task>>, taken: set<Task>, id: nat, k: nat, t: Task)
    requires id < |qs| && k <= |qs|
    ensures var f := ScanFrom(qs, taken, id, k);
      && (f.task.Some? ==> f.task.value !in taken)
      && (t !in taken ==> Copies(f.queues, t) + (if f.task == Some(t) then 1 else 0) == Copies(qs, t))
    decreases |qs| - k
  {
    if k < |qs| {
      var v := Victim(id, k, |qs|);
      if qs[v] == [] {
        ScanKeeps(qs, taken, id, k + 1, t);
      } else {
        var (x, rest) := Removed(qs[v], v == id);
        RemovedCopies(qs[v], v == id, t);
        TotalUpdate(qs, v, rest, Occurrences(t));
        if x in taken {
          ScanKeeps(qs[v := rest], taken, id, k + 1, t);
        }
      }
    }
  }

  /** The task of queue v that worker id comes upon: the last of its own, the first of another's. */
  function Reached(qs: seq<seq<Task>>, id: nat, v: nat): Task
    requires v < |qs| && qs[v] != []
  {
    if v == id then qs[v][|qs[v]| - 1] else qs[v][0]
  }

  /** Queue v has nothing for worker id: it is empty, or comes up with a task already taken. */
  predicate Blocked(qs: seq<seq<Task>>, taken: set<Task>, id: nat, v: nat)
    requires v < |qs|
  {
    qs[v] == [] || Reached(qs, id, v) in taken
  }

  /** From the k-th victim on, the j-th is the first that has something, and that is the task. */
  predicate FirstFree(qs: seq<seq<Task>>, taken: set<Task>, id: nat, k: nat, j: nat, task: Task)
    requires id < |qs|
  {
    && k <= j < |qs|
    && (forall i: nat :: k <= i < j ==> Blocked(qs, taken, id, Victim(id, i, |qs|)))
    && !Blocked(qs, taken, id, Victim(id, j, |qs|))
    && task == Reached(qs, id, Victim(id, j, |qs|))
  }

  /** Whatever the deques hold, a taken task only sends the scan on to the next victim. */
  lemma {:induction false} ScanGoesOn(qs: seq<seq<Task>>, taken: set<Task>, id: nat, k: nat)
    requires id < |qs| && k <= |qs|
    ensures var f := ScanFrom(qs, taken, id, k);
      && (f.task.None? <==> forall j: nat :: k <= j < |qs| ==> Blocked(qs, taken, id, Victim(id, j, |qs|)))
      && (f.task.Some? ==> exists j: nat :: FirstFree(qs, taken, id, k, j, f.task.value))
    decreases |qs| - k
  {
    if k < |qs| {
      var v := Victim(id, k, |qs|);
      var qs' := if qs[v] == [] then qs else qs[v := Removed(qs[v], v == id).1];
      if Blocked(qs, taken, id, v) {
        ScanGoesOn(qs', taken, id, k + 1);
        forall j: nat | k < j < |qs|
          ensures qs'[Victim(id, j, |qs|)] == qs[Victim(id, j, |qs|)]
        {
          EachVictimOnce(id, |qs|, v, j);
          EachVictimOnce(id, |qs|, v, k);
        }
        var f := ScanFrom(qs', taken, id, k + 1);
        if f.task.Some? {
          var j: nat :| FirstFree(qs', taken, id, k + 1, j, f.task.value);
          assert FirstFree(qs, taken, id, k, j, f.task.value);
        }
      } else {
        assert FirstFree(qs, taken, id, k, k, Reached(qs, id, v));
      }
    }
  }

  lemma EveryVictimBlocked(qs: seq<seq<Task>>, taken: set<Task>, id: nat)
    requires id < |qs|
    ensures (forall j: nat :: j < |qs| ==> Blocked(qs, taken, id, Victim(id, j, |qs|)))
       <==> (forall v: nat :: v < |qs| ==> Blocked(qs, taken, id, v))
  {
    if forall j: nat :: j < |qs| ==> Blocked(qs, taken, id, Victim(id, j, |qs|)) {
      forall v: nat | v < |qs|
        ensures Blocked(qs, taken, id, v)
      {
        EachVictimOnce(id, |qs|, v, 0);
        assert Blocked(qs, taken, id, Victim(id, Turn(id, v, |qs|), |qs|));
      }
    }
  }

  /** No queue holds a taken task. */
  predicate Fresh(qs: seq<seq<Task>>, taken: set<Task>) {
    forall q, i :: 0 <= q < |qs| && 0 <= i < |qs[q]| ==> qs[q][i] !in taken
  }

  /**
  Over trusted deques: the worker's own newest task if it has one, otherwise the oldest task of
  the first non-empty deque of another, and nothing only when all deques are empty.
  */
  lemma {:induction false} ScanFinds(qs: seq<seq<Task>>, taken: set<Task>, id: nat, k: nat)
    requires id < |qs| && k <= |qs| && Fresh(qs, taken) && NoneBefore(qs, id, k)
    ensures var f := ScanFrom(qs, taken, id, k);
      && (qs[id] != [] ==>
            && f.task == Some(qs[id][|qs[id]| - 1])
            && f.queues == qs[id := qs[id][..|qs[id]| - 1]])
      && (qs[id] == [] && f.task.Some? ==> exists j: nat :: PopsOldest(qs, id, j, f.task.value, f.queues))
      && (f.task.None? ==> f.queues == qs && forall q :: 0 <= q < |qs| ==> qs[q] == [])
    decreases |qs| - k
  {
    assert qs[id] != [] ==> k == 0 by {
      assert k > 0 ==> qs[Victim(id, 0, |qs|)] == [];
    }
    if k == |qs| {
      NoneIsNone(qs, id);
    } else {
      var v := Victim(id, k, |qs|);
      if qs[v] == [] {
        ScanFinds(qs, taken, id, k + 1);
      } else {
        var (x, rest) := Removed(qs[v], v == id);
        assert x !in taken;
        assert ScanFrom(qs, taken, id, k) == Found(Some(x), qs[v := rest]);
        if v != id {
          assert PopsOldest(qs, id, k, x, qs[v := rest]);
        }
      }
    }
  }

  /** Every task is at most once in the deques, and not if it has been taken. */
  ghost predicate Trusted(qs: seq<seq<Task>>, taken: set<Task>) {
    forall t: Task :: TrustedTask(qs, taken, t)
  }

  predicate TrustedTask(qs: seq<seq<Task>>, taken: set<Task>, t: Task) {
    Copies(qs, t) <= if t in taken then 0 else 1
  }

  lemma TrustedIsFresh(qs: seq<seq<Task>>, taken: set<Task>)
    requires Trusted(qs, taken)
    ensures Fresh(qs, taken)
  {
    forall q, i | 0 <= q < |qs| && 0 <= i < |qs[q]|
      ensures qs[q][i] !in taken
    {
      assert TrustedTask(qs, taken, qs[q][i]);
      TotalHolds(qs, q, Occurrences(qs[q][i]));
    }
  }

  lemma PushTrusted(qs: seq<seq<Task>>, taken: set<Task>, id: nat, task: Task)
    requires Trusted(qs, taken) && id < |qs| && Copies(qs, task) == 0 && task !in taken
    ensures Trusted(qs[id := qs[id] + [task]], taken)
    ensures Queued(qs[id := qs[id] + [task]]) == Queued(qs) + 1
  {
    var qs' := qs[id := qs[id] + [task]];
    TotalUpdate(qs, id, qs[id] + [task], Length());
    forall t: Task
      ensures TrustedTask(qs', taken, t)
    {
      assert TrustedTask(qs, taken, t);
      TotalUpdate(qs, id, qs[id] + [task], Occurrences(t));
    }
  }

  lemma WordDown(n: nat)
    ensures (n % WORD + WORD - 1) % WORD == (n - 1) % WORD
  {
  }

  /** A scan over trusted deques leaves them trusted, and one task shorter if it finds one. */
  lemma ScanTrusted(qs: seq<seq<Task>>, taken: set<Task>, id: nat)
    requires Trusted(qs, taken) && id < |qs|
    ensures var f := ScanFrom(qs, taken, id, 0);
      && Trusted(f.queues, taken + (if f.task.Some? then {f.task.value} else {}))
      && Queued(f.queues) == Queued(qs) - (if f.task.Some? then 1 else 0)
      && forall q :: 0 <= q < |qs| ==> |f.queues[q]| <= |qs[q]|
  {
    TrustedIsFresh(qs, taken);
    ScanFinds(qs, taken, id, 0);
    var f := ScanFrom(qs, taken, id, 0);
    var taken' := taken + (if f.task.Some? then {f.task.value} else {});
    var qs' := f.queues;
    forall t: Task
      ensures TrustedTask(qs', taken', t)
    {
      assert TrustedTask(qs, taken, t);
      ScanKeeps(qs, taken, id, 0, t);
      if t in taken {
        ScanAddsNone(qs, taken, id, 0, t);
      }
    }
    if f.task.Some? {
      if qs[id] != [] {
        TotalUpdate(qs, id, f.queues[id], Length());
      } else {
        var j: nat :| PopsOldest(qs, id, j, f.task.value, f.queues);
        var v := Victim(id, j, |qs|);
        TotalUpdate(qs, v, f.queues[v], Length());
      }
    }
  }

  lemma {:induction false} ScanAddsNone(qs: seq<seq<Task>>, taken: set<Task>, id: nat, k: nat, t: Task)
    requires id < |qs| && k <= |qs|
    ensures Copies(ScanFrom(qs, taken, id, k).queues, t) <= Copies(qs, t)
    decreases |qs| - k
  {
    if k < |qs| {
      var v := Victim(id, k, |qs|);
      if qs[v] == [] {
        ScanAddsNone(qs, taken, id, k + 1, t);
      } else {
        var (x, rest) := Removed(qs[v], v == id);
        RemovedCopies(qs[v], v == id, t);
        TotalUpdate(qs, v, rest, Occurrences(t));
        if x in taken {
          ScanAddsNone(qs[v := rest], taken, id, k + 1, t);
        }
      }
    }
  }

  /** Over deques that hand out each task once, the counter is the number of queued tasks. */
  ghost predicate Sound(capacity: nat, qs: seq<seq<Task>>, taken: set<Task>, waiting: nat) {
    && |qs| <= UINT16
    && (forall q :: 0 <= q < |qs| ==> |qs[q]| <= capacity)
    && Trusted(qs, taken)
    && waiting == Queued(qs) % WORD
  }

  lemma ScanSound(capacity: nat, qs: seq<seq<Task>>, taken: set<Task>, waiting: nat, id: nat)
    requires Sound(capacity, qs, taken, waiting) && id < |qs|
    ensures match ScanFrom(qs, taken, id, 0)
      case Found(None, qs') => Sound(capacity, qs', taken, waiting)
      case Found(Some(t), qs') => Sound(capacity, qs', taken + {t}, (waiting + WORD - 1) % WORD)
  {
    ScanTrusted(qs, taken, id);
    WordDown(Queued(qs));
    assert taken + {} == taken;
  }

  /** push_ws_de and pop_ws_de: one deque per worker, and the `taken` flag of each task. */
  class WsDe {
    const capacity: nat                 // of each deque: one less than its size
    var queues: seq<seq<Task>>
    var taken: set<Task>
    var waiting: nat                    // g_num_tasks_waiting

    ghost predicate Valid()
      reads this
    {
      Sound(capacity, queues, taken, waiting)
    }

    /** create_ws_de */
    constructor (workers: nat, size: nat)
      requires workers <= UINT16
      ensures Valid() && capacity == size && |queues| == workers
      ensures forall t :: Copies(queues, t) == 0 && t !in taken
    {
      capacity := size;
      queues := seq(workers, _ => []);
      taken := {};
      waiting := 0;
      new;
      TotalOfNone(queues, Length());
      forall t: Task
        ensures Copies(queues, t) == 0
      {
        TotalOfNone(queues, Occurrences(t));
      }
    }

    /** push_ws_de */
    method Push(id: nat, task: Task) returns (pushed: bool)
      requires id < |queues| && |queues[id]| <= capacity
      modifies this`queues, this`waiting
      ensures pushed == (|old(queues)[id]| < capacity)
      ensures queues == if pushed then old(queues)[id := old(queues)[id] + [task]] else old(queues)
      ensures waiting == if pushed then (old(waiting) + 1) % WORD else old(waiting)
      ensures old(Valid()) && Copies(old(queues), task) == 0 && task !in taken ==> Valid()
    {
      if |queues[id]| == capacity {
        return false;
      }
      if Valid() && Copies(queues, task) == 0 && task !in taken {
        PushTrusted(queues, taken, id, task);
      }
      queues := queues[id := queues[id] + [task]];
      waiting := (waiting + 1) % WORD;
      return true;
    }

    /**
    pop_ws_de, whatever the deques hold. Over trusted ones the counter stays right, the worker
    takes its own newest task, and only without one of its own another's oldest; over others a
    deque that comes up with a taken task is passed by.
    */
    method Pop(id: nat) returns (task: Option<Task>)
      requires id < |queues| <= UINT16
      modifies this
      ensures ScanFrom(old(queues), old(taken), id, 0) == Found(task, queues)
      ensures taken == old(taken) + (if task.Some? then {task.value} else {})
      ensures waiting == if task.Some? then (old(waiting) + WORD - 1) % WORD else old(waiting)
      ensures task.None? <==> forall v: nat :: v < |queues| ==> Blocked(old(queues), old(taken), id, v)
      ensures task.Some? ==> exists j: nat :: FirstFree(old(queues), old(taken), id, 0, j, task.value)
      ensures old(Valid()) ==> Valid()
      ensures old(Valid()) && old(queues)[id] != [] ==>
        var q := old(queues)[id];
        task == Some(q[|q| - 1]) && queues == old(queues)[id := q[..|q| - 1]]
      ensures old(Valid()) && old(queues)[id] == [] && task.Some? ==>
        exists j: nat :: PopsOldest(old(queues), id, j, task.value, queues)
      ensures old(Valid()) && task.None? ==>
        queues == old(queues) && forall q :: 0 <= q < |queues| ==> queues[q] == []
    {
      if Valid() {
        ScanSound(capacity, queues, taken, waiting, id);
        TrustedIsFresh(queues, taken);
        ScanFinds(queues, taken, id, 0);
      }
      ScanGoesOn(queues, taken, id, 0);
      EveryVictimBlocked(queues, taken, id);
      task := Scan(id);
      assert taken + {} == taken;
    }

    /** Its loop. */
    method Scan(id: nat) returns (task: Option<Task>)
      requires id < |queues| <= UINT16
      modifies this
      ensures ScanFrom(old(queues), old(taken), id, 0) == Found(task, queues)
      ensures taken == old(taken) + (if task.Some? then {task.value} else {})
      ensures waiting == if task.Some? then (old(waiting) + WORD - 1) % WORD else old(waiting)
    {
      var n := |queues|;
      var ctr: nat := id;
      ghost var k := 0;
      while true
        invariant |queues| == n && taken == old(taken) && waiting == old(waiting)
        invariant k <= n && Counter(ctr, id, k, n)
        invariant ScanFrom(old(queues), taken, id, 0) == ScanFrom(queues, taken, id, k)
        decreases n - k
      {
        if ctr == n {
          if id == 0 {
            break;
          }
          ctr := 0;
        }
        if queues[ctr] != [] {
          var (t, rest) := Removed(queues[ctr], ctr == id);
          queues := queues[ctr := rest];
          if t !in taken {
            taken := taken + {t};
            waiting := (waiting + WORD - 1) % WORD;
            return Some(t);
          }
        }
        NextCounter(ctr, id, k, n);
        k := k + 1;
        ctr := (ctr + 1) % UINT16;
        if ctr == id { break; }
      }
      return None;
    }
  }
}
