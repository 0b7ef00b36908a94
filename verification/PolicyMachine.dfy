/**
Tasks on their way through a scheduling policy, as a state machine: push_ws, pop_ws,
push_ws_de, pop_ws_de, mir_worker_push, mir_worker_pop and mir_worker_do_work, with the two
global counters that mir_worker_check_done reads.

The queues themselves are atomic here (see the machines of the deque and of the two-lock
queue); removing takes any element, which covers pops, steals and private queues. Every
change of a counter and every compare-and-swap of `taken` is a step of its own. A task is
handed to the policy once; executing one may hand out more, and a worker that waits inside a
task may start others, so that each worker has a stack of started tasks.

A second step relation adds a deque that may hand out any accepted task again.
*/
module PolicyMachine {
  import opened Wrappers

  type Task = nat

  datatype Pc =
    | Ready
    | Counting(t: Task)                 // pushed, g_num_tasks_waiting not yet raised
    | Holding(t: Task)                  // removed from a queue, `taken` not yet tried
    | Claimed(t: Task)                  // `taken` set, g_num_tasks_waiting not yet lowered
    | Raising(t: Task)                  // lowered, g_worker_status_board not yet raised
    | Leaving                           // executed, g_worker_status_board not yet lowered

  datatype Frame =
    | Work(t: Task)                     // started by mir_worker_do_work
    | Inline(t: Task)                   // started by a push that was refused

  datatype Worker = Worker(pc: Pc, frames: seq<Frame>)

  datatype State = State(
    capacity: nat,
    queues: seq<seq<Task>>,
    workers: seq<Worker>,
    waiting: nat,                       // g_num_tasks_waiting
    board: nat,                         // g_worker_status_board
    taken: set<Task>,                   // tasks whose `taken` is 1
    handed: set<Task>,                  // history: handed to a push
    accepted: set<Task>,                // history: accepted by a queue
    done: set<Task>,                    // history: accepted and executed
    inlined: set<Task>)                 // history: refused and executed by its pusher

  datatype Action =
    | Push(i: nat, q: nat, t: Task)
    | Take(i: nat, q: nat, k: nat)
    | TakeAgain(i: nat, t: Task)        // only over a deque that is not trusted
    | Go(i: nat)

  datatype Event =
    | Silent
    | Accept(t: Task)
    | RunInline(t: Task)
    | Claim(t: Task)
    | Drop(t: Task)

  function Last(fs: seq<Frame>): Frame
    requires fs != []
  {
    fs[|fs| - 1]
  }

  predicate Enabled(s: State, a: Action) {
    a.i < |s.workers| &&
    match a
    case Push(i, q, t) => s.workers[i].pc.Ready? && q < |s.queues| && t !in s.handed
    case Take(i, q, k) => s.workers[i].pc.Ready? && q < |s.queues| && k < |s.queues[q]|
    case TakeAgain(i, t) => s.workers[i].pc.Ready? && t in s.accepted
    case Go(i) => !s.workers[i].pc.Ready? || s.workers[i].frames != []
  }

  function At(s: State, i: nat, w: Worker): State
    requires i < |s.workers|
  {
    s.(workers := s.workers[i := w])
  }

  function Without(q: seq<Task>, k: nat): seq<Task>
    requires k < |q|
  {
    q[..k] + q[k + 1..]
  }

  function Proceed(s: State, i: nat): (State, Event)
    requires Enabled(s, Go(i))
  {
    var w := s.workers[i];
    match w.pc
    case Counting(_) => (At(s, i, w.(pc := Ready)).(waiting := (s.waiting + 1) % WORD), Silent)
    case Holding(t) =>
      if t in s.taken then (At(s, i, w.(pc := Ready)), Drop(t))
      else (At(s, i, w.(pc := Claimed(t))).(taken := s.taken + {t}), Claim(t))
    case Claimed(t) => (At(s, i, w.(pc := Raising(t))).(waiting := (s.waiting + WORD - 1) % WORD), Silent)
    case Raising(t) =>
      (At(s, i, Worker(Ready, w.frames + [Work(t)])).(board := (s.board + 1) % WORD), Silent)
    case Ready =>
      // the body of the top frame ends
      (match Last(w.frames)
       case Work(t) => (At(s, i, w.(pc := Leaving)).(done := s.done + {t}), Silent)
       case Inline(t) =>
         (At(s, i, w.(frames := w.frames[..|w.frames| - 1])).(inlined := s.inlined + {t}), Silent))
    case Leaving =>
      (At(s, i, Worker(Ready, if w.frames == [] then [] else w.frames[..|w.frames| - 1]))
         .(board := (s.board + WORD - 1) % WORD), Silent)
  }

  function Next(s: State, a: Action): (State, Event)
    requires Enabled(s, a)
  {
    match a
    case Push(i, q, t) =>
      var w, s1 := s.workers[i], s.(handed := s.handed + {t});
      if |s.queues[q]| < s.capacity then
        (At(s1, i, w.(pc := Counting(t)))
           .(queues := s.queues[q := s.queues[q] + [t]], accepted := s.accepted + {t}), Accept(t))
      else (At(s1, i, w.(frames := w.frames + [Inline(t)])), RunInline(t))
    case Take(i, q, k) =>
      (At(s, i, s.workers[i].(pc := Holding(s.queues[q][k])))
         .(queues := s.queues[q := Without(s.queues[q], k)]), Silent)
    case TakeAgain(i, t) => (At(s, i, s.workers[i].(pc := Holding(t))), Silent)
    case Go(i) => Proceed(s, i)
  }

  ghost predicate AnyStep(s: State, e: Event, s': State) {
    exists a: Action :: Enabled(s, a) && Next(s, a) == (s', e)
  }

  /** Over deques that hand out what was pushed, once. */
  ghost predicate Step(s: State, e: Event, s': State) {
    exists a: Action :: !a.TakeAgain? && Enabled(s, a) && Next(s, a) == (s', e)
  }

  predicate Init(s: State) {
    && (forall q :: 0 <= q < |s.queues| ==> s.queues[q] == [])
    && (forall i :: 0 <= i < |s.workers| ==> s.workers[i] == Worker(Ready, []))
    && s.waiting == 0 && s.board == 0
    && s.taken == s.handed == s.accepted == s.done == s.inlined == {}
  }

  // ----- sums over workers and queues -------------------------------------------------------------

  function Total<A>(xs: seq<A>, f: A -> nat): nat {
    if xs == [] then 0 else Total(xs[..|xs| - 1], f) + f(xs[|xs| - 1])
  }

  lemma {:induction false} TotalUpdate<A>(xs: seq<A>, i: nat, x: A, f: A -> nat)
    requires i < |xs|
    ensures Total(xs[i := x], f) + f(xs[i]) == Total(xs, f) + f(x)
  {
    var n := |xs| - 1;
    if i < n {
      TotalUpdate(xs[..n], i, x, f);
      assert xs[i := x][..n] == xs[..n][i := x];
    } else {
      assert xs[i := x][..n] == xs[..n];
    }
  }

  lemma {:induction false} TotalHolds<A>(xs: seq<A>, i: nat, f: A -> nat)
    requires i < |xs|
    ensures f(xs[i]) <= Total(xs, f)
  {
    if i < |xs| - 1 {
      TotalHolds(xs[..|xs| - 1], i, f);
    }
  }

  lemma {:induction false} TotalOfNone<A>(xs: seq<A>, f: A -> nat)
    requires forall i :: 0 <= i < |xs| ==> f(xs[i]) == 0
    ensures Total(xs, f) == 0
  {
    if xs != [] {
      TotalOfNone(xs[..|xs| - 1], f);
    }
  }

  function WorkFrames(fs: seq<Frame>): nat {
    if fs == [] then 0 else WorkFrames(fs[..|fs| - 1]) + (if Last(fs).Work? then 1 else 0)
  }

  function Length(): seq<Task> -> nat { (q: seq<Task>) => |q| }

  function Occurrences(t: Task): seq<Task> -> nat { (q: seq<Task>) => multiset(q)[t] }

  function AsCounting(): Worker -> nat { (w: Worker) => if w.pc.Counting? then 1 else 0 }

  function AsPopped(): Worker -> nat { (w: Worker) => if w.pc.Holding? || w.pc.Claimed? then 1 else 0 }

  function AsHolding(t: Task): Worker -> nat { (w: Worker) => if w.pc == Holding(t) then 1 else 0 }

  function AsWorking(): Worker -> nat { (w: Worker) => WorkFrames(w.frames) }

  /** Copies of t that lie in a queue or are held by a worker that has not tried `taken`. */
  function Placed(s: State, t: Task): nat {
    Total(s.queues, Occurrences(t)) + Total(s.workers, AsHolding(t))
  }

  /** Queued, plus popped but not yet counted off, minus pushed but not yet counted. */
  function Pending(s: State): int {
    Total(s.queues, Length()) + Total(s.workers, AsPopped()) - Total(s.workers, AsCounting())
  }

  /** How many mir_worker_do_work are executing a task. */
  function Executing(s: State): nat {
    Total(s.workers, AsWorking())
  }
}
