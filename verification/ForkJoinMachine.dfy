/**
The fork-join protocol of src/mir_task.c and src/mir_worker.c as a state machine.

Any number of workers run task bodies on their own stacks. Creating a task bumps the
parent's wait counter and then offers the task to a queue; a finishing worker bumps its
own slot of that counter, reading and writing it in two steps; a waiting worker sums the
slots one read at a time, compares with the counter, and helps with queued tasks in
between; on success it clears the counter and the slots one write at a time. Which
queued task a worker gets is left open, so every scheduling policy is covered, as are
bodies run inline in their creator's context and tasks run at once because a queue is
full.
*/
module ForkJoinMachine {
  import opened Wrappers
  import opened Program

  /** Where a call is. A private target means: only that worker may take it. */
  datatype Place =
    | Fresh(w: nat)                     // counted, held by its creator w
    | Queued(target: Option<nat>)
    | OnStack(w: nat, k: nat)
    | Finished

  datatype Mode =
    | Running
    | Created(child: nat)               // mir_task_create_common done, not yet scheduled
    | Calling                           // the call above runs to completion first
    | Reducing(i: nat, sum: nat)        // mir_twc_reduce: slots 0..i-1 read
    | Checking(sum: nat)                // the assertion's read of count is next
    | Deciding(sum: nat)                // the second read of count is next
    | Helping                           // mir_worker_do_work
    | Closing                           // the wait is over: count is to be reset
    | Clearing(i: nat)                  // slots 0..i-1 are reset
    | Leaving                           // body done, epilog next
    | Counting(x: nat)                  // the slot read as x is to be written

  /** One activation of a body: a task, or a body run inline in another task's context. */
  datatype Call = Call(
    arg: Data,
    isTask: bool,
    ctx: nat,                           // worker->current_task while it runs
    home: nat,                          // a task is linked to the counter of this task
    place: Place,
    mode: Mode,
    hist: seq<seq<int>>,                // results read after each wait so far
    kids: seq<nat>,                     // spawned since the last wait
    result: Option<int>,                // the result cell
    time: nat)                          // when it was started

  /**
  The wait counter of a task's children. `live` and `done` are history: the tasks counted
  by `count`, and those counted by each slot.
  */
  datatype Twc = Twc(count: nat, slots: seq<nat>, live: set<nat>, done: seq<set<nat>>, phase: Phase)

  /** History: whether the waiter is resetting the counter, and how far it has come. */
  datatype Phase = Open | Reset(i: nat)

  datatype State = State(calls: seq<Call>, twcs: seq<Twc>, stacks: seq<seq<nat>>, clock: nat)

  /** The main program is call 0; it is never counted. */
  const MAIN: nat := 0

  datatype Action =
    | Advance(w: nat)
    | RunInline(w: nat)                 // inline_necessary() answered yes
    | Create(w: nat)
    | CreateTwin(w: nat)                // mir_task_create_twin of the current task
    | Enqueue(w: nat, target: Option<nat>)
    | ExecuteNow(w: nat)                // the queue is full
    | Take(w: nat, c: nat)              // mir_pop found c
    | FindNothing(w: nat)

  function NewTwc(workers: nat): Twc {
    Twc(0, seq(workers, _ => 0), {}, seq(workers, _ => {}), Open)
  }

  // ----- reading the state ---------------------------------------------------------

  predicate Busy(s: State, w: nat) {
    w < |s.stacks| && s.stacks[w] != []
  }

  function Top(s: State, w: nat): nat
    requires Busy(s, w)
  {
    s.stacks[w][|s.stacks[w]| - 1]
  }

  /** Identifiers and vectors have the right ranges. */
  predicate Shape(s: State) {
    && 0 < |s.calls| == |s.twcs|
    && 0 < |s.stacks|
    && (forall c :: 0 <= c < |s.calls| ==>
          && s.calls[c].ctx < |s.calls| && s.calls[c].home < |s.calls|
          && (s.calls[c].mode.Created? ==> s.calls[c].mode.child < |s.calls|)
          && forall i :: 0 <= i < |s.calls[c].kids| ==> s.calls[c].kids[i] < |s.calls|)
    && (forall p :: 0 <= p < |s.twcs| ==> |s.twcs[p].slots| == |s.twcs[p].done| == |s.stacks|)
    && (forall w, k :: 0 <= w < |s.stacks| && 0 <= k < |s.stacks[w]| ==> s.stacks[w][k] < |s.calls|)
  }

  /** The running call of a busy worker. */
  function Cur(s: State, w: nat): Call
    requires Shape(s) && Busy(s, w)
  {
    s.calls[Top(s, w)]
  }

  /** What a body running on worker w does next. */
  function Wants(p: Program, s: State, w: nat): Act
    requires Shape(s) && Busy(s, w)
  {
    p(Cur(s, w).arg, Cur(s, w).hist, |Cur(s, w).kids|)
  }

  /** Tasks bump a counter when they finish; inlined bodies and the main program do not. */
  predicate Counted(s: State, c: nat)
    requires c < |s.calls|
  {
    s.calls[c].isTask && c != MAIN
  }

  predicate MayTake(s: State, w: nat, c: nat) {
    && c < |s.calls|
    && s.calls[c].place.Queued?
    && (s.calls[c].place.target == None || s.calls[c].place.target == Some(w))
  }

  predicate Enabled(p: Program, s: State, a: Action)
    requires Shape(s)
  {
    match a
    case Advance(w) => Busy(s, w) &&
      (match Cur(s, w).mode
       case Running => !Wants(p, s, w).Spawn?
       case Created(_) => false
       case Calling => false
       case Helping => false
       case _ => true)
    case RunInline(w) => Busy(s, w) && Cur(s, w).mode.Running? && Wants(p, s, w).Spawn?
    case Create(w) => Busy(s, w) && Cur(s, w).mode.Running? && Wants(p, s, w).Spawn?
    case CreateTwin(w) => Busy(s, w) && Cur(s, w).mode.Running? && Cur(s, w).ctx != MAIN
    case Enqueue(w, target) => Busy(s, w) && Cur(s, w).mode.Created? &&
      (target.Some? ==> target.value < |s.stacks|)
    case ExecuteNow(w) => Busy(s, w) && Cur(s, w).mode.Created?
    case Take(w, c) => w < |s.stacks| && MayTake(s, w, c) && (Busy(s, w) ==> Cur(s, w).mode.Helping?)
    case FindNothing(w) => Busy(s, w) && Cur(s, w).mode.Helping?
  }

  // ----- pieces of steps -----------------------------------------------------------

  function SetCall(s: State, c: nat, x: Call): State
    requires c < |s.calls|
  {
    s.(calls := s.calls[c := x])
  }

  function SetMode(s: State, c: nat, m: Mode): State
    requires c < |s.calls|
  {
    SetCall(s, c, s.calls[c].(mode := m))
  }

  /** Start c on top of worker w's stack. */
  function Start(s: State, w: nat, c: nat): State
    requires w < |s.stacks| && c < |s.calls|
  {
    var x := s.calls[c].(place := OnStack(w, |s.stacks[w]|), mode := Running, time := s.clock);
    State(s.calls[c := x], s.twcs, s.stacks[w := s.stacks[w] + [c]], s.clock + 1)
  }

  /** Remove the finished top of worker w's stack and resume what is below. */
  function Leave(s: State, w: nat): State
    requires Shape(s) && Busy(s, w)
  {
    var c := Top(s, w);
    var rest := s.stacks[w][..|s.stacks[w]| - 1];
    var s1 := SetCall(s, c, s.calls[c].(place := Finished)).(stacks := s.stacks[w := rest]);
    if rest == [] then s1
    else
      var below := rest[|rest| - 1];
      SetMode(s1, below, if s1.calls[below].mode.Helping? then Reducing(0, 0) else Running)
  }

  /** The cells of the calls spawned since the last wait, as the body now reads them. */
  function Cells(s: State, kids: seq<nat>): (r: seq<int>)
    requires forall i :: 0 <= i < |kids| ==> kids[i] < |s.calls|
    ensures |r| == |kids|
  {
    seq(|kids|, i requires 0 <= i < |kids| =>
      if s.calls[kids[i]].result.Some? then s.calls[kids[i]].result.value else 0)
  }

  /** Past a wait: the body reads the cells and goes on. */
  function Resumed(s: State, x: Call): Call
    requires forall i :: 0 <= i < |x.kids| ==> x.kids[i] < |s.calls|
  {
    x.(mode := Running, hist := x.hist + [Cells(s, x.kids)], kids := [])
  }

  /** Add a call; its counter starts at zero. */
  function AddCall(s: State, x: Call): State {
    s.(calls := s.calls + [x], twcs := s.twcs + [NewTwc(|s.stacks|)])
  }

  /** mir_task_create_common: link a new task to the counter of `home` and bump it. */
  function CreateTask(s: State, w: nat, arg: Data, home: nat): State
    requires home < |s.twcs|
  {
    var c := |s.calls|;
    var t := s.twcs[home];
    var bumped := s.(twcs := s.twcs[home := t.(count := t.count + 1, live := t.live + {c})]);
    AddCall(bumped, Call(arg, true, c, home, Fresh(w), Running, [], [], None, 0))
  }

  // ----- steps ---------------------------------------------------------------------

  function AdvanceStep(p: Program, s: State, w: nat): State
    requires Shape(s) && Enabled(p, s, Advance(w))
  {
    var c := Top(s, w);
    var x := s.calls[c];
    var t := s.twcs[x.ctx];
    match x.mode
    case Running =>
      if Wants(p, s, w).Return? then
        SetCall(s, c, x.(mode := Leaving, result := Some(Wants(p, s, w).value)))
      else if t.count == 0 then SetCall(s, c, Resumed(s, x))
      else SetMode(s, c, Reducing(0, 0))
    case Reducing(i, sum) =>
      if i < |t.slots| then SetMode(s, c, Reducing(i + 1, sum + t.slots[i]))
      else SetMode(s, c, Checking(sum))
    case Checking(sum) => SetMode(s, c, Deciding(sum))
    case Deciding(sum) => SetMode(s, c, if sum < t.count then Helping else Closing)
    case Closing =>
      SetMode(s, c, Clearing(0)).(twcs := s.twcs[x.ctx := t.(count := 0, live := {}, phase := Reset(0))])
    case Clearing(i) =>
      if i < |t.slots| then
        SetMode(s, c, Clearing(i + 1)).(twcs := s.twcs[x.ctx :=
          t.(slots := t.slots[i := 0], done := t.done[i := {}], phase := Reset(i + 1))])
      else
        SetCall(s, c, Resumed(s, x)).(twcs := s.twcs[x.ctx := t.(phase := Open)])
    case Leaving =>
      if Counted(s, c) then SetMode(s, c, Counting(s.twcs[x.home].slots[w])) else Leave(s, w)
    case Counting(n) =>
      var h := s.twcs[x.home];
      Leave(s, w).(twcs := s.twcs[x.home := h.(slots := h.slots[w := n + 1], done := h.done[w := h.done[w] + {c}])])
    case _ => s
  }

  function Next(p: Program, s: State, a: Action): State
    requires Shape(s) && Enabled(p, s, a)
  {
    match a
    case Advance(w) => AdvanceStep(p, s, w)
    case RunInline(w) =>
      var c := Top(s, w);
      var n := |s.calls|;
      var x := s.calls[c];
      var s1 := SetCall(s, c, x.(mode := Calling, kids := x.kids + [n]));
      var body := Call(Wants(p, s, w).arg, false, x.ctx, x.ctx, Finished, Running, [], [], None, 0);
      Start(AddCall(s1, body), w, n)
    case Create(w) =>
      var c := Top(s, w);
      var n := |s.calls|;
      var x := s.calls[c];
      CreateTask(SetCall(s, c, x.(mode := Created(n), kids := x.kids + [n])), w, Wants(p, s, w).arg, x.ctx)
    case CreateTwin(w) =>
      var t := s.calls[Cur(s, w).ctx];
      CreateTask(SetMode(s, Top(s, w), Created(|s.calls|)), w, t.arg, t.home)
    case Enqueue(w, target) =>
      var n := Cur(s, w).mode.child;
      SetCall(SetMode(s, Top(s, w), Running), n, s.calls[n].(place := Queued(target)))
    case ExecuteNow(w) =>
      Start(SetMode(s, Top(s, w), Calling), w, Cur(s, w).mode.child)
    case Take(w, c) => Start(s, w, c)
    case FindNothing(w) => SetMode(s, Top(s, w), Reducing(0, 0))
  }

  /** The main program alone, on worker 0. */
  predicate Init(s: State) {
    && |s.stacks| > 0 && s.clock == 1
    && |s.calls| == 1
    && s.calls[0] == Call(s.calls[0].arg, true, 0, 0, OnStack(0, 0), Running, [], [], None, 0)
    && s.twcs == [NewTwc(|s.stacks|)]
    && s.stacks[0] == [0]
    && forall w :: 1 <= w < |s.stacks| ==> s.stacks[w] == []
  }
}
