/**
The promises of the fork-join protocol, for every program, every number of workers, every
scheduling policy and every interleaving: a wait is over only when all tasks it waits for
are done, results do not depend on the schedule, and nested helping never deadlocks.
*/
module ForkJoin {
  import opened Runs
  import opened Wrappers
  import opened Program
  import opened ForkJoinMachine
  import opened ForkJoinInvariant
  import opened ForkJoinFrames
  import opened ForkJoinCounters
  import opened ForkJoinMeaning
  import opened ForkJoinSteps

  ghost function StepOf(p: Program): (State, Action, State) -> bool {
    (s: State, a: Action, s': State) => Shape(s) && Enabled(p, s, a) && Next(p, s, a) == s'
  }

  /** s is reached by some run of p from the main program alone. */
  ghost predicate Reachable(p: Program, s0: State, s: State) {
    Init(s0) && Reaches(StepOf(p), s0, s)
  }

  lemma {:induction false} RunInv(p: Program, states: seq<State>, actions: seq<Action>, k: nat)
    requires IsRun(StepOf(p), states, actions) && Inv(p, states[0]) && k < |states|
    ensures Inv(p, states[k])
  {
    if k > 0 {
      RunInv(p, states, actions, k - 1);
      assert StepOf(p)(states[k - 1], actions[k - 1], states[k]);
      StepInv(p, states[k - 1], actions[k - 1]);
    }
  }

  lemma ReachableInv(p: Program, s0: State, s: State)
    requires Reachable(p, s0, s)
    ensures Inv(p, s)
  {
    var states, actions: seq<Action> :|
      IsRun(StepOf(p), states, actions) && states[0] == s0 && states[|actions|] == s;
    InitFrames(s0);
    InitCounters(s0);
    InitMeanings(p, s0);
    RunInv(p, states, actions, |actions|);
  }

  // ----- taskwait ------------------------------------------------------------------------

  /**
  Soundness of the wait: the assertion in mir_twc_reduce never fails; the reduce says yes,
  and an empty wait is skipped, only when every task linked to the counter is finished;
  and while the counter is being reset no task that would bump it is left, so no increment
  is lost.
  */
  lemma TaskwaitSound(p: Program, s0: State, s: State, w: nat)
    requires Reachable(p, s0, s)
    ensures Shape(s)
    ensures Busy(s, w) && Cur(s, w).mode.Checking? ==>
      Cur(s, w).mode.sum <= s.twcs[Cur(s, w).ctx].count
    ensures Busy(s, w) && Cur(s, w).mode.Deciding? && Cur(s, w).mode.sum >= s.twcs[Cur(s, w).ctx].count ==>
      AllDone(s, Cur(s, w).ctx)
    ensures Busy(s, w) && Cur(s, w).mode.Running? && s.twcs[Cur(s, w).ctx].count == 0 ==>
      AllDone(s, Cur(s, w).ctx)
    ensures Busy(s, w) && (Cur(s, w).mode.Closing? || Cur(s, w).mode.Clearing?) ==>
      AllDone(s, Cur(s, w).ctx)
  {
    ReachableInv(p, s0, s);
    if Busy(s, w) {
      assert TopOk(s, w) && TwcOk(s, Cur(s, w).ctx);
      var m := Cur(s, w).mode;
      if m.Checking? || m.Deciding? {
        SumMatches(s, w, m.sum);
      } else if m.Running? && s.twcs[Cur(s, w).ctx].count == 0 {
        EmptyWaitIsDone(s, w);
      }
    }
  }

  /** Read at one moment, the slots add up to the counter exactly when every task is done. */
  lemma SumTellsDone(p: Program, s0: State, s: State, w: nat)
    requires Reachable(p, s0, s)
    ensures Shape(s)
    ensures Busy(s, w) && !Cur(s, w).mode.Clearing? ==>
      (SumTo(s.twcs[Cur(s, w).ctx].slots, |s.stacks|) == s.twcs[Cur(s, w).ctx].count
       <==> AllDone(s, Cur(s, w).ctx))
  {
    ReachableInv(p, s0, s);
    if Busy(s, w) && !Cur(s, w).mode.Clearing? {
      SumMatches(s, w, SumTo(s.twcs[Cur(s, w).ctx].slots, |s.stacks|));
      if AllDone(s, Cur(s, w).ctx) {
        AllDoneSums(p, s, w);
      }
    }
  }

  lemma AllDoneSums(p: Program, s: State, w: nat)
    requires Inv(p, s) && Busy(s, w) && !Cur(s, w).mode.Clearing? && AllDone(s, Cur(s, w).ctx)
    ensures SumTo(s.twcs[Cur(s, w).ctx].slots, |s.stacks|) == s.twcs[Cur(s, w).ctx].count
  {
    var c := Cur(s, w).ctx;
    var t := s.twcs[c];
    assert TopOk(s, w) && TwcOk(s, c);
    UnionSize(t.done, t.slots, |t.done|);
    var u := UnionTo(t.done, |t.done|);
    forall d | d in t.live
      ensures d in u
    {
      assert Linked(s, d, c) && OpenTask(s, d, t);
    }
    SubsetSize(t.live, u);
    SumMatches(s, w, SumTo(t.slots, |s.stacks|));
  }

  // ----- results ---------------------------------------------------------------------------

  /**
  Schedule independence: whatever the workers, queues and inlining did, a result cell
  never holds anything but the value of the sequential program; and it is that value when
  bodies wait for what they spawn before they return.
  */
  lemma ScheduleIndependence(p: Program, s0: State, s: State, c: nat)
    requires Reachable(p, s0, s) && c < |s.calls|
    ensures s.calls[c].place.Finished? ==> s.calls[c].result.Some?
    ensures s.calls[c].result.Some? ==> OnlyValue(p, s.calls[c].arg, s.calls[c].result.value)
    ensures s.calls[c].result.Some? && Joins(p) ==> HasValue(p, s.calls[c].arg, s.calls[c].result.value)
  {
    ReachableInv(p, s0, s);
    assert MeaningOk(p, s, c);
  }

  /** Two runs of the same program, on any workers and schedules, agree. */
  lemma RunsAgree(p: Program, s0: State, s: State, c: nat, t0: State, t: State, d: nat)
    requires Joins(p)
    requires Reachable(p, s0, s) && c < |s.calls| && s.calls[c].result.Some?
    requires Reachable(p, t0, t) && d < |t.calls| && t.calls[d].result.Some?
    requires s.calls[c].arg == t.calls[d].arg
    ensures s.calls[c].result == t.calls[d].result
  {
    ScheduleIndependence(p, s0, s, c);
    ScheduleIndependence(p, t0, t, d);
  }

  // ----- progress --------------------------------------------------------------------------

  /** The modes in which a wait is polling. */
  predicate Polling(m: Mode) {
    m.Reducing? || m.Checking? || m.Deciding? || m.Helping?
  }

  /** Worker w can do something other than poll: its call goes on, its wait will pass, or
      there is a task for it. */
  ghost predicate CanWork(s: State, w: nat)
    requires Shape(s) && w < |s.stacks|
  {
    || (Busy(s, w) && (!Polling(Cur(s, w).mode) || AllDone(s, Cur(s, w).ctx)))
    || ((Busy(s, w) ==> Polling(Cur(s, w).mode)) && exists c :: MayTake(s, w, c))
  }

  /** Among the first n workers, one whose running task was started last. */
  lemma {:induction false} LatestWorker(s: State, n: nat, v: nat) returns (w: nat)
    requires Shape(s) && v < n <= |s.stacks| && Busy(s, v)
    ensures w < n && Busy(s, w)
    ensures forall u :: 0 <= u < n && Busy(s, u) ==>
      s.calls[Cur(s, u).ctx].time <= s.calls[Cur(s, w).ctx].time
  {
    if v == n - 1 && forall u :: 0 <= u < n - 1 ==> !Busy(s, u) {
      w := v;
    } else {
      var v' :| 0 <= v' < n - 1 && Busy(s, v');
      w := LatestWorker(s, n - 1, v');
      if Busy(s, n - 1) && s.calls[Cur(s, n - 1).ctx].time > s.calls[Cur(s, w).ctx].time {
        w := n - 1;
      }
    }
  }

  /** A task on a stack was started no later than the task running on that stack. */
  lemma TaskBelowRunning(s: State, w: nat, k: nat)
    requires Frames(s) && w < |s.stacks| && k < |s.stacks[w]| && s.calls[s.stacks[w][k]].isTask
    ensures s.calls[s.stacks[w][k]].time <= s.calls[Cur(s, w).ctx].time
  {
    var j := CtxBelow(s, w, |s.stacks[w]| - 1);
    if k < j {
      StackOrdered(s, w, k, j);
    }
  }

  /** A task queued or just created gives some worker something to do. */
  lemma OffStackCanWork(s: State, c: nat) returns (w: nat)
    requires Frames(s) && c < |s.calls| && !s.calls[c].place.Finished? && !s.calls[c].place.OnStack?
    ensures w < |s.stacks| && CanWork(s, w)
  {
    assert PlaceOk(s, c);
    if s.calls[c].place.Queued? {
      w := if s.calls[c].place.target.Some? then s.calls[c].place.target.value else 0;
      assert MayTake(s, w, c);
    } else {
      w := s.calls[c].place.w;
    }
  }

  /** A worker waiting in vain waits for a task started after its own. */
  lemma StuckWaitsForLater(s: State, w: nat) returns (d: nat)
    requires Frames(s) && w < |s.stacks| && Busy(s, w) && !CanWork(s, w)
    ensures d < |s.calls| && s.calls[d].isTask && !s.calls[d].place.Finished?
    ensures Started(s.calls[d]) ==> s.calls[Cur(s, w).ctx].time < s.calls[d].time
  {
    d :| 0 <= d < |s.calls| && Linked(s, d, Cur(s, w).ctx) && !s.calls[d].place.Finished?;
    assert LinkOk(s, d);
  }

  lemma NotStuck(p: Program, s: State, c: nat) returns (w: nat)
    requires Inv(p, s) && c < |s.calls| && !s.calls[c].place.Finished?
    ensures w < |s.stacks| && CanWork(s, w)
  {
    if !s.calls[c].place.OnStack? {
      w := OffStackCanWork(s, c);
    } else {
      assert PlaceOk(s, c);
      w := LatestWorker(s, |s.stacks|, s.calls[c].place.w);
      if !CanWork(s, w) {
        var d := StuckWaitsForLater(s, w);
        if s.calls[d].place.OnStack? {
          assert PlaceOk(s, d);
          TaskBelowRunning(s, s.calls[d].place.w, s.calls[d].place.k);
        }
        w := OffStackCanWork(s, d);
      }
    }
  }

  /** Polling steps of worker w: they need nobody else. */
  ghost function OwnStep(p: Program, w: nat): (State, Action, State) -> bool {
    (s: State, a: Action, s': State) =>
      && Shape(s) && Busy(s, w) && Polling(Cur(s, w).mode)
      && (a == Advance(w) || a == FindNothing(w)) && Enabled(p, s, a) && Next(p, s, a) == s'
  }

  /** A call whose mode has been changed is still the running one. */
  lemma ModeIs(s: State, w: nat, m: Mode)
    requires Shape(s) && Busy(s, w) && !m.Created?
    ensures var s' := SetMode(s, Top(s, w), m);
      Shape(s') && Busy(s', w) && Top(s', w) == Top(s, w) && Cur(s', w) == Cur(s, w).(mode := m)
  {
    SetCallShape(s, Top(s, w), Cur(s, w).(mode := m));
  }

  /** Changing the mode of a call twice is changing it once. */
  lemma ModeTwice(s: State, w: nat, m: Mode, m': Mode)
    requires Shape(s) && Busy(s, w)
    ensures SetMode(SetMode(s, Top(s, w), m), Top(s, w), m') == SetMode(s, Top(s, w), m')
  {
  }

  lemma ReduceNext(p: Program, s0: State, w: nat, i: nat, sum: nat)
    requires Shape(s0) && Busy(s0, w) && Polling(Cur(s0, w).mode)
    ensures var slots := s0.twcs[Cur(s0, w).ctx].slots;
      OwnStep(p, w)(SetMode(s0, Top(s0, w), Reducing(i, sum)), Advance(w),
        SetMode(s0, Top(s0, w), if i < |slots| then Reducing(i + 1, sum + slots[i]) else Checking(sum)))
  {
    var s, slots := SetMode(s0, Top(s0, w), Reducing(i, sum)), s0.twcs[Cur(s0, w).ctx].slots;
    var m := if i < |slots| then Reducing(i + 1, sum + slots[i]) else Checking(sum);
    ModeIs(s0, w, Reducing(i, sum));
    ModeTwice(s0, w, Reducing(i, sum), m);
    assert Enabled(p, s, Advance(w)) && Next(p, s, Advance(w)) == SetMode(s, Top(s0, w), m);
  }

  lemma CheckNext(p: Program, s0: State, w: nat, sum: nat)
    requires Shape(s0) && Busy(s0, w) && Polling(Cur(s0, w).mode)
    ensures OwnStep(p, w)(SetMode(s0, Top(s0, w), Checking(sum)), Advance(w), SetMode(s0, Top(s0, w), Deciding(sum)))
  {
    var s := SetMode(s0, Top(s0, w), Checking(sum));
    ModeIs(s0, w, Checking(sum));
    ModeTwice(s0, w, Checking(sum), Deciding(sum));
    assert Enabled(p, s, Advance(w)) && Next(p, s, Advance(w)) == SetMode(s, Top(s0, w), Deciding(sum));
  }

  lemma DecideNext(p: Program, s0: State, w: nat, sum: nat)
    requires Shape(s0) && Busy(s0, w) && Polling(Cur(s0, w).mode)
    ensures OwnStep(p, w)(SetMode(s0, Top(s0, w), Deciding(sum)), Advance(w),
              SetMode(s0, Top(s0, w), if sum < s0.twcs[Cur(s0, w).ctx].count then Helping else Closing))
  {
    var s := SetMode(s0, Top(s0, w), Deciding(sum));
    var m := if sum < s0.twcs[Cur(s0, w).ctx].count then Helping else Closing;
    ModeIs(s0, w, Deciding(sum));
    ModeTwice(s0, w, Deciding(sum), m);
    assert Enabled(p, s, Advance(w)) && Next(p, s, Advance(w)) == SetMode(s, Top(s0, w), m);
  }

  /** Undisturbed, mir_twc_reduce adds up the slots it has not read yet. */
  lemma {:induction false} ReduceRuns(p: Program, s0: State, s: State, w: nat, i: nat, sum: nat, total: nat)
      returns (s': State)
    requires Shape(s0) && Busy(s0, w) && Polling(Cur(s0, w).mode) && i <= |s0.stacks|
    requires var slots := s0.twcs[Cur(s0, w).ctx].slots;
      total == sum + SumTo(slots, |slots|) - SumTo(slots, i)
    requires s == SetMode(s0, Top(s0, w), Reducing(i, sum)) && Reaches(OwnStep(p, w), s0, s)
    ensures Reaches(OwnStep(p, w), s0, s')
    ensures s' == SetMode(s0, Top(s0, w), Checking(total))
    decreases |s0.stacks| - i
  {
    var slots := s0.twcs[Cur(s0, w).ctx].slots;
    var next := SetMode(s0, Top(s0, w), if i < |slots| then Reducing(i + 1, sum + slots[i]) else Checking(sum));
    ReduceNext(p, s0, w, i, sum);
    ReachesSnoc(OwnStep(p, w), s0, s, Advance(w), next);
    if i < |slots| {
      s' := ReduceRuns(p, s0, next, w, i + 1, sum + slots[i], total);
    } else {
      s' := next;
    }
  }

  lemma {:induction false} SumSplits(slots: seq<nat>, i: nat, n: nat)
    requires i <= n <= |slots|
    ensures SumTo(slots, i) <= SumTo(slots, n)
  {
    if i < n {
      SumSplits(slots, i, n - 1);
    }
  }

  /** From the end of the sum, the wait either passes or helps. */
  lemma DecideRuns(p: Program, s0: State, s: State, w: nat, sum: nat) returns (s': State)
    requires Shape(s0) && Busy(s0, w) && Polling(Cur(s0, w).mode)
    requires s == SetMode(s0, Top(s0, w), Checking(sum)) && Reaches(OwnStep(p, w), s0, s)
    ensures Reaches(OwnStep(p, w), s0, s')
    ensures s' == SetMode(s0, Top(s0, w), if sum < s0.twcs[Cur(s0, w).ctx].count then Helping else Closing)
  {
    var s1 := SetMode(s0, Top(s0, w), Deciding(sum));
    CheckNext(p, s0, w, sum);
    ReachesSnoc(OwnStep(p, w), s0, s, Advance(w), s1);
    s' := SetMode(s0, Top(s0, w), if sum < s0.twcs[Cur(s0, w).ctx].count then Helping else Closing);
    DecideNext(p, s0, w, sum);
    ReachesSnoc(OwnStep(p, w), s0, s1, Advance(w), s');
  }

  /** An undisturbed poll passes exactly when every task waited for is done. */
  lemma PollRuns(p: Program, s: State, w: nat) returns (s': State)
    requires Inv(p, s) && Busy(s, w) && Cur(s, w).mode.Helping?
    ensures Reaches(OwnStep(p, w), s, s')
    ensures s' == SetMode(s, Top(s, w), if AllDone(s, Cur(s, w).ctx) then Closing else Helping)
  {
    var s1 := Next(p, s, FindNothing(w));
    ReachesSelf(OwnStep(p, w), s);
    assert OwnStep(p, w)(s, FindNothing(w), s1);
    ReachesSnoc(OwnStep(p, w), s, s, FindNothing(w), s1);
    var t := s.twcs[Cur(s, w).ctx];
    var sum := SumTo(t.slots, |t.slots|);
    var s2 := ReduceRuns(p, s, s1, w, 0, 0, sum);
    SumMatches(s, w, sum);
    if AllDone(s, Cur(s, w).ctx) {
      AllDoneSums(p, s, w);
    }
    s' := DecideRuns(p, s, s2, w, sum);
  }

  /** A poll already under way ends by helping or by passing. */
  lemma PollEnds(p: Program, s: State, w: nat) returns (s': State)
    requires Inv(p, s) && Busy(s, w) && Polling(Cur(s, w).mode)
    ensures Reaches(OwnStep(p, w), s, s')
    ensures s' == SetMode(s, Top(s, w), Helping) || s' == SetMode(s, Top(s, w), Closing)
  {
    ReachesSelf(OwnStep(p, w), s);
    assert TopOk(s, w);
    match Cur(s, w).mode
    case Reducing(i, sum) =>
      assert s == SetMode(s, Top(s, w), Reducing(i, sum));
      var slots := s.twcs[Cur(s, w).ctx].slots;
      SumSplits(slots, i, |slots|);
      var total := sum + SumTo(slots, |slots|) - SumTo(slots, i);
      s' := ReduceRuns(p, s, s, w, i, sum, total);
      s' := DecideRuns(p, s, s', w, total);
    case Checking(sum) =>
      assert s == SetMode(s, Top(s, w), Checking(sum));
      s' := DecideRuns(p, s, s, w, sum);
    case Deciding(sum) =>
      assert s == SetMode(s, Top(s, w), Deciding(sum));
      s' := SetMode(s, Top(s, w), if sum < s.twcs[Cur(s, w).ctx].count then Helping else Closing);
      DecideNext(p, s, w, sum);
      ReachesSnoc(OwnStep(p, w), s, s, Advance(w), s');
    case Helping =>
      assert s == SetMode(s, Top(s, w), Helping);
      s' := s;
  }

  /** After at most polling steps of its own, worker w has something else to do. */
  ghost predicate Acts(p: Program, s: State, w: nat) {
    exists s', a: Action ::
      && Reaches(OwnStep(p, w), s, s') && Shape(s') && Enabled(p, s', a)
      && (a.Take? ==> a.w == w)
      && (!a.Take? ==> Busy(s', w) && a.w == w && !Polling(Cur(s', w).mode))
  }

  lemma ActiveActs(p: Program, s: State, w: nat, s': State)
    requires Reaches(OwnStep(p, w), s, s') && Shape(s') && Busy(s', w)
    requires !Polling(Cur(s', w).mode) && !Cur(s', w).mode.Calling?
    ensures Acts(p, s, w)
  {
    var a := match Cur(s', w).mode
      case Running => if Wants(p, s', w).Spawn? then Create(w) else Advance(w)
      case Created(_) => Enqueue(w, None)
      case _ => Advance(w);
    assert Enabled(p, s', a);
  }

  lemma {:induction false} OwnRunInv(p: Program, w: nat, states: seq<State>, actions: seq<Action>, k: nat)
    requires IsRun(OwnStep(p, w), states, actions) && Inv(p, states[0]) && k < |states|
    ensures Inv(p, states[k])
  {
    if k > 0 {
      OwnRunInv(p, w, states, actions, k - 1);
      assert OwnStep(p, w)(states[k - 1], actions[k - 1], states[k]);
      StepInv(p, states[k - 1], actions[k - 1]);
    }
  }

  lemma OwnReachesInv(p: Program, w: nat, s: State, s': State)
    requires Inv(p, s) && Reaches(OwnStep(p, w), s, s')
    ensures Inv(p, s')
  {
    var states, actions: seq<Action> :|
      IsRun(OwnStep(p, w), states, actions) && states[0] == s && states[|actions|] == s';
    OwnRunInv(p, w, states, actions, |actions|);
  }

  lemma ReachesJoin(p: Program, w: nat, s: State, t: State, u: State)
    requires Reaches(OwnStep(p, w), s, t) && Reaches(OwnStep(p, w), t, u)
    ensures Reaches(OwnStep(p, w), s, u)
  {
    var ss, es: seq<Action> :| IsRun(OwnStep(p, w), ss, es) && ss[0] == s && ss[|es|] == t;
    var ts, fs: seq<Action> :| IsRun(OwnStep(p, w), ts, fs) && ts[0] == t && ts[|fs|] == u;
    JoinRuns(OwnStep(p, w), ss, es, ts, fs);
  }

  /** A helper whose tasks are all done passes at its next poll. */
  lemma HelperActs(p: Program, s: State, w: nat, s1: State)
    requires Inv(p, s) && Busy(s, w) && Polling(Cur(s, w).mode) && AllDone(s, Cur(s, w).ctx)
    requires Reaches(OwnStep(p, w), s, s1) && s1 == SetMode(s, Top(s, w), Helping)
    ensures Acts(p, s, w)
  {
    OwnReachesInv(p, w, s, s1);
    assert AllDone(s1, Cur(s1, w).ctx) by {
      assert forall c :: 0 <= c < |s.calls| ==> Linked(s1, c, Cur(s, w).ctx) == Linked(s, c, Cur(s, w).ctx);
    }
    var s2 := PollRuns(p, s1, w);
    SetCallShape(s1, Top(s1, w), Cur(s1, w).(mode := Closing));
    ReachesJoin(p, w, s, s1, s2);
    ActiveActs(p, s, w, s2);
  }

  lemma PollingActs(p: Program, s: State, w: nat, s1: State)
    requires Inv(p, s) && Busy(s, w) && Polling(Cur(s, w).mode) && CanWork(s, w)
    requires Reaches(OwnStep(p, w), s, s1)
    requires s1 == SetMode(s, Top(s, w), Helping) || s1 == SetMode(s, Top(s, w), Closing)
    ensures Acts(p, s, w)
  {
    SetCallShape(s, Top(s, w), Cur(s, w).(mode := s1.calls[Top(s, w)].mode));
    if Cur(s1, w).mode.Closing? {
      ActiveActs(p, s, w, s1);
    } else if c :| MayTake(s, w, c) {
      assert FrameOk(s, w, |s.stacks[w]| - 1);
      assert MayTake(s1, w, c);
      assert Enabled(p, s1, Take(w, c));
    } else {
      HelperActs(p, s, w, s1);
    }
  }

  /** A worker that can work does so without waiting for anybody. */
  lemma CanWorkActs(p: Program, s: State, w: nat)
    requires Inv(p, s) && w < |s.stacks| && CanWork(s, w)
    ensures Acts(p, s, w)
  {
    ReachesSelf(OwnStep(p, w), s);
    if Busy(s, w) {
      assert FrameOk(s, w, |s.stacks[w]| - 1);
    }
    if !Busy(s, w) {
      var c :| MayTake(s, w, c);
      assert Enabled(p, s, Take(w, c));
    } else if !Polling(Cur(s, w).mode) {
      ActiveActs(p, s, w, s);
    } else {
      var s1 := PollEnds(p, s, w);
      PollingActs(p, s, w, s1);
    }
  }

  /**
  Deadlock freedom of nested helping: as long as anything is unfinished, some worker, by
  itself, can go on with its call, leave its wait, or take a task.
  */
  lemma DeadlockFree(p: Program, s0: State, s: State, c: nat)
    requires Reachable(p, s0, s) && c < |s.calls| && !s.calls[c].place.Finished?
    ensures exists w :: 0 <= w < |s.stacks| && Acts(p, s, w)
  {
    ReachableInv(p, s0, s);
    var w := NotStuck(p, s, c);
    CanWorkActs(p, s, w);
  }
}
