/** Each action of the fork-join machine is one of the step shapes that keep the invariant. */
module ForkJoinSteps {
  import opened Wrappers
  import opened Program
  import opened ForkJoinMachine
  import opened ForkJoinInvariant
  import opened ForkJoinFrames
  import opened ForkJoinCounters
  import opened ForkJoinMeaning

  lemma SetCallShape(s: State, c: nat, x: Call)
    requires Shape(s) && c < |s.calls|
    requires x.ctx == s.calls[c].ctx && x.home == s.calls[c].home && !x.mode.Created?
    requires x.kids == s.calls[c].kids || x.kids == []
    ensures Shape(SetCall(s, c, x))
  {
  }

  /** The running call of w replaced, with its links and place unchanged. */
  lemma SetTopIsStep(s: State, w: nat, x: Call)
    requires Shape(s) && Busy(s, w) && !Cur(s, w).mode.Created? && !x.mode.Created? && !x.mode.Calling?
    requires x.place == Cur(s, w).place && SameLinks(Cur(s, w), x) && x.arg == Cur(s, w).arg
    requires x.kids == Cur(s, w).kids || x.kids == []
    ensures TopStep(s, SetCall(s, Top(s, w), x), w)
  {
    SetCallShape(s, Top(s, w), x);
  }

  // ----- steps of the running call ----------------------------------------------------------

  lemma ModeStepInv(p: Program, s: State, w: nat, x: Call)
    requires Inv(p, s) && Busy(s, w)
    requires x == Cur(s, w).(mode := x.mode, result := x.result)
    requires !Cur(s, w).mode.Created? && !x.mode.Created? && !x.mode.Calling?
    requires !Cur(s, w).mode.Clearing? && !x.mode.Clearing?
    requires var y := Cur(s, w);
      || (x.result == y.result && Waiting(x.mode) && Waiting(y.mode))
      || (x.result == y.result && y.mode.Running? && x.mode.Reducing? && Wants(p, s, w) == Wait)
      || (x.result == y.result && y.mode.Leaving? && x.mode.Counting?)
      || (x.mode.Leaving? && Wants(p, s, w).Return? && x.result == Some(Wants(p, s, w).value))
    requires Shape(SetCall(s, Top(s, w), x)) ==> TopOk(SetCall(s, Top(s, w), x), w)
    ensures Inv(p, SetCall(s, Top(s, w), x))
  {
    var s' := SetCall(s, Top(s, w), x);
    SetTopIsStep(s, w, x);
    TopStepFrames(s, s', w);
    TopStepCounters(s, s', w);
    ModeMeaning(p, s, s', w);
    TopStepMeanings(p, s, s', w);
  }

  /** Reading one slot, and the comparison of the sum with the counter. */
  lemma ReduceInv(p: Program, s: State, w: nat)
    requires Inv(p, s) && Enabled(p, s, Advance(w))
    requires Cur(s, w).mode.Reducing? || Cur(s, w).mode.Checking?
    ensures Inv(p, Next(p, s, Advance(w)))
  {
    assert TopOk(s, w);
    var s' := Next(p, s, Advance(w));
    ModeStepInv(p, s, w, Cur(s, w).(mode := s'.calls[Top(s, w)].mode));
  }

  /** The sum of the slots never exceeds the counter; when they agree, every task is done. */
  lemma SumMatches(s: State, w: nat, sum: nat)
    requires Frames(s) && Counters(s) && Busy(s, w) && !Cur(s, w).mode.Clearing?
    requires sum <= SumTo(s.twcs[Cur(s, w).ctx].slots, |s.stacks|)
    ensures sum <= s.twcs[Cur(s, w).ctx].count
    ensures sum == s.twcs[Cur(s, w).ctx].count ==> AllDone(s, Cur(s, w).ctx)
  {
    var p := Cur(s, w).ctx;
    var t := s.twcs[p];
    assert TopOk(s, w) && TwcOk(s, p);
    UnionSize(t.done, t.slots, |t.done|);
    var u := UnionTo(t.done, |t.done|);
    forall c | c in u
      ensures c in t.live && c < |s.calls| && s.calls[c].place.Finished?
    {
      UnionMember(t.done, |t.done|, c);
    }
    SubsetSize(u, t.live);
    if sum == t.count {
      SubsetFull(u, t.live);
      forall c | 0 <= c < |s.calls| && Linked(s, c, p)
        ensures s.calls[c].place.Finished?
      {
        assert OpenTask(s, c, t);
      }
    }
  }

  lemma SubsetFull(a: set<nat>, b: set<nat>)
    requires a <= b && |a| >= |b|
    ensures a == b
  {
    assert b == a + (b - a);
  }

  lemma DecideInv(p: Program, s: State, w: nat)
    requires Inv(p, s) && Enabled(p, s, Advance(w)) && Cur(s, w).mode.Deciding?
    ensures Inv(p, Next(p, s, Advance(w)))
    ensures Next(p, s, Advance(w)).calls[Top(s, w)].mode.Closing? ==> AllDone(s, Cur(s, w).ctx)
  {
    assert TopOk(s, w);
    SumMatches(s, w, Cur(s, w).mode.sum);
    var s' := Next(p, s, Advance(w));
    assert AllDone(s, Cur(s, w).ctx) ==> AllDone(s', Cur(s, w).ctx) by {
      assert forall c :: 0 <= c < |s.calls| ==> Linked(s', c, Cur(s, w).ctx) == Linked(s, c, Cur(s, w).ctx);
    }
    ModeStepInv(p, s, w, Cur(s, w).(mode := s'.calls[Top(s, w)].mode));
  }

  /** A wait whose counter is zero has nothing to wait for. */
  lemma EmptyWaitIsDone(s: State, w: nat)
    requires Frames(s) && Counters(s) && Busy(s, w) && Cur(s, w).mode.Running?
    requires s.twcs[Cur(s, w).ctx].count == 0
    ensures AllDone(s, Cur(s, w).ctx)
  {
    SumMatches(s, w, 0);
  }

  lemma ResumeInv(p: Program, s: State, w: nat, s': State)
    requires Inv(p, s) && Busy(s, w) && AllDone(s, Cur(s, w).ctx)
    requires p(Cur(s, w).arg, Cur(s, w).hist, |Cur(s, w).kids|) == Wait
    requires !Cur(s, w).mode.Created?
    requires s'.calls == s.calls[Top(s, w) := Resumed(s, Cur(s, w))]
    requires s'.stacks == s.stacks && s'.clock == s.clock && Shape(s') && Counters(s')
    ensures Inv(p, s')
  {
    assert TopStep(s, s', w);
    TopStepFrames(s, s', w);
    ResumedMeaning(p, s, s', w);
    TopStepMeanings(p, s, s', w);
  }

  lemma RunningInv(p: Program, s: State, w: nat)
    requires Inv(p, s) && Enabled(p, s, Advance(w)) && Cur(s, w).mode.Running?
    ensures Inv(p, Next(p, s, Advance(w)))
  {
    var s' := Next(p, s, Advance(w));
    var c := Top(s, w);
    assert TopOk(s, w);
    if Wants(p, s, w) == Wait && s.twcs[Cur(s, w).ctx].count == 0 {
      EmptyWaitIsDone(s, w);
      SetTopIsStep(s, w, Resumed(s, Cur(s, w)));
      TopStepCounters(s, s', w);
      ResumeInv(p, s, w, s');
    } else {
      ModeStepInv(p, s, w, s'.calls[c]);
    }
  }

  lemma ClosingIsStep(p: Program, s: State, w: nat)
    requires Counters(s) && Enabled(p, s, Advance(w)) && Cur(s, w).mode.Closing?
    ensures ResetStep(s, Next(p, s, Advance(w)), w)
  {
    var s' := Next(p, s, Advance(w));
    assert TopOk(s, w) && TwcOk(s, Cur(s, w).ctx);
    SetTopIsStep(s, w, Cur(s, w).(mode := Clearing(0)));
    ClosingTwc(s, s', Cur(s, w).ctx);
  }

  lemma ClosingCounters(p: Program, s: State, w: nat)
    requires Inv(p, s) && Enabled(p, s, Advance(w)) && Cur(s, w).mode.Closing?
    ensures TopStep(s, Next(p, s, Advance(w)), w) && Counters(Next(p, s, Advance(w)))
  {
    ClosingIsStep(p, s, w);
    ResetStepCounters(s, Next(p, s, Advance(w)), w);
  }

  lemma ClosingInv(p: Program, s: State, w: nat)
    requires Inv(p, s) && Enabled(p, s, Advance(w)) && Cur(s, w).mode.Closing?
    ensures Inv(p, Next(p, s, Advance(w)))
  {
    var s' := Next(p, s, Advance(w));
    ClosingCounters(p, s, w);
    TopStepFrames(s, s', w);
    ModeMeaning(p, s, s', w);
    TopStepMeanings(p, s, s', w);
  }

  lemma ClearingIsStep(p: Program, s: State, w: nat)
    requires Counters(s) && Enabled(p, s, Advance(w)) && Cur(s, w).mode.Clearing?
    ensures ResetStep(s, Next(p, s, Advance(w)), w)
  {
    var s' := Next(p, s, Advance(w));
    assert TopOk(s, w) && TwcOk(s, Cur(s, w).ctx);
    SetTopIsStep(s, w, s'.calls[Top(s, w)]);
    ClearingTwc(s, s', Cur(s, w).ctx, Cur(s, w).mode.i);
  }

  lemma ClearingCounters(p: Program, s: State, w: nat)
    requires Inv(p, s) && Enabled(p, s, Advance(w)) && Cur(s, w).mode.Clearing?
    ensures TopStep(s, Next(p, s, Advance(w)), w) && Counters(Next(p, s, Advance(w)))
    ensures AllDone(s, Cur(s, w).ctx)
  {
    ClearingIsStep(p, s, w);
    ResetStepCounters(s, Next(p, s, Advance(w)), w);
  }

  lemma ClearingInv(p: Program, s: State, w: nat)
    requires Inv(p, s) && Enabled(p, s, Advance(w)) && Cur(s, w).mode.Clearing?
    ensures Inv(p, Next(p, s, Advance(w)))
  {
    var s' := Next(p, s, Advance(w));
    ClearingCounters(p, s, w);
    assert MeaningOk(p, s, Top(s, w));
    if s'.calls[Top(s, w)].mode.Clearing? {
      TopStepFrames(s, s', w);
      ModeMeaning(p, s, s', w);
      TopStepMeanings(p, s, s', w);
    } else {
      ResumeInv(p, s, w, s');
    }
  }

  /** The last steps of a call that counts nothing, and of one whose slot was read. */
  lemma LeavesAndCounts(p: Program, s: State, w: nat)
    requires Inv(p, s) && Enabled(p, s, Advance(w))
    requires Cur(s, w).mode.Counting? || (Cur(s, w).mode.Leaving? && !Counted(s, Top(s, w)))
    ensures CountStep(s, Next(p, s, Advance(w)), w)
  {
    assert TopOk(s, w);
    LeaveIsStep(s, w);
    var n := |s.stacks[w]| - 1;
    assert FrameOk(s, w, n);
    if n > 0 {
      assert FrameOk(s, w, n - 1);
    }
  }

  lemma LeaveInv(p: Program, s: State, w: nat)
    requires Inv(p, s) && Enabled(p, s, Advance(w)) && (Cur(s, w).mode.Leaving? || Cur(s, w).mode.Counting?)
    ensures Inv(p, Next(p, s, Advance(w)))
  {
    var s' := Next(p, s, Advance(w));
    if Cur(s, w).mode.Leaving? && Counted(s, Top(s, w)) {
      assert TopOk(s, w);
      ModeStepInv(p, s, w, s'.calls[Top(s, w)]);
    } else {
      LeavesAndCounts(p, s, w);
      var n := |s.stacks[w]| - 1;
      assert FrameOk(s, w, n);
      if n > 0 {
        assert FrameOk(s, w, n - 1);
      }
      LeaveStepFrames(s, s', w);
      CountStepCounters(s, s', w);
      LeaveStepMeanings(p, s, s', w);
    }
  }

  lemma AdvanceInv(p: Program, s: State, w: nat)
    requires Inv(p, s) && Enabled(p, s, Advance(w))
    ensures Inv(p, Next(p, s, Advance(w)))
  {
    match Cur(s, w).mode
    case Running => RunningInv(p, s, w);
    case Reducing(_, _) => ReduceInv(p, s, w);
    case Checking(_) => ReduceInv(p, s, w);
    case Deciding(_) => DecideInv(p, s, w);
    case Closing => ClosingInv(p, s, w);
    case Clearing(_) => ClearingInv(p, s, w);
    case Leaving => LeaveInv(p, s, w);
    case Counting(_) => LeaveInv(p, s, w);
    case Created(_) =>
    case Calling =>
    case Helping =>
  }

  lemma FindNothingInv(p: Program, s: State, w: nat)
    requires Inv(p, s) && Enabled(p, s, FindNothing(w))
    ensures Inv(p, Next(p, s, FindNothing(w)))
  {
    assert TopOk(s, w);
    ModeStepInv(p, s, w, Cur(s, w).(mode := Reducing(0, 0)));
  }

  // ----- creating, inlining, scheduling --------------------------------------------------------

  lemma CreateShape(s: State, w: nat, x: Call, arg: Data, h: nat)
    requires Shape(s) && Busy(s, w) && h < |s.calls|
    requires x.ctx == Cur(s, w).ctx && x.home == Cur(s, w).home && x.mode == Created(|s.calls|)
    requires x.kids == Cur(s, w).kids || x.kids == Cur(s, w).kids + [|s.calls|]
    ensures Shape(CreateTask(SetCall(s, Top(s, w), x), w, arg, h))
  {
  }

  lemma CreateBumps(p: Program, s: State, w: nat)
    requires Inv(p, s) && Enabled(p, s, Create(w))
    ensures BumpStep(s, Next(p, s, Create(w)), w, Cur(s, w).ctx)
  {
    var h := Cur(s, w).ctx;
    var own := Cur(s, w).(mode := Created(|s.calls|), kids := Cur(s, w).kids + [|s.calls|]);
    CreateShape(s, w, own, Wants(p, s, w).arg, h);
    var j := CtxPlace(s, w);
    assert TopOk(s, w);
    forall v | 0 <= v < |s.stacks| && Busy(s, v) && Cur(s, v).ctx == h
      ensures !Cur(s, v).mode.Closing?
    {
      if v != w {
        CtxsDiffer(s, v, w);
      }
    }
  }

  lemma CreateInv(p: Program, s: State, w: nat)
    requires Inv(p, s) && Enabled(p, s, Create(w))
    ensures Inv(p, Next(p, s, Create(w)))
  {
    var s' := Next(p, s, Create(w));
    CreateBumps(p, s, w);
    CreateStepFrames(s, s', w, Cur(s, w).ctx);
    BumpStepCounters(s, s', w, Cur(s, w).ctx);
    assert DataKept(s, s');
    SpawnMeaning(p, s, s', w);
    AddMeanings(p, s, s', w);
  }

  lemma CreateTwinBumps(p: Program, s: State, w: nat)
    requires Inv(p, s) && Enabled(p, s, CreateTwin(w))
    ensures BumpStep(s, Next(p, s, CreateTwin(w)), w, s.calls[Cur(s, w).ctx].home)
  {
    var t := Cur(s, w).ctx;
    CreateShape(s, w, Cur(s, w).(mode := Created(|s.calls|)), s.calls[t].arg, s.calls[t].home);
    var j := CtxPlace(s, w);
    assert LinkOk(s, t);
    UnfinishedKeepsOpen(s, t, s.calls[t].home);
  }

  lemma CreateTwinInv(p: Program, s: State, w: nat)
    requires Inv(p, s) && Enabled(p, s, CreateTwin(w))
    ensures Inv(p, Next(p, s, CreateTwin(w)))
  {
    var s' := Next(p, s, CreateTwin(w));
    var h := s.calls[Cur(s, w).ctx].home;
    CreateTwinBumps(p, s, w);
    CreateStepFrames(s, s', w, h);
    BumpStepCounters(s, s', w, h);
    assert DataKept(s, s');
    assert MeaningOk(p, s, Top(s, w)) && FrameOk(s, w, |s.stacks[w]| - 1);
    MeaningKept(p, s, s', Top(s, w));
    AddMeanings(p, s, s', w);
  }

  lemma RunInlineInv(p: Program, s: State, w: nat)
    requires Inv(p, s) && Enabled(p, s, RunInline(w))
    ensures Inv(p, Next(p, s, RunInline(w)))
  {
    var s' := Next(p, s, RunInline(w));
    var n := |s.calls|;
    assert FrameOk(s, w, |s.stacks[w]| - 1);
    assert Shape(s') by {
      assert forall v, k :: 0 <= v < |s'.stacks| && 0 <= k < |s'.stacks[v]| ==>
        s'.stacks[v][k] == n || (k < |s.stacks[v]| && s'.stacks[v][k] == s.stacks[v][k]);
    }
    assert StartStep(s, s', w, n);
    StartStepFrames(s, s', w, n);
    StartStepCounters(s, s', w, n);
    assert DataKept(s, s');
    SpawnMeaning(p, s, s', w);
    AddMeanings(p, s, s', w);
  }

  lemma EnqueueInv(p: Program, s: State, w: nat, target: Option<nat>)
    requires Inv(p, s) && Enabled(p, s, Enqueue(w, target))
    ensures Inv(p, Next(p, s, Enqueue(w, target)))
  {
    var s' := Next(p, s, Enqueue(w, target));
    assert FrameOk(s, w, |s.stacks[w]| - 1);
    assert EnqueueStep(s, s', w);
    EnqueueStepFrames(s, s', w);
    EnqueueStepCounters(s, s', w);
    EnqueueStepMeanings(p, s, s', w);
  }

  lemma StartShape(s: State, w: nat, c: nat)
    requires Shape(s) && w < |s.stacks| && c < |s.calls|
    ensures Shape(Start(s, w, c))
  {
    var s' := Start(s, w, c);
    assert forall v, k :: 0 <= v < |s'.stacks| && 0 <= k < |s'.stacks[v]| ==>
      s'.stacks[v][k] == c || (k < |s.stacks[v]| && s'.stacks[v][k] == s.stacks[v][k]);
  }

  lemma ExecuteIsStep(p: Program, s: State, w: nat)
    requires Inv(p, s) && Enabled(p, s, ExecuteNow(w))
    ensures StartStep(s, Next(p, s, ExecuteNow(w)), w, Cur(s, w).mode.child)
  {
    var c := Cur(s, w).mode.child;
    assert FrameOk(s, w, |s.stacks[w]| - 1) && LinkOk(s, c);
    SetCallShape(s, Top(s, w), Cur(s, w).(mode := Calling));
    StartShape(SetMode(s, Top(s, w), Calling), w, c);
  }

  lemma ExecuteNowInv(p: Program, s: State, w: nat)
    requires Inv(p, s) && Enabled(p, s, ExecuteNow(w))
    ensures Inv(p, Next(p, s, ExecuteNow(w)))
  {
    var s' := Next(p, s, ExecuteNow(w));
    var c := Cur(s, w).mode.child;
    assert FrameOk(s, w, |s.stacks[w]| - 1) && LinkOk(s, c);
    ExecuteIsStep(p, s, w);
    StartStepFrames(s, s', w, c);
    StartStepCounters(s, s', w, c);
    StartTaskMeanings(p, s, s', w, c);
  }

  lemma TakeInv(p: Program, s: State, w: nat, c: nat)
    requires Inv(p, s) && Enabled(p, s, Take(w, c))
    ensures Inv(p, Next(p, s, Take(w, c)))
  {
    var s' := Next(p, s, Take(w, c));
    assert LinkOk(s, c);
    if Busy(s, w) {
      assert FrameOk(s, w, |s.stacks[w]| - 1);
    }
    StartShape(s, w, c);
    assert StartStep(s, s', w, c);
    StartStepFrames(s, s', w, c);
    StartStepCounters(s, s', w, c);
    StartTaskMeanings(p, s, s', w, c);
  }

  lemma StepInv(p: Program, s: State, a: Action)
    requires Inv(p, s) && Enabled(p, s, a)
    ensures Inv(p, Next(p, s, a))
  {
    match a
    case Advance(w) => AdvanceInv(p, s, w);
    case RunInline(w) => RunInlineInv(p, s, w);
    case Create(w) => CreateInv(p, s, w);
    case CreateTwin(w) => CreateTwinInv(p, s, w);
    case Enqueue(w, target) => EnqueueInv(p, s, w, target);
    case ExecuteNow(w) => ExecuteNowInv(p, s, w);
    case Take(w, c) => TakeInv(p, s, w, c);
    case FindNothing(w) => FindNothingInv(p, s, w);
  }
}
