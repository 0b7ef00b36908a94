/** What runs of the scheduling policies guarantee. */
module Policy {
  import opened Runs
  import opened Wrappers
  import opened PolicyMachine
  import opened PolicyAccounting

  // ----- any deque -----------------------------------------------------------------------------

  function Count(events: seq<Event>, e: Event): nat {
    multiset(events)[e]
  }

  /** The sets of a state are the events so far. */
  predicate Told(events: seq<Event>, s: State, t: Task) {
    && Count(events, Claim(t)) == (if t in s.taken then 1 else 0)
    && Count(events, Accept(t)) == (if t in s.accepted then 1 else 0)
    && Count(events, RunInline(t)) == (if t in s.handed && t !in s.accepted then 1 else 0)
  }

  lemma CountGrows(events: seq<Event>, k: nat, e: Event)
    requires k < |events|
    ensures Count(events[..k + 1], e) == Count(events[..k], e) + (if events[k] == e then 1 else 0)
  {
    assert events[..k + 1] == events[..k] + [events[k]];
  }

  lemma ToldStep(before: seq<Event>, s: State, e: Event, s': State, t: Task)
    requires Told(before, s, t) && EventShows(s, e, s') && s.taken <= s.accepted <= s.handed
    ensures Told(before + [e], s', t)
  {
    assert multiset(before + [e]) == multiset(before) + multiset{e};
  }

  lemma InitKnown(s: State)
    requires Init(s)
    ensures Known(s)
  {
    assert forall q :: 0 <= q < |s.queues| ==> QueueAccepted(s, s.queues[q]);
    assert forall i :: 0 <= i < |s.workers| ==> AcceptedOnly(s, s.workers[i]);
  }

  ghost predicate AllTold(before: seq<Event>, s: State) {
    forall t: Task :: Told(before, s, t)
  }

  lemma InitTold(s: State)
    requires Init(s)
    ensures AllTold([], s)
  {
    forall t: Task
      ensures Told([], s, t)
    {
    }
  }

  lemma AllToldStep(before: seq<Event>, s: State, e: Event, s': State)
    requires Known(s) && AllTold(before, s) && AnyStep(s, e, s')
    ensures AllTold(before + [e], s')
  {
    var a: Action :| Enabled(s, a) && Next(s, a) == (s', e);
    StepShows(s, a);
    forall t: Task
      ensures Told(before + [e], s', t)
    {
      assert Told(before, s, t);
      ToldStep(before, s, e, s', t);
    }
  }

  lemma StepKeepsKnown(s: State, e: Event, s': State)
    requires Known(s) && AnyStep(s, e, s')
    ensures Known(s')
  {
    var a: Action :| Enabled(s, a) && Next(s, a) == (s', e);
    StepKnown(s, a);
  }

  lemma {:induction false} RunKnown(states: seq<State>, events: seq<Event>, k: nat)
    requires IsRun(AnyStep, states, events) && Init(states[0]) && k <= |events|
    ensures Known(states[k])
  {
    InitKnown(states[0]);
    if k > 0 {
      RunKnown(states, events, k - 1);
      assert AnyStep(states[k - 1], events[k - 1], states[k - 1 + 1]);
      StepKeepsKnown(states[k - 1], events[k - 1], states[k]);
    }
  }

  lemma {:induction false} RunTold(states: seq<State>, events: seq<Event>, k: nat)
    requires IsRun(AnyStep, states, events) && Init(states[0]) && k <= |events|
    ensures AllTold(events[..k], states[k])
  {
    if k == 0 {
      InitTold(states[0]);
      assert events[..0] == [];
    } else {
      RunTold(states, events, k - 1);
      RunKnown(states, events, k - 1);
      assert AnyStep(states[k - 1], events[k - 1], states[k - 1 + 1]);
      AllToldStep(events[..k - 1], states[k - 1], events[k - 1], states[k]);
      assert events[..k] == events[..k - 1] + [events[k - 1]];
    }
  }

  /**
  Even over a deque that hands out tasks again, a task is claimed at most once, only if it
  was accepted, and never when it was run inline.
  */
  lemma AtMostOnce(states: seq<State>, events: seq<Event>, t: Task)
    requires IsRun(AnyStep, states, events) && Init(states[0])
    ensures Count(events, Claim(t)) <= Count(events, Accept(t))
    ensures Count(events, Accept(t)) + Count(events, RunInline(t)) <= 1
  {
    RunKnown(states, events, |events|);
    RunTold(states, events, |events|);
    assert Told(events[..|events|], states[|events|], t);
    assert events[..|events|] == events;
  }

  // ----- trusted deques ------------------------------------------------------------------------

  ghost predicate Inv(s: State) {
    Known(s) && Unique(s) && Borne(s) && Inlined(s) && WaitingCounts(s) && BoardCounts(s)
  }

  lemma InitInv(s: State)
    requires Init(s)
    ensures Inv(s)
  {
    InitKnown(s);
    forall t: Task
      ensures PlacedOnce(s, t) && BorneOnce(s, t) && InlineOnce(s, t)
    {
      TotalOfNone(s.workers, AsInline(t));
      TotalOfNone(s.queues, Occurrences(t));
      TotalOfNone(s.workers, AsHolding(t));
      TotalOfNone(s.workers, AsBearing(t));
    }
    TotalOfNone(s.queues, Length());
    TotalOfNone(s.workers, AsPopped());
    TotalOfNone(s.workers, AsCounting());
    TotalOfNone(s.workers, AsWorking());
  }

  lemma StepInv(s: State, e: Event, s': State)
    requires Inv(s) && Step(s, e, s')
    ensures Inv(s') && !e.Drop?
  {
    var a: Action :| !a.TakeAgain? && Enabled(s, a) && Next(s, a) == (s', e);
    StepKnown(s, a);
    StepUnique(s, a);
    StepBorne(s, a);
    StepWaiting(s, a);
    assert LeavesWork(s.workers[a.i]);
    StepBoard(s, a);
    StepInlined(s, a);
    if s.workers[a.i].pc.Holding? {
      assert PlacedOnce(s, s.workers[a.i].pc.t);
      ClaimSucceeds(s, a.i);
    }
  }

  lemma {:induction false} RunInv(states: seq<State>, events: seq<Event>, k: nat)
    requires IsRun(Step, states, events) && Init(states[0]) && k <= |events|
    ensures Inv(states[k])
  {
    if k == 0 {
      InitInv(states[0]);
    } else {
      RunInv(states, events, k - 1);
      assert Step(states[k - 1], events[k - 1], states[k - 1 + 1]);
      StepInv(states[k - 1], events[k - 1], states[k]);
    }
  }

  lemma {:induction false} NoneDropped(states: seq<State>, events: seq<Event>, k: nat, t: Task)
    requires IsRun(Step, states, events) && Init(states[0]) && k <= |events|
    ensures Count(events[..k], Drop(t)) == 0
  {
    if k > 0 {
      NoneDropped(states, events, k - 1, t);
      RunInv(states, events, k - 1);
      assert Step(states[k - 1], events[k - 1], states[k - 1 + 1]);
      StepInv(states[k - 1], events[k - 1], states[k]);
      CountGrows(events, k - 1, Drop(t));
    } else {
      assert multiset(events[..0]) == multiset{};
    }
  }

  lemma RunsAreAny(states: seq<State>, events: seq<Event>)
    requires IsRun(Step, states, events)
    ensures IsRun(AnyStep, states, events)
  {
    forall k | 0 <= k < |events|
      ensures AnyStep(states[k], events[k], states[k + 1])
    {
      assert Step(states[k], events[k], states[k + 1]);
    }
  }

  /**
  Every task handed to the policy is run inline, or lies in one place, or has been claimed:
  one of the three, and once. No compare-and-swap of `taken` fails.
  */
  lemma ExactlyOnce(states: seq<State>, events: seq<Event>, t: Task)
    requires IsRun(Step, states, events) && Init(states[0])
    ensures Count(events, RunInline(t)) + Placed(states[|events|], t) + Count(events, Claim(t))
            == if t in states[|events|].handed then 1 else 0
    ensures Count(events, Drop(t)) == 0
  {
    RunInv(states, events, |events|);
    NoneDropped(states, events, |events|, t);
    RunsAreAny(states, events);
    RunTold(states, events, |events|);
    assert Told(events[..|events|], states[|events|], t);
    assert events[..|events|] == events;
    assert PlacedOnce(states[|events|], t);
  }

  /**
  A task counted as run inline is one whose body is on some worker's stack, or one whose body
  has been executed to its end there; and a claimed one is with a worker, or has been executed.
  */
  lemma CountedIsExecuted(states: seq<State>, events: seq<Event>, t: Task)
    requires IsRun(Step, states, events) && Init(states[0])
    ensures var s := states[|events|];
      && Total(s.workers, AsInline(t)) + (if t in s.inlined then 1 else 0) == Count(events, RunInline(t))
      && Total(s.workers, AsBearing(t)) + (if t in s.done then 1 else 0) == Count(events, Claim(t))
  {
    RunInv(states, events, |events|);
    RunsAreAny(states, events);
    RunTold(states, events, |events|);
    assert Told(events[..|events|], states[|events|], t);
    assert events[..|events|] == events;
    assert InlineOnce(states[|events|], t) && BorneOnce(states[|events|], t);
  }

  ghost predicate Reachable(s: State) {
    exists init: State :: Init(init) && Reaches(Step, init, s)
  }

  lemma ReachableInv(s: State)
    requires Reachable(s)
    ensures Inv(s)
  {
    var init: State :| Init(init) && Reaches(Step, init, s);
    var states, events: seq<Event> :|
      IsRun(Step, states, events) && states[0] == init && states[|events|] == s;
    RunInv(states, events, |events|);
  }

  // ----- what the counters tell ------------------------------------------------------------------

  /** The two counters at every point of every run. */
  lemma CountersMean(s: State)
    requires Reachable(s)
    ensures s.waiting == Pending(s) % WORD && s.board == Executing(s) % WORD
  {
    ReachableInv(s);
  }

  /** Both counters are zero, and not because 2^32 tasks or more are about. */
  predicate LooksDone(s: State) {
    && s.waiting == 0 && s.board == 0
    && Total(s.queues, Length()) + Total(s.workers, AsPopped()) < WORD
    && Total(s.workers, AsCounting()) < WORD
    && Executing(s) < WORD
  }

  /** No pusher is between its push and its increment. */
  predicate NoneCounting(s: State) {
    forall i :: 0 <= i < |s.workers| ==> !s.workers[i].pc.Counting?
  }

  /** No worker is between lowering the first counter and raising the second. */
  predicate NoneRaising(s: State) {
    forall i :: 0 <= i < |s.workers| ==> !s.workers[i].pc.Raising?
  }

  /** A zero counter: as many tasks are in queues or popped as are pushed and not yet counted. */
  lemma PendingIsZero(s: State)
    requires LooksDone(s) && WaitingCounts(s)
    ensures Total(s.queues, Length()) + Total(s.workers, AsPopped()) == Total(s.workers, AsCounting())
  {
    var x := Pending(s);
    assert x % WORD == 0 && -WORD < x < WORD;
  }

  predicate Empty(q: seq<Task>) {
    q == []
  }

  predicate Outside(w: Worker) {
    !w.pc.Holding? && !w.pc.Claimed? && WorkFrames(w.frames) == 0
  }

  lemma NothingAround(s: State)
    requires LooksDone(s) && NoneCounting(s) && WaitingCounts(s) && BoardCounts(s)
    ensures forall q :: 0 <= q < |s.queues| ==> Empty(s.queues[q])
    ensures forall i :: 0 <= i < |s.workers| ==> Outside(s.workers[i])
  {
    PendingIsZero(s);
    TotalOfNone(s.workers, AsCounting());
    forall q | 0 <= q < |s.queues|
      ensures Empty(s.queues[q])
    {
      TotalHolds(s.queues, q, Length());
    }
    forall i | 0 <= i < |s.workers|
      ensures Outside(s.workers[i])
    {
      TotalHolds(s.workers, i, AsPopped());
      TotalHolds(s.workers, i, AsWorking());
    }
  }

  lemma NothingPlaced(s: State, t: Task)
    requires forall q :: 0 <= q < |s.queues| ==> Empty(s.queues[q])
    requires forall i :: 0 <= i < |s.workers| ==> Outside(s.workers[i])
    ensures Placed(s, t) == 0
  {
    forall q | 0 <= q < |s.queues|
      ensures Occurrences(t)(s.queues[q]) == 0
    {
      assert Empty(s.queues[q]);
    }
    TotalOfNone(s.queues, Occurrences(t));
    forall i | 0 <= i < |s.workers|
      ensures AsHolding(t)(s.workers[i]) == 0
    {
      assert Outside(s.workers[i]);
    }
    TotalOfNone(s.workers, AsHolding(t));
  }

  lemma {:induction false} NoFrames(fs: seq<Frame>, t: Task)
    ensures FramesOf(fs, t) <= WorkFrames(fs)
  {
    if fs != [] {
      NoFrames(fs[..|fs| - 1], t);
    }
  }

  lemma ActiveFewer(w: Worker)
    ensures WorkFrames(Active(w)) <= WorkFrames(w.frames)
  {
  }

  predicate RaisedBySome(s: State, t: Task) {
    exists i :: 0 <= i < |s.workers| && s.workers[i].pc == Raising(t)
  }

  /**
  When both counters are zero and no pusher is in flight, a task that was accepted and has
  not been executed is exactly one that some worker holds between lowering the first counter
  and raising the second.
  */
  lemma WhatLooksDone(s: State, t: Task)
    requires Reachable(s) && LooksDone(s) && NoneCounting(s)
    ensures t in s.accepted && t !in s.done <==> RaisedBySome(s, t)
  {
    ReachableInv(s);
    NothingAround(s);
    NothingPlaced(s, t);
    assert PlacedOnce(s, t) && BorneOnce(s, t);
    if t in s.accepted && t !in s.done {
      BearerExists(s.workers, t);
    }
    if RaisedBySome(s, t) {
      var i :| 0 <= i < |s.workers| && s.workers[i].pc == Raising(t);
      TotalHolds(s.workers, i, AsBearing(t));
    }
  }

  lemma {:induction false} BearerExists(ws: seq<Worker>, t: Task)
    requires Total(ws, AsBearing(t)) > 0 && forall i :: 0 <= i < |ws| ==> Outside(ws[i])
    ensures exists i :: 0 <= i < |ws| && ws[i].pc == Raising(t)
  {
    var n := |ws| - 1;
    assert Outside(ws[n]);
    if ws[n].pc != Raising(t) {
      NoFrames(Active(ws[n]), t);
      ActiveFewer(ws[n]);
      assert forall i :: 0 <= i < n ==> ws[..n][i] == ws[i];
      BearerExists(ws[..n], t);
      var i :| 0 <= i < n && ws[..n][i].pc == Raising(t);
      assert ws[i].pc == Raising(t);
    }
  }

  lemma {:induction false} TotalPositive<A>(xs: seq<A>, f: A -> nat) returns (i: nat)
    requires Total(xs, f) > 0
    ensures i < |xs| && f(xs[i]) > 0
  {
    var n := |xs| - 1;
    if f(xs[n]) > 0 {
      i := n;
    } else {
      i := TotalPositive(xs[..n], f);
    }
  }

  /** A task in a queue, held or claimed is accepted and not done. */
  lemma QueuedIsNotDone(s: State, q: nat)
    requires Inv(s) && q < |s.queues| && s.queues[q] != []
    ensures s.queues[q][0] in s.accepted && s.queues[q][0] !in s.done
  {
    var t := s.queues[q][0];
    assert QueueAccepted(s, s.queues[q]) && PlacedOnce(s, t);
    TotalHolds(s.queues, q, Occurrences(t));
  }

  lemma PoppedIsNotDone(s: State, i: nat)
    requires Inv(s) && i < |s.workers| && AsPopped()(s.workers[i]) > 0
    ensures s.workers[i].pc.t in s.accepted && s.workers[i].pc.t !in s.done
  {
    var t := s.workers[i].pc.t;
    assert AcceptedOnly(s, s.workers[i]) && PlacedOnce(s, t) && BorneOnce(s, t);
    TotalHolds(s.workers, i, AsHolding(t));
    TotalHolds(s.workers, i, AsBearing(t));
  }

  /** A pusher in flight under a zero counter leaves its own or another task to be found. */
  lemma PusherLeavesTask(s: State, i: nat) returns (t: Task)
    requires Inv(s) && LooksDone(s) && i < |s.workers| && s.workers[i].pc.Counting?
    ensures t in s.accepted && t !in s.done
  {
    PendingIsZero(s);
    TotalHolds(s.workers, i, AsCounting());
    if Total(s.queues, Length()) > 0 {
      var q := TotalPositive(s.queues, Length());
      QueuedIsNotDone(s, q);
      t := s.queues[q][0];
    } else {
      var v := TotalPositive(s.workers, AsPopped());
      PoppedIsNotDone(s, v);
      t := s.workers[v].pc.t;
    }
  }

  /**
  Two zero counters mean that everything accepted is done exactly when no worker is between
  the two updates of a pop, and none between the push of a task and its increment.
  */
  lemma DoneExactly(s: State)
    requires Reachable(s) && LooksDone(s)
    ensures (forall t :: t in s.accepted ==> t in s.done) <==> NoneRaising(s) && NoneCounting(s)
  {
    ReachableInv(s);
    if i :| 0 <= i < |s.workers| && s.workers[i].pc.Counting? {
      var t := PusherLeavesTask(s, i);
    } else {
      forall t: Task
        ensures t in s.accepted && t !in s.done <==> RaisedBySome(s, t)
      {
        WhatLooksDone(s, t);
      }
      if i :| 0 <= i < |s.workers| && s.workers[i].pc.Raising? {
        assert RaisedBySome(s, s.workers[i].pc.t);
      }
    }
  }

  lemma Perform(init: State, s: State, a: Action) returns (s': State)
    requires Reaches(Step, init, s) && Enabled(s, a) && !a.TakeAgain?
    ensures s' == Next(s, a).0 && Reaches(Step, init, s')
  {
    s' := Next(s, a).0;
    assert Step(s, Next(s, a).1, s');
    ReachesSnoc(Step, init, s, Next(s, a).1, s');
  }

  /** One worker, one queue, and one task that has been accepted. */
  function One(t: Task, pc: Pc, queue: seq<Task>, waiting: nat, taken: set<Task>): State {
    State(1, [queue], [Worker(pc, [])], waiting, 0, taken, {t}, {t}, {}, {})
  }

  lemma EarlyPush(t: Task) returns (init: State)
    ensures Init(init) && Reaches(Step, init, One(t, Counting(t), [t], 0, {}))
    ensures Reaches(Step, init, One(t, Ready, [t], 1, {}))
  {
    init := State(1, [[]], [Worker(Ready, [])], 0, 0, {}, {}, {}, {}, {});
    ReachesSelf(Step, init);
    var q: seq<Task> := [];
    assert init.queues[0] == q && q + [t] == [t];
    var s := Perform(init, init, Push(0, 0, t));
    assert s == One(t, Counting(t), [t], 0, {});
    s := Perform(init, s, Go(0));
    assert s == One(t, Ready, [t], 1, {});
  }

  lemma EarlyTake(init: State, t: Task)
    requires Reaches(Step, init, One(t, Ready, [t], 1, {}))
    ensures Reaches(Step, init, One(t, Claimed(t), [], 1, {t}))
  {
    var s := One(t, Ready, [t], 1, {});
    assert Without([t], 0) == [];
    s := Perform(init, s, Take(0, 0, 0));
    assert s == One(t, Holding(t), [], 1, {});
    s := Perform(init, s, Go(0));
    assert s == One(t, Claimed(t), [], 1, {t});
  }

  lemma OneLooksDone(t: Task, pc: Pc, queue: seq<Task>, taken: set<Task>)
    requires |queue| <= 1
    ensures LooksDone(One(t, pc, queue, 0, taken))
  {
    var s := One(t, pc, queue, 0, taken);
    assert s.queues[..0] == [] && s.workers[..0] == [];
    assert Total(s.queues, Length()) == |queue|;
    assert Total(s.workers, AsPopped()) <= 1 && Total(s.workers, AsCounting()) <= 1;
    assert AsWorking()(s.workers[0]) == 0;
    assert Executing(s) == Total(s.workers[..0], AsWorking()) + AsWorking()(s.workers[0]);
  }

  /** The first of the two points is reached: the counters are zero and a task has not started. */
  lemma LooksDoneTooEarly() returns (s: State, t: Task)
    ensures Reachable(s) && LooksDone(s) && NoneCounting(s) && t in s.accepted && t !in s.done
  {
    t := 7;
    var init := EarlyPush(t);
    EarlyTake(init, t);
    s := Perform(init, One(t, Claimed(t), [], 1, {t}), Go(0));
    assert s == One(t, Raising(t), [], 0, {t});
    OneLooksDone(t, Raising(t), [], {t});
  }

  /** And so is the second: the counters are zero and a task lies in a queue. */
  lemma LooksDoneBeforeCounting() returns (s: State, t: Task)
    ensures Reachable(s) && LooksDone(s) && NoneRaising(s) && t in s.accepted && t !in s.done
  {
    t := 7;
    var init := EarlyPush(t);
    s := One(t, Counting(t), [t], 0, {});
    OneLooksDone(t, Counting(t), [t], {});
  }
}
