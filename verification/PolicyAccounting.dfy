/** What every step of the scheduling policies keeps: where tasks are and what the counters say. */
module PolicyAccounting {
  import opened Wrappers
  import opened PolicyMachine

  // ----- any deque -----------------------------------------------------------------------------

  /** A task a worker is about to claim was accepted. */
  predicate AcceptedOnly(s: State, w: Worker) {
    w.pc.Holding? ==> w.pc.t in s.accepted
  }

  predicate QueueAccepted(s: State, q: seq<Task>) {
    forall k :: 0 <= k < |q| ==> q[k] in s.accepted
  }

  predicate Known(s: State) {
    && s.taken <= s.accepted <= s.handed
    && (forall q :: 0 <= q < |s.queues| ==> QueueAccepted(s, s.queues[q]))
    && (forall i :: 0 <= i < |s.workers| ==> AcceptedOnly(s, s.workers[i]))
  }

  lemma StepKnown(s: State, a: Action)
    requires Known(s) && Enabled(s, a)
    ensures Known(Next(s, a).0)
  {
    var s' := Next(s, a).0;
    forall q | 0 <= q < |s'.queues|
      ensures QueueAccepted(s', s'.queues[q])
    {
      assert QueueAccepted(s, s.queues[q]);
    }
    forall i | 0 <= i < |s'.workers|
      ensures AcceptedOnly(s', s'.workers[i])
    {
      assert AcceptedOnly(s, s.workers[i]);
      if a.Take? {
        assert QueueAccepted(s, s.queues[a.q]);
      }
    }
  }

  /** What an event says about the sets of a state. */
  predicate EventShows(s: State, e: Event, s': State) {
    && s'.taken == s.taken + (if e.Claim? then {e.t} else {})
    && s'.accepted == s.accepted + (if e.Accept? then {e.t} else {})
    && s'.handed == s.handed + (if e.Accept? || e.RunInline? then {e.t} else {})
    && (e.Claim? ==> e.t !in s.taken && e.t in s.accepted)
    && (e.Accept? || e.RunInline? ==> e.t !in s.handed)
  }

  lemma StepShows(s: State, a: Action)
    requires Known(s) && Enabled(s, a)
    ensures EventShows(s, Next(s, a).1, Next(s, a).0)
  {
    assert AcceptedOnly(s, s.workers[a.i]);
  }

  // ----- where tasks are -----------------------------------------------------------------------

  /** An accepted task is in one place until it is claimed, and in none afterwards. */
  predicate PlacedOnce(s: State, t: Task) {
    Placed(s, t) == if t in s.accepted && t !in s.taken then 1 else 0
  }

  ghost predicate Unique(s: State) {
    forall t: Task :: PlacedOnce(s, t)
  }

  lemma WithoutCount(q: seq<Task>, k: nat, t: Task)
    requires k < |q|
    ensures multiset(q)[t] == multiset(Without(q, k))[t] + (if q[k] == t then 1 else 0)
  {
    assert q == q[..k] + [q[k]] + q[k + 1..];
  }

  /** Holding one's own pc, a worker other than i keeps what it holds. */
  lemma PushPlaces(s: State, a: Action, t: Task)
    requires Known(s) && Enabled(s, a) && a.Push? && PlacedOnce(s, t)
    ensures PlacedOnce(Next(s, a).0, t)
  {
    var s' := Next(s, a).0;
    TotalUpdate(s.workers, a.i, s'.workers[a.i], AsHolding(t));
    if |s.queues[a.q]| < s.capacity {
      TotalUpdate(s.queues, a.q, s'.queues[a.q], Occurrences(t));
    }
  }

  lemma TakePlaces(s: State, a: Action, t: Task)
    requires Enabled(s, a) && a.Take? && PlacedOnce(s, t)
    ensures PlacedOnce(Next(s, a).0, t)
  {
    var s' := Next(s, a).0;
    TotalUpdate(s.workers, a.i, s'.workers[a.i], AsHolding(t));
    TotalUpdate(s.queues, a.q, s'.queues[a.q], Occurrences(t));
    WithoutCount(s.queues[a.q], a.k, t);
  }

  /** Over trusted deques the compare-and-swap of `taken` never fails. */
  lemma ClaimSucceeds(s: State, i: nat)
    requires i < |s.workers| && s.workers[i].pc.Holding? && PlacedOnce(s, s.workers[i].pc.t)
    ensures s.workers[i].pc.t in s.accepted && s.workers[i].pc.t !in s.taken
    ensures Next(s, Go(i)).1 == Claim(s.workers[i].pc.t)
  {
    TotalHolds(s.workers, i, AsHolding(s.workers[i].pc.t));
  }

  lemma GoPlaces(s: State, i: nat, t: Task)
    requires Enabled(s, Go(i)) && PlacedOnce(s, t)
    requires s.workers[i].pc.Holding? ==> PlacedOnce(s, s.workers[i].pc.t)
    ensures PlacedOnce(Next(s, Go(i)).0, t)
  {
    var s' := Next(s, Go(i)).0;
    TotalUpdate(s.workers, i, s'.workers[i], AsHolding(t));
    if s.workers[i].pc.Holding? {
      ClaimSucceeds(s, i);
    }
  }

  lemma StepUnique(s: State, a: Action)
    requires Known(s) && Unique(s) && Enabled(s, a) && !a.TakeAgain?
    ensures Unique(Next(s, a).0)
  {
    forall t: Task
      ensures PlacedOnce(Next(s, a).0, t)
    {
      assert PlacedOnce(s, t);
      match a
      case Push(_, _, _) => PushPlaces(s, a, t);
      case Take(_, _, _) => TakePlaces(s, a, t);
      case Go(i) =>
        if s.workers[i].pc.Holding? {
          assert PlacedOnce(s, s.workers[i].pc.t);
        }
        GoPlaces(s, i, t);
    }
  }

  // ----- what the counters say -------------------------------------------------------------------

  predicate WaitingCounts(s: State) {
    s.waiting == Pending(s) % WORD
  }

  predicate BoardCounts(s: State) {
    s.board == Executing(s) % WORD
  }

  lemma WordUp(x: int)
    ensures (x % WORD + 1) % WORD == (x + 1) % WORD
  {
  }

  lemma WordDown(x: int)
    ensures (x % WORD + WORD - 1) % WORD == (x - 1) % WORD
  {
  }

  /** By how much a step changes what g_num_tasks_waiting should be. */
  function Counted(s: State, a: Action): int
    requires Enabled(s, a)
  {
    if a.Go? && s.workers[a.i].pc.Counting? then 1 else if a.Go? && s.workers[a.i].pc.Claimed? then -1 else 0
  }

  lemma PendingChanges(s: State, a: Action)
    requires Unique(s) && Enabled(s, a) && !a.TakeAgain?
    ensures Pending(Next(s, a).0) == Pending(s) + Counted(s, a)
  {
    var s' := Next(s, a).0;
    var w, w' := s.workers[a.i], s'.workers[a.i];
    TotalUpdate(s.workers, a.i, w', AsPopped());
    TotalUpdate(s.workers, a.i, w', AsCounting());
    if !a.Go? {
      TotalUpdate(s.queues, a.q, s'.queues[a.q], Length());
      assert s.queues[a.q := s.queues[a.q]] == s.queues;
    } else if w.pc.Holding? {
      assert PlacedOnce(s, w.pc.t);
      ClaimSucceeds(s, a.i);
    }
  }

  lemma StepWaiting(s: State, a: Action)
    requires Unique(s) && Enabled(s, a) && !a.TakeAgain? && WaitingCounts(s)
    ensures WaitingCounts(Next(s, a).0)
  {
    PendingChanges(s, a);
    WordUp(Pending(s));
    WordDown(Pending(s));
    assert Counted(s, a) == 0 ==> Next(s, a).0.waiting == s.waiting;
  }

  function Started(s: State, a: Action): int
    requires Enabled(s, a)
  {
    if a.Go? && s.workers[a.i].pc.Raising? then 1 else if a.Go? && s.workers[a.i].pc.Leaving? then -1 else 0
  }

  lemma WorkFramesSnoc(fs: seq<Frame>, f: Frame)
    ensures WorkFrames(fs + [f]) == WorkFrames(fs) + (if f.Work? then 1 else 0)
  {
    assert (fs + [f])[..|fs|] == fs;
  }

  lemma RaiseFrames(s: State, i: nat)
    requires Enabled(s, Go(i)) && s.workers[i].pc.Raising?
    ensures WorkFrames(Next(s, Go(i)).0.workers[i].frames) == WorkFrames(s.workers[i].frames) + 1
  {
    WorkFramesSnoc(s.workers[i].frames, Work(s.workers[i].pc.t));
  }

  lemma GoFrames(s: State, i: nat)
    requires Enabled(s, Go(i)) && LeavesWork(s.workers[i])
    ensures WorkFrames(Next(s, Go(i)).0.workers[i].frames) == WorkFrames(s.workers[i].frames) + Started(s, Go(i))
  {
    if s.workers[i].pc.Raising? {
      RaiseFrames(s, i);
    }
  }

  lemma FramesChange(s: State, a: Action)
    requires Enabled(s, a) && LeavesWork(s.workers[a.i])
    ensures WorkFrames(Next(s, a).0.workers[a.i].frames) == WorkFrames(s.workers[a.i].frames) + Started(s, a)
  {
    if a.Push? {
      WorkFramesSnoc(s.workers[a.i].frames, Inline(a.t));
    } else if a.Go? {
      GoFrames(s, a.i);
    }
  }

  lemma ExecutingChanges(s: State, a: Action)
    requires Enabled(s, a) && LeavesWork(s.workers[a.i])
    ensures Executing(Next(s, a).0) == Executing(s) + Started(s, a)
  {
    var s' := Next(s, a).0;
    FramesChange(s, a);
    assert s'.workers == s.workers[a.i := s'.workers[a.i]];
    TotalUpdate(s.workers, a.i, s'.workers[a.i], AsWorking());
  }

  /** The board moves with the executing calls. */
  lemma BoardChanges(s: State, a: Action)
    requires Enabled(s, a)
    ensures Next(s, a).0.board ==
            if Started(s, a) == 1 then (s.board + 1) % WORD
            else if Started(s, a) == -1 then (s.board + WORD - 1) % WORD else s.board
  {
  }

  lemma StepBoard(s: State, a: Action)
    requires Enabled(s, a) && BoardCounts(s) && LeavesWork(s.workers[a.i])
    ensures BoardCounts(Next(s, a).0)
  {
    ExecutingChanges(s, a);
    BoardChanges(s, a);
    WordUp(Executing(s));
    WordDown(Executing(s));
  }

  // ----- who has a claimed task --------------------------------------------------------------------

  predicate InWork(w: Worker) {
    w.frames != [] && Last(w.frames).Work?
  }

  predicate LeavesWork(w: Worker) {
    w.pc.Leaving? ==> InWork(w)
  }

  /** The frames whose bodies have not ended. */
  function Active(w: Worker): seq<Frame> {
    if w.pc.Leaving? && w.frames != [] then w.frames[..|w.frames| - 1] else w.frames
  }

  function FramesOf(fs: seq<Frame>, t: Task): nat {
    if fs == [] then 0 else FramesOf(fs[..|fs| - 1], t) + (if Last(fs) == Work(t) then 1 else 0)
  }

  /** The worker has claimed t and not finished it. */
  function AsBearing(t: Task): Worker -> nat {
    (w: Worker) => (if w.pc == Claimed(t) || w.pc == Raising(t) then 1 else 0) + FramesOf(Active(w), t)
  }

  /** Claimed and not executed. */
  function Outstanding(s: State, t: Task): nat {
    if t in s.taken && t !in s.done then 1 else 0
  }

  /** A claimed task is with one worker until it has been executed, and with none afterwards. */
  predicate BorneOnce(s: State, t: Task) {
    Total(s.workers, AsBearing(t)) == Outstanding(s, t)
  }

  ghost predicate Borne(s: State) {
    && s.done <= s.taken
    && (forall t: Task :: BorneOnce(s, t))
    && (forall i :: 0 <= i < |s.workers| ==> LeavesWork(s.workers[i]))
  }

  /** The task whose body ends with the step. */
  predicate Ends(s: State, a: Action, t: Task)
    requires Enabled(s, a)
  {
    a.Go? && s.workers[a.i].pc.Ready? && Last(s.workers[a.i].frames) == Work(t)
  }

  predicate Claims(s: State, a: Action, t: Task)
    requires Enabled(s, a)
  {
    a.Go? && s.workers[a.i].pc == Holding(t) && t !in s.taken
  }

  lemma FramesOfSnoc(fs: seq<Frame>, f: Frame, t: Task)
    ensures FramesOf(fs + [f], t) == FramesOf(fs, t) + (if f == Work(t) then 1 else 0)
  {
    assert (fs + [f])[..|fs|] == fs;
  }

  lemma FetchBearing(s: State, a: Action, t: Task)
    requires Enabled(s, a) && !a.Go?
    ensures AsBearing(t)(Next(s, a).0.workers[a.i]) == AsBearing(t)(s.workers[a.i])
  {
    if a.Push? {
      FramesOfSnoc(s.workers[a.i].frames, Inline(a.t), t);
    }
  }

  /** The body of the top frame ends. */
  lemma EndBearing(s: State, i: nat, t: Task)
    requires Enabled(s, Go(i)) && s.workers[i].pc.Ready?
    ensures AsBearing(t)(Next(s, Go(i)).0.workers[i]) + (if Ends(s, Go(i), t) then 1 else 0)
            == AsBearing(t)(s.workers[i])
  {
  }

  lemma RaiseBearing(s: State, i: nat, t: Task)
    requires Enabled(s, Go(i)) && s.workers[i].pc.Raising?
    ensures AsBearing(t)(Next(s, Go(i)).0.workers[i]) == AsBearing(t)(s.workers[i])
  {
    FramesOfSnoc(s.workers[i].frames, Work(s.workers[i].pc.t), t);
  }

  lemma GoBearing(s: State, i: nat, t: Task)
    requires Enabled(s, Go(i)) && LeavesWork(s.workers[i])
    ensures AsBearing(t)(Next(s, Go(i)).0.workers[i]) + (if Ends(s, Go(i), t) then 1 else 0)
            == AsBearing(t)(s.workers[i]) + (if Claims(s, Go(i), t) then 1 else 0)
  {
    if s.workers[i].pc.Raising? {
      RaiseBearing(s, i, t);
    } else if s.workers[i].pc.Ready? {
      EndBearing(s, i, t);
    }
  }

  lemma BearingChanges(s: State, a: Action, t: Task)
    requires Enabled(s, a) && LeavesWork(s.workers[a.i])
    ensures AsBearing(t)(Next(s, a).0.workers[a.i]) + (if Ends(s, a, t) then 1 else 0)
            == AsBearing(t)(s.workers[a.i]) + (if Claims(s, a, t) then 1 else 0)
  {
    if a.Go? {
      GoBearing(s, a.i, t);
    } else {
      FetchBearing(s, a, t);
    }
  }

  lemma EndsBorne(s: State, a: Action, t: Task)
    requires Enabled(s, a) && Ends(s, a, t) && BorneOnce(s, t)
    ensures t in s.taken && t !in s.done
  {
    TotalHolds(s.workers, a.i, AsBearing(t));
  }

  lemma OutstandingChanges(s: State, a: Action, t: Task)
    requires Enabled(s, a) && s.done <= s.taken && (Ends(s, a, t) ==> Outstanding(s, t) == 1)
    ensures Outstanding(Next(s, a).0, t) + (if Ends(s, a, t) then 1 else 0)
            == Outstanding(s, t) + (if Claims(s, a, t) then 1 else 0)
  {
  }

  lemma StepBorneOnce(s: State, a: Action, t: Task)
    requires Enabled(s, a) && LeavesWork(s.workers[a.i]) && BorneOnce(s, t) && s.done <= s.taken
    ensures BorneOnce(Next(s, a).0, t)
  {
    if Ends(s, a, t) {
      EndsBorne(s, a, t);
    }
    BearingChanges(s, a, t);
    OutstandingChanges(s, a, t);
    var s' := Next(s, a).0;
    assert s'.workers == s.workers[a.i := s'.workers[a.i]];
    TotalUpdate(s.workers, a.i, s'.workers[a.i], AsBearing(t));
  }

  lemma StepBorne(s: State, a: Action)
    requires Borne(s) && Enabled(s, a)
    ensures Borne(Next(s, a).0)
  {
    var s' := Next(s, a).0;
    forall i | 0 <= i < |s'.workers|
      ensures LeavesWork(s'.workers[i])
    {
      assert LeavesWork(s.workers[i]);
    }
    forall t: Task
      ensures BorneOnce(s', t)
    {
      assert BorneOnce(s, t);
      StepBorneOnce(s, a, t);
    }
    if a.Go? && s.workers[a.i].pc.Ready? && Last(s.workers[a.i].frames).Work? {
      EndsBorne(s, a, Last(s.workers[a.i].frames).t);
    }
  }

  // ----- tasks run inline --------------------------------------------------------------------------

  function InlinesOf(fs: seq<Frame>, t: Task): nat {
    if fs == [] then 0 else InlinesOf(fs[..|fs| - 1], t) + (if Last(fs) == Inline(t) then 1 else 0)
  }

  /** The bodies of t that the worker has started inline and not ended. */
  function AsInline(t: Task): Worker -> nat { (w: Worker) => InlinesOf(w.frames, t) }

  /** Refused and not yet executed to its end. */
  function Unended(s: State, t: Task): nat {
    if t in s.handed && t !in s.accepted && t !in s.inlined then 1 else 0
  }

  /** A refused task is the body of one frame until that body has ended, and of none afterwards. */
  predicate InlineOnce(s: State, t: Task) {
    Total(s.workers, AsInline(t)) == Unended(s, t)
  }

  ghost predicate Inlined(s: State) {
    && s.inlined <= s.handed - s.accepted
    && (forall t: Task :: InlineOnce(s, t))
  }

  lemma InlinesOfSnoc(fs: seq<Frame>, f: Frame, t: Task)
    ensures InlinesOf(fs + [f], t) == InlinesOf(fs, t) + (if f == Inline(t) then 1 else 0)
  {
    assert (fs + [f])[..|fs|] == fs;
  }

  /** A push that a full queue refuses starts the task's body on the pusher's own stack. */
  lemma RefusedRuns(s: State, i: nat, q: nat, t: Task)
    requires Enabled(s, Push(i, q, t)) && |s.queues[q]| >= s.capacity
    ensures var (s', e) := Next(s, Push(i, q, t));
      && e == RunInline(t) && s'.queues == s.queues && s'.waiting == s.waiting && s'.accepted == s.accepted
      && s'.workers[i].pc.Ready? && s'.workers[i].frames == s.workers[i].frames + [Inline(t)]
      && forall u :: AsInline(u)(s'.workers[i]) == AsInline(u)(s.workers[i]) + (if u == t then 1 else 0)
  {
    forall u: Task
      ensures InlinesOf(s.workers[i].frames + [Inline(t)], u)
              == InlinesOf(s.workers[i].frames, u) + (if u == t then 1 else 0)
    {
      InlinesOfSnoc(s.workers[i].frames, Inline(t), u);
    }
  }

  /** The end of an inline body removes its frame and nothing else. */
  lemma InlineEnds(s: State, i: nat)
    requires Enabled(s, Go(i)) && s.workers[i].pc.Ready? && Last(s.workers[i].frames).Inline?
    ensures var (s', t) := (Next(s, Go(i)).0, Last(s.workers[i].frames).t);
      && s'.workers[i].frames + [Inline(t)] == s.workers[i].frames && s'.workers[i].pc.Ready?
      && t in s'.inlined && s'.inlined - {t} <= s.inlined && s'.done == s.done
      && forall u :: AsInline(u)(s'.workers[i]) + (if u == t then 1 else 0) == AsInline(u)(s.workers[i])
  {
  }

  /** A task becomes executed only by the end of its body, the topmost on some worker's stack. */
  lemma OnlyBodiesEnd(s: State, a: Action, t: Task)
    requires Enabled(s, a)
    ensures t in Next(s, a).0.done - s.done ==>
      a.Go? && s.workers[a.i].pc.Ready? && Last(s.workers[a.i].frames) == Work(t)
    ensures t in Next(s, a).0.inlined - s.inlined ==>
      a.Go? && s.workers[a.i].pc.Ready? && Last(s.workers[a.i].frames) == Inline(t)
  {
  }

  lemma InlinesChange(s: State, a: Action, t: Task)
    requires Enabled(s, a) && LeavesWork(s.workers[a.i])
    ensures AsInline(t)(Next(s, a).0.workers[a.i])
              + (if a.Go? && s.workers[a.i].pc.Ready? && Last(s.workers[a.i].frames) == Inline(t) then 1 else 0)
            == AsInline(t)(s.workers[a.i]) + (if Next(s, a).1 == RunInline(t) then 1 else 0)
  {
    if a.Push? {
      InlinesOfSnoc(s.workers[a.i].frames, Inline(a.t), t);
    } else if a.Go? && s.workers[a.i].pc.Raising? {
      InlinesOfSnoc(s.workers[a.i].frames, Work(s.workers[a.i].pc.t), t);
    }
  }

  lemma StepInlineOnce(s: State, a: Action, t: Task)
    requires Known(s) && Enabled(s, a) && LeavesWork(s.workers[a.i]) && InlineOnce(s, t)
    requires s.inlined <= s.handed - s.accepted
    ensures InlineOnce(Next(s, a).0, t)
  {
    var s' := Next(s, a).0;
    InlinesChange(s, a, t);
    TotalHolds(s.workers, a.i, AsInline(t));
    assert s'.workers == s.workers[a.i := s'.workers[a.i]];
    TotalUpdate(s.workers, a.i, s'.workers[a.i], AsInline(t));
  }

  /** Every step keeps each refused task with the one frame that executes it, until it has. */
  lemma StepInlined(s: State, a: Action)
    requires Known(s) && Inlined(s) && Enabled(s, a) && LeavesWork(s.workers[a.i])
    ensures Inlined(Next(s, a).0)
  {
    forall t: Task
      ensures InlineOnce(Next(s, a).0, t)
    {
      assert InlineOnce(s, t);
      StepInlineOnce(s, a, t);
    }
    if a.Go? && s.workers[a.i].pc.Ready? && Last(s.workers[a.i].frames).Inline? {
      var t := Last(s.workers[a.i].frames).t;
      assert InlineOnce(s, t);
      TotalHolds(s.workers, a.i, AsInline(t));
    }
  }
}
