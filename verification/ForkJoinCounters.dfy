/** Every step keeps the wait counters in agreement with the tasks linked to them. */
module ForkJoinCounters {
  import opened ForkJoinMachine
  import opened ForkJoinInvariant
  import opened ForkJoinFrames

  lemma InitCounters(s: State)
    requires Init(s)
    ensures Counters(s)
  {
  }

  /** Nothing happened to the counter of p, and nothing linked to it was added or finished. */
  lemma TwcKept(s: State, s': State, p: nat)
    requires Shape(s) && Shape(s') && p < |s.calls| <= |s'.calls| && TwcOk(s, p)
    requires s'.twcs[p] == s.twcs[p]
    requires forall c :: 0 <= c < |s.calls| ==>
      s'.calls[c].isTask == s.calls[c].isTask && s'.calls[c].home == s.calls[c].home
    requires forall c :: 0 <= c < |s.calls| && Linked(s, c, p) ==>
      s'.calls[c].place.Finished? == s.calls[c].place.Finished?
    requires forall c :: |s.calls| <= c < |s'.calls| ==> !Linked(s', c, p)
    ensures TwcOk(s', p)
  {
    forall c | 0 <= c < |s.calls|
      ensures Linked(s', c, p) == Linked(s, c, p)
      ensures Linked(s, c, p) && OpenTask(s, c, s.twcs[p]) ==> OpenTask(s', c, s.twcs[p])
    {
    }
  }

  /** A task not finished keeps its counter from being reset and from being closed. */
  lemma UnfinishedKeepsOpen(s: State, c: nat, p: nat)
    requires Frames(s) && Counters(s) && p < |s.calls| && c < |s.calls|
    requires Linked(s, c, p) && !s.calls[c].place.Finished?
    ensures s.twcs[p].phase.Open?
    ensures c in s.twcs[p].live
    ensures forall w :: 0 <= w < |s.stacks| && Busy(s, w) && Cur(s, w).ctx == p ==> !Cur(s, w).mode.Closing?
  {
    assert TwcOk(s, p);
    forall w | 0 <= w < |s.stacks| && Busy(s, w) && Cur(s, w).ctx == p
      ensures !Cur(s, w).mode.Closing?
    {
      assert TopOk(s, w);
    }
  }

  // ----- the running call only changes itself -----------------------------------------

  lemma TopStepCounters(s: State, s': State, w: nat)
    requires Frames(s) && Counters(s) && TopStep(s, s', w) && s'.twcs == s.twcs
    requires !Cur(s, w).mode.Clearing? && !Cur(s', w).mode.Clearing?
    requires TopOk(s', w)
    ensures Counters(s')
  {
    forall p | 0 <= p < |s'.calls|
      ensures TwcOk(s', p) && PhaseOk(s', p)
    {
      assert TwcOk(s, p) && PhaseOk(s, p);
      TwcKept(s, s', p);
    }
    forall v | 0 <= v < |s'.stacks| && Busy(s', v)
      ensures TopOk(s', v)
    {
      if v != w {
        OtherTopKept(s, s', w, v);
      }
    }
  }

  lemma OtherTopKept(s: State, s': State, w: nat, v: nat)
    requires Frames(s) && Counters(s) && TopStep(s, s', w) && s'.twcs == s.twcs
    requires v < |s.stacks| && v != w && Busy(s, v)
    ensures TopOk(s', v)
  {
    assert TopOk(s, v);
    assert FrameOk(s, v, |s.stacks[v]| - 1) && FrameOk(s, w, |s.stacks[w]| - 1);
    assert Cur(s', v) == Cur(s, v);
    assert forall c :: 0 <= c < |s.calls| ==> Linked(s', c, Cur(s, v).ctx) == Linked(s, c, Cur(s, v).ctx);
  }

  /** The state with the counter of p replaced. */
  predicate OnlyTwc(s: State, s': State, p: nat)
    requires Shape(s) && Shape(s') && p < |s.twcs|
  {
    |s'.twcs| == |s.twcs| && s'.twcs == s.twcs[p := s'.twcs[p]]
  }

  /** The waiter works on its own counter after every task linked to it is done. */
  ghost predicate ResetStep(s: State, s': State, w: nat) {
    && TopStep(s, s', w)
    && (var p := Cur(s, w).ctx;
        && OnlyTwc(s, s', p)
        && AllDone(s, p)
        && TwcOk(s', p) && TopOk(s', w)
        && (Cur(s, w).mode.Closing? || Cur(s, w).mode.Clearing?)
        && (s'.twcs[p].phase.Reset? ==> Cur(s', w).mode.Clearing?))
  }

  lemma RunningIsNotDone(s: State, v: nat, p: nat)
    requires Frames(s) && Counters(s) && Busy(s, v) && Cur(s, v).mode.Counting? && AllDone(s, p)
    ensures Cur(s, v).home != p
  {
    assert TopOk(s, v) && FrameOk(s, v, |s.stacks[v]| - 1);
    assert !Linked(s, Top(s, v), p);
  }

  lemma ResetOtherTop(s: State, s': State, w: nat, v: nat)
    requires Frames(s) && Counters(s) && ResetStep(s, s', w)
    requires v < |s.stacks| && v != w && Busy(s, v)
    ensures TopOk(s', v)
  {
    var p := Cur(s, w).ctx;
    CtxsDiffer(s, w, v);
    assert TopOk(s, v);
    assert FrameOk(s, v, |s.stacks[v]| - 1) && FrameOk(s, w, |s.stacks[w]| - 1);
    assert Cur(s', v) == Cur(s, v);
    assert forall c :: 0 <= c < |s.calls| ==> Linked(s', c, Cur(s, v).ctx) == Linked(s, c, Cur(s, v).ctx);
    if Cur(s, v).mode.Counting? {
      RunningIsNotDone(s, v, p);
    }
  }

  lemma ResetPhase(s: State, s': State, w: nat, q: nat)
    requires Frames(s) && Counters(s) && ResetStep(s, s', w) && q < |s.calls|
    ensures PhaseOk(s', q)
  {
    assert PhaseOk(s, q);
    if q == Cur(s, w).ctx {
      var _ := CtxPlace(s, w);
    } else if s.twcs[q].phase.Reset? {
      assert s.calls[q].place.w != w;
      var v := s.calls[q].place.w;
      assert FrameOk(s, v, |s.stacks[v]| - 1) && FrameOk(s, w, |s.stacks[w]| - 1);
      assert Cur(s', v) == Cur(s, v);
    }
  }

  lemma ResetStepCounters(s: State, s': State, w: nat)
    requires Frames(s) && Counters(s) && ResetStep(s, s', w)
    ensures Counters(s')
  {
    forall q | 0 <= q < |s'.calls|
      ensures TwcOk(s', q) && PhaseOk(s', q)
    {
      ResetPhase(s, s', w, q);
      if q != Cur(s, w).ctx {
        assert TwcOk(s, q);
        TwcKept(s, s', q);
      }
    }
    forall v | 0 <= v < |s'.stacks| && Busy(s', v)
      ensures TopOk(s', v)
    {
      if v != w {
        ResetOtherTop(s, s', w, v);
      }
    }
  }

  /** twc->count = 0, after the sum matched. */
  lemma ClosingTwc(s: State, s': State, p: nat)
    requires Shape(s) && Shape(s') && p < |s.calls| == |s'.calls| && TwcOk(s, p) && AllDone(s, p)
    requires forall c :: 0 <= c < |s.calls| ==>
      SameLinks(s.calls[c], s'.calls[c]) && s'.calls[c].place == s.calls[c].place
    requires s'.twcs[p] == s.twcs[p].(count := 0, live := {}, phase := Reset(0))
    ensures TwcOk(s', p)
  {
    assert forall c :: 0 <= c < |s.calls| ==> Linked(s', c, p) == Linked(s, c, p);
  }

  /** One slot cleared, or all of them cleared. */
  lemma ClearingTwc(s: State, s': State, p: nat, i: nat)
    requires Shape(s) && Shape(s') && p < |s.calls| == |s'.calls| && TwcOk(s, p)
    requires s.twcs[p].phase == Reset(i)
    requires forall c :: 0 <= c < |s.calls| ==>
      SameLinks(s.calls[c], s'.calls[c]) && s'.calls[c].place == s.calls[c].place
    requires var t := s.twcs[p];
      s'.twcs[p] == if i < |t.slots|
        then t.(slots := t.slots[i := 0], done := t.done[i := {}], phase := Reset(i + 1))
        else t.(phase := Open)
    ensures TwcOk(s', p)
  {
    assert forall c :: 0 <= c < |s.calls| ==> Linked(s', c, p) == Linked(s, c, p);
  }

  // ----- creating a task ---------------------------------------------------------------

  /** The counter of h is bumped for the next call; that call gets a fresh counter. */
  ghost predicate BumpStep(s: State, s': State, w: nat, h: nat) {
    && CreateStep(s, s', w, h)
    && (var t := s.twcs[h];
        s'.twcs == s.twcs[h := t.(count := t.count + 1, live := t.live + {|s.calls|})] + [NewTwc(|s.stacks|)])
    && s.twcs[h].phase.Open?
    && (forall v :: 0 <= v < |s.stacks| && Busy(s, v) && Cur(s, v).ctx == h ==> !Cur(s, v).mode.Closing?)
  }

  lemma BumpLinks(s: State, s': State, w: nat, h: nat, c: nat)
    requires Counters(s) && BumpStep(s, s', w, h) && c < |s.calls|
    ensures Linked(s', c, h) == Linked(s, c, h)
    ensures Linked(s, c, h) ==> OpenTask(s', c, s'.twcs[h])
  {
    assert TwcOk(s, h);
    assert Linked(s, c, h) ==> OpenTask(s, c, s.twcs[h]);
  }

  lemma BumpMembers(s: State, s': State, w: nat, h: nat)
    requires Counters(s) && BumpStep(s, s', w, h)
    ensures SizesOk(s'.twcs[h]) && MembersOk(s', h)
  {
    assert TwcOk(s, h);
    assert |s.calls| !in s.twcs[h].live;
    assert forall c :: 0 <= c < |s.calls| ==> Linked(s', c, h) == Linked(s, c, h);
  }

  lemma BumpHome(s: State, s': State, w: nat, h: nat)
    requires Counters(s) && BumpStep(s, s', w, h)
    ensures TwcOk(s', h)
  {
    assert TwcOk(s, h);
    BumpMembers(s, s', w, h);
    forall c | 0 <= c < |s.calls|
      ensures Linked(s', c, h) == Linked(s, c, h)
      ensures Linked(s, c, h) ==> OpenTask(s', c, s'.twcs[h])
    {
      BumpLinks(s, s', w, h, c);
    }
  }

  /** No call is linked to a counter that did not exist. */
  lemma FreshTwc(s: State, s': State)
    requires Shape(s) && Shape(s') && |s'.calls| == |s.calls| + 1
    requires s'.twcs[|s.calls|] == NewTwc(|s.stacks|)
    requires forall c :: 0 <= c < |s.calls| ==> s'.calls[c].home == s.calls[c].home
    requires !Linked(s', |s.calls|, |s.calls|)
    ensures TwcOk(s', |s.calls|)
  {
    forall c | 0 <= c < |s'.calls|
      ensures !Linked(s', c, |s.calls|)
    {
      assert c < |s.calls| ==> s'.calls[c].home == s.calls[c].home < |s.calls|;
    }
  }

  lemma BumpTwc(s: State, s': State, w: nat, h: nat, p: nat)
    requires Frames(s) && Counters(s) && BumpStep(s, s', w, h) && p < |s'.calls|
    ensures TwcOk(s', p)
  {
    if p == |s.calls| {
      FreshTwc(s, s');
    } else if p == h {
      BumpHome(s, s', w, h);
    } else {
      assert TwcOk(s, p);
      TwcKept(s, s', p);
    }
  }

  lemma BumpTop(s: State, s': State, w: nat, h: nat, v: nat)
    requires Frames(s) && Counters(s) && BumpStep(s, s', w, h) && v < |s.stacks| && Busy(s, v)
    ensures TopOk(s', v)
  {
    assert TopOk(s, v);
    assert FrameOk(s, v, |s.stacks[v]| - 1) && FrameOk(s, w, |s.stacks[w]| - 1);
    if v != w {
      assert Cur(s', v) == Cur(s, v);
      assert forall c :: 0 <= c < |s.calls| ==> Linked(s', c, Cur(s, v).ctx) == Linked(s, c, Cur(s, v).ctx);
    }
  }

  lemma BumpPhase(s: State, s': State, w: nat, h: nat, q: nat)
    requires Frames(s) && Counters(s) && BumpStep(s, s', w, h) && q < |s'.calls|
    ensures PhaseOk(s', q)
  {
    if q < |s.calls| && s'.twcs[q].phase.Reset? {
      assert PhaseOk(s, q);
      var v := s.calls[q].place.w;
      assert FrameOk(s, v, |s.stacks[v]| - 1) && FrameOk(s, w, |s.stacks[w]| - 1);
    }
  }

  lemma BumpStepCounters(s: State, s': State, w: nat, h: nat)
    requires Frames(s) && Counters(s) && BumpStep(s, s', w, h)
    ensures Counters(s')
  {
    forall q | 0 <= q < |s'.calls|
      ensures TwcOk(s', q) && PhaseOk(s', q)
    {
      BumpTwc(s, s', w, h, q);
      BumpPhase(s, s', w, h, q);
    }
    forall v | 0 <= v < |s'.stacks| && Busy(s', v)
      ensures TopOk(s', v)
    {
      BumpTop(s, s', w, h, v);
    }
  }

  // ----- starting a call -----------------------------------------------------------------

  ghost predicate QuietStart(s: State, s': State, w: nat, c: nat) {
    && StartStep(s, s', w, c)
    && s'.twcs == (if c < |s.calls| then s.twcs else s.twcs + [NewTwc(|s.stacks|)])
    && (Busy(s, w) ==> !Cur(s, w).mode.Clearing?)
  }

  lemma StartTwc(s: State, s': State, w: nat, c: nat, p: nat)
    requires Frames(s) && Counters(s) && QuietStart(s, s', w, c) && p < |s'.calls|
    ensures TwcOk(s', p)
  {
    forall d | 0 <= d < |s.calls|
      ensures s'.calls[d].isTask == s.calls[d].isTask && s'.calls[d].home == s.calls[d].home
      ensures s'.calls[d].place.Finished? == s.calls[d].place.Finished?
    {
      assert d == c ==> LinkOk(s, c);
    }
    if p == |s.calls| {
      FreshTwc(s, s');
    } else {
      assert TwcOk(s, p);
      TwcKept(s, s', p);
    }
  }

  lemma StartPhase(s: State, s': State, w: nat, c: nat, q: nat)
    requires Frames(s) && Counters(s) && QuietStart(s, s', w, c) && q < |s'.calls|
    ensures PhaseOk(s', q)
  {
    if q < |s.calls| && s'.twcs[q].phase.Reset? {
      assert PhaseOk(s, q);
      var v := s.calls[q].place.w;
      assert v != w;
      assert s'.stacks[v] == s.stacks[v];
      assert FrameOk(s, v, |s.stacks[v]| - 1);
      if Busy(s, w) {
        assert FrameOk(s, w, |s.stacks[w]| - 1);
      }
    }
  }

  lemma StartTop(s: State, s': State, w: nat, c: nat, v: nat)
    requires Frames(s) && Counters(s) && QuietStart(s, s', w, c) && v < |s'.stacks| && Busy(s', v)
    ensures TopOk(s', v)
  {
    if v == w {
      if c < |s.calls| {
        assert PhaseOk(s, c) && LinkOk(s, c);
      } else {
        assert TopOk(s, w);
      }
    } else {
      assert TopOk(s, v) && FrameOk(s, v, |s.stacks[v]| - 1);
      if Busy(s, w) {
        assert FrameOk(s, w, |s.stacks[w]| - 1);
      }
      assert Cur(s', v) == Cur(s, v);
      forall d | 0 <= d < |s'.calls| && Linked(s', d, Cur(s, v).ctx)
        ensures d < |s.calls| && Linked(s, d, Cur(s, v).ctx)
      {
      }
    }
  }

  lemma StartStepCounters(s: State, s': State, w: nat, c: nat)
    requires Frames(s) && Counters(s) && QuietStart(s, s', w, c)
    ensures Counters(s')
  {
    forall q | 0 <= q < |s'.calls|
      ensures TwcOk(s', q) && PhaseOk(s', q)
    {
      StartTwc(s, s', w, c, q);
      StartPhase(s, s', w, c, q);
    }
    forall v | 0 <= v < |s'.stacks| && Busy(s', v)
      ensures TopOk(s', v)
    {
      StartTop(s, s', w, c, v);
    }
  }

  // ----- handing a task to a queue ---------------------------------------------------------

  lemma EnqueueTop(s: State, s': State, w: nat, v: nat)
    requires Frames(s) && Counters(s) && EnqueueStep(s, s', w) && s'.twcs == s.twcs
    requires v < |s.stacks| && Busy(s, v)
    ensures TopOk(s', v)
  {
    assert TopOk(s, v);
    assert FrameOk(s, v, |s.stacks[v]| - 1) && FrameOk(s, w, |s.stacks[w]| - 1);
    if v != w {
      assert Cur(s', v) == Cur(s, v);
      assert forall c :: 0 <= c < |s.calls| ==> Linked(s', c, Cur(s, v).ctx) == Linked(s, c, Cur(s, v).ctx);
    }
  }

  lemma EnqueueStepCounters(s: State, s': State, w: nat)
    requires Frames(s) && Counters(s) && EnqueueStep(s, s', w) && s'.twcs == s.twcs
    ensures Counters(s')
  {
    assert FrameOk(s, w, |s.stacks[w]| - 1);
    forall q | 0 <= q < |s'.calls|
      ensures TwcOk(s', q) && PhaseOk(s', q)
    {
      assert TwcOk(s, q) && PhaseOk(s, q);
      TwcKept(s, s', q);
      if s.twcs[q].phase.Reset? {
        var v := s.calls[q].place.w;
        assert FrameOk(s, v, |s.stacks[v]| - 1);
      }
    }
    forall v | 0 <= v < |s'.stacks| && Busy(s', v)
      ensures TopOk(s', v)
    {
      EnqueueTop(s, s', w, v);
    }
  }

  // ----- finishing ---------------------------------------------------------------------------

  /** The running call leaves; a counted task has its slot written first. */
  ghost predicate CountStep(s: State, s': State, w: nat) {
    && LeaveStep(s, s', w)
    && (if Counted(s, Top(s, w)) then
          && Cur(s, w).mode.Counting?
          && (var h := Cur(s, w).home;
              var t := s.twcs[h];
              s'.twcs == s.twcs[h := t.(slots := t.slots[w := Cur(s, w).mode.x + 1],
                                        done := t.done[w := t.done[w] + {Top(s, w)}])])
        else
          Cur(s, w).mode.Leaving? && s'.twcs == s.twcs)
    && (|s.stacks[w]| > 1 ==>
          var b := s.stacks[w][|s.stacks[w]| - 2];
          s'.calls[b].mode.Running? || s'.calls[b].mode == Reducing(0, 0))
  }

  lemma CountSizes(t: Twc, w: nat, c: nat)
    requires SizesOk(t) && w < |t.done| && forall i :: 0 <= i < |t.done| ==> c !in t.done[i]
    ensures SizesOk(t.(slots := t.slots[w := t.slots[w] + 1], done := t.done[w := t.done[w] + {c}]))
  {
  }

  lemma {:induction false} UnionGrows(a: seq<set<nat>>, w: nat, c: nat, n: nat)
    requires w < |a| && n <= |a|
    ensures UnionTo(a[w := a[w] + {c}], n) == UnionTo(a, n) + (if w < n then {c} else {})
  {
    if n > 0 {
      UnionGrows(a, w, c, n - 1);
    }
  }

  lemma CountMembers(s: State, s': State, w: nat)
    requires Frames(s) && CountStep(s, s', w) && Counted(s, Top(s, w)) && MembersOk(s, Cur(s, w).home)
    ensures MembersOk(s', Cur(s, w).home)
  {
    var h := Cur(s, w).home;
    assert forall d :: 0 <= d < |s.calls| ==> Linked(s', d, h) == Linked(s, d, h);
    assert forall d :: 0 <= d < |s.calls| && s.calls[d].place.Finished? ==> s'.calls[d].place.Finished?;
  }

  lemma CountOpen(s: State, s': State, w: nat)
    requires Frames(s) && CountStep(s, s', w) && Counted(s, Top(s, w)) && OpenOk(s, Cur(s, w).home)
    requires Top(s, w) in s.twcs[Cur(s, w).home].live
    ensures OpenOk(s', Cur(s, w).home)
  {
    var c, h := Top(s, w), Cur(s, w).home;
    var t, t' := s.twcs[h], s'.twcs[h];
    UnionGrows(t.done, w, c, |t.done|);
    forall d | 0 <= d < |s.calls| && Linked(s', d, h)
      ensures OpenTask(s', d, t')
    {
      assert Linked(s, d, h) && OpenTask(s, d, t);
    }
  }

  /** What is known of the counter about to be bumped by a finishing task. */
  lemma CountFacts(s: State, w: nat)
    requires Frames(s) && Counters(s) && Busy(s, w) && Cur(s, w).mode.Counting?
    ensures Counted(s, Top(s, w))
    ensures var t := s.twcs[Cur(s, w).home];
      && t.phase.Open? && Top(s, w) in t.live
      && t.slots[w] == Cur(s, w).mode.x
      && (forall i :: 0 <= i < |t.done| ==> Top(s, w) !in t.done[i])
      && SizesOk(t) && MembersOk(s, Cur(s, w).home) && OpenOk(s, Cur(s, w).home)
  {
    assert FrameOk(s, w, |s.stacks[w]| - 1) && TopOk(s, w);
    UnfinishedKeepsOpen(s, Top(s, w), Cur(s, w).home);
    assert TwcOk(s, Cur(s, w).home);
  }

  lemma CountHome(s: State, s': State, w: nat)
    requires Frames(s) && Counters(s) && CountStep(s, s', w) && Counted(s, Top(s, w))
    ensures TwcOk(s', Cur(s, w).home)
  {
    var h := Cur(s, w).home;
    var t := s.twcs[h];
    CountFacts(s, w);
    CountSizes(t, w, Top(s, w));
    CountMembers(s, s', w);
    CountOpen(s, s', w);
    assert s'.twcs[h] == t.(slots := t.slots[w := t.slots[w] + 1], done := t.done[w := t.done[w] + {Top(s, w)}]);
  }

  lemma CountTwc(s: State, s': State, w: nat, p: nat)
    requires Frames(s) && Counters(s) && CountStep(s, s', w) && p < |s.calls|
    ensures TwcOk(s', p)
  {
    assert TwcOk(s, p);
    if Linked(s, Top(s, w), p) {
      CountHome(s, s', w);
    } else {
      TwcKept(s, s', p);
    }
  }

  lemma CountPhase(s: State, s': State, w: nat, q: nat)
    requires Frames(s) && Counters(s) && CountStep(s, s', w) && q < |s.calls|
    ensures PhaseOk(s', q)
  {
    assert PhaseOk(s, q);
    if s.twcs[q].phase.Reset? {
      var v := s.calls[q].place.w;
      assert v != w && s'.stacks[v] == s.stacks[v];
      assert FrameOk(s, v, |s.stacks[v]| - 1) && FrameOk(s, w, |s.stacks[w]| - 1);
      if |s.stacks[w]| > 1 {
        assert FrameOk(s, w, |s.stacks[w]| - 2);
      }
    }
  }

  /** The call that goes on is not resetting a counter. */
  lemma CountTopSelf(s: State, s': State, w: nat)
    requires Frames(s) && Counters(s) && CountStep(s, s', w) && Busy(s', w)
    ensures TopOk(s', w)
  {
    var n := |s.stacks[w]| - 2;
    var b := s.stacks[w][n];
    assert Top(s', w) == b;
    var j := CtxBelow(s, w, n);
    assert FrameOk(s, w, j) && FrameOk(s, w, n) && FrameOk(s, w, n + 1);
    assert PhaseOk(s, s.calls[b].ctx);
  }

  lemma CountTopOther(s: State, s': State, w: nat, v: nat)
    requires Frames(s) && Counters(s) && CountStep(s, s', w) && v < |s.stacks| && v != w && Busy(s, v)
    ensures TopOk(s', v)
  {
    assert TopOk(s, v) && TopOk(s, w);
    assert s'.stacks[v] == s.stacks[v];
    assert FrameOk(s, v, |s.stacks[v]| - 1) && FrameOk(s, w, |s.stacks[w]| - 1);
    if |s.stacks[w]| > 1 {
      assert FrameOk(s, w, |s.stacks[w]| - 2);
    }
    assert Cur(s', v) == Cur(s, v);
    var x := Cur(s, v);
    assert forall d :: 0 <= d < |s.calls| ==> Linked(s', d, x.ctx) == Linked(s, d, x.ctx);
    var t, t' := s.twcs[x.ctx], s'.twcs[x.ctx];
    assert forall i :: 0 <= i < |t.slots| ==> t.slots[i] <= t'.slots[i];
    if x.mode.Reducing? {
      SumGrows(t.slots, t'.slots, x.mode.i);
    } else {
      SumGrows(t.slots, t'.slots, |t.slots|);
    }
  }

  lemma CountStepCounters(s: State, s': State, w: nat)
    requires Frames(s) && Counters(s) && CountStep(s, s', w)
    ensures Counters(s')
  {
    forall q | 0 <= q < |s'.calls|
      ensures TwcOk(s', q) && PhaseOk(s', q)
    {
      CountTwc(s, s', w, q);
      CountPhase(s, s', w, q);
    }
    forall v | 0 <= v < |s'.stacks| && Busy(s', v)
      ensures TopOk(s', v)
    {
      if v == w {
        CountTopSelf(s, s', w);
      } else {
        CountTopOther(s, s', w, v);
      }
    }
  }
}
