/** Every step keeps the stacks, the places of the calls and the order of start times. */
module ForkJoinFrames {
  import opened Wrappers
  import opened ForkJoinMachine
  import opened ForkJoinInvariant

  /** A frame's task is below it on the same stack, with only inlined bodies in between. */
  lemma {:induction false} CtxBelow(s: State, w: nat, k: nat) returns (j: nat)
    requires Frames(s) && w < |s.stacks| && k < |s.stacks[w]|
    ensures j <= k && s.stacks[w][j] == s.calls[s.stacks[w][k]].ctx
    ensures forall i :: j < i <= k ==> !s.calls[s.stacks[w][i]].isTask
  {
    assert NestOk(s, w, k);
    assert LinkOk(s, s.stacks[w][k]);
    if s.calls[s.stacks[w][k]].isTask {
      j := k;
    } else {
      j := CtxBelow(s, w, k - 1);
    }
  }

  lemma CtxPlace(s: State, w: nat) returns (j: nat)
    requires Frames(s) && w < |s.stacks| && Busy(s, w)
    ensures s.calls[Cur(s, w).ctx].place == OnStack(w, j)
    ensures s.calls[Cur(s, w).ctx].isTask
  {
    j := CtxBelow(s, w, |s.stacks[w]| - 1);
    assert FrameOk(s, w, j);
    assert LinkOk(s, Top(s, w));
  }

  /** Two workers never run in the context of the same task. */
  lemma CtxsDiffer(s: State, w: nat, w': nat)
    requires Frames(s) && Busy(s, w) && Busy(s, w') && w != w'
    ensures Cur(s, w).ctx != Cur(s, w').ctx
  {
    var _ := CtxPlace(s, w);
    var _ := CtxPlace(s, w');
  }

  lemma {:induction false} StackOrdered(s: State, w: nat, j: nat, k: nat)
    requires Frames(s) && w < |s.stacks| && j < k < |s.stacks[w]|
    ensures s.calls[s.stacks[w][j]].time < s.calls[s.stacks[w][k]].time
  {
    assert NestOk(s, w, k);
    if j < k - 1 {
      StackOrdered(s, w, j, k - 1);
    }
  }

  lemma InitFrames(s: State)
    requires Init(s)
    ensures Frames(s)
  {
  }

  /** The same call as far as stacks and links are concerned, except that it may finish. */
  predicate SameLinks(x: Call, x': Call) {
    && x'.isTask == x.isTask && x'.ctx == x.ctx && x'.home == x.home && x'.time == x.time
    && Started(x) == Started(x')
  }

  lemma LinkKept(s: State, s': State, c: nat)
    requires Shape(s) && Shape(s') && c < |s.calls| <= |s'.calls| && LinkOk(s, c) && s'.clock >= s.clock
    requires SameLinks(s.calls[c], s'.calls[c])
    requires SameLinks(s.calls[s.calls[c].ctx], s'.calls[s.calls[c].ctx])
    requires SameLinks(s.calls[s.calls[c].home], s'.calls[s.calls[c].home])
    ensures LinkOk(s', c)
  {
  }

  // ----- steps of the running call ----------------------------------------------------

  /** A step that only changes the running call of w, and maybe counters. */
  ghost predicate TopStep(s: State, s': State, w: nat) {
    && Shape(s) && Busy(s, w) && Shape(s')
    && s'.stacks == s.stacks && s'.clock == s.clock && |s'.calls| == |s.calls|
    && (forall c :: 0 <= c < |s.calls| ==>
          SameLinks(s.calls[c], s'.calls[c]) && s'.calls[c].place == s.calls[c].place)
    && (forall c :: 0 <= c < |s.calls| && c != Top(s, w) ==> s'.calls[c] == s.calls[c])
    && !Cur(s, w).mode.Created? && !Cur(s', w).mode.Created? && !Cur(s', w).mode.Calling?
  }

  lemma TopStepFrame(s: State, s': State, w: nat, v: nat, k: nat)
    requires Frames(s) && TopStep(s, s', w) && v < |s.stacks| && k < |s.stacks[v]|
    ensures FrameOk(s', v, k) && NestOk(s', v, k)
  {
    assert FrameOk(s, v, k) && NestOk(s, v, k);
    assert FrameOk(s, w, |s.stacks[w]| - 1);
    if k > 0 {
      assert FrameOk(s, v, k - 1);
    }
  }

  lemma TopStepPlace(s: State, s': State, w: nat, c: nat)
    requires Frames(s) && TopStep(s, s', w) && c < |s.calls|
    ensures PlaceOk(s', c)
  {
    assert PlaceOk(s, c);
    if s.calls[c].place.Fresh? {
      var v := s.calls[c].place.w;
      assert FrameOk(s, v, |s.stacks[v]| - 1);
      assert FrameOk(s, w, |s.stacks[w]| - 1);
    }
  }

  lemma TopStepFrames(s: State, s': State, w: nat)
    requires Frames(s) && TopStep(s, s', w)
    ensures Frames(s')
  {
    forall v, k | 0 <= v < |s'.stacks| && 0 <= k < |s'.stacks[v]|
      ensures FrameOk(s', v, k) && NestOk(s', v, k)
    {
      TopStepFrame(s, s', w, v, k);
    }
    forall c | 0 <= c < |s'.calls|
      ensures PlaceOk(s', c) && LinkOk(s', c)
    {
      TopStepPlace(s, s', w, c);
      assert LinkOk(s, c);
      LinkKept(s, s', c);
    }
  }

  // ----- the running call finishes ----------------------------------------------------

  /** The running call of w is finished and removed; what is below goes on. */
  ghost predicate LeaveStep(s: State, s': State, w: nat) {
    && Shape(s) && Busy(s, w) && Shape(s')
    && !Cur(s, w).mode.Created?
    && s'.clock == s.clock && |s'.calls| == |s.calls|
    && s'.stacks == s.stacks[w := s.stacks[w][..|s.stacks[w]| - 1]]
    && (forall c :: 0 <= c < |s.calls| ==> SameLinks(s.calls[c], s'.calls[c]))
    && s'.calls[Top(s, w)] == Cur(s, w).(place := Finished)
    && (forall c :: 0 <= c < |s.calls| && c != Top(s, w) ==>
          s'.calls[c].place == s.calls[c].place &&
          ((|s.stacks[w]| > 1 ==> c != s.stacks[w][|s.stacks[w]| - 2]) ==> s'.calls[c] == s.calls[c]))
    && (|s.stacks[w]| > 1 ==>
          var b := s.stacks[w][|s.stacks[w]| - 2];
          s'.calls[b].mode.Running? || s'.calls[b].mode.Reducing?)
  }

  lemma LeaveFrame(s: State, s': State, w: nat, v: nat, k: nat)
    requires Frames(s) && LeaveStep(s, s', w) && v < |s.stacks| && k < |s'.stacks[v]|
    ensures FrameOk(s', v, k)
  {
    var n := |s.stacks[w]| - 1;
    assert s'.stacks[v][k] == s.stacks[v][k];
    assert FrameOk(s, w, n) && FrameOk(s, v, k);
    if n > 0 {
      assert FrameOk(s, w, n - 1);
    }
  }

  lemma LeaveNest(s: State, s': State, w: nat, v: nat, k: nat)
    requires Frames(s) && LeaveStep(s, s', w) && v < |s.stacks| && k < |s'.stacks[v]|
    ensures NestOk(s', v, k)
  {
    var n := |s.stacks[w]| - 1;
    assert s'.stacks[v][k] == s.stacks[v][k];
    assert FrameOk(s, w, n) && NestOk(s, v, k);
    if k > 0 {
      assert FrameOk(s, v, k - 1) && s'.stacks[v][k - 1] == s.stacks[v][k - 1];
      if n > 0 {
        assert FrameOk(s, w, n - 1);
      }
    }
  }

  lemma LeavePlace(s: State, s': State, w: nat, c: nat)
    requires Frames(s) && LeaveStep(s, s', w) && c < |s.calls|
    ensures PlaceOk(s', c)
  {
    assert PlaceOk(s, c);
    if s.calls[c].place.Fresh? {
      var v := s.calls[c].place.w;
      var n := |s.stacks[w]| - 1;
      assert FrameOk(s, v, |s.stacks[v]| - 1);
      if n > 0 {
        assert FrameOk(s, w, n - 1);
      }
    }
  }

  lemma LeaveStepFrames(s: State, s': State, w: nat)
    requires Frames(s) && LeaveStep(s, s', w)
    ensures Frames(s')
  {
    forall v, k | 0 <= v < |s'.stacks| && 0 <= k < |s'.stacks[v]|
      ensures FrameOk(s', v, k) && NestOk(s', v, k)
    {
      LeaveFrame(s, s', w, v, k);
      LeaveNest(s, s', w, v, k);
    }
    forall c | 0 <= c < |s'.calls|
      ensures PlaceOk(s', c) && LinkOk(s', c)
    {
      LeavePlace(s, s', w, c);
      assert LinkOk(s, c);
      LinkKept(s, s', c);
    }
  }

  lemma LeaveShape(s: State, w: nat)
    requires Shape(s) && Busy(s, w)
    ensures Shape(Leave(s, w))
  {
    var s' := Leave(s, w);
    assert forall v, k :: 0 <= v < |s'.stacks| && 0 <= k < |s'.stacks[v]| ==>
      s'.stacks[v][k] == s.stacks[v][k];
  }

  lemma LeaveIsStep(s: State, w: nat)
    requires Frames(s) && Busy(s, w) && !Cur(s, w).mode.Created?
    ensures LeaveStep(s, Leave(s, w), w)
  {
    LeaveShape(s, w);
    var n := |s.stacks[w]| - 1;
    assert FrameOk(s, w, n);
    if n > 0 {
      assert FrameOk(s, w, n - 1);
    }
  }

  // ----- a call is started on top of a stack ------------------------------------------

  /**
  Worker w starts c: a created task that was not started before, or a new body (c is the
  next identifier) inlined in the context of the running call.
  */
  ghost predicate StartStep(s: State, s': State, w: nat, c: nat) {
    && Shape(s) && Shape(s') && w < |s.stacks|
    && c <= |s.calls| && |s'.calls| == (if c < |s.calls| then |s.calls| else |s.calls| + 1)
    && s'.clock == s.clock + 1
    && s'.stacks == s.stacks[w := s.stacks[w] + [c]]
    && s'.calls[c].place == OnStack(w, |s.stacks[w]|) && s'.calls[c].mode.Running?
    && s'.calls[c].time == s.clock
    && (if c < |s.calls| then
          && Counted(s, c) && !Started(s.calls[c])
          && s'.calls[c].isTask && s'.calls[c].ctx == c && s'.calls[c].home == s.calls[c].home
          && (s.calls[c].place.Fresh? ==> s.calls[c].place.w == w)
        else
          && !s'.calls[c].isTask && Busy(s, w) && s'.calls[c].ctx == Cur(s, w).ctx
          && s'.calls[Top(s, w)].mode.Calling?)
    && (forall d :: 0 <= d < |s.calls| && d != c ==>
          && SameLinks(s.calls[d], s'.calls[d]) && s'.calls[d].place == s.calls[d].place
          && ((Busy(s, w) ==> d != Top(s, w)) ==> s'.calls[d] == s.calls[d]))
    && (Busy(s, w) ==>
          && (s'.calls[Top(s, w)].mode.Calling? || s'.calls[Top(s, w)].mode.Helping?)
          && (Cur(s, w).mode.Created? ==> Cur(s, w).mode.child == c))
  }

  lemma StartFrame(s: State, s': State, w: nat, c: nat, v: nat, k: nat)
    requires Frames(s) && StartStep(s, s', w, c) && v < |s.stacks| && k < |s'.stacks[v]|
    ensures FrameOk(s', v, k)
  {
    var n := |s.stacks[w]|;
    if n > 0 {
      assert FrameOk(s, w, n - 1);
    }
    if k < |s.stacks[v]| {
      assert FrameOk(s, v, k);
      assert s'.stacks[v][k] == s.stacks[v][k];
    }
  }

  lemma StartNest(s: State, s': State, w: nat, c: nat, v: nat, k: nat)
    requires Frames(s) && StartStep(s, s', w, c) && v < |s.stacks| && k < |s'.stacks[v]|
    ensures NestOk(s', v, k)
  {
    var n := |s.stacks[w]|;
    if n > 0 {
      assert FrameOk(s, w, n - 1);
      assert LinkOk(s, s.stacks[w][n - 1]);
    }
    if k < |s.stacks[v]| {
      assert NestOk(s, v, k) && FrameOk(s, v, k);
      assert s'.stacks[v][k] == s.stacks[v][k];
      if k > 0 {
        assert FrameOk(s, v, k - 1) && s'.stacks[v][k - 1] == s.stacks[v][k - 1];
      }
    }
  }

  lemma StartPlace(s: State, s': State, w: nat, c: nat, d: nat)
    requires Frames(s) && StartStep(s, s', w, c) && d < |s'.calls|
    ensures PlaceOk(s', d)
  {
    if d != c {
      assert PlaceOk(s, d);
      if s.calls[d].place.Fresh? {
        var v := s.calls[d].place.w;
        assert FrameOk(s, v, |s.stacks[v]| - 1);
        if Busy(s, w) {
          assert FrameOk(s, w, |s.stacks[w]| - 1);
        }
      }
    }
  }

  lemma StartLink(s: State, s': State, w: nat, c: nat, d: nat)
    requires Frames(s) && StartStep(s, s', w, c) && d < |s'.calls|
    ensures LinkOk(s', d)
  {
    if d < |s.calls| {
      assert LinkOk(s, d);
      assert LinkOk(s, s.calls[d].home);
      assert s.calls[s.calls[d].ctx].isTask;
    } else {
      assert LinkOk(s, Top(s, w));
    }
  }

  lemma StartStepFrames(s: State, s': State, w: nat, c: nat)
    requires Frames(s) && StartStep(s, s', w, c)
    ensures Frames(s')
  {
    forall v, k | 0 <= v < |s'.stacks| && 0 <= k < |s'.stacks[v]|
      ensures FrameOk(s', v, k) && NestOk(s', v, k)
    {
      StartFrame(s, s', w, c, v, k);
      StartNest(s, s', w, c, v, k);
    }
    forall d | 0 <= d < |s'.calls|
      ensures PlaceOk(s', d) && LinkOk(s', d)
    {
      StartPlace(s, s', w, c, d);
      StartLink(s, s', w, c, d);
    }
    assert LinkOk(s, MAIN);
  }

  // ----- a task is created, and handed to a queue --------------------------------------

  /** The running call of w creates the next task, linked to the counter of h. */
  ghost predicate CreateStep(s: State, s': State, w: nat, h: nat) {
    && Shape(s) && Busy(s, w) && Shape(s') && Cur(s, w).mode.Running?
    && s'.stacks == s.stacks && s'.clock == s.clock && |s'.calls| == |s.calls| + 1
    && h < |s.calls| && s.calls[h].isTask && Started(s.calls[h])
    && (var n := |s.calls|;
        && s'.calls[n].isTask && s'.calls[n].ctx == n && s'.calls[n].home == h
        && s'.calls[n].place == Fresh(w)
        && s'.calls[Top(s, w)].mode == Created(n))
    && (forall d :: 0 <= d < |s.calls| ==>
          && SameLinks(s.calls[d], s'.calls[d]) && s'.calls[d].place == s.calls[d].place
          && (d != Top(s, w) ==> s'.calls[d] == s.calls[d]))
  }

  lemma CreateFrame(s: State, s': State, w: nat, h: nat, v: nat, k: nat)
    requires Frames(s) && CreateStep(s, s', w, h) && v < |s.stacks| && k < |s.stacks[v]|
    ensures FrameOk(s', v, k) && NestOk(s', v, k)
  {
    assert FrameOk(s, v, k) && NestOk(s, v, k);
    assert FrameOk(s, w, |s.stacks[w]| - 1);
    if k > 0 {
      assert FrameOk(s, v, k - 1);
    }
  }

  lemma CreatePlace(s: State, s': State, w: nat, h: nat, d: nat)
    requires Frames(s) && CreateStep(s, s', w, h) && d < |s'.calls|
    ensures PlaceOk(s', d) && LinkOk(s', d)
  {
    if d < |s.calls| {
      assert PlaceOk(s, d) && LinkOk(s, d);
      LinkKept(s, s', d);
      if s.calls[d].place.Fresh? {
        var v := s.calls[d].place.w;
        assert FrameOk(s, v, |s.stacks[v]| - 1);
        assert FrameOk(s, w, |s.stacks[w]| - 1);
      }
    }
  }

  lemma CreateStepFrames(s: State, s': State, w: nat, h: nat)
    requires Frames(s) && CreateStep(s, s', w, h)
    ensures Frames(s')
  {
    forall v, k | 0 <= v < |s'.stacks| && 0 <= k < |s'.stacks[v]|
      ensures FrameOk(s', v, k) && NestOk(s', v, k)
    {
      CreateFrame(s, s', w, h, v, k);
    }
    forall d | 0 <= d < |s'.calls|
      ensures PlaceOk(s', d) && LinkOk(s', d)
    {
      CreatePlace(s, s', w, h, d);
    }
  }

  /** The running call of w hands the task it created to a queue. */
  ghost predicate EnqueueStep(s: State, s': State, w: nat) {
    && Shape(s) && Busy(s, w) && Shape(s') && Cur(s, w).mode.Created?
    && s'.stacks == s.stacks && s'.clock == s.clock && |s'.calls| == |s.calls|
    && (var n := Cur(s, w).mode.child;
        && Top(s, w) != n
        && s'.calls[Top(s, w)] == Cur(s, w).(mode := Running)
        && s'.calls[n].place.Queued?
        && (s'.calls[n].place.target.Some? ==> s'.calls[n].place.target.value < |s.stacks|)
        && s'.calls[n] == s.calls[n].(place := s'.calls[n].place)
        && forall d :: 0 <= d < |s.calls| && d != n && d != Top(s, w) ==> s'.calls[d] == s.calls[d])
  }

  lemma EnqueueFrame(s: State, s': State, w: nat, v: nat, k: nat)
    requires Frames(s) && EnqueueStep(s, s', w) && v < |s.stacks| && k < |s.stacks[v]|
    ensures FrameOk(s', v, k) && NestOk(s', v, k)
  {
    assert FrameOk(s, v, k) && NestOk(s, v, k);
    assert FrameOk(s, w, |s.stacks[w]| - 1);
    if k > 0 {
      assert FrameOk(s, v, k - 1);
    }
  }

  lemma EnqueuePlace(s: State, s': State, w: nat, d: nat)
    requires Frames(s) && EnqueueStep(s, s', w) && d < |s'.calls|
    ensures PlaceOk(s', d)
  {
    assert PlaceOk(s, d);
    assert FrameOk(s, w, |s.stacks[w]| - 1);
    if s.calls[d].place.Fresh? {
      var v := s.calls[d].place.w;
      assert FrameOk(s, v, |s.stacks[v]| - 1);
    }
  }

  lemma EnqueueStepFrames(s: State, s': State, w: nat)
    requires Frames(s) && EnqueueStep(s, s', w)
    ensures Frames(s')
  {
    assert FrameOk(s, w, |s.stacks[w]| - 1);
    forall v, k | 0 <= v < |s'.stacks| && 0 <= k < |s'.stacks[v]|
      ensures FrameOk(s', v, k) && NestOk(s', v, k)
    {
      EnqueueFrame(s, s', w, v, k);
    }
    forall d | 0 <= d < |s'.calls|
      ensures PlaceOk(s', d) && LinkOk(s', d)
    {
      EnqueuePlace(s, s', w, d);
      assert LinkOk(s, d);
      LinkKept(s, s', d);
    }
  }
}
