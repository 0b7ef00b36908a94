/** Every step keeps the data of the calls in agreement with the sequential program. */
module ForkJoinMeaning {
  import opened Wrappers
  import opened Program
  import opened ForkJoinMachine
  import opened ForkJoinInvariant
  import opened ForkJoinFrames

  lemma InitMeanings(p: Program, s: State)
    requires Init(s)
    ensures Meanings(p, s)
  {
    PassesStart(p, s.calls[0].arg);
  }

  /** What a creator may rely on about calls that exist: an inlined body only moves from its
      place to finished. */
  ghost predicate DataKept(s: State, s': State) {
    && |s.calls| <= |s'.calls|
    && (forall d :: 0 <= d < |s.calls| ==> CallDataKept(s.calls[d], s'.calls[d]))
  }

  predicate CallDataKept(x: Call, x': Call) {
    && x'.arg == x.arg && x'.isTask == x.isTask && x'.home == x.home
    && (!x.isTask ==> x'.place == x.place || x'.place.Finished?)
  }

  /** c reads and spawns as before, in the same place. */
  lemma KidsKept(p: Program, s: State, s': State, c: nat, i: nat)
    requires Shape(s) && Shape(s') && DataKept(s, s') && c < |s.calls| && i < |s.calls[c].kids|
    requires KidOk(p, s, c, i)
    requires var x, x' := s.calls[c], s'.calls[c];
      x'.hist == x.hist && x.kids <= x'.kids && x'.ctx == x.ctx && (x.place.OnStack? ==> x'.place == x.place)
    ensures KidOk(p, s', c, i)
  {
    assert CallDataKept(s.calls[c], s'.calls[c]);
    assert CallDataKept(s.calls[s.calls[c].kids[i]], s'.calls[s'.calls[c].kids[i]]);
  }

  /** A call that a step leaves alone, or whose mode changes between harmless ones. */
  lemma MeaningKept(p: Program, s: State, s': State, c: nat)
    requires Shape(s) && Shape(s') && DataKept(s, s') && c < |s.calls| && MeaningOk(p, s, c)
    requires var x, x' := s.calls[c], s'.calls[c];
      && x'.hist == x.hist && x'.kids == x.kids && x'.ctx == x.ctx && x'.result == x.result
      && x'.place == x.place
      && (x'.mode == x.mode || x'.mode.Running? || x'.mode.Calling? || x'.mode.Created? ||
          (Waiting(x.mode) && Waiting(x'.mode)))
      && (!Started(x') ==> x'.mode.Running?)
    ensures MeaningOk(p, s', c)
  {
    assert CallDataKept(s.calls[c], s'.calls[c]);
    forall i | 0 <= i < |s'.calls[c].kids|
      ensures KidOk(p, s', c, i)
    {
      assert KidOk(p, s, c, i);
      KidsKept(p, s, s', c, i);
    }
  }

  /** Inlined bodies spawned by a running call are finished: they would be above it. */
  lemma InlinedAreFinished(p: Program, s: State, w: nat, i: nat)
    requires Frames(s) && Meanings(p, s) && Busy(s, w) && i < |Cur(s, w).kids|
    ensures s.calls[Cur(s, w).kids[i]].isTask || s.calls[Cur(s, w).kids[i]].place.Finished?
  {
    assert FrameOk(s, w, |s.stacks[w]| - 1);
    assert MeaningOk(p, s, Top(s, w)) && KidOk(p, s, Top(s, w), i);
    assert PlaceOk(s, Cur(s, w).kids[i]);
  }

  // ----- reading the cells after a wait --------------------------------------------------

  lemma CellsAreSound(p: Program, s: State, w: nat)
    requires Frames(s) && Meanings(p, s) && Busy(s, w) && AllDone(s, Cur(s, w).ctx)
    ensures Spawned(p, Cur(s, w).arg, Cur(s, w).hist, Cells(s, Cur(s, w).kids))
  {
    var x := Cur(s, w);
    var xs := Cells(s, x.kids);
    forall i | 0 <= i < |xs|
      ensures p(x.arg, x.hist, i).Spawn? && Sound(p, p(x.arg, x.hist, i).arg, xs[i])
    {
      assert MeaningOk(p, s, Top(s, w)) && KidOk(p, s, Top(s, w), i);
      InlinedAreFinished(p, s, w, i);
      assert MeaningOk(p, s, x.kids[i]);
    }
  }

  lemma ResumedMeaning(p: Program, s: State, s': State, w: nat)
    requires Frames(s) && Meanings(p, s) && Busy(s, w) && Shape(s') && AllDone(s, Cur(s, w).ctx)
    requires p(Cur(s, w).arg, Cur(s, w).hist, |Cur(s, w).kids|) == Wait
    requires s'.calls == s.calls[Top(s, w) := Resumed(s, Cur(s, w))]
    ensures MeaningOk(p, s', Top(s, w))
  {
    var x := Cur(s, w);
    assert MeaningOk(p, s, Top(s, w)) && FrameOk(s, w, |s.stacks[w]| - 1);
    CellsAreSound(p, s, w);
    PassesWait(p, x.arg, x.hist, Cells(s, x.kids));
  }

  // ----- the steps -----------------------------------------------------------------------

  /** Only the running call changes; its own meaning is shown separately. */
  lemma TopStepMeanings(p: Program, s: State, s': State, w: nat)
    requires Meanings(p, s) && TopStep(s, s', w) && Cur(s', w).arg == Cur(s, w).arg
    requires MeaningOk(p, s', Top(s, w))
    ensures Meanings(p, s')
  {
    assert DataKept(s, s');
    forall c | 0 <= c < |s'.calls|
      ensures MeaningOk(p, s', c)
    {
      assert MeaningOk(p, s, c);
      if c != Top(s, w) {
        MeaningKept(p, s, s', c);
      }
    }
  }

  /** The running call moves between harmless modes, or returns a sound result. */
  lemma ModeMeaning(p: Program, s: State, s': State, w: nat)
    requires Frames(s) && Meanings(p, s) && TopStep(s, s', w)
    requires var x, x' := Cur(s, w), Cur(s', w);
      && x' == x.(mode := x'.mode, result := x'.result)
      && ((x'.result == x.result && (Waiting(x.mode) && Waiting(x'.mode)))
          || (x'.result == x.result && x.mode.Running? && x'.mode.Reducing? && Wants(p, s, w) == Wait)
          || (x'.result == x.result && x.mode.Leaving? && x'.mode.Counting?)
          || (x'.mode.Leaving? && Wants(p, s, w).Return? && x'.result == Some(Wants(p, s, w).value)))
    ensures MeaningOk(p, s', Top(s, w))
  {
    var c := Top(s, w);
    var x := Cur(s, w);
    assert MeaningOk(p, s, c) && FrameOk(s, w, |s.stacks[w]| - 1);
    assert DataKept(s, s');
    forall i | 0 <= i < |x.kids|
      ensures KidOk(p, s', c, i) && p(x.arg, x.hist, i).Spawn?
    {
      assert KidOk(p, s, c, i);
      KidsKept(p, s, s', c, i);
    }
    if Wants(p, s, w).Return? {
      ReturnIsSound(p, x.arg, x.hist, |x.kids|, Wants(p, s, w).value);
    }
  }

  lemma LeaveMeaning(p: Program, s: State, s': State, w: nat, c: nat)
    requires Frames(s) && Meanings(p, s) && LeaveStep(s, s', w) && c < |s.calls|
    requires Cur(s, w).mode.Leaving? || Cur(s, w).mode.Counting?
    requires |s.stacks[w]| > 1 ==>
      var b := s.stacks[w][|s.stacks[w]| - 2];
      s'.calls[b] == s.calls[b].(mode := if s.calls[b].mode.Helping? then Reducing(0, 0) else Running)
    ensures MeaningOk(p, s', c)
  {
    assert MeaningOk(p, s, c) && FrameOk(s, w, |s.stacks[w]| - 1);
    if |s.stacks[w]| > 1 {
      assert FrameOk(s, w, |s.stacks[w]| - 2);
    }
    assert DataKept(s, s');
    if c == Top(s, w) {
      forall i | 0 <= i < |s.calls[c].kids|
        ensures KidOk(p, s', c, i)
      {
        InlinedAreFinished(p, s, w, i);
        assert KidOk(p, s, c, i);
      }
    } else {
      MeaningKept(p, s, s', c);
    }
  }

  lemma LeaveStepMeanings(p: Program, s: State, s': State, w: nat)
    requires Frames(s) && Meanings(p, s) && LeaveStep(s, s', w)
    requires Cur(s, w).mode.Leaving? || Cur(s, w).mode.Counting?
    requires |s.stacks[w]| > 1 ==>
      var b := s.stacks[w][|s.stacks[w]| - 2];
      s'.calls[b] == s.calls[b].(mode := if s.calls[b].mode.Helping? then Reducing(0, 0) else Running)
    ensures Meanings(p, s')
  {
    forall c | 0 <= c < |s'.calls|
      ensures MeaningOk(p, s', c)
    {
      LeaveMeaning(p, s, s', w, c);
    }
  }

  /** A task that was waiting to be started is started. */
  lemma StartTaskMeanings(p: Program, s: State, s': State, w: nat, c: nat)
    requires Frames(s) && Meanings(p, s) && StartStep(s, s', w, c) && c < |s.calls|
    requires s'.calls[c] == s.calls[c].(place := s'.calls[c].place, mode := Running, time := s.clock)
    requires Busy(s, w) ==>
      var t := Top(s, w);
      s'.calls[t] == s.calls[t].(mode := s'.calls[t].mode) &&
      (s'.calls[t].mode.Calling? || s'.calls[t].mode == s.calls[t].mode)
    ensures Meanings(p, s')
  {
    if Busy(s, w) {
      assert FrameOk(s, w, |s.stacks[w]| - 1);
    }
    assert DataKept(s, s');
    forall d | 0 <= d < |s'.calls|
      ensures MeaningOk(p, s', d)
    {
      assert MeaningOk(p, s, d);
      if d != c {
        MeaningKept(p, s, s', d);
      } else {
        forall i | 0 <= i < |s.calls[c].kids|
          ensures KidOk(p, s', c, i)
        {
          assert KidOk(p, s, c, i);
          KidsKept(p, s, s', c, i);
        }
      }
    }
  }

  /** The running call spawned the next call n: a task, or a body inlined above it. */
  lemma SpawnMeaning(p: Program, s: State, s': State, w: nat)
    requires Frames(s) && Meanings(p, s) && Busy(s, w) && Shape(s') && DataKept(s, s')
    requires |s'.calls| == |s.calls| + 1 && Wants(p, s, w).Spawn?
    requires var n := |s.calls|;
      && s'.calls[n].arg == Wants(p, s, w).arg
      && s'.calls[Top(s, w)] == Cur(s, w).(mode := s'.calls[Top(s, w)].mode, kids := Cur(s, w).kids + [n])
      && (s'.calls[Top(s, w)].mode.Created? || s'.calls[Top(s, w)].mode.Calling?)
      && (if s'.calls[n].isTask then Linked(s', n, Cur(s, w).ctx)
          else s'.calls[n].place == OnStack(w, |s.stacks[w]|))
    requires Cur(s, w).mode.Running?
    ensures MeaningOk(p, s', Top(s, w))
  {
    var c := Top(s, w);
    assert MeaningOk(p, s, c) && FrameOk(s, w, |s.stacks[w]| - 1);
    forall i | 0 <= i < |s'.calls[c].kids|
      ensures KidOk(p, s', c, i)
    {
      if i < |s.calls[c].kids| {
        assert KidOk(p, s, c, i);
        KidsKept(p, s, s', c, i);
      }
    }
  }

  /** A new call added next to calls that stay as they are, except the running call of w. */
  lemma AddMeanings(p: Program, s: State, s': State, w: nat)
    requires Meanings(p, s) && Busy(s, w) && Shape(s') && DataKept(s, s') && |s'.calls| == |s.calls| + 1
    requires forall d :: 0 <= d < |s.calls| && d != Top(s, w) ==> s'.calls[d] == s.calls[d]
    requires MeaningOk(p, s', Top(s, w))
    requires var y := s'.calls[|s.calls|];
      y.hist == [] && y.kids == [] && y.result == None && y.mode.Running? && !y.place.Finished?
    ensures Meanings(p, s')
  {
    forall d | 0 <= d < |s'.calls|
      ensures MeaningOk(p, s', d)
    {
      if d == |s.calls| {
        PassesStart(p, s'.calls[d].arg);
      } else if d != Top(s, w) {
        assert MeaningOk(p, s, d);
        MeaningKept(p, s, s', d);
      }
    }
  }

  lemma EnqueueStepMeanings(p: Program, s: State, s': State, w: nat)
    requires Frames(s) && Meanings(p, s) && EnqueueStep(s, s', w)
    ensures Meanings(p, s')
  {
    assert FrameOk(s, w, |s.stacks[w]| - 1);
    var n := Cur(s, w).mode.child;
    assert LinkOk(s, n);
    assert DataKept(s, s');
    forall d | 0 <= d < |s'.calls|
      ensures MeaningOk(p, s', d)
    {
      assert MeaningOk(p, s, d);
      if d != n {
        MeaningKept(p, s, s', d);
      } else {
        forall i | 0 <= i < |s.calls[n].kids|
          ensures KidOk(p, s', n, i)
        {
          assert KidOk(p, s, n, i);
          KidsKept(p, s, s', n, i);
        }
      }
    }
  }
}
