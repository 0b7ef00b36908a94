/**
What every step of the fork-join machine keeps. The invariant is stated one frame, one
call, one counter and one busy worker at a time.
*/
module ForkJoinInvariant {
  import opened Wrappers
  import opened Program
  import opened ForkJoinMachine

  // ----- sums over slots -------------------------------------------------------------

  function SumTo(slots: seq<nat>, n: nat): nat
    requires n <= |slots|
  {
    if n == 0 then 0 else SumTo(slots, n - 1) + slots[n - 1]
  }

  function UnionTo(sets: seq<set<nat>>, n: nat): set<nat>
    requires n <= |sets|
  {
    if n == 0 then {} else UnionTo(sets, n - 1) + sets[n - 1]
  }

  lemma {:induction false} UnionMember(sets: seq<set<nat>>, n: nat, c: nat)
    requires n <= |sets|
    ensures c in UnionTo(sets, n) <==> exists i :: 0 <= i < n && c in sets[i]
  {
    if n > 0 {
      UnionMember(sets, n - 1, c);
    }
  }

  /** Disjoint sets counted by their slots: the sum of the slots is the size of the union. */
  lemma {:induction false} UnionSize(sets: seq<set<nat>>, slots: seq<nat>, n: nat)
    requires n <= |sets| == |slots|
    requires forall i :: 0 <= i < |sets| ==> slots[i] == |sets[i]|
    requires forall i, j :: 0 <= i < j < |sets| ==> sets[i] !! sets[j]
    ensures |UnionTo(sets, n)| == SumTo(slots, n)
  {
    if n > 0 {
      UnionSize(sets, slots, n - 1);
      if !(UnionTo(sets, n - 1) !! sets[n - 1]) {
        var c :| c in UnionTo(sets, n - 1) && c in sets[n - 1];
        UnionMember(sets, n - 1, c);
      }
    }
  }

  lemma {:induction false} SumGrows(slots: seq<nat>, slots': seq<nat>, n: nat)
    requires n <= |slots| == |slots'|
    requires forall i :: 0 <= i < n ==> slots[i] <= slots'[i]
    ensures SumTo(slots, n) <= SumTo(slots', n)
  {
    if n > 0 {
      SumGrows(slots, slots', n - 1);
    }
  }

  // ----- the invariant ---------------------------------------------------------------

  predicate Started(x: Call) {
    x.place.OnStack? || x.place.Finished?
  }

  /** Position k of worker w's stack. */
  predicate FrameOk(s: State, w: nat, k: nat)
    requires Shape(s) && w < |s.stacks| && k < |s.stacks[w]|
  {
    var x := s.calls[s.stacks[w][k]];
    && x.place == OnStack(w, k)
    && (k + 1 < |s.stacks[w]| ==> x.mode.Calling? || x.mode.Helping?)
    && (k + 1 == |s.stacks[w]| ==> !x.mode.Calling?)
    && (k + 1 == |s.stacks[w]| && x.mode.Created? ==>
          s.calls[x.mode.child].place == Fresh(w) && Counted(s, x.mode.child))
  }

  /** Position k against the one below: started later, and inlined bodies share its context. */
  predicate NestOk(s: State, w: nat, k: nat)
    requires Shape(s) && w < |s.stacks| && k < |s.stacks[w]|
  {
    var x := s.calls[s.stacks[w][k]];
    && (k > 0 ==> s.calls[s.stacks[w][k - 1]].time < x.time)
    && (!x.isTask ==>
          && k > 0
          && s.calls[s.stacks[w][k - 1]].mode.Calling?
          && s.calls[s.stacks[w][k - 1]].ctx == x.ctx)
  }

  predicate PlaceOk(s: State, c: nat)
    requires Shape(s) && c < |s.calls|
  {
    match s.calls[c].place
    case OnStack(w, k) => w < |s.stacks| && k < |s.stacks[w]| && s.stacks[w][k] == c
    case Fresh(w) => Busy(s, w) && Cur(s, w).mode == Created(c)
    case Queued(t) => t.Some? ==> t.value < |s.stacks|
    case Finished => true
  }

  /** A task is linked to an older task; start times follow the links. */
  predicate LinkOk(s: State, c: nat)
    requires Shape(s) && c < |s.calls|
  {
    var x := s.calls[c];
    && (x.isTask ==> x.ctx == c) && s.calls[x.ctx].isTask
    && (!Counted(s, c) ==> Started(x))
    && (Started(x) ==> x.time < s.clock)
    && (Counted(s, c) ==>
          var h := s.calls[x.home]; h.isTask && Started(h) && (Started(x) ==> h.time < x.time))
  }

  /** The numbers of a counter are the sizes of its history sets. */
  predicate SizesOk(t: Twc) {
    && t.count == |t.live|
    && |t.slots| == |t.done|
    && (forall i :: 0 <= i < |t.done| ==> t.slots[i] == |t.done[i]|)
    && (forall i, j :: 0 <= i < j < |t.done| ==> t.done[i] !! t.done[j])
  }

  /** Only linked tasks are counted, and only finished ones by a slot. */
  predicate MembersOk(s: State, p: nat)
    requires Shape(s) && p < |s.calls|
  {
    var t := s.twcs[p];
    && (forall c :: c in t.live ==> c < |s.calls| && Linked(s, c, p))
    && (forall i :: 0 <= i < |t.done| ==> forall c :: c in t.done[i] ==>
          c < |s.calls| && Linked(s, c, p) && s.calls[c].place.Finished?)
  }

  /** Where the tasks linked to an open counter are: unfinished ones are counted, and finished
      ones are counted by a slot as well or belong to an earlier wait. */
  predicate OpenOk(s: State, p: nat)
    requires Shape(s) && p < |s.calls|
  {
    var t := s.twcs[p];
    && (forall i :: 0 <= i < |t.done| ==> t.done[i] <= t.live)
    && (forall c :: 0 <= c < |s.calls| && Linked(s, c, p) ==> OpenTask(s, c, t))
  }

  predicate OpenTask(s: State, c: nat, t: Twc)
    requires c < |s.calls|
  {
    if s.calls[c].place.Finished? then c in t.live ==> c in UnionTo(t.done, |t.done|)
    else c in t.live
  }

  /** The counter of task p, against the tasks linked to it. */
  predicate TwcOk(s: State, p: nat)
    requires Shape(s) && p < |s.calls|
  {
    var t := s.twcs[p];
    && SizesOk(t)
    && MembersOk(s, p)
    && match t.phase
       case Open => OpenOk(s, p)
       case Reset(i) =>
         && i <= |t.done| && t.live == {}
         && AllDone(s, p)
         && (forall j :: 0 <= j < i ==> t.done[j] == {})
  }

  /** c bumped the counter of p when it was created. */
  predicate Linked(s: State, c: nat, p: nat)
    requires c < |s.calls|
  {
    Counted(s, c) && s.calls[c].home == p
  }

  /** Every task linked to p's counter, ever, is finished. */
  predicate AllDone(s: State, p: nat) {
    forall c :: 0 <= c < |s.calls| && Linked(s, c, p) ==> s.calls[c].place.Finished?
  }

  /** Only the running wait of p's own worker resets the counter of p. */
  predicate PhaseOk(s: State, p: nat)
    requires Shape(s) && p < |s.calls|
  {
    s.twcs[p].phase.Reset? ==>
      var pl := s.calls[p].place;
      pl.OnStack? && Busy(s, pl.w) && Cur(s, pl.w).ctx == p && Cur(s, pl.w).mode.Clearing?
  }

  /** Inside mir_task_wait_int. */
  predicate Waiting(m: Mode) {
    m.Reducing? || m.Checking? || m.Deciding? || m.Helping? || m.Closing? || m.Clearing?
  }

  /** What the running call of worker w knows. */
  predicate TopOk(s: State, w: nat)
    requires Shape(s) && Busy(s, w)
  {
    var x := Cur(s, w);
    var t := s.twcs[x.ctx];
    && t.phase == (if x.mode.Clearing? then Reset(x.mode.i) else Open)
    && match x.mode
       case Reducing(i, sum) => i <= |t.slots| && sum <= SumTo(t.slots, i)
       case Checking(sum) => sum <= SumTo(t.slots, |t.slots|)
       case Deciding(sum) => sum <= SumTo(t.slots, |t.slots|)
       case Closing => AllDone(s, x.ctx)
       case Counting(n) => Counted(s, Top(s, w)) && n == s.twcs[x.home].slots[w]
       case _ => true
  }

  /** The data of call c, against the sequential program. */
  ghost predicate MeaningOk(p: Program, s: State, c: nat)
    requires Shape(s) && c < |s.calls|
  {
    var x := s.calls[c];
    && Passes(p, x.arg, x.hist)
    && (forall i :: 0 <= i < |x.kids| ==> KidOk(p, s, c, i))
    && (x.result.Some? ==> Sound(p, x.arg, x.result.value))
    && (x.place.Finished? || x.mode.Leaving? || x.mode.Counting? ==> x.result.Some?)
    && (!Started(x) ==> x.mode.Running?)
    && (Waiting(x.mode) ==> p(x.arg, x.hist, |x.kids|) == Wait)
  }

  ghost predicate KidOk(p: Program, s: State, c: nat, i: nat)
    requires Shape(s) && c < |s.calls| && i < |s.calls[c].kids|
  {
    var x, n := s.calls[c], s.calls[c].kids[i];
    && p(x.arg, x.hist, i) == Spawn(s.calls[n].arg)
    && (s.calls[n].isTask ==> Linked(s, n, x.ctx))
    && (!s.calls[n].isTask ==>
          s.calls[n].place.Finished? ||
          (x.place.OnStack? && s.calls[n].place == OnStack(x.place.w, x.place.k + 1)))
  }

  ghost predicate Frames(s: State) {
    && Shape(s)
    && (forall w, k :: 0 <= w < |s.stacks| && 0 <= k < |s.stacks[w]| ==> FrameOk(s, w, k))
    && (forall w, k :: 0 <= w < |s.stacks| && 0 <= k < |s.stacks[w]| ==> NestOk(s, w, k))
    && (forall c :: 0 <= c < |s.calls| ==> PlaceOk(s, c))
    && (forall c :: 0 <= c < |s.calls| ==> LinkOk(s, c))
    && s.calls[MAIN].isTask
  }

  ghost predicate Counters(s: State) {
    && Shape(s)
    && (forall p :: 0 <= p < |s.calls| ==> TwcOk(s, p))
    && (forall p :: 0 <= p < |s.calls| ==> PhaseOk(s, p))
    && (forall w :: 0 <= w < |s.stacks| && Busy(s, w) ==> TopOk(s, w))
  }

  ghost predicate Meanings(p: Program, s: State) {
    Shape(s) && forall c :: 0 <= c < |s.calls| ==> MeaningOk(p, s, c)
  }

  ghost predicate Inv(p: Program, s: State) {
    Frames(s) && Counters(s) && Meanings(p, s)
  }
}
