/**
The work-stealing deque of src/mir_dequeue.c as a state machine.

One owner pushes and pops at `bottom`; any number of thieves compare-and-swap `top`.
A step performs at most one access to a location that another worker may write
(`top`, `bottom` or a slot of `elements`); `topBound` and the owner's own reads of
`bottom` are private to the owner and are fused with the step before them.
Memory is sequentially consistent and indices are unbounded (the source assumes that
they never overflow).

The machine is shown to refine the atomic deque of `AbsStep`. Each step is silent or one
atomic operation, with one exception: the last element leaves the atomic deque when the
owner's pop has lowered bottom to it, and the step that takes it later, the owner's or that of
a thief already after it, only settles which of the two gets it.
*/
module DequeMachine {
  import opened Runs
  import opened Wrappers

  /** Where the owner is inside looksEmptyWSDeque, pushWSDeque or popWSDeque. */
  datatype OwnerPc<T> =
    | Idle
    | Looking(t: nat)                   // looksEmptyWSDeque has read top
    | Ready                             // looksEmptyWSDeque answered "not empty"
    | PushFull(x: T, b: nat)            // looks full: the real top is still to be read
    | PushWrite(x: T, b: nat)
    | PushPublish(x: T, b: nat)
    | PopTop(b: nat)                    // bottom already lowered to b
    | PopAbort(t: nat)                  // was empty: bottom is still to be restored
    | PopRead(b: nat, t: nat)
    | PopCas(t: nat, x: T)              // last element: compare-and-swap top
    | PopFix(t: nat, got: Option<T>)

  /** Where a thief is inside stealWSDeque. */
  datatype ThiefPc<T> =
    | Out
    | Start                             // about to run stealWSDeque_
    | GotTop(t: nat)
    | GotBottom(t: nat)                 // saw bottom > t
    | GotElem(t: nat, x: T)
    | Retry                             // stealWSDeque_ returned NULL: looksEmptyWSDeque next
    | RetryTop(t: nat)

  datatype State<T> = State(
    size: nat,
    elements: seq<T>,
    top: nat,
    bottom: nat,
    topBound: nat,
    owner: OwnerPc<T>,
    thieves: seq<ThiefPc<T>>)

  datatype Action<T> =
    | OwnerPush(x: T)
    | OwnerLook
    | OwnerPop
    | OwnerLeave                        // the guard passed but the owner does something else
    | OwnerGo
    | ThiefBegin(i: nat)
    | ThiefGo(i: nat)

  /** What a step is for a caller of the atomic deque. */
  datatype Event<T> =
    | Silent
    | Pushed(x: T)
    | Refused(x: T)
    | Popped(x: T)
    | PopEmpty
    | Stolen(i: nat, x: T)
    | StealEmpty(i: nat)

  predicate Enabled<T>(s: State<T>, a: Action<T>) {
    match a
    case OwnerPush(_) => s.owner.Idle?
    case OwnerLook => s.owner.Idle?
    case OwnerPop => s.owner.Ready?
    case OwnerLeave => s.owner.Ready?
    case OwnerGo => !s.owner.Idle? && !s.owner.Ready?
    case ThiefBegin(i) => i < |s.thieves| && s.thieves[i].Out?
    case ThiefGo(i) => i < |s.thieves| && !s.thieves[i].Out?
  }

  /**
  Slot of a position: once around the array for every `size` positions. The source computes
  it by masking, which is the same for the sizes it uses (see `Deque.MaskIsSlot`).
  */
  function Slot(p: nat, size: nat): (k: nat)
    requires size > 0
    ensures k < size
  {
    if p < size then p else Slot(p - size, size)
  }

  predicate Shape<T>(s: State<T>) {
    s.size >= 2 && |s.elements| == s.size
  }

  function OwnerBegin<T>(s: State<T>, a: Action<T>): (r: (State<T>, Event<T>))
    requires Shape(s) && Enabled(s, a)
    requires a.OwnerPush? || a.OwnerLook? || a.OwnerPop? || a.OwnerLeave?
    ensures Shape(r.0)
  {
    match a
    case OwnerPush(x) =>
      if s.bottom - s.topBound >= s.size - 1
      then (s.(owner := PushFull(x, s.bottom)), Silent)
      else (s.(owner := PushWrite(x, s.bottom)), Silent)
    case OwnerLook => (s.(owner := Looking(s.top)), Silent)
    case OwnerLeave => (s.(owner := Idle), Silent)
    case OwnerPop =>
      // an unsigned decrement: SourceAssertions says why it never wraps
      var b := if s.bottom == 0 then 0xFFFF_FFFF else s.bottom - 1;
      (s.(bottom := b, owner := PopTop(b)), Silent)
  }

  function OwnerNext<T>(s: State<T>): (r: (State<T>, Event<T>))
    requires Shape(s) && Enabled(s, OwnerGo)
    ensures Shape(r.0)
  {
    match s.owner
    case Looking(t) => (s.(owner := if s.bottom - t <= 0 then Idle else Ready), Silent)
    case PushFull(x, b) =>
      var s' := s.(topBound := s.top);
      if b - s.top >= s.size - 1 then (s'.(owner := Idle), Refused(x))
      else (s'.(owner := PushWrite(x, b)), Silent)
    case PushWrite(x, b) =>
      (s.(elements := s.elements[Slot(b, s.size) := x], owner := PushPublish(x, b)), Silent)
    case PushPublish(x, b) => (s.(bottom := b + 1, owner := Idle), Pushed(x))
    case PopTop(b) =>
      var s' := s.(topBound := s.top);
      if b - s.top < 0 then (s'.(owner := PopAbort(s.top)), PopEmpty)
      else (s'.(owner := PopRead(b, s.top)), Silent)
    case PopAbort(t) => (s.(bottom := t, owner := Idle), Silent)
    case PopRead(b, t) =>
      var x := s.elements[Slot(b, s.size)];
      if b > t then (s.(owner := Idle), Popped(x))
      else (s.(owner := PopCas(t, x)), Silent)
    case PopCas(t, x) =>
      if s.top == t then (s.(top := t + 1, owner := PopFix(t, Some(x))), Popped(x))
      else (s.(owner := PopFix(t, None)), PopEmpty)
    case PopFix(t, got) => (s.(bottom := t + 1, topBound := t + 1, owner := Idle), Silent)
  }

  function ThiefNext<T>(s: State<T>, i: nat): (r: (State<T>, Event<T>))
    requires Shape(s) && Enabled(s, ThiefGo(i))
    ensures Shape(r.0)
  {
    match s.thieves[i]
    case Start => (s.(thieves := s.thieves[i := GotTop(s.top)]), Silent)
    case GotTop(t) =>
      (s.(thieves := s.thieves[i := if s.bottom - t <= 0 then Retry else GotBottom(t)]), Silent)
    case GotBottom(t) =>
      (s.(thieves := s.thieves[i := GotElem(t, s.elements[Slot(t, s.size)])]), Silent)
    case GotElem(t, x) =>
      if s.top == t
      then (s.(top := t + 1, thieves := s.thieves[i := Out]), Stolen(i, x))
      else (s.(thieves := s.thieves[i := Retry]), Silent)
    case Retry => (s.(thieves := s.thieves[i := RetryTop(s.top)]), Silent)
    case RetryTop(t) =>
      if s.bottom - t <= 0 then (s.(thieves := s.thieves[i := Out]), StealEmpty(i))
      else (s.(thieves := s.thieves[i := Start]), Silent)
  }

  function Next<T>(s: State<T>, a: Action<T>): (r: (State<T>, Event<T>))
    requires Shape(s) && Enabled(s, a)
    ensures Shape(r.0)
  {
    match a
    case OwnerGo => OwnerNext(s)
    case ThiefBegin(i) => (s.(thieves := s.thieves[i := Start]), Silent)
    case ThiefGo(i) => ThiefNext(s, i)
    case _ => OwnerBegin(s, a)
  }

  ghost predicate Init<T>(s: State<T>) {
    Shape(s) && s.top == 0 && s.bottom == 0 && s.topBound == 0 && s.owner.Idle? &&
    forall i :: 0 <= i < |s.thieves| ==> s.thieves[i].Out?
  }

  // ----- the abstract deque -------------------------------------------------------

  /** One past the newest element the owner has not yet given up. */
  function Limit<T>(s: State<T>): nat {
    match s.owner
    case PopTop(b) => b + 1
    case PopRead(b, _) => b + 1
    case PopAbort(t) => t
    case PopCas(t, _) => t + 1
    case PopFix(t, _) => t + 1
    case _ => s.bottom
  }

  /** The elements in the deque, oldest first. */
  function Contents<T>(s: State<T>): (q: seq<T>)
    requires Shape(s) && s.top <= Limit(s)
    ensures |q| == Limit(s) - s.top
  {
    seq(Limit(s) - s.top, (k: nat) => s.elements[Slot(s.top + k, s.size)])
  }

  /** The atomic bounded deque: pushes and pops at the back, steals at the front. */
  ghost predicate AbsStep<T>(capacity: int, q: seq<T>, e: Event<T>, q': seq<T>) {
    match e
    case Silent => q' == q
    case Pushed(x) => |q| < capacity && q' == q + [x]
    case Refused(x) => |q| == capacity && q' == q
    case Popped(x) => q == q' + [x]
    case PopEmpty => q == [] && q' == q
    case Stolen(_, x) => q == [x] + q'
    case StealEmpty(_) => q == [] && q' == q
  }

  // ----- the invariant ------------------------------------------------------------

  /** Positions below this may still be won by a thief whose top is current. */
  function Stealable<T>(s: State<T>): nat {
    match s.owner
    case PopRead(b, t) => if t < b then b else b + 1
    case _ => Limit(s)
  }

  ghost predicate OwnerInv<T>(s: State<T>)
    requires Shape(s)
  {
    match s.owner
    case Idle => true
    case Looking(t) => t <= s.top
    case Ready => s.bottom > 0
    case PushFull(x, b) => b == s.bottom
    case PushWrite(x, b) => b == s.bottom && b - s.top < s.size - 1
    case PushPublish(x, b) =>
      b == s.bottom && b - s.top < s.size - 1 && s.elements[Slot(b, s.size)] == x
    case PopTop(b) => b == s.bottom
    case PopAbort(t) => t == s.top && s.bottom + 1 == t
    case PopRead(b, t) => b == s.bottom && t <= b && t <= s.top && (t < b ==> s.top <= b)
    case PopCas(t, x) =>
      t == s.bottom && t <= s.top && (s.top == t ==> s.elements[Slot(t, s.size)] == x)
    case PopFix(t, _) => t == s.bottom && s.top == t + 1
  }

  ghost predicate ThiefInv<T>(s: State<T>, p: ThiefPc<T>)
    requires Shape(s)
  {
    match p
    case GotTop(t) => t <= s.top
    case GotBottom(t) => t <= s.top && (t == s.top ==> t < Stealable(s))
    case GotElem(t, x) =>
      t <= s.top && (t == s.top ==> t < Stealable(s) && s.elements[Slot(t, s.size)] == x)
    case RetryTop(t) => t <= s.top
    case _ => true
  }

  ghost predicate Inv<T>(s: State<T>) {
    && Shape(s)
    && s.topBound <= s.top <= Limit(s)
    && Limit(s) - s.top <= s.size - 1
    && OwnerInv(s)
    && forall i :: 0 <= i < |s.thieves| ==> ThiefInv(s, s.thieves[i])
  }

  /** What a step does to the elements that no worker has got yet. */
  ghost predicate Refines<T>(capacity: int, s: State<T>, e: Event<T>, s': State<T>) {
    && Inv(s) && Inv(s')
    && if e.StealEmpty? then Contents(s') == Contents(s)
       else AbsStep(capacity, Contents(s), e, Contents(s'))
  }

  /** Positions less than `size` apart never share a slot. */
  lemma {:induction false} SlotsDiffer(p: nat, q: nat, size: nat)
    requires 0 < q - p < size
    ensures Slot(p, size) != Slot(q, size)
  {
    if p >= size {
      SlotsDiffer(p - size, q - size, size);
    }
  }

  lemma InitInv<T>(s: State<T>)
    requires Init(s)
    ensures Inv(s) && Contents(s) == []
  {
  }

  /** A thief is unaffected by a step that leaves the slots, raises no bound and keeps its top. */
  lemma ThievesKept<T>(s: State<T>, s': State<T>)
    requires Inv(s) && Shape(s') && s'.size == s.size && s'.thieves == s.thieves
    requires s'.top >= s.top
    requires s'.top == s.top < Stealable(s) ==>
      && s.top < Stealable(s')
      && s'.elements[Slot(s.top, s.size)] == s.elements[Slot(s.top, s.size)]
    ensures forall i :: 0 <= i < |s'.thieves| ==> ThiefInv(s', s'.thieves[i])
  {
    forall i | 0 <= i < |s'.thieves|
      ensures ThiefInv(s', s'.thieves[i])
    {
      assert ThiefInv(s, s.thieves[i]);
    }
  }

  lemma OwnerBeginInv<T>(s: State<T>, a: Action<T>)
    requires Inv(s) && Enabled(s, a) && (a.OwnerPush? || a.OwnerLook? || a.OwnerPop? || a.OwnerLeave?)
    ensures Inv(Next(s, a).0)
    ensures Refines(s.size - 1, s, Next(s, a).1, Next(s, a).0)
  {
    var s' := Next(s, a).0;
    ThievesKept(s, s');
    assert Contents(s') == Contents(s);
  }

  /** Writing the slot at `bottom` touches no live element. */
  lemma WriteInv<T>(s: State<T>)
    requires Inv(s) && s.owner.PushWrite?
    ensures Inv(Next(s, OwnerGo).0)
    ensures Contents(Next(s, OwnerGo).0) == Contents(s)
  {
    var s' := Next(s, OwnerGo).0;
    forall p | s.top <= p < s.bottom
      ensures s'.elements[Slot(p, s.size)] == s.elements[Slot(p, s.size)]
    {
      SlotsDiffer(p, s.owner.b, s.size);
    }
    ThievesKept(s, s');
    assert Contents(s') == Contents(s);
  }

  lemma OwnerGoInv<T>(s: State<T>)
    requires Inv(s) && Enabled(s, OwnerGo)
    ensures Inv(Next(s, OwnerGo).0)
  {
    if s.owner.PushWrite? {
      WriteInv(s);
    } else {
      ThievesKept(s, Next(s, OwnerGo).0);
    }
  }

  lemma OwnerGoRefines<T>(s: State<T>)
    requires Inv(s) && Enabled(s, OwnerGo) && Inv(Next(s, OwnerGo).0)
    ensures Refines(s.size - 1, s, Next(s, OwnerGo).1, Next(s, OwnerGo).0)
  {
    var (s', e) := Next(s, OwnerGo);
    if s.owner.PushWrite? {
      WriteInv(s);
    } else {
      if e.Pushed? {
        assert Contents(s') == Contents(s) + [e.x];
      } else if e.Popped? {
        assert Contents(s) == Contents(s') + [e.x];
      } else {
        assert Contents(s') == Contents(s);
      }
    }
  }

  /** A step of one thief that leaves the shared state alone. */
  lemma ThiefLocalInv<T>(s: State<T>, i: nat, p: ThiefPc<T>)
    requires Inv(s) && i < |s.thieves| && ThiefInv(s, p)
    ensures Inv(s.(thieves := s.thieves[i := p]))
  {
    var s' := s.(thieves := s.thieves[i := p]);
    forall k | 0 <= k < |s'.thieves|
      ensures ThiefInv(s', s'.thieves[k])
    {
      assert k != i ==> ThiefInv(s, s.thieves[k]);
      assert ThiefInv(s, s'.thieves[k]);
    }
  }

  /** A won compare-and-swap: every other thief is now behind. */
  lemma StealInv<T>(s: State<T>, i: nat)
    requires Inv(s) && i < |s.thieves| && s.thieves[i].GotElem? && s.thieves[i].t == s.top
    ensures Inv(Next(s, ThiefGo(i)).0)
  {
    var s' := Next(s, ThiefGo(i)).0;
    assert ThiefInv(s, s.thieves[i]);
    forall k | 0 <= k < |s'.thieves|
      ensures ThiefInv(s', s'.thieves[k])
    {
      assert ThiefInv(s, s.thieves[k]);
    }
  }

  lemma ThiefStepInv<T>(s: State<T>, a: Action<T>)
    requires Inv(s) && Enabled(s, a) && (a.ThiefBegin? || a.ThiefGo?)
    ensures Inv(Next(s, a).0)
  {
    var (s', e) := Next(s, a);
    assert ThiefInv(s, s.thieves[a.i]);
    if e.Stolen? {
      StealInv(s, a.i);
    } else {
      ThiefLocalInv(s, a.i, s'.thieves[a.i]);
    }
  }

  lemma StealTakesOldest<T>(s: State<T>, i: nat)
    requires Inv(s) && Enabled(s, ThiefGo(i)) && Next(s, ThiefGo(i)).1.Stolen?
    requires Inv(Next(s, ThiefGo(i)).0)
    ensures Contents(s) == [Next(s, ThiefGo(i)).1.x] + Contents(Next(s, ThiefGo(i)).0)
  {
    assert ThiefInv(s, s.thieves[i]);
  }

  /** Without its compare-and-swap won, a thief changes nothing but its own place. */
  lemma ThiefIsLocal<T>(s: State<T>, a: Action<T>)
    requires Shape(s) && Enabled(s, a) && (a.ThiefBegin? || a.ThiefGo?) && !Next(s, a).1.Stolen?
    ensures Next(s, a).0 == s.(thieves := Next(s, a).0.thieves)
    ensures Next(s, a).1.Silent? || Next(s, a).1.StealEmpty?
  {
  }

  lemma ThiefLeavesContents<T>(s: State<T>, a: Action<T>)
    requires Inv(s) && Enabled(s, a) && (a.ThiefBegin? || a.ThiefGo?) && !Next(s, a).1.Stolen?
    requires Inv(Next(s, a).0)
    ensures Contents(Next(s, a).0) == Contents(s)
    ensures Next(s, a).1.Silent? || Next(s, a).1.StealEmpty?
  {
    ThiefIsLocal(s, a);
  }

  lemma ThiefRefines<T>(s: State<T>, a: Action<T>)
    requires Inv(s) && Enabled(s, a) && (a.ThiefBegin? || a.ThiefGo?) && Inv(Next(s, a).0)
    ensures Refines(s.size - 1, s, Next(s, a).1, Next(s, a).0)
  {
    if Next(s, a).1.Stolen? {
      StealTakesOldest(s, a.i);
    } else {
      ThiefLeavesContents(s, a);
    }
  }

  /** What is fixed, and what only grows. */
  lemma StepGrows<T>(s: State<T>, a: Action<T>)
    requires Shape(s) && Enabled(s, a)
    ensures Next(s, a).0.size == s.size && Next(s, a).0.top >= s.top
  {
  }

  lemma AnyRefines<T>(s: State<T>, a: Action<T>)
    requires Inv(s) && Enabled(s, a)
    ensures Refines(s.size - 1, s, Next(s, a).1, Next(s, a).0)
  {
    match a
    case OwnerGo =>
      OwnerGoInv(s);
      OwnerGoRefines(s);
    case ThiefBegin(_) =>
      ThiefStepInv(s, a);
      ThiefRefines(s, a);
    case ThiefGo(_) =>
      ThiefStepInv(s, a);
      ThiefRefines(s, a);
    case _ =>
      OwnerBeginInv(s, a);
  }

  lemma StepRefines<T>(s: State<T>, a: Action<T>)
    requires Inv(s) && Enabled(s, a)
    ensures Inv(Next(s, a).0) && Next(s, a).0.size == s.size && Next(s, a).0.top >= s.top
    ensures Refines(s.size - 1, s, Next(s, a).1, Next(s, a).0)
  {
    AnyRefines(s, a);
    StepGrows(s, a);
  }

  // ----- the last element -----------------------------------------------------------

  /** One element is left, and the owner's pop has lowered bottom to it. */
  predicate Doomed<T>(s: State<T>) {
    (s.owner.PopTop? || s.owner.PopRead? || s.owner.PopCas?) && s.top == s.bottom
  }

  /** The atomic deque: without the element that is already being taken. */
  function Settled<T>(s: State<T>): seq<T>
    requires Shape(s) && s.top <= Limit(s)
  {
    if Doomed(s) then [] else Contents(s)
  }

  /** The step settles who gets the element that has left the atomic deque. */
  predicate Awards<T>(s: State<T>, e: Event<T>) {
    Doomed(s) && (e.Popped? || e.Stolen?)
  }

  /** The atomic deque after a step, before its last element leaves as well. */
  function Before<T>(s: State<T>, s': State<T>): seq<T>
    requires Shape(s') && s'.top <= Limit(s')
  {
    if Doomed(s') && !Doomed(s) then Contents(s') else Settled(s')
  }

  ghost predicate Linearizes<T>(capacity: int, s: State<T>, e: Event<T>, s': State<T>) {
    && Inv(s) && Inv(s')
    && if Awards(s, e) then Contents(s) == [e.x] && !Doomed(s') && Settled(s') == []
       else AbsStep(capacity, Settled(s), e, Before(s, s')) && (Doomed(s') ==> |Contents(s')| == 1)
  }

  lemma OneIsLeft<T>(s: State<T>)
    requires Inv(s) && Doomed(s)
    ensures |Contents(s)| == 1
  {
  }

  lemma OwnerLinearizes<T>(s: State<T>, a: Action<T>)
    requires Inv(s) && Enabled(s, a) && !a.ThiefBegin? && !a.ThiefGo?
    requires Refines(s.size - 1, s, Next(s, a).1, Next(s, a).0)
    ensures Linearizes(s.size - 1, s, Next(s, a).1, Next(s, a).0)
  {
    var (s', e) := Next(s, a);
    if Doomed(s) {
      OneIsLeft(s);
    }
    if Doomed(s') {
      OneIsLeft(s');
    }
  }

  /** A thief returns with nothing only when the atomic deque is empty. */
  lemma EmptyReturn<T>(s: State<T>, i: nat)
    requires Inv(s) && Enabled(s, ThiefGo(i)) && Next(s, ThiefGo(i)).1.StealEmpty?
    ensures Settled(s) == []
  {
    assert ThiefInv(s, s.thieves[i]);
  }

  lemma ThiefLinearizes<T>(s: State<T>, a: Action<T>)
    requires Inv(s) && Enabled(s, a) && (a.ThiefBegin? || a.ThiefGo?)
    requires Refines(s.size - 1, s, Next(s, a).1, Next(s, a).0)
    ensures Linearizes(s.size - 1, s, Next(s, a).1, Next(s, a).0)
  {
    var (s', e) := Next(s, a);
    if e.StealEmpty? {
      EmptyReturn(s, a.i);
    }
    if Doomed(s) {
      OneIsLeft(s);
    }
    if Doomed(s') {
      OneIsLeft(s');
    }
  }

  lemma StepLinearizes<T>(s: State<T>, a: Action<T>)
    requires Inv(s) && Enabled(s, a)
    ensures Linearizes(s.size - 1, s, Next(s, a).1, Next(s, a).0)
  {
    StepRefines(s, a);
    if a.ThiefBegin? || a.ThiefGo? {
      ThiefLinearizes(s, a);
    } else {
      OwnerLinearizes(s, a);
    }
  }

  /** A thief that has seen bottom above the last element, and no other, may still get it. */
  predicate Contends<T>(s: State<T>, i: nat) {
    i < |s.thieves| && (s.thieves[i].GotBottom? || s.thieves[i].GotElem?) && s.thieves[i].t == s.top
  }

  lemma NoNewContender<T>(s: State<T>, a: Action<T>, i: nat)
    requires Inv(s) && Enabled(s, a) && Doomed(s) && Doomed(Next(s, a).0)
    ensures Contends(Next(s, a).0, i) ==> Contends(s, i)
    ensures Inv(Next(s, a).0) && Contents(Next(s, a).0) == Contents(s)
  {
    StepRefines(s, a);
    StepLinearizes(s, a);
    OneIsLeft(s);
    OneIsLeft(Next(s, a).0);
    if i < |s.thieves| {
      assert ThiefInv(s, s.thieves[i]);
    }
  }

  // ----- whole runs ---------------------------------------------------------------

  /** Some action of the owner or of a thief. */
  ghost predicate Step<T(!new)>(s: State<T>, e: Event<T>, s': State<T>) {
    Shape(s) && exists a :: Enabled(s, a) && Next(s, a) == (s', e)
  }

  lemma AnyStepRefines<T(!new)>(s: State<T>, e: Event<T>, s': State<T>)
    requires Inv(s) && Step(s, e, s')
    ensures Inv(s') && s'.size == s.size && s'.top >= s.top && Refines(s.size - 1, s, e, s')
  {
    var a :| Enabled(s, a) && Next(s, a) == (s', e);
    StepRefines(s, a);
  }

  lemma {:induction false} RunsKeepInv<T(!new)>(states: seq<State<T>>, events: seq<Event<T>>, k: nat)
    requires IsRun(Step<T>, states, events) && Inv(states[0]) && k < |states|
    ensures Inv(states[k]) && states[k].size == states[0].size && states[k].top >= states[0].top
  {
    if k > 0 {
      RunsKeepInv(states, events, k - 1);
      AnyStepRefines(states[k - 1], events[k - 1], states[k]);
    }
  }

  lemma RunStepRefines<T(!new)>(states: seq<State<T>>, events: seq<Event<T>>, k: nat)
    requires IsRun(Step<T>, states, events) && Inv(states[0]) && k < |events|
    ensures Refines(states[0].size - 1, states[k], events[k], states[k + 1])
  {
    RunsKeepInv(states, events, k);
    AnyStepRefines(states[k], events[k], states[k + 1]);
  }

  lemma RunStepLinearizes<T(!new)>(states: seq<State<T>>, events: seq<Event<T>>, k: nat)
    requires IsRun(Step<T>, states, events) && Inv(states[0]) && k < |events|
    ensures Linearizes(states[0].size - 1, states[k], events[k], states[k + 1])
  {
    RunsKeepInv(states, events, k);
    assert Step(states[k], events[k], states[k + 1]);
    var a :| Enabled(states[k], a) && Next(states[k], a) == (states[k + 1], events[k]);
    StepLinearizes(states[k], a);
  }

  /**
  Linearizability: under any interleaving with any number of thieves, a run of the machine
  is a run of the atomic deque, from empty. Refused pushes find it full, and pops and steals
  that return nothing find it empty.
  */
  lemma RunsRefineAtomicDeque<T(!new)>(states: seq<State<T>>, events: seq<Event<T>>)
    requires IsRun(Step<T>, states, events) && Init(states[0])
    ensures Inv(states[0]) && Settled(states[0]) == []
    ensures forall k :: 0 <= k < |events| ==>
      Linearizes(states[0].size - 1, states[k], events[k], states[k + 1])
  {
    InitInv(states[0]);
    forall k | 0 <= k < |events|
      ensures Linearizes(states[0].size - 1, states[k], events[k], states[k + 1])
    {
      RunStepLinearizes(states, events, k);
    }
  }

  /** The last element is the one taken, and a thief that takes it has seen bottom above it. */
  ghost predicate Wins<T>(s: State<T>, e: Event<T>)
    requires e.Popped? || e.Stolen?
  {
    Inv(s) && Contents(s) == [e.x] && (e.Stolen? ==> Contends(s, e.i))
  }

  lemma AwardStep<T(!new)>(s: State<T>, e: Event<T>, s': State<T>)
    requires Inv(s) && Step(s, e, s') && Awards(s, e)
    ensures Wins(s, e)
  {
    var a :| Enabled(s, a) && Next(s, a) == (s', e);
    StepLinearizes(s, a);
  }

  lemma WaitStep<T(!new)>(s: State<T>, e: Event<T>, s': State<T>, win: Event<T>)
    requires Inv(s) && Step(s, e, s') && Doomed(s) && Doomed(s')
    requires (win.Popped? || win.Stolen?) && Wins(s', win)
    ensures Wins(s, win)
  {
    var a :| Enabled(s, a) && Next(s, a) == (s', e);
    NoNewContender(s, a, if win.Stolen? then win.i else 0);
  }

  lemma RunStep<T(!new)>(states: seq<State<T>>, events: seq<Event<T>>, k: nat)
    requires IsRun(Step<T>, states, events) && Inv(states[0]) && k < |events|
    ensures Inv(states[k]) && Step(states[k], events[k], states[k + 1])
  {
    RunsKeepInv(states, events, k);
  }

  lemma AwardAt<T(!new)>(states: seq<State<T>>, events: seq<Event<T>>, k: nat)
    requires IsRun(Step<T>, states, events) && Inv(states[0]) && k < |events|
    requires Awards(states[k], events[k])
    ensures Wins(states[k], events[k])
  {
    RunStep(states, events, k);
    AwardStep(states[k], events[k], states[k + 1]);
  }

  lemma WaitAt<T(!new)>(states: seq<State<T>>, events: seq<Event<T>>, k: nat, win: Event<T>)
    requires IsRun(Step<T>, states, events) && Inv(states[0]) && k < |events|
    requires Doomed(states[k]) && Doomed(states[k + 1])
    requires (win.Popped? || win.Stolen?) && Wins(states[k + 1], win)
    ensures Wins(states[k], win)
  {
    RunStep(states, events, k);
    WaitStep(states[k], events[k], states[k + 1], win);
  }

  /** From k to j the last element has left the atomic deque and is not yet handed out. */
  ghost predicate DoomedThrough<T>(states: seq<State<T>>, k: nat, j: nat)
    requires j < |states|
  {
    forall m :: k <= m <= j ==> Doomed(states[m])
  }

  /**
  And the last element goes to an operation that was in progress when it left the atomic
  deque: the owner's pop, or the steal of a thief that had by then seen bottom above it.
  */
  lemma {:induction false} AwardedInProgress<T(!new)>(states: seq<State<T>>, events: seq<Event<T>>, k: nat, j: nat)
    requires IsRun(Step<T>, states, events) && Inv(states[0]) && k <= j < |events|
    requires DoomedThrough(states, k, j) && (events[j].Stolen? || events[j].Popped?)
    ensures Wins(states[k], events[j])
    decreases j - k
  {
    assert Doomed(states[k]) && Doomed(states[j]);
    if k == j {
      AwardAt(states, events, k);
    } else {
      assert Doomed(states[k + 1]);
      AwardedInProgress(states, events, k + 1, j);
      WaitAt(states, events, k, events[j]);
    }
  }

  ghost function PushedBy<T>(e: Event<T>): multiset<T> {
    if e.Pushed? then multiset{e.x} else multiset{}
  }

  ghost function DeliveredBy<T>(e: Event<T>): multiset<T> {
    if e.Popped? || e.Stolen? then multiset{e.x} else multiset{}
  }

  /** The values of the accepted pushes. */
  ghost function Pushes<T>(events: seq<Event<T>>): multiset<T> {
    if events == [] then multiset{}
    else Pushes(events[..|events| - 1]) + PushedBy(events[|events| - 1])
  }

  /** The values handed out by pops and by steals. */
  ghost function Deliveries<T>(events: seq<Event<T>>): multiset<T> {
    if events == [] then multiset{}
    else Deliveries(events[..|events| - 1]) + DeliveredBy(events[|events| - 1])
  }

  lemma StepConserves<T>(capacity: int, s: State<T>, e: Event<T>, s': State<T>)
    requires Refines(capacity, s, e, s')
    ensures multiset(Contents(s)) + PushedBy(e) == multiset(Contents(s')) + DeliveredBy(e)
  {
  }

  lemma CountsGrow<T>(events: seq<Event<T>>, k: nat)
    requires k < |events|
    ensures Pushes(events[..k + 1]) == Pushes(events[..k]) + PushedBy(events[k])
    ensures Deliveries(events[..k + 1]) == Deliveries(events[..k]) + DeliveredBy(events[k])
  {
    assert events[..k + 1][..k] == events[..k];
  }

  lemma BalanceStep<T>(p: multiset<T>, m: multiset<T>, d: multiset<T>,
      dp: multiset<T>, dd: multiset<T>, m': multiset<T>)
    requires p == m + d && m + dp == m' + dd
    ensures p + dp == m' + (d + dd)
  {
    assert p + dp == (m + dp) + d;
  }

  /** The balance of one more event. */
  lemma OneMoreBalances<T>(capacity: int, events: seq<Event<T>>, j: nat, s: State<T>, s': State<T>)
    requires j < |events| && Refines(capacity, s, events[j], s')
    requires Pushes(events[..j]) == multiset(Contents(s)) + Deliveries(events[..j])
    ensures Pushes(events[..j + 1]) == multiset(Contents(s')) + Deliveries(events[..j + 1])
  {
    StepConserves(capacity, s, events[j], s');
    CountsGrow(events, j);
    BalanceStep(Pushes(events[..j]), multiset(Contents(s)), Deliveries(events[..j]),
      PushedBy(events[j]), DeliveredBy(events[j]), multiset(Contents(s')));
  }

  /** Nothing is lost and nothing is delivered twice, up to any point of any run. */
  lemma {:induction false} Conservation<T(!new)>(states: seq<State<T>>, events: seq<Event<T>>, k: nat)
    requires IsRun(Step<T>, states, events) && Init(states[0]) && k <= |events|
    ensures Inv(states[k])
    ensures Pushes(events[..k]) == multiset(Contents(states[k])) + Deliveries(events[..k])
  {
    InitInv(states[0]);
    if k > 0 {
      Conservation(states, events, k - 1);
      RunStepRefines(states, events, k - 1);
      OneMoreBalances(states[0].size - 1, events, k - 1, states[k - 1], states[k]);
    }
  }

  /** A position that stays live keeps its slot and its element; top never decreases. */
  lemma LiveSlotsKept<T>(s: State<T>, a: Action<T>, p: nat)
    requires Inv(s) && Enabled(s, a)
    requires s.top <= p < Limit(s)
    ensures Next(s, a).0.top >= s.top
    ensures Next(s, a).0.elements[Slot(p, s.size)] == s.elements[Slot(p, s.size)]
  {
    if a.OwnerGo? && s.owner.PushWrite? {
      SlotsDiffer(p, s.owner.b, s.size);
    }
  }

  /**
  A thief gives up only on an empty deque, or on one whose single element the owner is
  popping; and its compare-and-swap fails only because another worker has advanced top.
  */
  lemma ThiefFailsForCause<T>(s: State<T>, i: nat)
    requires Inv(s) && i < |s.thieves| && (s.thieves[i].GotElem? || s.thieves[i].RetryTop?)
    ensures s.thieves[i].GotElem? && Next(s, ThiefGo(i)).1.Silent? ==> s.top > s.thieves[i].t
    ensures s.thieves[i].RetryTop? && Next(s, ThiefGo(i)).0.thieves[i].Out? ==>
      || Contents(s) == []
      || (|Contents(s)| == 1 && (s.owner.PopTop? || s.owner.PopRead? || s.owner.PopCas?))
  {
    assert ThiefInv(s, s.thieves[i]);
  }

  // ----- operations end with their events ---------------------------------------------

  /** A thief returns exactly with the step that steals or finds nothing, and with what that finds. */
  lemma StealReturns<T>(s: State<T>, i: nat)
    requires Inv(s) && Enabled(s, ThiefGo(i))
    ensures var (s', e) := Next(s, ThiefGo(i));
      && |s'.thieves| == |s.thieves|
      && (s'.thieves[i].Out? <==> (e.Stolen? || e.StealEmpty?) && e.i == i)
      && (e.Stolen? ==> Contents(s) == [e.x] + Contents(s'))
      && (e.StealEmpty? ==> Settled(s) == [])
  {
    StepRefines(s, ThiefGo(i));
    StepLinearizes(s, ThiefGo(i));
  }

  predicate Pushing<T>(p: OwnerPc<T>) {
    p.PushFull? || p.PushWrite? || p.PushPublish?
  }

  predicate Popping<T>(p: OwnerPc<T>) {
    p.PopTop? || p.PopRead? || p.PopCas?
  }

  /** What a pop returns when its event is e. */
  function Got<T>(e: Event<T>): Option<T> {
    if e.Popped? then Some(e.x) else None
  }

  /** A call of the owner is undecided from its start to its one event, which carries its result. */
  lemma OwnerDecides<T>(s: State<T>, a: Action<T>)
    requires Inv(s) && Enabled(s, a)
    ensures var (p, p', e) := (s.owner, Next(s, a).0.owner, Next(s, a).1);
      && (a.OwnerPush? ==> Pushing(p') && p'.x == a.x)
      && (a.OwnerPop? ==> Popping(p'))
      && (e.Pushed? || e.Refused? <==> Pushing(p) && !Pushing(p'))
      && (e.Pushed? || e.Refused? ==> p.x == e.x && p'.Idle?)
      && (e.Popped? || e.PopEmpty? <==> Popping(p) && !Popping(p'))
      && (e.Popped? || e.PopEmpty? ==>
            p'.Idle? || (p'.PopFix? && p'.got == Got(e)) || (p'.PopAbort? && e.PopEmpty?))
      && (Pushing(p) && Pushing(p') ==> p'.x == p.x)
  {
  }

  /** The thief has returned. */
  predicate Returns<T>(s: State<T>, i: nat, s': State<T>)
    requires i < |s.thieves| == |s'.thieves|
  {
    !s.thieves[i].Out? && s'.thieves[i].Out?
  }

  /** Steps of the owner, and the begin of a steal, return from no steal. */
  lemma OthersReturnNothing<T>(s: State<T>, a: Action<T>, i: nat)
    requires Shape(s) && Enabled(s, a) && !a.ThiefGo? && i < |s.thieves|
    ensures var (s', e) := Next(s, a);
      |s'.thieves| == |s.thieves| && !Returns(s, i, s') && !e.Stolen? && !e.StealEmpty?
  {
  }

  lemma AnyStepReturns<T(!new)>(s: State<T>, e: Event<T>, s': State<T>, i: nat)
    requires Inv(s) && Step(s, e, s') && i < |s.thieves|
    ensures |s'.thieves| == |s.thieves|
    ensures Returns(s, i, s') <==> (e.Stolen? || e.StealEmpty?) && e.i == i
    ensures e.StealEmpty? ==> Settled(s) == []
  {
    var a :| Enabled(s, a) && Next(s, a) == (s', e);
    if a.ThiefGo? {
      StealReturns(s, a.i);
    } else {
      OthersReturnNothing(s, a, i);
    }
  }

  /**
  In every run: a thief's call of stealWSDeque returns with the oldest element, or with
  nothing at a moment when the atomic deque is empty; it never returns otherwise.
  */
  lemma StealsReturn<T(!new)>(states: seq<State<T>>, events: seq<Event<T>>, k: nat, i: nat)
    requires IsRun(Step<T>, states, events) && Init(states[0]) && k < |events| && i < |states[k].thieves|
    ensures |states[k + 1].thieves| == |states[k].thieves|
    ensures Inv(states[k]) && Inv(states[k + 1])
    ensures Returns(states[k], i, states[k + 1]) ==>
      || (events[k].StealEmpty? && events[k].i == i && Settled(states[k]) == [])
      || (events[k].Stolen? && events[k].i == i &&
          Contents(states[k]) == [events[k].x] + Contents(states[k + 1]))
    ensures (events[k].Stolen? || events[k].StealEmpty?) && events[k].i == i ==>
      Returns(states[k], i, states[k + 1])
  {
    InitInv(states[0]);
    RunStep(states, events, k);
    RunStepRefines(states, events, k);
    AnyStepReturns(states[k], events[k], states[k + 1], i);
  }

  // ----- every call ends -----------------------------------------------------------------

  /** How many steps the owner's call still takes, whatever the thieves do. */
  function OwnerLeft<T>(p: OwnerPc<T>): nat {
    match p
    case Idle => 0
    case Ready => 0
    case Looking(_) => 1
    case PushPublish(_, _) => 1
    case PopFix(_, _) => 1
    case PopAbort(_) => 1
    case PushWrite(_, _) => 2
    case PopCas(_, _) => 2
    case PushFull(_, _) => 3
    case PopRead(_, _) => 3
    case PopTop(_) => 4
  }

  /** The owner is wait-free: each of its steps brings its call closer to its end, and no thief's takes it back. */
  lemma OwnerWaitFree<T>(s: State<T>, a: Action<T>)
    requires Shape(s) && Enabled(s, a)
    ensures a.OwnerGo? ==> OwnerLeft(Next(s, a).0.owner) < OwnerLeft(s.owner) <= 4
    ensures a.ThiefBegin? || a.ThiefGo? ==> Next(s, a).0.owner == s.owner
  {
  }

  /** How many steps thief i still takes by itself. */
  function ThiefLeft<T>(s: State<T>, i: nat): nat
    requires i < |s.thieves|
  {
    match s.thieves[i]
    case Out => 0
    case Start => 4
    case GotTop(t) => if t == s.top then 3 else 9
    case GotBottom(t) => if t == s.top then 2 else 8
    case GotElem(t, _) => if t == s.top then 1 else 7
    case Retry => if s.bottom > s.top then 6 else 2
    case RetryTop(t) => if s.bottom > t then 5 else 1
  }

  lemma ThiefCloser<T>(s: State<T>, i: nat)
    requires Inv(s) && Enabled(s, ThiefGo(i))
    ensures ThiefLeft(Next(s, ThiefGo(i)).0, i) < ThiefLeft(s, i) <= 9
  {
    assert ThiefInv(s, s.thieves[i]);
  }

  /** A call of stealWSDeque begins with an attempt, and left alone it is over in four steps. */
  lemma StealBegins<T>(s: State<T>, i: nat)
    requires Inv(s) && Enabled(s, ThiefBegin(i))
    ensures var s' := Next(s, ThiefBegin(i)).0;
      s' == s.(thieves := s'.thieves) && |s'.thieves| == |s.thieves| && ThiefLeft(s', i) == 4
  {
  }

  /** Steps of thief i alone. */
  ghost function ThiefAlone<T(!new)>(i: nat): (State<T>, Event<T>, State<T>) -> bool {
    (s: State<T>, e: Event<T>, s': State<T>) =>
      Shape(s) && Enabled(s, ThiefGo(i)) && Next(s, ThiefGo(i)) == (s', e)
  }

  /** A thief is obstruction-free: from any point of its call it returns if nobody else steps. */
  lemma {:induction false} StealEnds<T(!new)>(s: State<T>, s0: State<T>, i: nat) returns (s': State<T>)
    requires Inv(s) && i < |s.thieves| && Reaches(ThiefAlone<T>(i), s0, s)
    ensures Reaches(ThiefAlone<T>(i), s0, s')
    ensures Inv(s') && |s'.thieves| == |s.thieves| && s'.thieves[i].Out?
    decreases ThiefLeft(s, i)
  {
    if s.thieves[i].Out? {
      s' := s;
    } else {
      var (next, e) := Next(s, ThiefGo(i));
      ThiefCloser(s, i);
      StepRefines(s, ThiefGo(i));
      StealReturns(s, i);
      ReachesSnoc(ThiefAlone<T>(i), s0, s, e, next);
      s' := StealEnds(next, s0, i);
    }
  }

  /** The owner's look: "empty" is the truth, and undisturbed the answer is exact. */
  lemma LookAnswers<T>(s: State<T>)
    requires Inv(s) && s.owner.Looking?
    ensures var s' := Next(s, OwnerGo).0;
      && (s'.owner.Idle? || s'.owner.Ready?)
      && (s'.owner.Idle? ==> Contents(s) == [])
      && (s.owner.t == s.top ==> (s'.owner.Ready? <==> Contents(s) != []))
  {
  }

  /**
  What the source asserts or relies on, in every reachable state: topBound never passes
  top, the owner's guard keeps the unsigned decrement of bottom from wrapping, the
  unsigned difference in the full test never wraps, and a pop leaves bottom >= top.
  */
  lemma SourceAssertions<T(!new)>(s0: State<T>, s: State<T>)
    requires Init(s0) && Reaches(Step<T>, s0, s)
    ensures Inv(s)
    ensures s.topBound <= s.top
    ensures s.owner.Ready? ==> Next(s, OwnerPop).0.bottom + 1 == s.bottom
    ensures s.owner.PushFull? ==> s.owner.b >= s.top
    ensures s.owner.PopFix? ==> Next(s, OwnerGo).0.bottom >= Next(s, OwnerGo).0.top
    ensures s.owner.Idle? ==> s.top <= s.bottom <= s.top + s.size - 1
  {
    var states, events: seq<Event<T>> :|
      IsRun(Step<T>, states, events) && states[0] == s0 && states[|events|] == s;
    InitInv(s0);
    RunsKeepInv(states, events, |events|);
  }
}
