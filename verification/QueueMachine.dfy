/**
The two-lock bounded queue of src/mir_queue.c and src/mir_task_queue.c as a state machine.

Producers contend for enq_lock, consumers for deq_lock, so one of each may be inside at
the same time, linked only by the atomic `size`. Every access to the shared fields is a
step of its own. The machine refines an atomic bounded FIFO whose operations take effect
at the atomic changes of `size`, or at the read of `size` that finds it full or empty.

mir_task_queue_pop may also give the task back after reading it (the team gate); which
way the gate answers is part of the action. mir_queue_pop is the machine whose gate
always answers yes.
*/
module QueueMachine {
  import opened Runs

  datatype Pc<T> =
    | Out
    | PushLock(x: T)
    | PushTest(x: T)
    | PushWrite(x: T)
    | PushAdvance(x: T)
    | PushCount(x: T)
    | PushUnlock
    | PopLock
    | PopTest
    | PopRead
    | PopGate(x: T)
    | PopCount(x: T)
    | PopAdvance
    | PopUnlock

  datatype State<T> = State(
    capacity: nat,
    buffer: seq<T>,
    inn: nat,
    out: nat,
    size: nat,
    enq: int,                           // holder of enq_lock, or FREE
    deq: int,                           // holder of deq_lock, or FREE
    threads: seq<Pc<T>>)

  const FREE := -1

  datatype Action<T> =
    | BeginPush(i: nat, x: T)
    | BeginPop(i: nat)
    | Go(i: nat)
    | GateRefuses(i: nat)

  datatype Event<T> =
    | Silent
    | Pushed(x: T)
    | Full(x: T)
    | Popped(x: T)
    | Empty
    | GivenBack(x: T)

  /** The index after i, as both files advance it. */
  function Advance(i: nat, capacity: nat): nat {
    var j := i + 1;
    if j >= capacity then j - capacity else j
  }

  predicate Shape<T>(s: State<T>) {
    && 0 < s.capacity == |s.buffer|
    && s.inn < s.capacity && s.out < s.capacity
  }

  predicate Enabled<T>(s: State<T>, a: Action<T>) {
    a.i < |s.threads| &&
    match a
    case BeginPush(i, _) => s.threads[i].Out?
    case BeginPop(i) => s.threads[i].Out?
    case GateRefuses(i) => s.threads[i].PopGate?
    case Go(i) =>
      match s.threads[i]
      case Out => false
      case PushLock(_) => s.enq == FREE
      case PopLock => s.deq == FREE
      case _ => true
  }

  function At<T>(s: State<T>, i: nat, p: Pc<T>): State<T>
    requires i < |s.threads|
  {
    s.(threads := s.threads[i := p])
  }

  function Proceed<T>(s: State<T>, i: nat): (r: (State<T>, Event<T>))
    requires Shape(s) && Enabled(s, Go(i))
    ensures Shape(r.0)
  {
    match s.threads[i]
    case PushLock(x) => (At(s, i, PushTest(x)).(enq := i), Silent)
    case PushTest(x) =>
      if s.size == s.capacity then (At(s, i, PushUnlock), Full(x))
      else (At(s, i, PushWrite(x)), Silent)
    case PushWrite(x) => (At(s, i, PushAdvance(x)).(buffer := s.buffer[s.inn := x]), Silent)
    case PushAdvance(x) => (At(s, i, PushCount(x)).(inn := Advance(s.inn, s.capacity)), Silent)
    case PushCount(x) => (At(s, i, PushUnlock).(size := s.size + 1), Pushed(x))
    case PushUnlock => (At(s, i, Out).(enq := FREE), Silent)
    case PopLock => (At(s, i, PopTest).(deq := i), Silent)
    case PopTest =>
      if s.size == 0 then (At(s, i, PopUnlock), Empty) else (At(s, i, PopRead), Silent)
    case PopRead => (At(s, i, PopGate(s.buffer[s.out])), Silent)
    case PopGate(x) => (At(s, i, PopCount(x)), Silent)
    case PopCount(x) =>
      // fetch-and-sub of an unsigned word: ConsumerInv has size > 0 here
      (At(s, i, PopAdvance).(size := if s.size == 0 then 0xFFFF_FFFF else s.size - 1), Popped(x))
    case PopAdvance => (At(s, i, PopUnlock).(out := Advance(s.out, s.capacity)), Silent)
    case PopUnlock => (At(s, i, Out).(deq := FREE), Silent)
  }

  function Next<T>(s: State<T>, a: Action<T>): (r: (State<T>, Event<T>))
    requires Shape(s) && Enabled(s, a)
    ensures Shape(r.0)
  {
    match a
    case BeginPush(i, x) => (At(s, i, PushLock(x)), Silent)
    case BeginPop(i) => (At(s, i, PopLock), Silent)
    case GateRefuses(i) => (At(s, i, PopUnlock), GivenBack(s.threads[i].x))
    case Go(i) => Proceed(s, i)
  }

  ghost predicate Init<T>(s: State<T>) {
    && Shape(s) && s.inn == 0 && s.out == 0 && s.size == 0 && s.enq == FREE && s.deq == FREE
    && forall i :: 0 <= i < |s.threads| ==> s.threads[i].Out?
  }

  // ----- the abstract queue -------------------------------------------------------

  predicate InPush<T>(p: Pc<T>) {
    p.PushTest? || p.PushWrite? || p.PushAdvance? || p.PushCount? || p.PushUnlock?
  }

  predicate InPop<T>(p: Pc<T>) {
    p.PopTest? || p.PopRead? || p.PopGate? || p.PopCount? || p.PopAdvance? || p.PopUnlock?
  }

  /** What the holder of a lock is doing; Out when the lock is free. */
  function Holder<T>(s: State<T>, holder: int): Pc<T> {
    if 0 <= holder < |s.threads| then s.threads[holder] else Out
  }

  /** The slot of the oldest element: `out`, or the next one once size has been lowered. */
  function Front<T>(s: State<T>): nat {
    if Holder(s, s.deq).PopAdvance? then Advance(s.out, s.capacity) else s.out
  }

  /** k slots after f, for f < capacity and k <= capacity. */
  function Around(f: nat, k: nat, capacity: nat): (r: nat)
    requires f < capacity && k <= capacity
    ensures r < capacity
  {
    if f + k < capacity then f + k else f + k - capacity
  }

  /** The elements in the queue, oldest first. */
  function Contents<T>(s: State<T>): (q: seq<T>)
    requires Shape(s) && s.size <= s.capacity
    ensures |q| == s.size
  {
    seq(s.size, k requires 0 <= k < s.size => s.buffer[Around(Front(s), k, s.capacity)])
  }

  /** The atomic bounded FIFO. */
  ghost predicate AbsStep<T>(capacity: nat, q: seq<T>, e: Event<T>, q': seq<T>) {
    match e
    case Silent => q' == q
    case Pushed(x) => |q| < capacity && q' == q + [x]
    case Full(x) => |q| == capacity && q' == q
    case Popped(x) => q == [x] + q'
    case Empty => q == [] && q' == q
    case GivenBack(x) => q != [] && q[0] == x && q' == q
  }

  // ----- the invariant ------------------------------------------------------------

  /** Each lock is held by the one thread inside, or by none. */
  ghost predicate Exclusive<T>(s: State<T>) {
    && (s.enq == FREE || (0 <= s.enq < |s.threads| && InPush(s.threads[s.enq])))
    && (s.deq == FREE || (0 <= s.deq < |s.threads| && InPop(s.threads[s.deq])))
    && (forall i :: 0 <= i < |s.threads| && InPush(s.threads[i]) ==> s.enq == i)
    && (forall i :: 0 <= i < |s.threads| && InPop(s.threads[i]) ==> s.deq == i)
  }

  ghost predicate ProducerInv<T>(s: State<T>)
    requires Shape(s) && s.size <= s.capacity
  {
    var back := Around(Front(s), s.size, s.capacity);
    match Holder(s, s.enq)
    case PushWrite(x) => s.size < s.capacity && s.inn == back
    case PushAdvance(x) => s.size < s.capacity && s.inn == back && s.buffer[back] == x
    case PushCount(x) =>
      s.size < s.capacity && s.inn == Advance(back, s.capacity) && s.buffer[back] == x
    case _ => s.inn == back
  }

  ghost predicate ConsumerInv<T>(s: State<T>)
    requires Shape(s)
  {
    match Holder(s, s.deq)
    case PopRead => s.size > 0
    case PopGate(x) => s.size > 0 && s.buffer[s.out] == x
    case PopCount(x) => s.size > 0 && s.buffer[s.out] == x
    case _ => true
  }

  ghost predicate Inv<T>(s: State<T>) {
    && Shape(s) && s.size <= s.capacity
    && Exclusive(s) && ProducerInv(s) && ConsumerInv(s)
  }

  lemma InitInv<T>(s: State<T>)
    requires Init(s)
    ensures Inv(s) && Contents(s) == []
  {
  }

  lemma NobodyJoins<T>(s: State<T>, a: Action<T>, j: nat)
    requires Inv(s) && Enabled(s, a) && j < |s.threads|
    ensures var s' := Next(s, a).0;
      && |s'.threads| == |s.threads|
      && (InPush(s'.threads[j]) ==> s'.enq == j) && (InPop(s'.threads[j]) ==> s'.deq == j)
  {
    assert InPush(s.threads[j]) ==> s.enq == j;
    assert InPop(s.threads[j]) ==> s.deq == j;
    assert InPush(s.threads[a.i]) ==> s.enq == a.i;
    assert InPop(s.threads[a.i]) ==> s.deq == a.i;
  }

  lemma HoldersStay<T>(s: State<T>, a: Action<T>)
    requires Inv(s) && Enabled(s, a)
    ensures var s' := Next(s, a).0;
      && (s'.enq == FREE || (0 <= s'.enq < |s'.threads| && InPush(s'.threads[s'.enq])))
      && (s'.deq == FREE || (0 <= s'.deq < |s'.threads| && InPop(s'.threads[s'.deq])))
  {
    assert InPush(s.threads[a.i]) ==> s.enq == a.i;
    assert InPop(s.threads[a.i]) ==> s.deq == a.i;
  }

  lemma ExclusiveKept<T>(s: State<T>, a: Action<T>)
    requires Inv(s) && Enabled(s, a)
    ensures Exclusive(Next(s, a).0)
  {
    HoldersStay(s, a);
    forall j | 0 <= j < |s.threads|
      ensures InPush(Next(s, a).0.threads[j]) ==> Next(s, a).0.enq == j
      ensures InPop(Next(s, a).0.threads[j]) ==> Next(s, a).0.deq == j
    {
      NobodyJoins(s, a, j);
    }
  }

  /** Steps of threads that hold no lock, or only take or return one. */
  predicate Idle<T>(s: State<T>, a: Action<T>)
    requires Enabled(s, a)
  {
    a.BeginPush? || a.BeginPop? || a.GateRefuses? ||
    !(var p := s.threads[a.i];
      p.PushWrite? || p.PushAdvance? || p.PushCount? || p.PopCount? || p.PopAdvance?)
  }

  lemma IdleStep<T>(s: State<T>, a: Action<T>)
    requires Inv(s) && Enabled(s, a) && Idle(s, a)
    ensures var s' := Next(s, a).0;
      s'.size == s.size && Inv(s') && Contents(s') == Contents(s)
    ensures AbsStep(s.capacity, Contents(s), Next(s, a).1, Contents(s))
  {
    ExclusiveKept(s, a);
    var s' := Next(s, a).0;
    assert InPush(s.threads[a.i]) ==> s.enq == a.i;
    assert InPop(s.threads[a.i]) ==> s.deq == a.i;
    assert Front(s') == Front(s);
    assert Contents(s') == Contents(s);
  }

  lemma ProducerStep<T>(s: State<T>, i: nat)
    requires Inv(s) && Enabled(s, Go(i))
    requires var p := s.threads[i]; p.PushWrite? || p.PushAdvance? || p.PushCount?
    ensures var (s', e) := Next(s, Go(i));
      Inv(s') && AbsStep(s.capacity, Contents(s), e, Contents(s'))
  {
    ExclusiveKept(s, Go(i));
    var (s', e) := Next(s, Go(i));
    assert s.enq == i && s.deq != i;
    assert Front(s') == Front(s);
    if e.Pushed? {
      assert Contents(s') == Contents(s) + [e.x];
    } else {
      assert Contents(s') == Contents(s);
    }
  }

  lemma ConsumerStep<T>(s: State<T>, i: nat)
    requires Inv(s) && Enabled(s, Go(i))
    requires var p := s.threads[i]; p.PopCount? || p.PopAdvance?
    ensures var (s', e) := Next(s, Go(i));
      Inv(s') && AbsStep(s.capacity, Contents(s), e, Contents(s'))
  {
    ExclusiveKept(s, Go(i));
    var (s', e) := Next(s, Go(i));
    assert s.deq == i && s.enq != i;
    if e.Popped? {
      assert Contents(s) == [e.x] + Contents(s');
    } else {
      assert Contents(s') == Contents(s);
    }
  }

  lemma StepRefines<T>(s: State<T>, a: Action<T>)
    requires Inv(s) && Enabled(s, a)
    ensures var (s', e) := Next(s, a);
      Inv(s') && s'.capacity == s.capacity && AbsStep(s.capacity, Contents(s), e, Contents(s'))
  {
    if Idle(s, a) {
      IdleStep(s, a);
    } else if s.threads[a.i].PopCount? || s.threads[a.i].PopAdvance? {
      ConsumerStep(s, a.i);
    } else {
      ProducerStep(s, a.i);
    }
  }

  // ----- whole runs ---------------------------------------------------------------

  ghost predicate Step<T(!new)>(s: State<T>, e: Event<T>, s': State<T>) {
    Shape(s) && exists a :: Enabled(s, a) && Next(s, a) == (s', e)
  }

  lemma AnyStepRefines<T(!new)>(s: State<T>, e: Event<T>, s': State<T>)
    requires Inv(s) && Step(s, e, s')
    ensures Inv(s') && s'.capacity == s.capacity
    ensures AbsStep(s.capacity, Contents(s), e, Contents(s'))
  {
    var a :| Enabled(s, a) && Next(s, a) == (s', e);
    StepRefines(s, a);
  }

  lemma {:induction false} RunsKeepInv<T(!new)>(states: seq<State<T>>, events: seq<Event<T>>, k: nat)
    requires IsRun(Step<T>, states, events) && Inv(states[0]) && k < |states|
    ensures Inv(states[k]) && states[k].capacity == states[0].capacity
  {
    if k > 0 {
      RunsKeepInv(states, events, k - 1);
      AnyStepRefines(states[k - 1], events[k - 1], states[k]);
    }
  }

  /** One step of the machine is one (possibly silent) operation of the atomic queue. */
  ghost predicate Refines<T>(capacity: nat, s: State<T>, e: Event<T>, s': State<T>) {
    Inv(s) && Inv(s') && AbsStep(capacity, Contents(s), e, Contents(s'))
  }

  lemma RunStepRefines<T(!new)>(states: seq<State<T>>, events: seq<Event<T>>, k: nat)
    requires IsRun(Step<T>, states, events) && Inv(states[0]) && k < |events|
    ensures Refines(states[0].capacity, states[k], events[k], states[k + 1])
  {
    RunsKeepInv(states, events, k);
    AnyStepRefines(states[k], events[k], states[k + 1]);
  }

  /**
  Linearizability: for any capacity and any number of producers and consumers, a run of
  the machine is, event for event, a run of the atomic bounded FIFO from the empty queue.
  */
  lemma RunsRefineFifo<T(!new)>(states: seq<State<T>>, events: seq<Event<T>>)
    requires IsRun(Step<T>, states, events) && Init(states[0])
    ensures Inv(states[0]) && Contents(states[0]) == []
    ensures forall k :: 0 <= k < |events| ==>
      Refines(states[0].capacity, states[k], events[k], states[k + 1])
  {
    InitInv(states[0]);
    forall k | 0 <= k < |events|
      ensures Refines(states[0].capacity, states[k], events[k], states[k + 1])
    {
      RunStepRefines(states, events, k);
    }
  }

  // ----- operations end with their events -------------------------------------------

  predicate Pushing<T>(p: Pc<T>) {
    p.PushLock? || p.PushTest? || p.PushWrite? || p.PushAdvance? || p.PushCount?
  }

  predicate Popping<T>(p: Pc<T>) {
    p.PopLock? || p.PopTest? || p.PopRead? || p.PopGate? || p.PopCount?
  }

  predicate PushEvent<T>(e: Event<T>) {
    e.Pushed? || e.Full?
  }

  predicate PopEvent<T>(e: Event<T>) {
    e.Popped? || e.Empty? || e.GivenBack?
  }

  /**
  A call of a thread is undecided from its start to its one event, which has the value of the
  push, or the value that the pop has read; the lock is given back only after that.
  */
  lemma CallDecides<T>(s: State<T>, a: Action<T>)
    requires Shape(s) && Enabled(s, a)
    ensures |Next(s, a).0.threads| == |s.threads|
    ensures var (p, p', e) := (s.threads[a.i], Next(s, a).0.threads[a.i], Next(s, a).1);
      && (a.BeginPush? ==> Pushing(p') && p'.x == a.x)
      && (a.BeginPop? ==> Popping(p'))
      && (PushEvent(e) <==> Pushing(p) && !Pushing(p'))
      && (PopEvent(e) <==> Popping(p) && !Popping(p'))
      && (PushEvent(e) ==> p.x == e.x)
      && (Pushing(p) && Pushing(p') ==> p'.x == p.x)
      && (p'.Out? ==> p.PushUnlock? || p.PopUnlock?)
    ensures forall j :: 0 <= j < |s.threads| && j != a.i ==> Next(s, a).0.threads[j] == s.threads[j]
  {
  }

  /** How many steps a thread inside a call still takes once it has its lock. */
  function Left<T>(p: Pc<T>): nat {
    match p
    case Out => 0
    case PushLock(_) => 6
    case PushTest(_) => 5
    case PushWrite(_) => 4
    case PushAdvance(_) => 3
    case PushCount(_) => 2
    case PushUnlock => 1
    case PopLock => 7
    case PopTest => 6
    case PopRead => 5
    case PopGate(_) => 4
    case PopCount(_) => 3
    case PopAdvance => 2
    case PopUnlock => 1
  }

  /** A thread waits only for a lock, and whoever holds one gives it back after some steps of its own. */
  lemma HolderProceeds<T>(s: State<T>, i: nat)
    requires Inv(s) && i < |s.threads| && !s.threads[i].Out?
    ensures Enabled(s, Go(i)) <==>
      (s.threads[i].PushLock? ==> s.enq == FREE) && (s.threads[i].PopLock? ==> s.deq == FREE)
    ensures Enabled(s, Go(i)) ==> Left(Next(s, Go(i)).0.threads[i]) < Left(s.threads[i])
    ensures !Enabled(s, Go(i)) ==>
      var h := if s.threads[i].PushLock? then s.enq else s.deq;
      0 <= h < |s.threads| && Enabled(s, Go(h)) && h != i
  {
  }
}
