/**
The policy ws-de over its real deques: n workers, each the owner of one `DequeMachine` and a
thief in the others, every access a step of its own. A worker runs one operation at a time,
and what the operation does to it is what `PolicyMachine` says of its atomic queues. The whole
is shown to be a run of `PolicyMachine`, so what that guarantees holds of the real deques.
*/
module PolicyDeques {
  import opened Runs
  import opened Wrappers
  import D = DequeMachine
  import P = PolicyMachine
  import A = PolicyAccounting
  import Policy

  type Task = P.Task

  datatype State = State(
    deques: seq<D.State<Task>>,
    rest: P.State,                      // everything but the queues
    inside: seq<Option<nat>>,           // the deque each worker is operating on
    begun: set<Task>)                   // tasks whose push has begun

  datatype Action =
    | Access(q: nat, a: D.Action<Task>)
    | Go(i: nat)

  /** The worker that takes a step of deque q. */
  function Actor(q: nat, a: D.Action<Task>): nat {
    if a.ThiefBegin? || a.ThiefGo? then a.i else q
  }

  predicate Shape(c: State) {
    && |c.deques| == |c.rest.workers| == |c.inside|
    && (forall q :: 0 <= q < |c.deques| ==> D.Shape(c.deques[q]) && c.deques[q].top <= D.Limit(c.deques[q]))
  }

  predicate Enabled(c: State, a: Action)
    requires Shape(c)
  {
    match a
    case Go(i) => P.Enabled(c.rest, P.Go(i)) && c.inside[i] == None
    case Access(q, d) =>
      && q < |c.deques| && D.Enabled(c.deques[q], d) && Actor(q, d) < |c.rest.workers|
      && (match d
          case OwnerPush(t) => MayBegin(c, q) && t !in c.begun
          case OwnerLook => MayBegin(c, q)
          case ThiefBegin(i) => MayBegin(c, i) && i != q
          case _ => c.inside[Actor(q, d)] == Some(q))
  }

  predicate MayBegin(c: State, i: nat)
    requires Shape(c)
  {
    i < |c.inside| && c.inside[i] == None && c.rest.workers[i].pc.Ready?
  }

  /** What an event of deque q does to the worker that took the step. */
  function React(s: P.State, q: nat, e: D.Event<Task>): (P.State, P.Event)
    requires q < |s.workers| && (e.Stolen? ==> e.i < |s.workers|)
  {
    match e
    case Pushed(t) =>
      (s.(workers := s.workers[q := s.workers[q].(pc := P.Counting(t))],
          handed := s.handed + {t}, accepted := s.accepted + {t}), P.Accept(t))
    case Refused(t) =>
      (s.(workers := s.workers[q := s.workers[q].(frames := s.workers[q].frames + [P.Inline(t)])],
          handed := s.handed + {t}), P.RunInline(t))
    case Popped(t) => (s.(workers := s.workers[q := s.workers[q].(pc := P.Holding(t))]), P.Silent)
    case Stolen(i, t) => (s.(workers := s.workers[i := s.workers[i].(pc := P.Holding(t))]), P.Silent)
    case _ => (s, P.Silent)
  }

  /** The worker's operation on the deque is over. */
  predicate Returned(d: D.State<Task>, a: D.Action<Task>) {
    if a.ThiefBegin? || a.ThiefGo? then a.i < |d.thieves| && d.thieves[a.i].Out? else d.owner.Idle?
  }

  function Next(c: State, a: Action): (State, P.Event)
    requires Shape(c) && Enabled(c, a)
  {
    match a
    case Go(i) =>
      var (s', e) := P.Next(c.rest, P.Go(i));
      (c.(rest := s'), e)
    case Access(q, d) =>
      var (d', de) := D.Next(c.deques[q], d);
      var i := Actor(q, d);
      var (s', e) := if de.Stolen? && de.i >= |c.rest.workers| then (c.rest, P.Silent) else React(c.rest, q, de);
      (State(c.deques[q := d'], s', c.inside[i := if Returned(d', d) then None else Some(q)],
         c.begun + (if d.OwnerPush? then {d.x} else {})), e)
  }

  ghost predicate Step(c: State, e: P.Event, c': State) {
    Shape(c) && exists a: Action :: Enabled(c, a) && Next(c, a) == (c', e)
  }

  ghost predicate Init(c: State) {
    && |c.deques| == |c.rest.workers| == |c.inside| && c.begun == {}
    && (forall q :: 0 <= q < |c.deques| ==>
          && D.Init(c.deques[q]) && c.deques[q].size == c.rest.capacity + 1
          && |c.deques[q].thieves| == |c.rest.workers|)
    && (forall i :: 0 <= i < |c.inside| ==> c.inside[i] == None)
    && c.rest.queues == [] && P.Init(c.rest)
  }

  // ----- the abstraction ----------------------------------------------------------------------

  /** The queues of the policy are the contents of the deques. */
  function Queues(c: State): (qs: seq<seq<Task>>)
    requires Shape(c)
    ensures |qs| == |c.deques|
  {
    seq(|c.deques|, q requires 0 <= q < |c.deques| => D.Contents(c.deques[q]))
  }

  function Abs(c: State): P.State
    requires Shape(c)
  {
    c.rest.(queues := Queues(c))
  }

  // ----- the invariant --------------------------------------------------------------------------

  ghost predicate DequeOk(c: State, q: nat)
    requires q < |c.deques|
  {
    && D.Inv(c.deques[q]) && c.deques[q].size == c.rest.capacity + 1
    && |c.deques[q].thieves| == |c.rest.workers|
    && (q < |c.deques[q].thieves| ==> c.deques[q].thieves[q].Out?)
  }

  /** A worker inside an operation has nothing in hand, unless its pop has just got a task. */
  predicate InsideOk(c: State, i: nat)
    requires |c.deques| == |c.rest.workers| == |c.inside| && i < |c.inside|
  {
    c.inside[i].Some? ==>
      c.rest.workers[i].pc.Ready? || (c.inside[i] == Some(i) && c.deques[i].owner.PopFix?)
  }

  predicate Pushing(d: D.State<Task>) {
    d.owner.PushFull? || d.owner.PushWrite? || d.owner.PushPublish?
  }

  /** A task being pushed has not been handed to anybody yet. */
  predicate PushOk(c: State, q: nat)
    requires q < |c.deques|
  {
    Pushing(c.deques[q]) ==> c.deques[q].owner.x in c.begun && c.deques[q].owner.x !in c.rest.handed
  }

  predicate PushesDiffer(c: State, q: nat, r: nat)
    requires q < |c.deques| && r < |c.deques|
  {
    q != r && Pushing(c.deques[q]) && Pushing(c.deques[r]) ==> c.deques[q].owner.x != c.deques[r].owner.x
  }

  /** `inside` tells which call every worker is in. */
  predicate StandsOk(c: State, i: nat, q: nat)
    requires |c.deques| == |c.inside| && i < |c.inside| && q < |c.deques|
  {
    && (c.inside[i].Some? ==> c.inside[i].value < |c.deques|)
    && (q == i ==> (c.inside[i] == Some(q) <==> !c.deques[q].owner.Idle?))
    && (q != i && i < |c.deques[q].thieves| ==> (c.inside[i] == Some(q) <==> !c.deques[q].thieves[i].Out?))
  }

  ghost predicate Inv(c: State) {
    && |c.deques| == |c.rest.workers| == |c.inside|
    && (forall i, q :: 0 <= i < |c.inside| && 0 <= q < |c.deques| ==> StandsOk(c, i, q))
    && (forall q :: 0 <= q < |c.deques| ==> DequeOk(c, q))
    && (forall i :: 0 <= i < |c.inside| ==> InsideOk(c, i))
    && c.rest.handed <= c.begun
    && (forall q :: 0 <= q < |c.deques| ==> PushOk(c, q))
    && (forall q, r :: 0 <= q < |c.deques| && 0 <= r < |c.deques| ==> PushesDiffer(c, q, r))
  }

  lemma InvShape(c: State)
    requires Inv(c)
    ensures Shape(c)
  {
    forall q | 0 <= q < |c.deques|
      ensures D.Shape(c.deques[q]) && c.deques[q].top <= D.Limit(c.deques[q])
    {
      assert DequeOk(c, q);
    }
  }

  // ----- one access -------------------------------------------------------------------------------

  /** Which step of a deque has which event. */
  lemma DequeEvents(d: D.State<Task>, a: D.Action<Task>)
    requires D.Shape(d) && D.Enabled(d, a)
    ensures var (d', e) := D.Next(d, a);
      && |d'.thieves| == |d.thieves|
      && (e.Pushed? ==> a.OwnerGo? && d.owner.PushPublish? && d.owner.x == e.x)
      && (e.Refused? ==> a.OwnerGo? && d.owner.PushFull? && d.owner.x == e.x)
      && (e.Popped? ==> a.OwnerGo? && !d.owner.PopFix? && (d'.owner.Idle? || d'.owner.PopFix?))
      && (e.Stolen? ==> a == D.ThiefGo(e.i) && d'.thieves[e.i].Out?)
      && (e.Pushed? || e.Refused? ==> d'.owner.Idle?)
  {
  }

  /** And what it does to the contents. */
  lemma DequeStep(d: D.State<Task>, a: D.Action<Task>)
    requires D.Inv(d) && D.Enabled(d, a)
    ensures var (d', e) := D.Next(d, a);
      && D.Refines(d.size - 1, d, e, d') && d'.size == d.size && |d'.thieves| == |d.thieves|
      && (e.Pushed? ==> a.OwnerGo? && d.owner.PushPublish? && d.owner.x == e.x)
      && (e.Refused? ==> a.OwnerGo? && d.owner.PushFull? && d.owner.x == e.x)
      && (e.Popped? ==> a.OwnerGo? && !d.owner.PopFix? && (d'.owner.Idle? || d'.owner.PopFix?))
      && (e.Stolen? ==> a == D.ThiefGo(e.i) && d'.thieves[e.i].Out?)
      && (e.Pushed? || e.Refused? ==> d'.owner.Idle?)
  {
    D.StepRefines(d, a);
    DequeEvents(d, a);
  }

  /** Who is where after a step of a deque. */
  lemma DequeMoves(d: D.State<Task>, a: D.Action<Task>)
    requires D.Inv(d) && D.Enabled(d, a)
    ensures var (d', e) := D.Next(d, a);
      && (a.ThiefBegin? || a.ThiefGo? ==> d'.owner == d.owner)
      && (!(a.ThiefBegin? || a.ThiefGo?) ==> d'.thieves == d.thieves)
      && (forall j :: 0 <= j < |d.thieves| && d.thieves[j].Out? && a != D.ThiefBegin(j) ==> d'.thieves[j].Out?)
      && (Pushing(d') ==> if a.OwnerPush? then d'.owner.x == a.x else Pushing(d) && d'.owner.x == d.owner.x)
      && (d'.owner.PopFix? ==> d.owner.PopFix? || a.OwnerGo?)
      && (d.owner.PopFix? && a.OwnerGo? ==> d'.owner.Idle?)
  {
  }

  lemma QueuesUpdate(c: State, c': State, q: nat)
    requires Shape(c) && Shape(c') && q < |c.deques| == |c'.deques|
    requires c'.deques == c.deques[q := c'.deques[q]]
    ensures Queues(c') == Queues(c)[q := D.Contents(c'.deques[q])]
  {
  }

  /** The acting worker has nothing in hand when its operation takes effect. */
  lemma ActorReady(c: State, q: nat, d: D.Action<Task>)
    requires Inv(c) && Shape(c) && Enabled(c, Access(q, d))
    requires !(c.deques[q].owner.PopFix? && d.OwnerGo?)
    ensures c.rest.workers[Actor(q, d)].pc.Ready?
  {
    var i := Actor(q, d);
    assert InsideOk(c, i) && DequeOk(c, q);
  }

  predicate Silent(e: D.Event<Task>) {
    !(e.Pushed? || e.Refused? || e.Popped? || e.Stolen?)
  }

  /** The policy's own step, on the contents before and after. */
  lemma PolicyFollows(s: P.State, q: nat, i: nat, e: D.Event<Task>, x: seq<Task>, x': seq<Task>)
    requires q < |s.queues| && s.queues[q] == x && q < |s.workers| && i < |s.workers| && s.workers[i].pc.Ready?
    requires !Silent(e) && D.AbsStep(s.capacity, x, e, x') && (e.Stolen? ==> e.i == i) && (!e.Stolen? ==> i == q)
    requires e.Pushed? || e.Refused? ==> e.x !in s.handed
    ensures P.Step(s, React(s, q, e).1, React(s, q, e).0.(queues := s.queues[q := x']))
  {
    var a := if e.Pushed? || e.Refused? then P.Push(q, q, e.x)
      else P.Take(i, q, if e.Popped? then |x| - 1 else 0);
    if e.Popped? {
      assert P.Without(x, |x| - 1) == x';
    } else if e.Stolen? {
      assert P.Without(x, 0) == x';
    } else if e.Refused? {
      assert s.queues[q := x'] == s.queues;
    }
    assert P.Enabled(s, a) && P.Next(s, a) == (React(s, q, e).0.(queues := s.queues[q := x']), React(s, q, e).1);
  }

  /** The parts of the state after an access. */
  lemma AccessParts(c: State, q: nat, d: D.Action<Task>)
    requires Inv(c) && Shape(c) && Enabled(c, Access(q, d))
    ensures var ((d', de), (c', e)) := (D.Next(c.deques[q], d), Next(c, Access(q, d)));
      && c'.deques == c.deques[q := d'] && Shape(c')
      && (de.Stolen? ==> de.i == Actor(q, d)) && (!Silent(de) && !de.Stolen? ==> q == Actor(q, d))
      && (c'.rest, e) == React(c.rest, q, de)
      && c'.inside == c.inside[Actor(q, d) := if Returned(d', d) then None else Some(q)]
      && c'.begun == c.begun + (if d.OwnerPush? then {d.x} else {})
      && |c'.deques| == |c'.rest.workers| == |c'.inside| == |c.deques|
  {
    assert DequeOk(c, q);
    DequeStep(c.deques[q], d);
    InvShape(c);
  }

  /** An access is nothing to the policy, or one step of it on the contents of the deques. */
  lemma AccessFollows(c: State, q: nat, d: D.Action<Task>)
    requires Inv(c) && Shape(c) && Enabled(c, Access(q, d))
    ensures var (c', e) := Next(c, Access(q, d));
      && Shape(c')
      && if Silent(D.Next(c.deques[q], d).1) then e == P.Silent && Abs(c') == Abs(c)
         else P.Step(Abs(c), e, Abs(c'))
  {
    var (c', e) := Next(c, Access(q, d));
    var (d', de) := D.Next(c.deques[q], d);
    AccessParts(c, q, d);
    assert DequeOk(c, q);
    DequeStep(c.deques[q], d);
    QueuesUpdate(c, c', q);
    var x, x' := D.Contents(c.deques[q]), D.Contents(d');
    if Silent(de) {
      assert x' == x && Queues(c)[q := x] == Queues(c);
    } else {
      DequeMoves(c.deques[q], d);
      ActorReady(c, q, d);
      assert PushOk(c, q);
      PolicyFollows(Abs(c), q, Actor(q, d), de, x, x');
    }
  }

  /** A worker's own step is one step of the policy. */
  lemma GoFollows(c: State, i: nat)
    requires Inv(c) && Shape(c) && Enabled(c, Go(i))
    ensures var (c', e) := Next(c, Go(i)); Shape(c') && P.Step(Abs(c), e, Abs(c'))
  {
    var (c', e) := Next(c, Go(i));
    assert P.Enabled(Abs(c), P.Go(i));
    assert P.Next(Abs(c), P.Go(i)) == (Abs(c'), e);
  }

  // ----- the invariant is kept ---------------------------------------------------------------------

  lemma GoInv(c: State, i: nat)
    requires Inv(c) && Shape(c) && Enabled(c, Go(i))
    ensures Inv(Next(c, Go(i)).0)
  {
    var c' := Next(c, Go(i)).0;
    forall q | 0 <= q < |c'.deques|
      ensures DequeOk(c', q) && PushOk(c', q)
    {
      assert DequeOk(c, q) && PushOk(c, q);
    }
    forall j | 0 <= j < |c'.inside|
      ensures InsideOk(c', j)
    {
      assert InsideOk(c, j);
    }
    forall q, r | 0 <= q < |c'.deques| && 0 <= r < |c'.deques|
      ensures PushesDiffer(c', q, r) && StandsOk(c', q, r)
    {
      assert PushesDiffer(c, q, r) && StandsOk(c, q, r);
    }
  }

  lemma AccessDeque(c: State, q: nat, d: D.Action<Task>, r: nat)
    requires Inv(c) && Shape(c) && Enabled(c, Access(q, d)) && r < |c.deques|
    ensures r < |Next(c, Access(q, d)).0.deques| && DequeOk(Next(c, Access(q, d)).0, r)
  {
    AccessParts(c, q, d);
    assert DequeOk(c, q) && DequeOk(c, r);
    DequeStep(c.deques[q], d);
    DequeMoves(c.deques[q], d);
  }

  lemma AccessInside(c: State, q: nat, d: D.Action<Task>, j: nat)
    requires Inv(c) && Shape(c) && Enabled(c, Access(q, d)) && j < |c.inside|
    ensures var c' := Next(c, Access(q, d)).0;
      |c'.deques| == |c'.rest.workers| == |c'.inside| == |c.inside| && InsideOk(c', j)
  {
    AccessParts(c, q, d);
    assert DequeOk(c, q) && InsideOk(c, j);
    DequeStep(c.deques[q], d);
    DequeMoves(c.deques[q], d);
    if j == Actor(q, d) && !(c.deques[q].owner.PopFix? && d.OwnerGo?) {
      ActorReady(c, q, d);
    }
  }

  lemma AccessPush(c: State, q: nat, d: D.Action<Task>, r: nat)
    requires Inv(c) && Shape(c) && Enabled(c, Access(q, d)) && r < |c.deques|
    ensures var c' := Next(c, Access(q, d)).0;
      r < |c'.deques| && c'.rest.handed <= c'.begun && PushOk(c', r)
  {
    AccessParts(c, q, d);
    assert DequeOk(c, q) && PushOk(c, q) && PushOk(c, r) && PushesDiffer(c, q, r);
    DequeStep(c.deques[q], d);
    DequeMoves(c.deques[q], d);
  }

  lemma AccessPushes(c: State, q: nat, d: D.Action<Task>, r: nat, t: nat)
    requires Inv(c) && Shape(c) && Enabled(c, Access(q, d)) && r < |c.deques| && t < |c.deques|
    ensures var c' := Next(c, Access(q, d)).0;
      r < |c'.deques| && t < |c'.deques| && PushesDiffer(c', r, t)
  {
    AccessParts(c, q, d);
    assert PushOk(c, r) && PushOk(c, t) && PushesDiffer(c, r, t) && DequeOk(c, q);
    DequeMoves(c.deques[q], d);
  }

  /** A step of a deque moves its actor only. */
  lemma OthersStand(d: D.State<Task>, a: D.Action<Task>, i: nat)
    requires D.Shape(d) && D.Enabled(d, a) && i < |d.thieves|
    ensures var d' := D.Next(d, a).0;
      && |d'.thieves| == |d.thieves|
      && (!((a.ThiefBegin? || a.ThiefGo?) && a.i == i) ==> d'.thieves[i] == d.thieves[i])
      && (a.ThiefBegin? || a.ThiefGo? ==> d'.owner == d.owner)
  {
  }

  lemma AccessStands(c: State, q: nat, d: D.Action<Task>, i: nat, r: nat)
    requires Inv(c) && Shape(c) && Enabled(c, Access(q, d)) && i < |c.inside| && r < |c.deques|
    ensures var c' := Next(c, Access(q, d)).0;
      i < |c'.inside| == |c'.deques| && r < |c'.deques| && StandsOk(c', i, r)
  {
    AccessParts(c, q, d);
    assert StandsOk(c, i, r) && StandsOk(c, i, q) && DequeOk(c, q) && DequeOk(c, r);
    OthersStand(c.deques[q], d, i);
    OthersStand(c.deques[q], d, q);
  }

  lemma AccessInv(c: State, q: nat, d: D.Action<Task>)
    requires Inv(c) && Shape(c) && Enabled(c, Access(q, d))
    ensures Inv(Next(c, Access(q, d)).0)
  {
    AccessParts(c, q, d);
    AccessPush(c, q, d, q);
    var c' := Next(c, Access(q, d)).0;
    forall r | 0 <= r < |c'.deques|
      ensures DequeOk(c', r) && PushOk(c', r)
    {
      AccessDeque(c, q, d, r);
      AccessPush(c, q, d, r);
    }
    forall j | 0 <= j < |c'.inside|
      ensures InsideOk(c', j)
    {
      AccessInside(c, q, d, j);
    }
    forall r, t | 0 <= r < |c'.deques| && 0 <= t < |c'.deques|
      ensures PushesDiffer(c', r, t) && StandsOk(c', r, t)
    {
      AccessPushes(c, q, d, r, t);
      AccessStands(c, q, d, r, t);
    }
  }

  lemma InitInv(c: State)
    requires Init(c)
    ensures Inv(c) && Shape(c) && P.Init(Abs(c))
  {
    forall q | 0 <= q < |c.deques|
      ensures DequeOk(c, q) && D.Contents(c.deques[q]) == []
    {
      D.InitInv(c.deques[q]);
    }
    InvShape(c);
  }

  /** A step is nothing to the policy, or one step of it. */
  lemma StepFollows(c: State, e: P.Event, c': State)
    requires Inv(c) && Step(c, e, c')
    ensures Inv(c') && Shape(c') && Shape(c)
    ensures (e == P.Silent && Abs(c') == Abs(c)) || P.Step(Abs(c), e, Abs(c'))
  {
    var a: Action :| Enabled(c, a) && Next(c, a) == (c', e);
    match a
    case Go(i) =>
      GoFollows(c, i);
      GoInv(c, i);
    case Access(q, d) =>
      AccessFollows(c, q, d);
      AccessInv(c, q, d);
  }

  // ----- what a worker may do -----------------------------------------------------------------------

  /** The worker whose step it is. */
  function Doer(a: Action): nat {
    match a
    case Go(i) => i
    case Access(q, d) => Actor(q, d)
  }

  /**
  A worker with nothing in hand may push any new task, look into its own deque or steal from any
  other; one with a task in hand, or a body to end, goes on with it; one inside a call goes on
  with the call.
  */
  lemma Choices(c: State, i: nat, q: nat, t: Task)
    requires Inv(c) && Shape(c) && i < |c.inside| && q < |c.deques|
    ensures c.inside[i] == None && c.rest.workers[i].pc.Ready? ==>
      && (t !in c.begun ==> Enabled(c, Access(i, D.OwnerPush(t))))
      && Enabled(c, Access(i, D.OwnerLook))
      && (q != i ==> Enabled(c, Access(q, D.ThiefBegin(i))))
    ensures c.inside[i] == None && (!c.rest.workers[i].pc.Ready? || c.rest.workers[i].frames != []) ==>
      Enabled(c, Go(i))
    ensures c.inside[i] == Some(i) ==>
      if c.deques[i].owner.Ready? then Enabled(c, Access(i, D.OwnerPop)) && Enabled(c, Access(i, D.OwnerLeave))
      else Enabled(c, Access(i, D.OwnerGo))
    ensures c.inside[i] == Some(q) && q != i ==> Enabled(c, Access(q, D.ThiefGo(i)))
  {
    assert StandsOk(c, i, i) && StandsOk(c, i, q) && DequeOk(c, q) && DequeOk(c, i);
  }

  /** No worker is ever blocked by another: it always has a step of its own. */
  lemma NoWorkerBlocks(c: State, i: nat) returns (a: Action)
    requires Inv(c) && Shape(c) && i < |c.inside|
    ensures Enabled(c, a) && Doer(a) == i
  {
    assert StandsOk(c, i, i);
    match c.inside[i]
    case Some(q) =>
      Choices(c, i, q, 0);
      a := if q != i then Access(q, D.ThiefGo(i))
        else if c.deques[i].owner.Ready? then Access(i, D.OwnerPop) else Access(i, D.OwnerGo);
    case None =>
      Choices(c, i, i, 0);
      a := if c.rest.workers[i].pc.Ready? then Access(i, D.OwnerLook) else Go(i);
  }

  // ----- whole runs ---------------------------------------------------------------------------------

  /** The same events, apart from silent ones. */
  ghost predicate SameEvents(es: seq<P.Event>, fs: seq<P.Event>) {
    forall e: P.Event :: e != P.Silent ==> Policy.Count(es, e) == Policy.Count(fs, e)
  }

  lemma SameEventsSnoc(es: seq<P.Event>, fs: seq<P.Event>, e: P.Event, both: bool)
    requires SameEvents(es, fs) && (!both ==> e == P.Silent)
    ensures SameEvents(es + [e], if both then fs + [e] else fs)
  {
    assert multiset(es + [e]) == multiset(es) + multiset{e};
    assert multiset(fs + [e]) == multiset(fs) + multiset{e};
    var gs := if both then fs + [e] else fs;
    forall x: P.Event | x != P.Silent
      ensures Policy.Count(es + [e], x) == Policy.Count(gs, x)
    {
      assert Policy.Count(es, x) == Policy.Count(fs, x);
    }
  }

  /** Every run over the deques is a run of the policy on their contents, with the same events. */
  lemma {:induction false} RunFollows(cs: seq<State>, es: seq<P.Event>, k: nat)
      returns (states: seq<P.State>, events: seq<P.Event>)
    requires IsRun(Step, cs, es) && Init(cs[0]) && k <= |es|
    ensures Inv(cs[k]) && Shape(cs[k])
    ensures IsRun(P.Step, states, events) && P.Init(states[0]) && states[|events|] == Abs(cs[k])
    ensures SameEvents(es[..k], events)
  {
    if k == 0 {
      InitInv(cs[0]);
      states, events := [Abs(cs[0])], [];
      assert es[..0] == events;
    } else {
      states, events := RunFollows(cs, es, k - 1);
      assert Step(cs[k - 1], es[k - 1], cs[k - 1 + 1]);
      StepFollows(cs[k - 1], es[k - 1], cs[k]);
      assert es[..k] == es[..k - 1] + [es[k - 1]];
      var both := !(es[k - 1] == P.Silent && Abs(cs[k]) == Abs(cs[k - 1]));
      SameEventsSnoc(es[..k - 1], events, es[k - 1], both);
      if both {
        states, events := states + [Abs(cs[k])], events + [es[k - 1]];
      }
    }
  }

  /**
  Exactly-once execution over the real deques: under every interleaving of their accesses,
  each task handed to the policy has been run inline once, or lies in one place, or has been
  claimed once, and no compare-and-swap of `taken` has failed.
  */
  lemma ExactlyOnce(cs: seq<State>, es: seq<P.Event>, t: Task)
    requires IsRun(Step, cs, es) && Init(cs[0])
    ensures Shape(cs[|es|])
    ensures Policy.Count(es, P.RunInline(t)) + P.Placed(Abs(cs[|es|]), t) + Policy.Count(es, P.Claim(t))
            == if t in cs[|es|].rest.handed then 1 else 0
    ensures Policy.Count(es, P.Drop(t)) == 0
  {
    var states, events := RunFollows(cs, es, |es|);
    assert es[..|es|] == es;
    Policy.ExactlyOnce(states, events, t);
  }

  /** What is counted as run inline, or as claimed, is executed: by one worker, once. */
  lemma CountedIsExecuted(cs: seq<State>, es: seq<P.Event>, t: Task)
    requires IsRun(Step, cs, es) && Init(cs[0])
    ensures var s := cs[|es|].rest;
      && P.Total(s.workers, A.AsInline(t)) + (if t in s.inlined then 1 else 0) == Policy.Count(es, P.RunInline(t))
      && P.Total(s.workers, A.AsBearing(t)) + (if t in s.done then 1 else 0) == Policy.Count(es, P.Claim(t))
  {
    var states, events := RunFollows(cs, es, |es|);
    assert es[..|es|] == es;
    Policy.CountedIsExecuted(states, events, t);
    assert Policy.Count(es, P.RunInline(t)) == Policy.Count(events, P.RunInline(t));
    assert Policy.Count(es, P.Claim(t)) == Policy.Count(events, P.Claim(t));
  }

  /** And what the counters tell is told of the real deques as well. */
  lemma DoneExactly(cs: seq<State>, es: seq<P.Event>)
    requires IsRun(Step, cs, es) && Init(cs[0])
    ensures Shape(cs[|es|])
    ensures var s := Abs(cs[|es|]); Policy.LooksDone(s) ==>
      ((forall t :: t in s.accepted ==> t in s.done) <==> Policy.NoneRaising(s) && Policy.NoneCounting(s))
  {
    var states, events := RunFollows(cs, es, |es|);
    var s := Abs(cs[|es|]);
    assert Reaches(P.Step, states[0], s);
    if Policy.LooksDone(s) {
      Policy.DoneExactly(s);
    }
  }
}
