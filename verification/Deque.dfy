/**
The deque of src/mir_dequeue.c as the object the workers call: fields, the elements
array, and the bodies of the operations run without interference. Each body is shown to
be exactly the uninterrupted run of the corresponding steps of `DequeMachine`, so what
the machine guarantees under interleaving is a statement about this code.
*/
module Deque {
  import opened Runs
  import opened Wrappers
  import M = DequeMachine

  // ----- sizes --------------------------------------------------------------------

  function Pow2(k: nat): (r: nat)
    ensures r >= 1
  {
    if k == 0 then 1 else 2 * Pow2(k - 1)
  }

  /** The number of binary digits of n. */
  function Digits(n: nat): nat {
    if n == 0 then 0 else 1 + Digits(n / 2)
  }

  lemma {:induction false} DigitsBracket(n: nat)
    requires n > 0
    ensures Pow2(Digits(n)) <= 2 * n && n < Pow2(Digits(n))
  {
    if n > 1 {
      DigitsBracket(n / 2);
    } else {
      assert Digits(1) == 1 + Digits(0);
    }
  }

  lemma {:induction false} Pow2Add(j: nat, k: nat)
    ensures Pow2(j + k) == Pow2(j) * Pow2(k)
  {
    if j > 0 {
      Pow2Add(j - 1, k);
      assert Pow2(j + k) == 2 * Pow2(j - 1 + k);
    }
  }

  lemma {:induction false} Pow2Grows(j: nat, k: nat)
    requires j <= k
    ensures Pow2(j) <= Pow2(k)
  {
    if j < k {
      Pow2Grows(j, k - 1);
    }
  }

  lemma WordIsPow2()
    ensures Pow2(32) == WORD && Pow2(31) == WORD / 2 && Pow2(33) == 2 * WORD
  {
    assert Pow2(8) == 256;
    Pow2Add(8, 8);
    Pow2Add(16, 16);
    assert Pow2(32) == 2 * Pow2(31);
    assert Pow2(33) == 2 * Pow2(32);
  }

  datatype SizeError = ZeroRequested | SizeOverflow

  lemma ShiftWraps(x: nat)
    ensures ((x % WORD) * 2) % WORD == (2 * x) % WORD
  {
    var q, r := x / WORD, x % WORD;
    if 2 * r < WORD {
      Quotient(2 * x, WORD, 2 * q, 2 * r);
    } else {
      Quotient(2 * x, WORD, 2 * q + 1, 2 * r - WORD);
      Quotient(2 * r, WORD, 1, 2 * r - WORD);
    }
  }

  /** What the shifting loop leaves in a 32-bit word. */
  lemma RoundedWord(val: nat)
    requires 0 < val < WORD
    ensures val < WORD / 2 ==> val < Pow2(Digits(val)) <= 2 * val && Pow2(Digits(val)) < WORD
    ensures val >= WORD / 2 ==> Pow2(Digits(val)) == WORD
  {
    DigitsBracket(val);
    WordIsPow2();
    if Digits(val) < 32 {
      Pow2Grows(Digits(val), 31);
    } else if Digits(val) > 32 {
      Pow2Grows(33, Digits(val));
    }
  }

  /** roundUp2: one shift of a 32-bit word per binary digit of the request. */
  method RoundUp2(val: nat) returns (rounded: nat)
    requires 0 < val < WORD
    ensures val < WORD / 2 ==> rounded == Pow2(Digits(val)) && val < rounded <= 2 * val
    ensures val >= WORD / 2 ==> rounded == 0
  {
    var v := val;
    rounded := 1;
    ghost var shifts := 0;
    while true
      invariant 0 < v && shifts + Digits(v) == Digits(val)
      invariant rounded == Pow2(shifts) % WORD
      decreases v
    {
      ShiftWraps(Pow2(shifts));
      assert Pow2(shifts + 1) == 2 * Pow2(shifts);
      rounded := (rounded * 2) % WORD;
      shifts := shifts + 1;
      v := v / 2;
      if v == 0 { break; }
    }
    RoundedWord(val);
  }

  /** Bitwise and. */
  function And(x: nat, y: nat): nat {
    if x == 0 || y == 0 then 0
    else 2 * And(x / 2, y / 2) + (x % 2) * (y % 2)
  }

  lemma ModuloHalf(p: nat, h: nat)
    requires h > 0
    ensures p % (2 * h) == 2 * ((p / 2) % h) + p % 2
  {
    var q, r := (p / 2) / h, (p / 2) % h;
    assert p / 2 == q * h + r;
    assert q * (2 * h) == 2 * (q * h);
    Quotient(p, 2 * h, q, 2 * r + p % 2);
  }

  /** With a power of two, masking by size - 1 is the remainder. */
  lemma {:induction false} MaskIsModulo(p: nat, k: nat)
    ensures And(p, Pow2(k) - 1) == p % Pow2(k)
  {
    if k > 0 {
      var h := Pow2(k - 1);
      MaskIsModulo(p / 2, k - 1);
      ModuloHalf(p, h);
      assert (2 * h - 1) / 2 == h - 1 && (2 * h - 1) % 2 == 1;
      assert p == 0 ==> p % (2 * h) == 0;
      assert h == 1 ==> And(p / 2, 0) == 0;
    }
  }

  lemma {:induction false} SlotIsRemainder(p: nat, size: nat)
    requires size > 0
    ensures M.Slot(p, size) == p % size
  {
    if p >= size {
      var q := p - size;
      SlotIsRemainder(q, size);
      Quotient(p, size, q / size + 1, q % size);
    }
  }

  /** The masked index is the slot of the position. */
  lemma MaskIsSlot(p: nat, k: nat)
    ensures And(p, Pow2(k) - 1) == M.Slot(p, Pow2(k))
  {
    MaskIsModulo(p, k);
    SlotIsRemainder(p, Pow2(k));
  }

  // ----- the object ---------------------------------------------------------------

  /** One more step. */
  lemma Perform<T(!new)>(s: M.State<T>, mid: M.State<T>, a: M.Action<T>) returns (mid': M.State<T>)
    requires M.Inv(mid) && Reaches(M.Step<T>, s, mid) && M.Enabled(mid, a)
    ensures mid' == M.Next(mid, a).0 && M.Inv(mid') && Reaches(M.Step<T>, s, mid')
  {
    mid' := M.Next(mid, a).0;
    assert M.Step(mid, M.Next(mid, a).1, mid');
    ReachesSnoc(M.Step<T>, s, mid, M.Next(mid, a).1, mid');
    M.StepRefines(mid, a);
  }

  /** Between calls the contents do not depend on where the callers are. */
  lemma BetweenCalls<T>(s: M.State<T>, o: M.OwnerPc<T>, p: M.ThiefPc<T>)
    requires M.Inv(s) && (s.owner.Idle? || s.owner.Ready?)
    requires o.Idle? || (o.Ready? && s.bottom > 0)
    requires p.Out? || p.Start?
    ensures M.Inv(s.(owner := o, thieves := [p]))
    ensures M.Contents(s.(owner := o, thieves := [p])) == M.Contents(s)
  {
  }

  /** The owner's steps of a push, with no thief in between. */
  lemma SoloPush<T(!new)>(s: M.State<T>, x: T, t: nat) returns (s': M.State<T>)
    requires M.Inv(s) && s.owner.Idle?
    requires t == if s.bottom - s.topBound >= s.size - 1 then s.top else s.topBound
    ensures Reaches(M.Step<T>, s, s') && M.Inv(s')
    ensures s' == if s.bottom - t >= s.size - 1 then s.(topBound := t)
      else s.(topBound := t, elements := s.elements[M.Slot(s.bottom, s.size) := x], bottom := s.bottom + 1)
  {
    ReachesSelf(M.Step<T>, s);
    s' := Perform(s, s, M.OwnerPush(x));
    if s'.owner.PushFull? {
      s' := Perform(s, s', M.OwnerGo);
    }
    var b := s.bottom;
    if b - t < s.size - 1 {
      assert s' == s.(topBound := t, owner := M.PushWrite(x, b));
      s' := Perform(s, s', M.OwnerGo);
      assert s'.owner == M.PushPublish(x, b);
      s' := Perform(s, s', M.OwnerGo);
    }
  }

  lemma PushedContents<T>(s: M.State<T>, x: T, t: nat)
    requires M.Inv(s) && s.owner.Idle? && |M.Contents(s)| < s.size - 1
    ensures var s' := s.(topBound := t, elements := s.elements[M.Slot(s.bottom, s.size) := x], bottom := s.bottom + 1);
      M.Contents(s') == M.Contents(s) + [x]
  {
    forall p | s.top <= p < s.bottom
      ensures M.Slot(p, s.size) != M.Slot(s.bottom, s.size)
    {
      M.SlotsDiffer(p, s.bottom, s.size);
    }
    var s' := s.(topBound := t, elements := s.elements[M.Slot(s.bottom, s.size) := x], bottom := s.bottom + 1);
    assert M.Contents(s') == M.Contents(s) + [x];
  }

  /** The newest and the oldest element of a non-empty deque. */
  lemma EndsOfContents<T>(s: M.State<T>, t: nat)
    requires M.Inv(s) && s.owner.Idle? && s.top < s.bottom
    ensures var s' := s.(bottom := s.bottom - 1, topBound := t);
      M.Contents(s) == M.Contents(s') + [s.elements[M.Slot(s.bottom - 1, s.size)]]
    ensures var s' := s.(top := s.top + 1);
      M.Contents(s) == [s.elements[M.Slot(s.top, s.size)]] + M.Contents(s')
  {
    assert M.Contents(s) == M.Contents(s.(bottom := s.bottom - 1, topBound := t))
                            + [s.elements[M.Slot(s.bottom - 1, s.size)]];
    assert M.Contents(s) == [s.elements[M.Slot(s.top, s.size)]] + M.Contents(s.(top := s.top + 1));
  }

  /** The owner's steps of a pop after its emptiness guard, with no thief in between. */
  lemma SoloPop<T(!new)>(s: M.State<T>) returns (s': M.State<T>)
    requires M.Inv(s) && s.owner.Ready?
    ensures Reaches(M.Step<T>, s, s') && M.Inv(s')
    ensures s.bottom == s.top ==> s' == s.(owner := M.Idle, topBound := s.top)
    ensures s.bottom == s.top + 1 ==>
      s' == s.(owner := M.Idle, top := s.bottom, topBound := s.bottom)
    ensures s.bottom > s.top + 1 ==>
      s' == s.(owner := M.Idle, bottom := s.bottom - 1, topBound := s.top)
  {
    var b := s.bottom - 1;
    ReachesSelf(M.Step<T>, s);
    s' := Perform(s, s, M.OwnerPop);
    assert s' == s.(owner := M.PopTop(b), bottom := b);
    s' := Perform(s, s', M.OwnerGo);
    if s.bottom == s.top {
      assert s'.owner == M.PopAbort(s.top);
    }
    s' := Perform(s, s', M.OwnerGo);
    if s.bottom == s.top + 1 {
      assert s'.owner.PopCas?;
      s' := Perform(s, s', M.OwnerGo);
      s' := Perform(s, s', M.OwnerGo);
    }
  }

  /** A whole undisturbed pop, and what it takes. */
  lemma PopRuns<T(!new)>(s: M.State<T>) returns (s': M.State<T>)
    requires M.Inv(s) && s.owner.Idle? && s.thieves == [M.Out] && s.bottom > 0
    ensures Reaches(M.Step<T>, s.(owner := M.Ready), s') && M.Inv(s')
    ensures s' == if s.bottom == s.top then s.(topBound := s.top)
      else if s.bottom == s.top + 1 then s.(top := s.bottom, topBound := s.bottom)
      else s.(bottom := s.bottom - 1, topBound := s.top)
    ensures s.bottom == s.top ==> M.Contents(s) == [] == M.Contents(s')
    ensures s.bottom > s.top ==>
      M.Contents(s) == M.Contents(s') + [s.elements[M.Slot(s.bottom - 1, s.size)]]
  {
    BetweenCalls(s, M.Ready, M.Out);
    assert s.(owner := M.Ready, thieves := [M.Out]) == s.(owner := M.Ready);
    s' := SoloPop(s.(owner := M.Ready));
    if s.top < s.bottom {
      EndsOfContents(s, s.top);
    }
  }

  /** The steps of one stealWSDeque_, with no other worker in between. */
  lemma SoloSteal<T(!new)>(s: M.State<T>) returns (s': M.State<T>)
    requires M.Inv(s) && s.owner.Idle? && s.thieves == [M.Start]
    ensures Reaches(M.Step<T>, s, s') && M.Inv(s')
    ensures s' == if s.bottom == s.top then s.(thieves := [M.Retry])
                  else s.(top := s.top + 1, thieves := [M.Out])
  {
    ReachesSelf(M.Step<T>, s);
    s' := Perform(s, s, M.ThiefGo(0));
    assert s' == s.(thieves := [M.GotTop(s.top)]);
    s' := Perform(s, s', M.ThiefGo(0));
    if s.bottom != s.top {
      assert s' == s.(thieves := [M.GotBottom(s.top)]);
      s' := Perform(s, s', M.ThiefGo(0));
      s' := Perform(s, s', M.ThiefGo(0));
    }
  }

  class WSDeque<T(0,!new)> {
    const size: nat
    const moduloSize: nat
    ghost const bits: nat
    const elements: array<T>
    var top: nat
    var bottom: nat
    var topBound: nat

    /** The machine's view of the object, with one thief outside. */
    ghost function View(owner: M.OwnerPc<T>, thief: M.ThiefPc<T>): M.State<T>
      reads this, elements
    {
      M.State(size, elements[..], top, bottom, topBound, owner, [thief])
    }

    ghost predicate Valid()
      reads this, elements
    {
      && size == elements.Length == Pow2(bits)
      && moduloSize == size - 1
      && M.Inv(View(M.Idle, M.Out))
    }

    ghost function Contents(): (q: seq<T>)
      requires Valid()
      reads this, elements
    {
      M.Contents(View(M.Idle, M.Out))
    }

    /** The slot of position p, by its mask. */
    function Index(p: nat): (k: nat)
      requires size == Pow2(bits) && moduloSize == size - 1
      ensures k == M.Slot(p, size)
    {
      MaskIsSlot(p, bits);
      And(p, moduloSize)
    }

    /** newWSDeque for a size already rounded up. */
    constructor (realsize: nat, ghost k: nat)
      requires k > 0 && realsize == Pow2(k)
      ensures Valid() && Contents() == [] && size == realsize && fresh(elements)
    {
      size := realsize;
      moduloSize := realsize - 1;
      bits := k;
      elements := new T[realsize];
      top, bottom, topBound := 0, 0, 0;
      new;
      assert Pow2(k) == 2 * Pow2(k - 1);
      M.InitInv(View(M.Idle, M.Out));
    }

    method LooksEmpty() returns (empty: bool)
      requires Valid()
      ensures empty == (Contents() == [])
    {
      var t := top;
      var b := bottom;
      empty := b - t <= 0;
    }

    /** pushWSDeque: refused exactly when size - 1 elements are live. */
    method Push(elem: T) returns (pushed: bool)
      requires Valid()
      modifies this, elements
      ensures Valid()
      ensures pushed == (|old(Contents())| < size - 1)
      ensures Contents() == if pushed then old(Contents()) + [elem] else old(Contents())
      ensures Reaches(M.Step<T>, old(View(M.Idle, M.Out)), View(M.Idle, M.Out))
    {
      var sz := moduloSize;
      var b := bottom;
      var t := topBound;
      ghost var s' := SoloPush(View(M.Idle, M.Out), elem, if b - t >= sz then top else t);
      if b - t >= sz {
        t := top;
        topBound := t;
        if b - t >= sz {
          assert s' == View(M.Idle, M.Out);
          return false;
        }
      }
      PushedContents(View(M.Idle, M.Out), elem, t);
      elements[Index(b)] := elem;
      bottom := b + 1;
      assert s' == View(M.Idle, M.Out);
      return true;
    }

    /** popWSDeque, called after the owner has seen a non-empty deque. */
    method Pop() returns (removed: Option<T>)
      requires Valid() && bottom > 0
      modifies this
      ensures Valid()
      ensures old(Contents()) == [] ==> removed == None && Contents() == []
      ensures old(Contents()) != [] ==> removed.Some? && old(Contents()) == Contents() + [removed.value]
      ensures Reaches(M.Step<T>, old(View(M.Ready, M.Out)), View(M.Idle, M.Out))
    {
      ghost var s' := PopRuns(View(M.Idle, M.Out));
      var b := bottom;
      b := b - 1;
      bottom := b;
      var t := top;
      topBound := t;
      var currSize: int := (b as int) - (t as int);
      if currSize < 0 {
        bottom := t;
        assert s' == View(M.Idle, M.Out);
        return None;
      }
      removed := Some(elements[Index(b)]);
      if currSize > 0 {
        assert s' == View(M.Idle, M.Out);
        return;
      }
      if top == t {
        top := t + 1;
      } else {
        removed := None;
      }
      bottom := t + 1;
      topBound := t + 1;
      assert s' == View(M.Idle, M.Out);
    }

    /** stealWSDeque_: one attempt at the oldest element. */
    method StealOnce() returns (stolen: Option<T>)
      requires Valid()
      modifies this
      ensures Valid()
      ensures old(Contents()) == [] ==> stolen == None && Contents() == []
      ensures old(Contents()) != [] ==> stolen.Some? && old(Contents()) == [stolen.value] + Contents()
      ensures Reaches(M.Step<T>, old(View(M.Idle, M.Start)),
                View(M.Idle, if stolen.None? then M.Retry else M.Out))
    {
      BetweenCalls(View(M.Idle, M.Out), M.Idle, M.Start);
      if top < bottom {
        EndsOfContents(View(M.Idle, M.Out), top);
      }
      ghost var s' := SoloSteal(View(M.Idle, M.Start));
      var t := top;
      var b := bottom;
      if b - t <= 0 {
        assert s' == View(M.Idle, M.Retry);
        stolen := None;
        return;
      }
      stolen := Some(elements[Index(t)]);
      if top == t {
        top := t + 1;
      } else {
        return None;
      }
      assert s' == View(M.Idle, M.Out);
    }
  }

  /**
  newWSDeque: a request of zero stops the program, one of 2^31 or more rounds to a word
  of zero and trips the size assertion; any other gives an empty deque that is a power of
  two strictly above the request.
  */
  method NewWSDeque<T(0,!new)>(request: nat) returns (r: Result<WSDeque<T>, SizeError>)
    requires request < WORD
    ensures r.Err? <==> request == 0 || request >= WORD / 2
    ensures request == 0 ==> r == Err(ZeroRequested)
    ensures r.Ok? ==> fresh(r.value) && r.value.Valid() && r.value.Contents() == []
    ensures r.Ok? ==> request < r.value.size <= 2 * request
  {
    if request == 0 {
      return Err(ZeroRequested);
    }
    var realsize := RoundUp2(request);
    if realsize == 0 {
      return Err(SizeOverflow);
    }
    var q := new WSDeque(realsize, Digits(request));
    return Ok(q);
  }
}
