/**
Fork-join programs and their sequential meaning.

A task body is deterministic: what it does next depends on its argument, on the results
it has read after each of its waits so far, and on how many calls it has spawned since
the last wait. tests/fib_native/test.c is such a body: spawn fib(n-1), spawn fib(n-2),
wait, return the sum of the two cells.
*/
module Program {
  import opened Wrappers

  /** The words of a task's argument block. */
  type Data = seq<int>

  datatype Act =
    | Spawn(arg: Data)
    | Wait
    | Return(value: int)

  /** argument, results read after each wait so far, spawns since the last wait */
  type Program = (Data, seq<seq<int>>, nat) -> Act

  /**
  The sequential elision: a spawn is a call, a wait does nothing. `pend` are the results
  of the calls made since the last wait; None means that the fuel ran out.
  */
  function Eval(p: Program, arg: Data, hist: seq<seq<int>>, pend: seq<int>, fuel: nat): Option<int>
    decreases fuel
  {
    if fuel == 0 then None
    else
      match p(arg, hist, |pend|)
      case Return(v) => Some(v)
      case Wait => Eval(p, arg, hist + [pend], [], fuel - 1)
      case Spawn(b) =>
        match Eval(p, b, [], [], fuel - 1)
        case None => None
        case Some(x) => Eval(p, arg, hist, pend + [x], fuel - 1)
  }

  /** v is the value of the sequential program. */
  ghost predicate HasValue(p: Program, arg: Data, v: int) {
    exists fuel: nat :: Eval(p, arg, [], [], fuel) == Some(v)
  }

  /** The sequential program has no value other than v. */
  ghost predicate OnlyValue(p: Program, arg: Data, v: int) {
    forall u :: HasValue(p, arg, u) ==> u == v
  }

  /** Bodies that never return while a spawned call is not waited for. */
  ghost predicate Joins(p: Program) {
    forall arg, hist, n: nat :: p(arg, hist, n).Return? ==> n == 0
  }

  lemma {:induction false} MoreFuel(p: Program, arg: Data, hist: seq<seq<int>>, pend: seq<int>, f: nat, g: nat)
    requires f <= g && Eval(p, arg, hist, pend, f).Some?
    ensures Eval(p, arg, hist, pend, g) == Eval(p, arg, hist, pend, f)
    decreases f
  {
    match p(arg, hist, |pend|)
    case Return(_) =>
    case Wait => MoreFuel(p, arg, hist + [pend], [], f - 1, g - 1);
    case Spawn(b) =>
      MoreFuel(p, b, [], [], f - 1, g - 1);
      var x := Eval(p, b, [], [], f - 1).value;
      MoreFuel(p, arg, hist, pend + [x], f - 1, g - 1);
  }

  /** Sequential programs are deterministic. */
  lemma ValueIsUnique(p: Program, arg: Data, u: int, v: int)
    requires HasValue(p, arg, u) && HasValue(p, arg, v)
    ensures u == v
  {
    var f: nat :| Eval(p, arg, [], [], f) == Some(u);
    var g: nat :| Eval(p, arg, [], [], g) == Some(v);
    if f <= g {
      MoreFuel(p, arg, [], [], f, g);
    } else {
      MoreFuel(p, arg, [], [], g, f);
    }
  }

  // ----- a body part of the way through --------------------------------------------

  /** From the results `hist` on, the body ends with u. */
  ghost predicate EndsWith(p: Program, arg: Data, hist: seq<seq<int>>, pend: seq<int>, u: int) {
    exists fuel: nat :: Eval(p, arg, hist, pend, fuel) == Some(u)
  }

  /** `hist` is a point the sequential body passes through. */
  ghost predicate Passes(p: Program, arg: Data, hist: seq<seq<int>>) {
    && (forall u :: HasValue(p, arg, u) ==> EndsWith(p, arg, hist, [], u))
    && (Joins(p) ==> forall u :: EndsWith(p, arg, hist, [], u) ==> HasValue(p, arg, u))
  }

  /** x is a sound result of a call with this argument. */
  ghost predicate Sound(p: Program, arg: Data, x: int) {
    OnlyValue(p, arg, x) && (Joins(p) ==> HasValue(p, arg, x))
  }

  lemma PassesStart(p: Program, arg: Data)
    ensures Passes(p, arg, [])
  {
    forall u | HasValue(p, arg, u)
      ensures EndsWith(p, arg, [], [], u)
    {
    }
    forall u | EndsWith(p, arg, [], [], u)
      ensures HasValue(p, arg, u)
    {
    }
  }

  /** The calls spawned since the last wait have these sound results. */
  ghost predicate Spawned(p: Program, arg: Data, hist: seq<seq<int>>, xs: seq<int>) {
    forall i :: 0 <= i < |xs| ==>
      p(arg, hist, i).Spawn? && Sound(p, p(arg, hist, i).arg, xs[i])
  }

  lemma {:induction false} SpawnsForward(p: Program, arg: Data, hist: seq<seq<int>>, xs: seq<int>, n: nat, u: int)
    requires n <= |xs| && Spawned(p, arg, hist, xs) && EndsWith(p, arg, hist, [], u)
    ensures EndsWith(p, arg, hist, xs[..n], u)
  {
    if n == 0 {
      assert xs[..0] == [];
    } else {
      SpawnsForward(p, arg, hist, xs, n - 1, u);
      var f: nat :| Eval(p, arg, hist, xs[..n - 1], f) == Some(u);
      var b := p(arg, hist, n - 1).arg;
      var y := Eval(p, b, [], [], f - 1).value;
      assert HasValue(p, b, y);
      assert Sound(p, b, xs[n - 1]);
      assert xs[..n - 1] + [y] == xs[..n];
      assert Eval(p, arg, hist, xs[..n], f - 1) == Some(u);
    }
  }

  lemma {:induction false} SpawnsBackward(p: Program, arg: Data, hist: seq<seq<int>>, xs: seq<int>, n: nat, u: int)
    requires n <= |xs| && Spawned(p, arg, hist, xs) && Joins(p) && EndsWith(p, arg, hist, xs[..n], u)
    ensures EndsWith(p, arg, hist, [], u)
  {
    if n == 0 {
      assert xs[..0] == [];
    } else {
      var b := p(arg, hist, n - 1).arg;
      assert Sound(p, b, xs[n - 1]);
      var f: nat :| Eval(p, arg, hist, xs[..n], f) == Some(u);
      var g: nat :| Eval(p, b, [], [], g) == Some(xs[n - 1]);
      var h := f + g;
      MoreFuel(p, arg, hist, xs[..n], f, h);
      MoreFuel(p, b, [], [], g, h);
      assert xs[..n - 1] + [xs[n - 1]] == xs[..n];
      assert Eval(p, arg, hist, xs[..n - 1], h + 1) == Some(u);
      SpawnsBackward(p, arg, hist, xs, n - 1, u);
    }
  }

  /** Reading sound results after a wait is what the sequential body does. */
  lemma PassesWait(p: Program, arg: Data, hist: seq<seq<int>>, xs: seq<int>)
    requires Passes(p, arg, hist) && Spawned(p, arg, hist, xs) && p(arg, hist, |xs|) == Wait
    ensures Passes(p, arg, hist + [xs])
  {
    assert xs[..|xs|] == xs;
    forall u | HasValue(p, arg, u)
      ensures EndsWith(p, arg, hist + [xs], [], u)
    {
      SpawnsForward(p, arg, hist, xs, |xs|, u);
      var f: nat :| Eval(p, arg, hist, xs, f) == Some(u);
      assert Eval(p, arg, hist + [xs], [], f - 1) == Some(u);
    }
    if Joins(p) {
      forall u | EndsWith(p, arg, hist + [xs], [], u)
        ensures HasValue(p, arg, u)
      {
        var f: nat :| Eval(p, arg, hist + [xs], [], f) == Some(u);
        assert Eval(p, arg, hist, xs, f + 1) == Some(u);
        SpawnsBackward(p, arg, hist, xs, |xs|, u);
      }
    }
  }

  /** Returning: the calls not waited for are known only by their arguments. */
  lemma ReturnIsSound(p: Program, arg: Data, hist: seq<seq<int>>, n: nat, v: int)
    requires Passes(p, arg, hist) && p(arg, hist, n) == Return(v)
    requires forall i :: 0 <= i < n ==> p(arg, hist, i).Spawn?
    ensures Sound(p, arg, v)
  {
    forall u | HasValue(p, arg, u)
      ensures u == v
    {
      assert EndsWith(p, arg, hist, [], u);
      var f: nat :| Eval(p, arg, hist, [], f) == Some(u);
      ReturnsOnly(p, arg, hist, [], n, v, f);
    }
    if Joins(p) {
      assert n == 0;
      assert Eval(p, arg, hist, [], 1) == Some(v);
      assert EndsWith(p, arg, hist, [], v);
    }
  }

  lemma {:induction false} ReturnsOnly(
      p: Program, arg: Data, hist: seq<seq<int>>, pend: seq<int>, n: nat, v: int, f: nat)
    requires |pend| <= n && p(arg, hist, n) == Return(v)
    requires forall i :: |pend| <= i < n ==> p(arg, hist, i).Spawn?
    requires Eval(p, arg, hist, pend, f).Some?
    ensures Eval(p, arg, hist, pend, f) == Some(v)
    decreases f
  {
    if |pend| < n {
      var b := p(arg, hist, |pend|).arg;
      var x := Eval(p, b, [], [], f - 1).value;
      ReturnsOnly(p, arg, hist, pend + [x], n, v, f - 1);
    }
  }
}
