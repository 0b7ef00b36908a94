/** The program of tests/fib_native/test.c under every schedule. */
module Fib {
  import opened Wrappers
  import opened Program
  import opened ForkJoinMachine
  import opened ForkJoin

  const CUTOFF := 12
  const WORD64 := 0x1_0000_0000_0000_0000

  /** fib_seq, in the 64-bit words the test uses. */
  function FibSeq(n: int): int {
    if n < 2 then n % WORD64 else (FibSeq(n - 1) + FibSeq(n - 2)) % WORD64
  }

  /** ol_fib_0 and ol_fib_1 both store fib of their argument: n and the depth d. */
  function Body(arg: Data, hist: seq<seq<int>>, spawned: nat): Act {
    if |arg| != 2 || arg[0] < 2 || arg[1] >= CUTOFF then
      if spawned == 0 then Return(if |arg| == 2 then FibSeq(arg[0]) else 0) else Wait
    else if hist == [] then
      match spawned
      case 0 => Spawn([arg[0] - 1, arg[1] + 1])
      case 1 => Spawn([arg[0] - 2, arg[1] + 1])
      case _ => Wait
    else if spawned == 0 && |hist[0]| == 2 then Return((hist[0][0] + hist[0][1]) % WORD64)
    else if spawned == 0 then Return(0)
    else Wait
  }

  /** Both calls, the wait and the sum. */
  lemma FibSteps(n: int, d: int, x: int, y: int, h: nat)
    requires n >= 2 && d < CUTOFF
    requires Eval(Body, [n - 1, d + 1], [], [], h + 1) == Some(x)
    requires Eval(Body, [n - 2, d + 1], [], [], h) == Some(y) && h > 1
    ensures Eval(Body, [n, d], [], [], h + 2) == Some((x + y) % WORD64)
  {
    assert [] + [x] == [x] && [x] + [y] == [x, y];
    assert [] + [[x, y]] == [[x, y]];
    assert Eval(Body, [n, d], [[x, y]], [], h - 1) == Some((x + y) % WORD64);
    assert Eval(Body, [n, d], [], [x, y], h) == Some((x + y) % WORD64);
    assert Eval(Body, [n, d], [], [x], h + 1) == Some((x + y) % WORD64);
  }

  /** The sequential elision of the task program computes fib_seq. */
  lemma {:induction false} FibValue(n: int, d: int)
    ensures HasValue(Body, [n, d], FibSeq(n))
    decreases if n < 0 then 0 else n
  {
    if n < 2 || d >= CUTOFF {
      assert Eval(Body, [n, d], [], [], 1) == Some(FibSeq(n));
    } else {
      FibValue(n - 1, d + 1);
      FibValue(n - 2, d + 1);
      var x, y := FibSeq(n - 1), FibSeq(n - 2);
      var f: nat :| Eval(Body, [n - 1, d + 1], [], [], f) == Some(x);
      var g: nat :| Eval(Body, [n - 2, d + 1], [], [], g) == Some(y);
      var h := f + g + 2;
      MoreFuel(Body, [n - 1, d + 1], [], [], f, h + 1);
      MoreFuel(Body, [n - 2, d + 1], [], [], g, h);
      FibSteps(n, d, x, y, h);
    }
  }

  /** Every task of every run stores the sequential Fibonacci number. */
  lemma FibUnderAnySchedule(s0: State, s: State, c: nat, n: int, d: int)
    requires Reachable(Body, s0, s) && c < |s.calls| && s.calls[c].arg == [n, d]
    ensures s.calls[c].result.Some? ==> s.calls[c].result.value == FibSeq(n)
    ensures s.calls[c].place.Finished? ==> s.calls[c].result == Some(FibSeq(n))
  {
    ScheduleIndependence(Body, s0, s, c);
    FibValue(n, d);
  }

  // ----- the numbers ------------------------------------------------------------------------

  /** The Fibonacci numbers, without a width. */
  function FibNumber(n: nat): nat {
    if n < 2 then n else FibNumber(n - 1) + FibNumber(n - 2)
  }

  lemma WordsAdd(x: nat, y: nat)
    ensures (x % WORD64 + y % WORD64) % WORD64 == (x + y) % WORD64
  {
  }

  /** The words of the test are the Fibonacci numbers modulo 2^64. */
  lemma {:induction false} FibSeqIsFib(n: nat)
    ensures FibSeq(n) == FibNumber(n) % WORD64
  {
    if n >= 2 {
      FibSeqIsFib(n - 1);
      FibSeqIsFib(n - 2);
      WordsAdd(FibNumber(n - 1), FibNumber(n - 2));
    }
  }

  lemma SixOn(n: nat)
    ensures FibNumber(n + 6) == 5 * FibNumber(n) + 8 * FibNumber(n + 1)
    ensures FibNumber(n + 7) == 8 * FibNumber(n) + 13 * FibNumber(n + 1)
  {
    assert FibNumber(n + 3) == FibNumber(n) + 2 * FibNumber(n + 1);
    assert FibNumber(n + 5) == FibNumber(n + 4) + FibNumber(n + 3);
  }

  /** The number the test asserts. */
  lemma FibOf42()
    ensures FibNumber(42) == 267914296 < WORD64
  {
    SixOn(0);
    SixOn(6);
    SixOn(12);
    SixOn(18);
    SixOn(24);
    SixOn(30);
    SixOn(36);
  }

  /** Fibonacci numbers that fit a word are what is computed, however the tasks were scheduled. */
  lemma FibComputed(s0: State, s: State, c: nat, n: nat, d: int)
    requires Reachable(Body, s0, s) && c < |s.calls| && s.calls[c].arg == [n, d]
    requires s.calls[c].place.Finished? && FibNumber(n) < WORD64
    ensures s.calls[c].result == Some(FibNumber(n))
  {
    FibUnderAnySchedule(s0, s, c, n, d);
    FibSeqIsFib(n);
  }
}
