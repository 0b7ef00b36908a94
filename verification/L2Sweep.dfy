/**
The incremental computation of the Martello-Toth bound: one sweep over k with pointers into
the works sorted downwards, against the sums that define the bound.
Numbers are unsigned 32-bit words, and every sum and difference of the source is taken in
words. Where the total work fits into a word only one of them can wrap: the rounding up of
the overspill.
*/
module L2Sweep {
  import opened Wrappers
  import opened Packing

  predicate AllWords(w: seq<nat>) {
    forall i :: 0 <= i < |w| ==> w[i] < WORD
  }

  /** What a work leaves free in a bin of its own, as a word: a turn more where it is too long. */
  function FreeWord(c: nat): nat -> nat {
    x => if x <= c then c - x else if x <= c + WORD then c + WORD - x else 0
  }

  /** The expression that rounds the overspill up, in words. */
  function WordCeilDiv(x: nat, c: nat): nat
    requires c > 0
  {
    Div(Word(x + c - 1), c)
  }

  /** The value taken from the counter and the two accumulators. */
  function Taken(n12: nat, f2: nat, s3: nat, c: nat): nat {
    Word(n12 + Overspill(f2, s3, c))
  }

  function Overspill(f2: nat, s3: nat, c: nat): nat {
    if s3 > f2 && c > 0 then WordCeilDiv(s3 - f2, c) else 0
  }

  /** The value the sweep takes for one k, as sums over the works. */
  function WordL2At(w: seq<nat>, c: nat, k: nat): nat {
    Taken(Sum(w, Big(c), |w|), Word(Sum(w, Free(c, k), |w|)), Word(Sum(w, Small(c, k), |w|)), c)
  }

  /** The largest of the values for k below n. */
  function WordL2(w: seq<nat>, c: nat, n: nat): nat {
    if n == 0 then 0 else Max(WordL2(w, c, n - 1), WordL2At(w, c, n - 1))
  }

  // ----- the pointers and accumulators of the sweep -----------------------------------------

  /** Works before i are above x and the others are not. */
  predicate Cut(w: seq<nat>, i: nat, x: nat) {
    && i <= |w|
    && (forall j :: 0 <= j < i ==> w[j] > x)
    && (forall j :: i <= j < |w| ==> w[j] <= x)
  }

  predicate Below(w: seq<nat>, i: nat, x: nat) {
    i <= |w| && forall j :: i <= j < |w| ==> w[j] < x
  }

  predicate Above(w: seq<nat>, i: nat, x: nat) {
    i <= |w| && forall j :: 0 <= j < i ==> w[j] > x
  }

  /** In sorted works the first one not above x makes the cut. */
  lemma CutHere(w: seq<nat>, i: nat, x: nat)
    requires SortedDown(w) && Above(w, i, x) && (i < |w| ==> w[i] <= x)
    ensures Cut(w, i, x)
  {
  }

  /** And the first one not below k, from the end, makes the tail. */
  lemma TailHere(w: seq<nat>, n12: nat, n3: nat, k: nat)
    requires SortedDown(w) && n12 <= n3 <= |w| && (n3 > n12 ==> w[n3 - 1] >= k)
    requires Below(w, n3, k)
    ensures Tail(w, n12, n3, k)
  {
  }

  /** Works from n12 to n3 are at least k and those from n3 on are not. */
  predicate Tail(w: seq<nat>, n12: nat, n3: nat, k: nat) {
    && n12 <= n3 <= |w|
    && (forall j :: n12 <= j < n3 ==> w[j] >= k)
    && (forall j :: n3 <= j < |w| ==> w[j] < k)
  }

  /** The state of the sweep when the value for k is taken. */
  predicate SweptTo(w: seq<nat>, c: nat, k: nat, n1: nat, n12: nat, n3: nat, f2: nat, s3: nat) {
    && k <= c / 2
    && Cut(w, n1, c - k) && Cut(w, n12, c / 2) && Tail(w, n12, n3, k) && n1 <= n12
    && f2 == Word(Sum(w, FreeWord(c), n12) - Sum(w, FreeWord(c), n1))
    && s3 == Word(Sum(w, Same, n3) - Sum(w, Same, n12))
  }

  /** A function that is g between two pointers and 0 elsewhere sums to a difference. */
  lemma {:induction false} SumBetween(w: seq<nat>, f: nat -> nat, g: nat -> nat, lo: nat, hi: nat, n: nat)
    requires lo <= hi <= |w| && n <= |w|
    requires forall j :: 0 <= j < |w| ==> f(w[j]) == (if lo <= j < hi then g(w[j]) else 0)
    ensures Sum(w, f, n) + Sum(w, g, Min(lo, n)) == Sum(w, g, Min(hi, n))
  {
    if n > 0 {
      SumBetween(w, f, g, lo, hi, n - 1);
    }
  }

  function One(x: nat): nat { 1 }

  lemma {:induction false} SumOfOnes(w: seq<nat>, n: nat)
    requires n <= |w|
    ensures Sum(w, One, n) == n
  {
    if n > 0 {
      SumOfOnes(w, n - 1);
    }
  }

  /** The pointers count exactly the works they are meant to. */
  lemma PointersCount(w: seq<nat>, c: nat, k: nat, n1: nat, n12: nat)
    requires k <= c / 2 && Cut(w, n1, c - k) && Cut(w, n12, c / 2)
    ensures n1 == Sum(w, Huge(c, k), |w|)
    ensures n12 == Sum(w, Big(c), |w|)
  {
    SumBetween(w, Huge(c, k), One, 0, n1, |w|);
    SumBetween(w, Big(c), One, 0, n12, |w|);
    SumOfOnes(w, n1);
    SumOfOnes(w, n12);
  }

  lemma FreeIsBetween(w: seq<nat>, c: nat, k: nat, n1: nat, n12: nat)
    requires k <= c / 2 && Cut(w, n1, c - k) && Cut(w, n12, c / 2) && n1 <= n12
    ensures Sum(w, Free(c, k), |w|) + Sum(w, FreeWord(c), n1) == Sum(w, FreeWord(c), n12)
  {
    SumBetween(w, Free(c, k), FreeWord(c), n1, n12, |w|);
  }

  lemma SmallIsBetween(w: seq<nat>, c: nat, k: nat, n12: nat, n3: nat)
    requires Cut(w, n12, c / 2) && Tail(w, n12, n3, k)
    ensures Sum(w, Small(c, k), |w|) + Sum(w, Same, n12) == Sum(w, Same, n3)
  {
    SumBetween(w, Small(c, k), Same, n12, n3, |w|);
  }

  /** The pointers count, and the accumulators sum in words, exactly the works they are meant to. */
  lemma SweepMeans(w: seq<nat>, c: nat, k: nat, n1: nat, n12: nat, n3: nat, f2: nat, s3: nat)
    requires SweptTo(w, c, k, n1, n12, n3, f2, s3)
    ensures n1 == Sum(w, Huge(c, k), |w|)
    ensures n12 == Sum(w, Big(c), |w|)
    ensures f2 == Word(Sum(w, Free(c, k), |w|))
    ensures s3 == Word(Sum(w, Small(c, k), |w|))
  {
    PointersCount(w, c, k, n1, n12);
    FreeIsBetween(w, c, k, n1, n12);
    SmallIsBetween(w, c, k, n12, n3);
  }

  /** The two accumulators take up, or give back, one more work. */
  lemma FreeMore(w: seq<nat>, c: nat, n: nat, f2: nat)
    requires n < |w| && w[n] < WORD && f2 == Word(Sum(w, FreeWord(c), n))
    ensures Word(f2 + (c - w[n])) == Word(Sum(w, FreeWord(c), n + 1))
  {
    var x := Sum(w, FreeWord(c), n);
    WordAdd(x, c - w[n]);
    WordTurn(x + (c - w[n]));
  }

  lemma FreeLess(w: seq<nat>, c: nat, n1: nat, n12: nat, f2: nat)
    requires n1 < n12 <= |w| && w[n1] < WORD
    requires f2 == Word(Sum(w, FreeWord(c), n12) - Sum(w, FreeWord(c), n1))
    ensures Word(f2 - (c - w[n1])) == Word(Sum(w, FreeWord(c), n12) - Sum(w, FreeWord(c), n1 + 1))
  {
    var x := Sum(w, FreeWord(c), n12) - Sum(w, FreeWord(c), n1);
    WordAdd(x, w[n1] - c);
    WordTurn(x - (c - w[n1]) - WORD);
  }

  lemma SmallMore(w: seq<nat>, n12: nat, n3: nat, s3: nat)
    requires n12 <= n3 < |w| && s3 == Word(Sum(w, Same, n3) - Sum(w, Same, n12))
    ensures Word(s3 + w[n3]) == Word(Sum(w, Same, n3 + 1) - Sum(w, Same, n12))
  {
    WordAdd(Sum(w, Same, n3) - Sum(w, Same, n12), w[n3]);
  }

  lemma SmallLess(w: seq<nat>, n12: nat, n3: nat, s3: nat)
    requires n12 < n3 <= |w| && s3 == Word(Sum(w, Same, n3) - Sum(w, Same, n12))
    ensures Word(s3 - w[n3 - 1]) == Word(Sum(w, Same, n3 - 1) - Sum(w, Same, n12))
  {
    var x: int := w[n3 - 1];
    WordAdd(Sum(w, Same, n3) - Sum(w, Same, n12), 0 - x);
  }

  /** With no capacity there is no overspill, so that nothing is divided by zero. */
  lemma {:induction false} NoCapacityNoSmall(w: seq<nat>, n: nat)
    requires n <= |w|
    ensures Sum(w, Small(0, 0), n) == 0
  {
    if n > 0 {
      NoCapacityNoSmall(w, n - 1);
    }
  }

  // ----- the sweep -----------------------------------------------------------------------------

  /** Between two values of k: the pointers have not passed what the next k needs. */
  predicate Sweeping(w: seq<nat>, c: nat, k: nat, n1: nat, n12: nat, n3: nat, f2: nat, s3: nat) {
    && k <= c / 2 + 1 && n1 <= n12 <= n3 <= |w|
    && Cut(w, n12, c / 2)
    && (forall j :: 0 <= j < n1 ==> w[j] > c - k)
    && (forall j :: n3 <= j < |w| ==> w[j] < k)
    && f2 == Word(Sum(w, FreeWord(c), n12) - Sum(w, FreeWord(c), n1))
    && s3 == Word(Sum(w, Same, n3) - Sum(w, Same, n12))
  }

  /** What taking the value for k needs to know: the value taken, and that k + 1 can follow. */
  lemma TakeBound(w: seq<nat>, c: nat, k: nat, n1: nat, n12: nat, n3: nat, f2: nat, s3: nat)
    requires SweptTo(w, c, k, n1, n12, n3, f2, s3)
    ensures WordL2At(w, c, k) == Taken(n12, f2, s3, c)
    ensures c == 0 ==> s3 == 0
    ensures Sweeping(w, c, k + 1, n1, n12, n3, f2, s3)
  {
    SweepMeans(w, c, k, n1, n12, n3, f2, s3);
    if c == 0 {
      NoCapacityNoSmall(w, |w|);
    }
  }

  lemma SweepStarts(w: seq<nat>, c: nat, n12: nat, n3: nat, f2: nat, s3: nat)
    requires Cut(w, n12, c / 2) && f2 == Word(Sum(w, FreeWord(c), n12))
    requires n3 == |w| && s3 == Word(Sum(w, Same, n3) - Sum(w, Same, n12))
    ensures Sweeping(w, c, 0, 0, n12, n3, f2, s3)
  {
  }

  lemma WordL2Next(w: seq<nat>, c: nat, k: nat)
    ensures WordL2(w, c, k + 1) == Max(WordL2(w, c, k), WordL2At(w, c, k))
  {
  }

  /** get_L2_lower_bound_cpus, with c the upper bound on the makespan. */
  method L2LowerBoundCpus(w: seq<nat>, c: nat) returns (l: nat)
    requires SortedDown(w) && AllWords(w) && c < WORD
    ensures l == WordL2(w, c, c / 2 + 1)
  {
    l := 0;
    var n1 := 0;
    var n12, f2 := CountBig(w, c);
    var n3, s3 := SumOthers(w, n12);
    SweepStarts(w, c, n12, n3, f2, s3);
    var k := 0;
    while k <= c / 2
      invariant Sweeping(w, c, k, n1, n12, n3, f2, s3)
      invariant l == WordL2(w, c, k)
    {
      var bound;
      n1, n3, f2, s3, bound := BoundFor(w, c, k, n1, n12, n3, f2, s3);
      WordL2Next(w, c, k);
      l := Max(l, bound);
      k := k + 1;
    }
  }

  /** One round of the sweep: the value for k. */
  method BoundFor(w: seq<nat>, c: nat, k: nat, n1': nat, n12: nat, n3': nat, f2': nat, s3': nat)
      returns (n1: nat, n3: nat, f2: nat, s3: nat, bound: nat)
    requires SortedDown(w) && AllWords(w) && c < WORD && k <= c / 2
    requires Sweeping(w, c, k, n1', n12, n3', f2', s3')
    ensures Sweeping(w, c, k + 1, n1, n12, n3, f2, s3)
    ensures bound == WordL2At(w, c, k)
  {
    n1, n3, f2, s3 := MovePointers(w, c, k, n1', n12, n3', f2', s3');
    TakeBound(w, c, k, n1, n12, n3, f2, s3);
    var o := GetOverspill(f2, s3, c);
    bound := Word(n12 + o);
  }

  /** The two inner loops. */
  method MovePointers(w: seq<nat>, c: nat, k: nat, n1': nat, n12: nat, n3': nat, f2': nat, s3': nat)
      returns (n1: nat, n3: nat, f2: nat, s3: nat)
    requires SortedDown(w) && AllWords(w) && k <= c / 2
    requires Sweeping(w, c, k, n1', n12, n3', f2', s3')
    ensures SweptTo(w, c, k, n1, n12, n3, f2, s3)
  {
    n1, f2 := GrowN1(w, c, k, n1', n12, f2');
    n3, s3 := ShrinkN3(w, k, n12, n3', s3');
  }

  /** The expression for the overspill. */
  method GetOverspill(f2: nat, s3: nat, c: nat) returns (o: nat)
    requires c == 0 ==> s3 == 0
    ensures o == Overspill(f2, s3, c)
  {
    if s3 > f2 {
      var x := Word(s3 - f2 + c - 1);
      DivIsQuotient(x, c);
      o := x / c;
    } else {
      o := 0;
    }
  }

  /** The first loop before the sweep: the big works. */
  method CountBig(w: seq<nat>, c: nat) returns (n12: nat, f2: nat)
    requires SortedDown(w) && AllWords(w)
    ensures Cut(w, n12, c / 2) && f2 == Word(Sum(w, FreeWord(c), n12))
  {
    n12, f2 := 0, 0;
    while n12 < |w| && w[n12] > c / 2
      invariant 0 <= n12 <= |w| && f2 == Word(Sum(w, FreeWord(c), n12))
      invariant Above(w, n12, c / 2)
    {
      FreeMore(w, c, n12, f2);
      f2 := Word(f2 + (c - w[n12]));
      n12 := n12 + 1;
    }
    CutHere(w, n12, c / 2);
  }

  /** The second loop before the sweep: the others. */
  method SumOthers(w: seq<nat>, n12: nat) returns (n3: nat, s3: nat)
    requires n12 <= |w|
    ensures n3 == |w| && s3 == Word(Sum(w, Same, n3) - Sum(w, Same, n12))
  {
    n3, s3 := n12, 0;
    while n3 < |w|
      invariant n12 <= n3 <= |w| && s3 == Word(Sum(w, Same, n3) - Sum(w, Same, n12))
    {
      SmallMore(w, n12, n3, s3);
      s3 := Word(s3 + w[n3]);
      n3 := n3 + 1;
    }
  }

  /** A work above c - k is a big one. */
  lemma BigHere(w: seq<nat>, c: nat, k: nat, n1: nat, n12: nat)
    requires k <= c / 2 && n1 < |w| && Above(w, n1, c - k) && w[n1] > c - k && Cut(w, n12, c / 2)
    ensures n1 < n12 && Above(w, n1 + 1, c - k)
  {
  }

  /** The first inner loop: works above c - k leave N2 for N1. */
  method GrowN1(w: seq<nat>, c: nat, k: nat, n1': nat, n12: nat, f2': nat) returns (n1: nat, f2: nat)
    requires SortedDown(w) && AllWords(w) && k <= c / 2 && n1' <= n12 && Cut(w, n12, c / 2)
    requires forall j :: 0 <= j < n1' ==> w[j] > c - k
    requires f2' == Word(Sum(w, FreeWord(c), n12) - Sum(w, FreeWord(c), n1'))
    ensures Cut(w, n1, c - k) && n1 <= n12
    ensures f2 == Word(Sum(w, FreeWord(c), n12) - Sum(w, FreeWord(c), n1))
  {
    n1, f2 := n1', f2';
    while n1 < |w| && w[n1] > c - k
      invariant n1 <= n12 && Above(w, n1, c - k)
      invariant f2 == Word(Sum(w, FreeWord(c), n12) - Sum(w, FreeWord(c), n1))
      decreases |w| - n1
    {
      BigHere(w, c, k, n1, n12);
      FreeLess(w, c, n1, n12, f2);
      f2 := Word(f2 - (c - w[n1]));
      n1 := n1 + 1;
    }
    CutHere(w, n1, c - k);
  }

  /** The second inner loop: works below k leave N3. */
  method ShrinkN3(w: seq<nat>, k: nat, n12: nat, n3': nat, s3': nat) returns (n3: nat, s3: nat)
    requires SortedDown(w) && n12 <= n3' && Below(w, n3', k)
    requires s3' == Word(Sum(w, Same, n3') - Sum(w, Same, n12))
    ensures Tail(w, n12, n3, k)
    ensures s3 == Word(Sum(w, Same, n3) - Sum(w, Same, n12))
  {
    n3, s3 := n3', s3';
    while n3 > 0 && w[n3 - 1] < k && n3 > n12
      invariant n12 <= n3 <= |w| && Below(w, n3, k)
      invariant s3 == Word(Sum(w, Same, n3) - Sum(w, Same, n12))
    {
      SmallLess(w, n12, n3, s3);
      s3 := Word(s3 - w[n3 - 1]);
      n3 := n3 - 1;
    }
    TailHere(w, n12, n3, k);
  }

  // ----- the sweep against the bound ----------------------------------------------------------

  /** What is free beside the big works, and the small works, leave room for the big ones. */
  lemma {:induction false} PartsBelow(w: seq<nat>, c: nat, k: nat, n: nat)
    requires n <= |w|
    ensures Sum(w, Free(c, k), n) + Sum(w, Big(c), n) <= Sum(w, Same, n)
    ensures Sum(w, Small(c, k), n) + Sum(w, Big(c), n) <= Sum(w, Same, n)
  {
    if n > 0 {
      PartsBelow(w, c, k, n - 1);
    }
  }

  lemma {:induction false} CeilDivBelow(x: nat, c: nat)
    requires c > 0
    ensures CeilDiv(x, c) <= x
  {
    if x > c {
      CeilDivBelow(x - c, c);
    }
  }

  /** Rounding up by division is counting the capacities begun. */
  lemma {:induction false} RoundingUp(x: nat, c: nat)
    requires c > 0
    ensures Div(x + c - 1, c) == CeilDiv(x, c)
  {
    if x > c {
      RoundingUp(x - c, c);
    }
  }

  /** The rounding wraps to nothing, or is exact. */
  lemma WordCeilDivMeans(x: nat, c: nat)
    requires 0 < c < WORD && 0 < x < WORD
    ensures WordCeilDiv(x, c) == if x + c - 1 < WORD then CeilDiv(x, c) else 0
    ensures CeilDiv(x, c) > 0
  {
    var y := x + c - 1;
    if y >= WORD {
      assert Word(y) == y - WORD < c;
    } else {
      RoundingUp(x, c);
    }
  }

  /** Where the total work fits a word, nothing but the rounding can wrap. */
  lemma OnlyRoundingWraps(w: seq<nat>, c: nat, k: nat)
    requires 0 < c < WORD && Total(w) < WORD
    ensures var f2, s3 := Sum(w, Free(c, k), |w|), Sum(w, Small(c, k), |w|);
      && f2 < WORD && s3 < WORD
      && WordL2At(w, c, k) == Sum(w, Big(c), |w|) + (if s3 > f2 then WordCeilDiv(s3 - f2, c) else 0) < WORD
  {
    PartsBelow(w, c, k, |w|);
    var f2, s3 := Sum(w, Free(c, k), |w|), Sum(w, Small(c, k), |w|);
    if s3 > f2 {
      WordCeilDivMeans(s3 - f2, c);
      CeilDivBelow(s3 - f2, c);
    }
  }

  /** The rounding of the overspill for k does not wrap. */
  predicate Rounds(w: seq<nat>, c: nat, k: nat) {
    || Sum(w, Small(c, k), |w|) <= Sum(w, Free(c, k), |w|)
    || Sum(w, Small(c, k), |w|) - Sum(w, Free(c, k), |w|) + c <= WORD
  }

  /** For one k: never above the bound, and equal to it exactly when the rounding does not wrap. */
  lemma WordL2AtExactly(w: seq<nat>, c: nat, k: nat)
    requires 0 < c < WORD && Total(w) < WORD
    ensures WordL2At(w, c, k) <= L2At(w, c, k)
    ensures WordL2At(w, c, k) == L2At(w, c, k) <==> Rounds(w, c, k)
  {
    OnlyRoundingWraps(w, c, k);
    var f2, s3 := Sum(w, Free(c, k), |w|), Sum(w, Small(c, k), |w|);
    if s3 > f2 {
      WordCeilDivMeans(s3 - f2, c);
    }
  }

  /** The swept value never exceeds the bound. */
  lemma {:induction false} WordL2Below(w: seq<nat>, c: nat, n: nat)
    requires 0 < c < WORD && Total(w) < WORD
    ensures WordL2(w, c, n) <= L2(w, c, n)
  {
    if n > 0 {
      WordL2AtExactly(w, c, n - 1);
      WordL2Below(w, c, n - 1);
    }
  }

  lemma {:induction false} WordL2Attained(w: seq<nat>, c: nat, n: nat) returns (k: nat)
    requires n > 0
    ensures k < n && WordL2At(w, c, k) == WordL2(w, c, n)
  {
    k := n - 1;
    if n > 1 && WordL2(w, c, n - 1) > WordL2At(w, c, n - 1) {
      k := WordL2Attained(w, c, n - 1);
    }
  }

  lemma {:induction false} ValuesBelow(w: seq<nat>, c: nat, k: nat, n: nat)
    requires k < n && c > 0
    ensures WordL2At(w, c, k) <= WordL2(w, c, n) && L2At(w, c, k) <= L2(w, c, n)
  {
    if k < n - 1 {
      ValuesBelow(w, c, k, n - 1);
    }
  }

  /**
  The swept value is the bound exactly when some k gives the bound without wrapping; a caller
  can be sure of it when work and capacity together fit a word.
  */
  lemma WordL2Exactly(w: seq<nat>, c: nat, n: nat)
    requires 0 < c < WORD && Total(w) < WORD && n > 0
    ensures WordL2(w, c, n) == L2(w, c, n) <==>
            exists k: nat :: k < n && Rounds(w, c, k) && L2At(w, c, k) == L2(w, c, n)
    ensures Total(w) + c <= WORD ==> WordL2(w, c, n) == L2(w, c, n)
  {
    WordL2Below(w, c, n);
    if WordL2(w, c, n) == L2(w, c, n) {
      var k := WordL2Attained(w, c, n);
      ValuesBelow(w, c, k, n);
      WordL2AtExactly(w, c, k);
    }
    if k: nat :| k < n && Rounds(w, c, k) && L2At(w, c, k) == L2(w, c, n) {
      WordL2AtExactly(w, c, k);
      ValuesBelow(w, c, k, n);
    }
    if Total(w) + c <= WORD {
      var k := L2Attained(w, c, n);
      PartsBelow(w, c, k, |w|);
      assert Rounds(w, c, k);
    }
  }

  lemma {:induction false} L2Attained(w: seq<nat>, c: nat, n: nat) returns (k: nat)
    requires n > 0 && c > 0
    ensures k < n && L2At(w, c, k) == L2(w, c, n)
  {
    k := n - 1;
    if n > 1 && L2(w, c, n - 1) > L2At(w, c, n - 1) {
      k := L2Attained(w, c, n - 1);
    }
  }

  /** Any assignment within a makespan up to c uses at least the swept number of bins. */
  lemma SweptBoundIsLowerBound(w: seq<nat>, a: seq<nat>, m: nat, c: nat, t: nat)
    requires Assigns(w, a, m) && Fits(w, a, t) && t <= c && 0 < c < WORD && Total(w) < WORD
    ensures WordL2(w, c, c / 2 + 1) <= Used(w, a, m)
  {
    WordL2Below(w, c, c / 2 + 1);
    L2IsLowerBound(w, a, m, c, t, c / 2 + 1);
  }

  // ----- an input that loses the bound ---------------------------------------------------------

  /** Two CPUs sharing almost a word of work, about half each: the rounding always wraps. */
  const WRAPPING: seq<nat> := [WORD / 4, WORD / 4, WORD / 4, WORD / 4 - 2]
  const WRAPPING_CAPACITY: nat := WORD / 2 + 1

  lemma SumOfFour(w: seq<nat>, f: nat -> nat)
    requires |w| == 4
    ensures Sum(w, f, 4) == f(w[0]) + f(w[1]) + f(w[2]) + f(w[3])
  {
    assert Sum(w, f, 1) == f(w[0]);
    assert Sum(w, f, 2) == f(w[0]) + f(w[1]);
    assert Sum(w, f, 3) == f(w[0]) + f(w[1]) + f(w[2]);
  }

  lemma WrappingSums(k: nat)
    requires k <= WRAPPING_CAPACITY / 2
    ensures Sum(WRAPPING, Big(WRAPPING_CAPACITY), 4) == Sum(WRAPPING, Free(WRAPPING_CAPACITY, k), 4) == 0
    ensures Sum(WRAPPING, Small(WRAPPING_CAPACITY, k), 4) == if k < WORD / 4 - 1 then WORD - 2 else 3 * (WORD / 4)
    ensures Total(WRAPPING) == WORD - 2
  {
    SumOfFour(WRAPPING, Big(WRAPPING_CAPACITY));
    SumOfFour(WRAPPING, Free(WRAPPING_CAPACITY, k));
    SumOfFour(WRAPPING, Small(WRAPPING_CAPACITY, k));
    SumOfFour(WRAPPING, Same);
  }

  lemma WrappingRounds(x: nat)
    requires x == WORD - 2 || x == 3 * (WORD / 4)
    ensures WordCeilDiv(x, WRAPPING_CAPACITY) == 0
    ensures CeilDiv(x, WRAPPING_CAPACITY) == 2
  {
    WordCeilDivMeans(x, WRAPPING_CAPACITY);
    assert CeilDiv(x - WRAPPING_CAPACITY, WRAPPING_CAPACITY) == 1 + CeilDiv(0, WRAPPING_CAPACITY);
  }

  lemma WrappingAt(k: nat)
    requires k <= WRAPPING_CAPACITY / 2
    ensures WordL2At(WRAPPING, WRAPPING_CAPACITY, k) == 0
    ensures L2At(WRAPPING, WRAPPING_CAPACITY, k) == 2
  {
    WrappingSums(k);
    WrappingRounds(Sum(WRAPPING, Small(WRAPPING_CAPACITY, k), 4));
  }

  /** An input whose swept value is 0 although the bound is 2. */
  lemma {:induction false} WrapLosesBound(n: nat)
    requires 0 < n <= WRAPPING_CAPACITY / 2 + 1
    ensures WordL2(WRAPPING, WRAPPING_CAPACITY, n) == 0
    ensures L2(WRAPPING, WRAPPING_CAPACITY, n) == 2
  {
    WrappingAt(n - 1);
    if n > 1 {
      WrapLosesBound(n - 1);
    }
  }
}
