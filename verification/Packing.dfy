/**
Assignments of loop chunks to bins (CPUs), and what bounds them. Works are listed in the
order of the chunks; an assignment gives the bin of every chunk, below some bound m.
*/
module Packing {
  import opened Wrappers

  /** Sum of f over the first n works. */
  function Sum(w: seq<nat>, f: nat -> nat, n: nat): nat
    requires n <= |w|
  {
    if n == 0 then 0 else Sum(w, f, n - 1) + f(w[n - 1])
  }

  lemma {:induction false} SumMonotone(w: seq<nat>, f: nat -> nat, i: nat, n: nat)
    requires i <= n <= |w|
    ensures Sum(w, f, i) <= Sum(w, f, n)
  {
    if i < n {
      SumMonotone(w, f, i, n - 1);
    }
  }

  /** Sum of f over those of the first n works that are in bin b. */
  function BinSum(w: seq<nat>, a: seq<nat>, b: nat, f: nat -> nat, n: nat): nat
    requires n <= |w| == |a|
  {
    if n == 0 then 0
    else BinSum(w, a, b, f, n - 1) + (if a[n - 1] == b then f(w[n - 1]) else 0)
  }

  /** Sum of f over those of the first n works that are in the first m bins. */
  function BinsSum(w: seq<nat>, a: seq<nat>, m: nat, f: nat -> nat, n: nat): nat
    requires n <= |w| == |a|
  {
    if m == 0 then 0 else BinsSum(w, a, m - 1, f, n) + BinSum(w, a, m - 1, f, n)
  }

  function Same(x: nat): nat { x }

  function Total(w: seq<nat>): nat {
    Sum(w, Same, |w|)
  }

  /** Work placed in bin b by the first n chunks. */
  function LoadTo(w: seq<nat>, a: seq<nat>, b: nat, n: nat): nat
    requires n <= |w| == |a|
  {
    BinSum(w, a, b, Same, n)
  }

  function Load(w: seq<nat>, a: seq<nat>, b: nat): nat
    requires |w| == |a|
  {
    LoadTo(w, a, b, |w|)
  }

  /** How many of the first m bins carry work. */
  function Used(w: seq<nat>, a: seq<nat>, m: nat): nat
    requires |w| == |a|
  {
    if m == 0 then 0 else Used(w, a, m - 1) + (if Load(w, a, m - 1) > 0 then 1 else 0)
  }

  predicate Assigns(w: seq<nat>, a: seq<nat>, m: nat) {
    |a| == |w| && forall i :: 0 <= i < |a| ==> a[i] < m
  }

  /** No bin carries more than t. */
  ghost predicate Fits(w: seq<nat>, a: seq<nat>, t: nat) {
    |a| == |w| && forall b: nat :: Load(w, a, b) <= t
  }

  predicate SortedDown(w: seq<nat>) {
    forall i, j :: 0 <= i < j < |w| ==> w[i] >= w[j]
  }

  // ----- exchanging the sums over bins and over works ------------------------------------

  lemma {:induction false} BinsSumStep(w: seq<nat>, a: seq<nat>, m: nat, f: nat -> nat, n: nat)
    requires 0 < n <= |w| == |a|
    ensures BinsSum(w, a, m, f, n) == BinsSum(w, a, m, f, n - 1) + (if a[n - 1] < m then f(w[n - 1]) else 0)
  {
    if m > 0 {
      BinsSumStep(w, a, m - 1, f, n);
    }
  }

  lemma {:induction false} BinsSumEmpty(w: seq<nat>, a: seq<nat>, m: nat, f: nat -> nat)
    requires |w| == |a|
    ensures BinsSum(w, a, m, f, 0) == 0
  {
    if m > 0 {
      BinsSumEmpty(w, a, m - 1, f);
    }
  }

  lemma {:induction false} BinsPartition(w: seq<nat>, a: seq<nat>, m: nat, f: nat -> nat, n: nat)
    requires Assigns(w, a, m) && n <= |w|
    ensures BinsSum(w, a, m, f, n) == Sum(w, f, n)
  {
    if n == 0 {
      BinsSumEmpty(w, a, m, f);
    } else {
      BinsSumStep(w, a, m, f, n);
      BinsPartition(w, a, m, f, n - 1);
    }
  }

  lemma {:induction false} LoadGrows(w: seq<nat>, a: seq<nat>, b: nat, i: nat, n: nat)
    requires i <= n <= |w| == |a|
    ensures LoadTo(w, a, b, i) <= LoadTo(w, a, b, n)
  {
    if i < n {
      LoadGrows(w, a, b, i, n - 1);
    }
  }

  /** A bin carries at least each of its works, and at least any two of them together. */
  lemma LoadHolds(w: seq<nat>, a: seq<nat>, i: nat)
    requires |w| == |a| && i < |w|
    ensures Load(w, a, a[i]) >= w[i]
  {
    LoadGrows(w, a, a[i], i + 1, |w|);
  }

  lemma LoadHoldsTwo(w: seq<nat>, a: seq<nat>, i: nat, j: nat)
    requires |w| == |a| && i < j < |w| && a[i] == a[j]
    ensures Load(w, a, a[i]) >= w[i] + w[j]
  {
    LoadGrows(w, a, a[i], i + 1, j);
    LoadGrows(w, a, a[i], j + 1, |w|);
  }

  lemma {:induction false} LoadPositive(w: seq<nat>, a: seq<nat>, b: nat, n: nat)
    requires n <= |w| == |a| && LoadTo(w, a, b, n) > 0
    ensures exists i :: 0 <= i < n && a[i] == b && w[i] > 0
  {
    if !(a[n - 1] == b && w[n - 1] > 0) {
      LoadPositive(w, a, b, n - 1);
    }
  }

  lemma {:induction false} EmptyBin(w: seq<nat>, a: seq<nat>, m: nat, b: nat, n: nat)
    requires Assigns(w, a, m) && m <= b && n <= |w|
    ensures LoadTo(w, a, b, n) == 0
  {
    if n > 0 {
      EmptyBin(w, a, m, b, n - 1);
    }
  }

  lemma {:induction false} UsedAtMost(w: seq<nat>, a: seq<nat>, m: nat)
    requires |w| == |a|
    ensures Used(w, a, m) <= m
  {
    if m > 0 {
      UsedAtMost(w, a, m - 1);
    }
  }

  // ----- the Martello-Toth bound ----------------------------------------------------------

  /** 1 for the works that need a bin of their own: more than half the capacity. */
  function Big(c: nat): nat -> nat {
    x => if x > c / 2 then 1 else 0
  }

  /** 1 for the works that leave less than k free. */
  function Huge(c: nat, k: nat): nat -> nat {
    x => if x > c - k then 1 else 0
  }

  /** What a big work leaves free, if that is at least k. */
  function Free(c: nat, k: nat): nat -> nat {
    x => if c / 2 < x <= c - k then c - x else 0
  }

  /** The works of at least k that are not big. */
  function Small(c: nat, k: nat): nat -> nat {
    x => if k <= x <= c / 2 then x else 0
  }

  /** How many bins of capacity c hold x: one for each capacity begun. */
  function CeilDiv(x: nat, c: nat): nat
    requires c > 0
  {
    if x == 0 then 0 else 1 + CeilDiv(if x > c then x - c else 0, c)
  }

  /** The bound for one k, as a statement about the works alone. */
  function L2At(w: seq<nat>, c: nat, k: nat): nat
    requires c > 0
  {
    var f2, s3 := Sum(w, Free(c, k), |w|), Sum(w, Small(c, k), |w|);
    Sum(w, Big(c), |w|) + (if s3 > f2 then CeilDiv(s3 - f2, c) else 0)
  }

  /** The largest of the bounds for k below n. */
  function L2(w: seq<nat>, c: nat, n: nat): nat
    requires c > 0
  {
    if n == 0 then 0 else Max(L2(w, c, n - 1), L2At(w, c, n - 1))
  }

  /** What the works of one bin can be, when the bin does not overflow. */
  predicate BinShape(c: nat, k: nat, load: nat, big: nat, bigWork: nat, free: nat, small: nat) {
    && load >= bigWork + small
    && (small == 0 || small >= k)
    && (big == 0 ==> bigWork == 0 && free == 0)
    && (big == 1 ==> bigWork > c / 2 && free == (if bigWork <= c - k then c - bigWork else 0))
    && (big >= 2 ==> bigWork > c)
  }

  /** The work of the big chunks. */
  function BigWork(c: nat): nat -> nat {
    x => if x > c / 2 then x else 0
  }

  lemma {:induction false} BinShapes(w: seq<nat>, a: seq<nat>, b: nat, c: nat, k: nat, n: nat)
    requires n <= |w| == |a| && c > 0 && k <= c / 2
    ensures BinShape(c, k, LoadTo(w, a, b, n), BinSum(w, a, b, Big(c), n), BinSum(w, a, b, BigWork(c), n),
              BinSum(w, a, b, Free(c, k), n), BinSum(w, a, b, Small(c, k), n))
  {
    if n > 0 {
      BinShapes(w, a, b, c, k, n - 1);
    }
  }

  /** One bin: its small works fit beside its big work, or into the bin. */
  lemma OneBin(c: nat, k: nat, load: nat, big: nat, bigWork: nat, free: nat, small: nat)
    requires BinShape(c, k, load, big, bigWork, free, small) && load <= c && k <= c / 2
    ensures big <= (if load > 0 then 1 else 0)
    ensures small + c * big <= free + c * (if load > 0 then 1 else 0)
  {
    assert big < 2;
    assert c * 1 == c && c * 0 == 0;
  }

  lemma AddBalances(c: nat, s: nat, g: nat, f: nat, u: nat, s1: nat, g1: nat, f1: nat, u1: nat)
    requires s + c * g <= f + c * u && s1 + c * g1 <= f1 + c * u1
    ensures (s + s1) + c * (g + g1) <= (f + f1) + c * (u + u1)
  {
    assert c * (g + g1) == c * g + c * g1;
    assert c * (u + u1) == c * u + c * u1;
  }

  /** Summed over the bins: the small works fit into the free space and the other bins. */
  lemma {:induction false} BinsBalance(w: seq<nat>, a: seq<nat>, c: nat, k: nat, m: nat)
    requires Fits(w, a, c) && c > 0 && k <= c / 2
    ensures BinsSum(w, a, m, Small(c, k), |w|) + c * BinsSum(w, a, m, Big(c), |w|)
            <= BinsSum(w, a, m, Free(c, k), |w|) + c * Used(w, a, m)
    ensures BinsSum(w, a, m, Big(c), |w|) <= Used(w, a, m)
  {
    if m > 0 {
      BinsBalance(w, a, c, k, m - 1);
      var b, n := m - 1, |w|;
      var big, free := BinSum(w, a, b, Big(c), n), BinSum(w, a, b, Free(c, k), n);
      var small := BinSum(w, a, b, Small(c, k), n);
      var load := Load(w, a, b);
      BinShapes(w, a, b, c, k, n);
      OneBin(c, k, load, big, BinSum(w, a, b, BigWork(c), n), free, small);
      AddBalances(c, BinsSum(w, a, b, Small(c, k), n), BinsSum(w, a, b, Big(c), n),
        BinsSum(w, a, b, Free(c, k), n), Used(w, a, b), small, big, free, if load > 0 then 1 else 0);
    }
  }

  lemma {:induction false} CeilDivLeast(x: nat, c: nat, u: nat)
    requires c > 0 && x <= c * u
    ensures CeilDiv(x, c) <= u
  {
    if x > 0 {
      assert u > 0 && c * (u - 1) == c * u - c;
      CeilDivLeast(if x > c then x - c else 0, c, u - 1);
    }
  }

  /** Every packing that fits uses at least as many bins as the bound for any k says. */
  lemma L2AtIsLowerBound(w: seq<nat>, a: seq<nat>, m: nat, c: nat, k: nat)
    requires Assigns(w, a, m) && Fits(w, a, c) && c > 0 && k <= c / 2
    ensures L2At(w, c, k) <= Used(w, a, m)
  {
    BinsBalance(w, a, c, k, m);
    BinsPartition(w, a, m, Small(c, k), |w|);
    BinsPartition(w, a, m, Free(c, k), |w|);
    BinsPartition(w, a, m, Big(c), |w|);
    OverspillFits(c, Sum(w, Small(c, k), |w|), Sum(w, Big(c), |w|), Sum(w, Free(c, k), |w|), Used(w, a, m));
  }

  lemma OverspillFits(c: nat, s3: nat, n12: nat, f2: nat, u: nat)
    requires c > 0 && s3 + c * n12 <= f2 + c * u && n12 <= u
    ensures n12 + (if s3 > f2 then CeilDiv(s3 - f2, c) else 0) <= u
  {
    if s3 > f2 {
      assert c * (u - n12) == c * u - c * n12;
      CeilDivLeast(s3 - f2, c, u - n12);
    }
  }

  /**
  The Martello-Toth bound: every assignment whose bins carry at most t, for any t up to
  the capacity c, uses at least L2 bins.
  */
  lemma {:induction false} L2IsLowerBound(w: seq<nat>, a: seq<nat>, m: nat, c: nat, t: nat, n: nat)
    requires Assigns(w, a, m) && Fits(w, a, t) && t <= c && c > 0 && n <= c / 2 + 1
    ensures L2(w, c, n) <= Used(w, a, m)
  {
    if n > 0 {
      FitsMore(w, a, t, c);
      L2AtIsLowerBound(w, a, m, c, n - 1);
      L2IsLowerBound(w, a, m, c, t, n - 1);
    }
  }

  lemma FitsMore(w: seq<nat>, a: seq<nat>, t: nat, c: nat)
    requires Fits(w, a, t) && t <= c
    ensures Fits(w, a, c)
  {
    forall b: nat
      ensures Load(w, a, b) <= c
    {
      assert Load(w, a, b) <= t;
    }
  }
}
