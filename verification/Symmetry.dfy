/**
The constraints that class BinPacking of scripts/profiling/task/for-loop/mir_loop_scheduler.cpp
posts for one trial makespan, and why the ones that break symmetries lose nothing: every
packing can be turned into one that satisfies them all and uses as many bins.
*/
module Symmetry {
  import opened Wrappers
  import opened Packing
  import opened L2Sweep

  const INT_MAX := 0x7FFF_FFFF

  /** The upper end of the domain of a load. */
  function Cap(t: nat): nat {
    if t < INT_MAX then t else INT_MAX
  }

  /** The first item that does not need a bin of its own because of its own size. */
  function OwnBins(w: seq<nat>, m: nat, t: nat, i: nat): nat
    decreases |w| - i
  {
    if i < |w| && i < m && (w[i] * 2) % WORD > t then OwnBins(w, m, t, i + 1) else i
  }

  /** How many items are forced to the bin of their own number. */
  function ForcedItems(w: seq<nat>, m: nat, t: nat): nat {
    var i := OwnBins(w, m, t, 0);
    if 0 < i < |w| && i < m && (w[i - 1] + w[i]) % WORD > t then i + 1 else i
  }

  predicate EqualOrdered(w: seq<nat>, a: seq<nat>)
    requires |w| == |a|
  {
    forall i :: 1 <= i < |w| ==> PairOrdered(w, a, i)
  }

  /** Item i and the one before it, if they are equal. */
  predicate PairOrdered(w: seq<nat>, a: seq<nat>, i: nat)
    requires 1 <= i < |w| == |a|
  {
    w[i - 1] == w[i] ==> a[i - 1] <= a[i]
  }

  predicate Forced(a: seq<nat>, p: nat) {
    p <= |a| && forall i :: 0 <= i < p ==> a[i] == i
  }

  /** Bin j, from lb on, is empty exactly when at most j bins are used. */
  predicate ExcessEmpty(w: seq<nat>, a: seq<nat>, m: nat, lb: nat, bins: nat)
    requires |w| == |a|
  {
    forall j: nat :: lb <= j < m ==> ((bins < j + 1) == (Load(w, a, j) == 0))
  }

  /** All the constraints: a solution is an assignment of items and a number of bins. */
  predicate Posted(w: seq<nat>, m: nat, t: nat, lb: nat, a: seq<nat>, bins: nat) {
    && Assigns(w, a, m)
    && (forall j: nat :: j < m ==> Load(w, a, j) <= Cap(t))
    && lb <= bins <= m
    && EqualOrdered(w, a)
    && Forced(a, ForcedItems(w, m, t))
    && ExcessEmpty(w, a, m, lb, bins)
  }

  // ----- forced items cannot share ------------------------------------------------------------

  /** No two of the first p items fit into one bin. */
  predicate NoSharing(w: seq<nat>, t: nat, p: nat) {
    p <= |w| && forall j, k :: 0 <= j < k < p ==> w[j] + w[k] > t
  }

  lemma {:induction false} OwnBinsAreBig(w: seq<nat>, m: nat, t: nat, i: nat)
    requires i <= |w| && i <= m && forall k :: 0 <= k < i ==> w[k] * 2 > t
    ensures i <= OwnBins(w, m, t, i) <= |w| && OwnBins(w, m, t, i) <= m
    ensures forall k :: 0 <= k < OwnBins(w, m, t, i) ==> w[k] * 2 > t
    decreases |w| - i
  {
    if i < |w| && i < m && (w[i] * 2) % WORD > t {
      WordBelow(w[i] * 2);
      OwnBinsAreBig(w, m, t, i + 1);
    }
  }

  lemma WordBelow(x: nat)
    ensures x % WORD <= x
  {
  }

  lemma ForcedDoNotShare(w: seq<nat>, m: nat, t: nat)
    requires SortedDown(w)
    ensures NoSharing(w, t, ForcedItems(w, m, t)) && ForcedItems(w, m, t) <= m
  {
    OwnBinsAreBig(w, m, t, 0);
    var i := OwnBins(w, m, t, 0);
    if 0 < i < |w| {
      WordBelow(w[i - 1] + w[i]);
    }
  }

  // ----- exchanging two bins --------------------------------------------------------------------

  function Other(b: nat, x: nat, y: nat): nat {
    if b == x then y else if b == y then x else b
  }

  function SwapBins(a: seq<nat>, x: nat, y: nat): (a': seq<nat>)
    ensures |a'| == |a|
  {
    seq(|a|, i requires 0 <= i < |a| => Other(a[i], x, y))
  }

  lemma {:induction false} SwapBinsLoad(w: seq<nat>, a: seq<nat>, x: nat, y: nat, b: nat, n: nat)
    requires n <= |w| == |a|
    ensures LoadTo(w, SwapBins(a, x, y), b, n) == LoadTo(w, a, Other(b, x, y), n)
  {
    if n > 0 {
      SwapBinsLoad(w, a, x, y, b, n - 1);
    }
  }

  function Carries(w: seq<nat>, a: seq<nat>, b: nat): nat
    requires |w| == |a|
  {
    if Load(w, a, b) > 0 then 1 else 0
  }

  /** Counting used bins upwards, the exchange shows between x and y only. */
  lemma {:induction false} SwapBinsUsed(w: seq<nat>, a: seq<nat>, x: nat, y: nat, m: nat)
    requires |w| == |a| && x < y
    ensures m <= x || m > y ==> Used(w, SwapBins(a, x, y), m) == Used(w, a, m)
    ensures x < m <= y ==>
      Used(w, SwapBins(a, x, y), m) + Carries(w, a, x) == Used(w, a, m) + Carries(w, a, y)
  {
    if m > 0 {
      SwapBinsUsed(w, a, x, y, m - 1);
      SwapBinsLoad(w, a, x, y, m - 1, |w|);
    }
  }

  lemma SwapBinsKeeps(w: seq<nat>, a: seq<nat>, x: nat, y: nat, m: nat, t: nat)
    requires Assigns(w, a, m) && Fits(w, a, t) && x < y < m
    ensures Assigns(w, SwapBins(a, x, y), m) && Fits(w, SwapBins(a, x, y), t)
    ensures Used(w, SwapBins(a, x, y), m) == Used(w, a, m)
  {
    SwapBinsUsed(w, a, x, y, m);
    forall b: nat
      ensures Load(w, SwapBins(a, x, y), b) <= t
    {
      SwapBinsLoad(w, a, x, y, b, |w|);
      assert Load(w, a, Other(b, x, y)) <= t;
    }
  }

  // ----- numbering bins by first appearance -------------------------------------------------------

  /** One more than the largest bin of the first n items. */
  function Top(a: seq<nat>, n: nat): nat
    requires n <= |a|
  {
    if n == 0 then 0 else Max(Top(a, n - 1), a[n - 1] + 1)
  }

  predicate InOrder(a: seq<nat>, i: nat)
    requires i < |a|
  {
    a[i] <= Top(a, i)
  }

  /** Each of the first n items is in a bin already opened, or opens the next. */
  predicate Numbered(a: seq<nat>, n: nat) {
    n <= |a| && forall i :: 0 <= i < n ==> InOrder(a, i)
  }

  lemma {:induction false} TopBelow(a: seq<nat>, n: nat, m: nat)
    requires n <= |a| && forall i :: 0 <= i < n ==> a[i] < m
    ensures Top(a, n) <= m
  {
    if n > 0 {
      TopBelow(a, n - 1, m);
    }
  }

  lemma {:induction false} TopAbove(a: seq<nat>, n: nat)
    requires n <= |a|
    ensures forall i :: 0 <= i < n ==> a[i] < Top(a, n)
  {
    if n > 0 {
      TopAbove(a, n - 1);
    }
  }

  lemma {:induction false} TopSame(a: seq<nat>, a': seq<nat>, n: nat)
    requires n <= |a| && n <= |a'| && forall i :: 0 <= i < n ==> a[i] == a'[i]
    ensures Top(a, n) == Top(a', n)
  {
    if n > 0 {
      TopSame(a, a', n - 1);
    }
  }

  /** Exchanging bins not yet opened leaves the numbering so far. */
  lemma SwapKeepsNumbered(a: seq<nat>, x: nat, y: nat, n: nat)
    requires Numbered(a, n) && Top(a, n) <= x && Top(a, n) <= y
    ensures Numbered(SwapBins(a, x, y), n) && Top(SwapBins(a, x, y), n) == Top(a, n)
  {
    TopAbove(a, n);
    var b := SwapBins(a, x, y);
    TopSame(a, b, n);
    forall i | 0 <= i < n
      ensures InOrder(b, i)
    {
      assert InOrder(a, i);
      TopSame(a, b, i);
    }
  }

  lemma NumberNext(w: seq<nat>, a: seq<nat>, m: nat, t: nat, n: nat) returns (b: seq<nat>)
    requires Assigns(w, a, m) && Fits(w, a, t) && n < |w| && Numbered(a, n)
    ensures Assigns(w, b, m) && Fits(w, b, t) && Used(w, b, m) == Used(w, a, m)
    ensures Numbered(b, n + 1)
  {
    var x, y := Top(a, n), a[n];
    b := a;
    if y > x {
      SwapBinsKeeps(w, a, x, y, m, t);
      SwapKeepsNumbered(a, x, y, n);
      b := SwapBins(a, x, y);
    }
    assert InOrder(b, n);
  }

  /** Every packing can be renumbered by first appearance. */
  lemma {:induction false} Number(w: seq<nat>, a: seq<nat>, m: nat, t: nat, n: nat) returns (b: seq<nat>)
    requires Assigns(w, a, m) && Fits(w, a, t) && n <= |w|
    ensures Assigns(w, b, m) && Fits(w, b, t) && Used(w, b, m) == Used(w, a, m)
    ensures Numbered(b, n)
  {
    b := a;
    if n > 0 {
      b := Number(w, a, m, t, n - 1);
      b := NumberNext(w, b, m, t, n - 1);
    }
  }

  /** Numbered items that cannot share have the numbers of their bins. */
  lemma {:induction false} NumberedForced(w: seq<nat>, a: seq<nat>, t: nat, p: nat)
    requires |w| == |a| && Fits(w, a, t) && NoSharing(w, t, p) && Numbered(a, p)
    ensures Forced(a, p) && Top(a, p) == p
  {
    if p > 0 {
      NumberedForced(w, a, t, p - 1);
      var b := a[p - 1];
      assert InOrder(a, p - 1) && Load(w, a, b) <= t;
      if b < p - 1 {
        LoadHoldsTwo(w, a, b, p - 1);
      }
    }
  }

  /** Below an opened bin all bins were opened earlier. */
  lemma {:induction false} OpenedBefore(a: seq<nat>, n: nat, b: nat) returns (i: nat)
    requires Numbered(a, n) && b < Top(a, n)
    ensures i < n && a[i] == b
  {
    assert InOrder(a, n - 1);
    if b < Top(a, n - 1) {
      i := OpenedBefore(a, n - 1, b);
    } else {
      i := n - 1;
    }
  }

  /** The bins that carry work are the first ones. */
  ghost predicate WorkFirst(w: seq<nat>, a: seq<nat>) {
    |w| == |a| && forall b: nat, b': nat :: b < b' && Load(w, a, b') > 0 ==> Load(w, a, b) > 0
  }

  lemma NumberedWorkFirst(w: seq<nat>, a: seq<nat>)
    requires |w| == |a| && SortedDown(w) && Numbered(a, |a|)
    ensures WorkFirst(w, a)
  {
    forall b: nat, b': nat | b < b' && Load(w, a, b') > 0
      ensures Load(w, a, b) > 0
    {
      LoadPositive(w, a, b', |w|);
      var k: nat :| k < |w| && a[k] == b' && w[k] > 0;
      assert InOrder(a, k);
      var i := OpenedBefore(a, k, b);
      LoadHolds(w, a, i);
    }
  }

  /** Then the number of used bins is where they end. */
  lemma {:induction false} WorkFirstUsed(w: seq<nat>, a: seq<nat>, b: nat, m: nat)
    requires WorkFirst(w, a)
    ensures Used(w, a, m) <= m
    ensures b < m ==> (b < Used(w, a, m) <==> Load(w, a, b) > 0)
  {
    if m > 0 {
      WorkFirstUsed(w, a, b, m - 1);
      if Load(w, a, m - 1) > 0 {
        AllUsed(w, a, m - 1);
      }
    }
  }

  lemma {:induction false} AllUsed(w: seq<nat>, a: seq<nat>, m: nat)
    requires WorkFirst(w, a) && Load(w, a, m) > 0
    ensures Used(w, a, m) == m
  {
    if m > 0 {
      assert Load(w, a, m - 1) > 0;
      AllUsed(w, a, m - 1);
    }
  }

  // ----- ordering items of equal size -------------------------------------------------------------

  /** Exchange the bins of two neighbouring items. */
  function SwapItems(a: seq<nat>, i: nat): (a': seq<nat>)
    requires 1 <= i < |a|
    ensures |a'| == |a|
  {
    a[i - 1 := a[i]][i := a[i - 1]]
  }

  lemma {:induction false} SwapItemsLoad(w: seq<nat>, a: seq<nat>, i: nat, b: nat, n: nat)
    requires 1 <= i < |w| == |a| && n <= |w| && n != i && w[i - 1] == w[i]
    ensures LoadTo(w, SwapItems(a, i), b, n) == LoadTo(w, a, b, n)
  {
    if n == i + 1 {
      SwapItemsLoad(w, a, i, b, i - 1);
      var a' := SwapItems(a, i);
      assert LoadTo(w, a', b, i) == LoadTo(w, a', b, i - 1) + (if a'[i - 1] == b then w[i - 1] else 0);
      assert LoadTo(w, a, b, i) == LoadTo(w, a, b, i - 1) + (if a[i - 1] == b then w[i - 1] else 0);
    } else if n > 0 {
      SwapItemsLoad(w, a, i, b, n - 1);
    }
  }

  lemma {:induction false} SwapItemsUsed(w: seq<nat>, a: seq<nat>, i: nat, m: nat)
    requires 1 <= i < |w| == |a| && w[i - 1] == w[i]
    ensures Used(w, SwapItems(a, i), m) == Used(w, a, m)
  {
    if m > 0 {
      SwapItemsUsed(w, a, i, m - 1);
      SwapItemsLoad(w, a, i, m - 1, |w|);
    }
  }

  function SumOf(a: seq<nat>, n: nat): nat
    requires n <= |a|
  {
    if n == 0 then 0 else SumOf(a, n - 1) + a[n - 1]
  }

  /** Sum of the prefix sums: how far large bins are to the front. */
  function Disorder(a: seq<nat>, n: nat): nat
    requires n <= |a|
  {
    if n == 0 then 0 else Disorder(a, n - 1) + SumOf(a, n)
  }

  lemma {:induction false} SwapItemsSum(a: seq<nat>, i: nat, n: nat)
    requires 1 <= i < |a| && n <= |a|
    ensures n != i ==> SumOf(SwapItems(a, i), n) == SumOf(a, n)
    ensures n == i ==> SumOf(SwapItems(a, i), n) + a[i - 1] == SumOf(a, n) + a[i]
  {
    if n > 0 {
      SwapItemsSum(a, i, n - 1);
    }
  }

  lemma {:induction false} SwapItemsDisorder(a: seq<nat>, i: nat, n: nat)
    requires 1 <= i < |a| && n <= |a|
    ensures n < i ==> Disorder(SwapItems(a, i), n) == Disorder(a, n)
    ensures i <= n ==> Disorder(SwapItems(a, i), n) + a[i - 1] == Disorder(a, n) + a[i]
  {
    if n > 0 {
      SwapItemsDisorder(a, i, n - 1);
      SwapItemsSum(a, i, n);
    }
  }

  /** What ordering the items keeps. */
  ghost predicate Canonical(w: seq<nat>, a: seq<nat>, m: nat, t: nat, p: nat) {
    Assigns(w, a, m) && Fits(w, a, t) && WorkFirst(w, a) && Forced(a, p)
  }

  /** Items out of order are not forced: one of the first p would share. */
  lemma SwapKeepsForced(w: seq<nat>, a: seq<nat>, t: nat, p: nat, i: nat)
    requires |w| == |a| && Fits(w, a, t) && NoSharing(w, t, p) && Forced(a, p)
    requires 1 <= i < |w| && w[i - 1] == w[i] && a[i - 1] > a[i]
    ensures Forced(SwapItems(a, i), p)
  {
    assert Load(w, a, a[i]) <= t;
    if i == p {
      LoadHoldsTwo(w, a, a[i], i);
    }
  }

  lemma SwapItemsKeeps(w: seq<nat>, a: seq<nat>, m: nat, t: nat, p: nat, i: nat)
    requires Canonical(w, a, m, t, p) && NoSharing(w, t, p)
    requires 1 <= i < |w| && w[i - 1] == w[i] && a[i - 1] > a[i]
    ensures Canonical(w, SwapItems(a, i), m, t, p)
    ensures Used(w, SwapItems(a, i), m) == Used(w, a, m)
    ensures Disorder(SwapItems(a, i), |a|) < Disorder(a, |a|)
  {
    forall b: nat
      ensures Load(w, SwapItems(a, i), b) == Load(w, a, b)
    {
      SwapItemsLoad(w, a, i, b, |w|);
    }
    SwapItemsUsed(w, a, i, m);
    SwapKeepsForced(w, a, t, p, i);
    SwapItemsDisorder(a, i, |a|);
  }

  lemma Misplaced(w: seq<nat>, a: seq<nat>) returns (i: nat)
    requires |w| == |a| && !EqualOrdered(w, a)
    ensures 1 <= i < |w| && w[i - 1] == w[i] && a[i - 1] > a[i]
  {
    i :| 1 <= i < |w| && !PairOrdered(w, a, i);
  }

  lemma {:induction false} OrderItems(w: seq<nat>, a: seq<nat>, m: nat, t: nat, p: nat) returns (b: seq<nat>)
    requires Canonical(w, a, m, t, p) && NoSharing(w, t, p)
    ensures Canonical(w, b, m, t, p) && EqualOrdered(w, b) && Used(w, b, m) == Used(w, a, m)
    decreases Disorder(a, |a|)
  {
    if EqualOrdered(w, a) {
      b := a;
    } else {
      var i := Misplaced(w, a);
      SwapItemsKeeps(w, a, m, t, p, i);
      b := OrderItems(w, SwapItems(a, i), m, t, p);
    }
  }

  // ----- no solution is lost ------------------------------------------------------------------------

  /** Every packing has a solution of all the constraints with as many bins. */
  lemma SymmetriesLoseNothing(w: seq<nat>, a: seq<nat>, m: nat, t: nat, lb: nat) returns (b: seq<nat>)
    requires SortedDown(w) && Assigns(w, a, m) && Fits(w, a, t) && Fits(w, a, INT_MAX) && lb <= Used(w, a, m)
    ensures Posted(w, m, t, lb, b, Used(w, a, m)) && Used(w, b, m) == Used(w, a, m)
  {
    assert Fits(w, a, Cap(t));
    var p := ForcedItems(w, m, t);
    ForcedDoNotShare(w, m, t);
    assert NoSharing(w, Cap(t), p);
    b := Number(w, a, m, Cap(t), |w|);
    NumberedForced(w, b, Cap(t), p);
    NumberedWorkFirst(w, b);
    b := OrderItems(w, b, m, Cap(t), p);
    forall j: nat | lb <= j < m
      ensures (Used(w, b, m) < j + 1) == (Load(w, b, j) == 0)
    {
      WorkFirstUsed(w, b, j, m);
    }
    WorkFirstUsed(w, b, 0, m);
  }

  /** Every solution is a packing that uses at most its number of bins. */
  lemma {:induction false} SolutionUsed(w: seq<nat>, m: nat, t: nat, lb: nat, a: seq<nat>, bins: nat, n: nat)
    requires Posted(w, m, t, lb, a, bins) && n <= m
    ensures Used(w, a, n) <= Min(n, bins)
  {
    if n > 0 {
      SolutionUsed(w, m, t, lb, a, bins, n - 1);
    }
  }

  lemma SolutionsArePackings(w: seq<nat>, m: nat, t: nat, lb: nat, a: seq<nat>, bins: nat)
    requires Posted(w, m, t, lb, a, bins)
    ensures Assigns(w, a, m) && Fits(w, a, t) && Fits(w, a, INT_MAX)
    ensures Used(w, a, m) <= bins <= m && lb <= bins
  {
    SolutionUsed(w, m, t, lb, a, bins, m);
    forall b: nat
      ensures Load(w, a, b) <= t && Load(w, a, b) <= INT_MAX
    {
      if b >= m {
        EmptyBin(w, a, m, b, |w|);
      }
    }
  }

  ghost predicate Packable(w: seq<nat>, m: nat, t: nat, u: nat) {
    exists a: seq<nat> :: Assigns(w, a, m) && Fits(w, a, t) && Used(w, a, m) <= u
  }

  ghost predicate Solvable(w: seq<nat>, m: nat, t: nat, lb: nat, u: nat) {
    exists a: seq<nat>, bins: nat :: Posted(w, m, t, lb, a, bins) && bins <= u
  }

  /**
  For every trial makespan up to the upper bound c, with the lower bound swept for c: the
  constraints can be met with at most u bins exactly when the chunks can be packed into u, in
  bins of t, or of the largest integer of the solver where t is larger than that.
  */
  lemma OptimumKept(w: seq<nat>, m: nat, t: nat, c: nat, u: nat)
    requires SortedDown(w) && Total(w) < WORD && 0 < c < WORD && t <= c
    ensures t <= INT_MAX ==>
      (Packable(w, m, t, u) <==> Solvable(w, m, t, WordL2(w, c, c / 2 + 1), u))
    ensures t > INT_MAX ==>
      (Packable(w, m, INT_MAX, u) <==> Solvable(w, m, t, WordL2(w, c, c / 2 + 1), u))
  {
    var lb, cap := WordL2(w, c, c / 2 + 1), if t <= INT_MAX then t else INT_MAX;
    if Packable(w, m, cap, u) {
      var a: seq<nat> :| Assigns(w, a, m) && Fits(w, a, cap) && Used(w, a, m) <= u;
      SweptBoundIsLowerBound(w, a, m, c, cap);
      var b := SymmetriesLoseNothing(w, a, m, t, lb);
    }
    if Solvable(w, m, t, lb, u) {
      var a: seq<nat>, bins: nat :| Posted(w, m, t, lb, a, bins) && bins <= u;
      SolutionsArePackings(w, m, t, lb, a, bins);
    }
  }

  // ----- what the constraints demand ---------------------------------------------------------------

  /** Where every prefix of items that cannot share is forced: from the second item on, and no further. */
  lemma ForcedItemsExactly(w: seq<nat>, m: nat, t: nat, q: nat)
    requires SortedDown(w) && 2 <= q <= |w| && q <= m && 2 * w[0] < WORD
    ensures q <= ForcedItems(w, m, t) <==> NoSharing(w, t, q)
  {
    ForcedDoNotShare(w, m, t);
    OwnBinsStops(w, m, t, 0);
    var i := OwnBins(w, m, t, 0);
    if NoSharing(w, t, q) {
      assert w[q - 2] + w[q - 1] > t;
    }
  }

  /** A doubled work that wraps is not seen to need a bin of its own: the symmetry stays. */
  lemma ForcedItemsCanBeLost()
    ensures var w: seq<nat>, t := [WORD / 2, WORD / 2 - 1], WORD / 2;
      && SortedDown(w) && Total(w) < WORD
      && NoSharing(w, t, 2) && ForcedItems(w, 2, t) == 0
  {
    var w: seq<nat> := [WORD / 2, WORD / 2 - 1];
    assert Sum(w, Same, 1) == WORD / 2;
    assert OwnBins(w, 2, WORD / 2, 0) == 0;
  }

  lemma {:induction false} OwnBinsStops(w: seq<nat>, m: nat, t: nat, i: nat)
    requires SortedDown(w) && (|w| > 0 ==> 2 * w[0] < WORD) && i <= |w| && i <= m
    ensures var j := OwnBins(w, m, t, i); j >= i && (j < |w| && j < m ==> w[j] * 2 <= t)
    decreases |w| - i
  {
    if i < |w| && i < m {
      assert w[i] <= w[0];
      if (w[i] * 2) % WORD > t {
        OwnBinsStops(w, m, t, i + 1);
      }
    }
  }

  /** A solution counts every used bin from lb on, and all bins up to there. */
  lemma {:induction false} SolutionCounts(w: seq<nat>, m: nat, t: nat, lb: nat, a: seq<nat>, bins: nat, n: nat)
    requires Posted(w, m, t, lb, a, bins) && lb <= n <= m
    ensures Used(w, a, n) == Used(w, a, lb) + Min(n, bins) - lb
  {
    if n > lb {
      SolutionCounts(w, m, t, lb, a, bins, n - 1);
    }
  }

  /** In a solution equal items are in order and items that cannot share are in the bins of their numbers. */
  lemma {:induction false} SolutionIsCanonical(
      w: seq<nat>, m: nat, t: nat, lb: nat, a: seq<nat>, bins: nat, j: nat, k: nat)
    requires SortedDown(w) && Posted(w, m, t, lb, a, bins) && j < k < |w|
    ensures w[j] == w[k] ==> a[j] <= a[k]
    ensures k < m && 2 * w[0] < WORD && NoSharing(w, t, k + 1) ==> a[j] == j && a[k] == k
    decreases k
  {
    assert PairOrdered(w, a, k);
    if w[j] == w[k] && j < k - 1 {
      SolutionIsCanonical(w, m, t, lb, a, bins, j, k - 1);
    }
    if k < m && 2 * w[0] < WORD && NoSharing(w, t, k + 1) {
      ForcedItemsExactly(w, m, t, k + 1);
    }
  }
}
