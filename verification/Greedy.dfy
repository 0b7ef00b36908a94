/** List scheduling: each chunk goes to the first of the least loaded bins. */
module Greedy {
  import opened Wrappers
  import opened Packing

  ghost predicate ListScheduled(w: seq<nat>, a: seq<nat>, m: nat, n: nat)
    requires n <= |w| == |a|
  {
    forall i :: 0 <= i < n ==> a[i] < m && LeastLoaded(w, a, m, i, a[i])
  }

  /** Bin j is the first least loaded one before chunk i is placed. */
  ghost predicate LeastLoaded(w: seq<nat>, a: seq<nat>, m: nat, i: nat, j: nat)
    requires i <= |w| == |a|
  {
    && (forall b: nat :: b < m ==> LoadTo(w, a, j, i) <= LoadTo(w, a, b, i))
    && (forall b: nat :: b < j ==> LoadTo(w, a, j, i) < LoadTo(w, a, b, i))
  }

  /** Placing a later chunk does not change the loads before it. */
  lemma {:induction false} LaterPlacement(w: seq<nat>, a: seq<nat>, i: nat, j: nat, b: nat, n: nat)
    requires n <= i < |w| == |a|
    ensures LoadTo(w, a[i := j], b, n) == LoadTo(w, a, b, n)
  {
    if n > 0 {
      LaterPlacement(w, a, i, j, b, n - 1);
    }
  }

  lemma {:induction false} LoadBelowSum(w: seq<nat>, a: seq<nat>, b: nat, n: nat)
    requires n <= |w| == |a|
    ensures LoadTo(w, a, b, n) <= Sum(w, Same, n)
  {
    if n > 0 {
      LoadBelowSum(w, a, b, n - 1);
    }
  }

  /** m times the least load is at most the sum of the loads. */
  lemma {:induction false} LeastTimesBins(w: seq<nat>, a: seq<nat>, m: nat, least: nat, n: nat)
    requires n <= |w| == |a|
    requires forall b: nat :: b < m ==> least <= LoadTo(w, a, b, n)
    ensures m * least <= BinsSum(w, a, m, Same, n)
  {
    if m > 0 {
      LeastTimesBins(w, a, m - 1, least, n);
      assert least <= LoadTo(w, a, m - 1, n);
      assert m * least == (m - 1) * least + least;
    }
  }

  lemma GreedyStep(m: nat, l: nat, x: nat, top: nat, before: nat)
    requires m > 0 && m * l <= before && x <= top
    ensures m * (l + x) <= (before + x) + (m - 1) * top
  {
    assert m * (l + x) == m * l + m * x;
    assert m * x == x + (m - 1) * x;
    MulMonotone(m - 1, x, top);
  }

  /** Before and after every chunk, m loads are at most the work so far plus m - 1 chunks. */
  lemma {:induction false} GreedyLoads(w: seq<nat>, a: seq<nat>, m: nat, top: nat, b: nat, n: nat)
    requires Assigns(w, a, m) && n <= |w| && ListScheduled(w, a, m, n) && b < m
    requires forall i :: 0 <= i < |w| ==> w[i] <= top
    ensures m * LoadTo(w, a, b, n) <= Sum(w, Same, n) + (m - 1) * top
  {
    if n == 0 {
      assert m * 0 == 0 && (m - 1) * top >= 0;
    } else if a[n - 1] == b {
      var l := LoadTo(w, a, b, n - 1);
      assert LeastLoaded(w, a, m, n - 1, a[n - 1]);
      LeastTimesBins(w, a, m, l, n - 1);
      BinsPartition(w, a, m, Same, n - 1);
      GreedyStep(m, l, w[n - 1], top, Sum(w, Same, n - 1));
    } else {
      GreedyLoads(w, a, m, top, b, n - 1);
    }
  }

  /** m bins of at most t each hold at most m * t. */
  lemma {:induction false} BinsHold(w: seq<nat>, a: seq<nat>, m: nat, t: nat)
    requires Fits(w, a, t)
    ensures BinsSum(w, a, m, Same, |w|) <= m * t
  {
    if m > 0 {
      BinsHold(w, a, m - 1, t);
      assert Load(w, a, m - 1) <= t;
      assert m * t == (m - 1) * t + t;
    }
  }

  /** g is the largest load of a list schedule to m bins. */
  ghost predicate GreedyMakespan(w: seq<nat>, m: nat, g: nat) {
    exists a: seq<nat> :: GreedyLargest(w, a, m, g)
  }

  ghost predicate GreedyLargest(w: seq<nat>, a: seq<nat>, m: nat, g: nat) {
    && Assigns(w, a, m) && ListScheduled(w, a, m, |w|)
    && (forall b: nat :: b < m ==> Load(w, a, b) <= g)
    && (g == 0 || exists b: nat :: b < m && Load(w, a, b) == g)
  }

  /** Loads depend on the placements made so far only. */
  lemma {:induction false} SamePlacements(w: seq<nat>, a: seq<nat>, a': seq<nat>, b: nat, n: nat)
    requires n <= |w| == |a| == |a'| && forall i :: 0 <= i < n ==> a[i] == a'[i]
    ensures LoadTo(w, a, b, n) == LoadTo(w, a', b, n)
  {
    if n > 0 {
      SamePlacements(w, a, a', b, n - 1);
    }
  }

  // ----- the same in words ------------------------------------------------------------------------

  /** What bin b would have left of the total work with chunk i in it, as a word. */
  function SlackWord(w: seq<nat>, a: seq<nat>, i: nat, b: nat): nat
    requires i < |w| == |a|
  {
    Word(Total(w) - LoadTo(w, a, b, i) - w[i])
  }

  /** Bin j is the first with the largest slack before chunk i is placed. */
  ghost predicate MostSlack(w: seq<nat>, a: seq<nat>, m: nat, i: nat, j: nat)
    requires i < |w| == |a|
  {
    && (forall b: nat :: b < m ==> SlackWord(w, a, i, b) <= SlackWord(w, a, i, j))
    && (forall b: nat :: b < j ==> SlackWord(w, a, i, b) < SlackWord(w, a, i, j))
  }

  ghost predicate WordScheduled(w: seq<nat>, a: seq<nat>, m: nat, n: nat)
    requires n <= |w| == |a|
  {
    forall i :: 0 <= i < n ==> a[i] < m && MostSlack(w, a, m, i, a[i])
  }

  /** g is the largest load, in words, of a placement by largest slack. */
  ghost predicate WordLargest(w: seq<nat>, a: seq<nat>, m: nat, g: nat) {
    && Assigns(w, a, m) && WordScheduled(w, a, m, |w|)
    && (forall b: nat :: b < m ==> Word(Load(w, a, b)) <= g)
    && (g == 0 || exists b: nat :: b < m && Word(Load(w, a, b)) == g)
  }

  ghost predicate WordGreedyMakespan(w: seq<nat>, m: nat, g: nat) {
    exists a: seq<nat> :: WordLargest(w, a, m, g)
  }

  lemma SameSlack(w: seq<nat>, a: seq<nat>, a': seq<nat>, i: nat, b: nat)
    requires i < |w| == |a| == |a'| && forall k :: 0 <= k < i ==> a[k] == a'[k]
    ensures SlackWord(w, a, i, b) == SlackWord(w, a', i, b)
  {
    SamePlacements(w, a, a', b, i);
  }

  /** Taking the first bin with the largest slack leaves no choice. */
  lemma {:induction false} WordScheduleIsUnique(w: seq<nat>, a: seq<nat>, a': seq<nat>, m: nat, n: nat)
    requires n <= |w| == |a| == |a'| && WordScheduled(w, a, m, n) && WordScheduled(w, a', m, n)
    ensures forall i :: 0 <= i < n ==> a[i] == a'[i]
  {
    if n > 0 {
      var i := n - 1;
      WordScheduleIsUnique(w, a, a', m, i);
      assert MostSlack(w, a, m, i, a[i]) && MostSlack(w, a', m, i, a'[i]);
      SameSlack(w, a, a', i, a[i]);
      SameSlack(w, a, a', i, a'[i]);
    }
  }

  lemma WordGreedyMakespanIsUnique(w: seq<nat>, m: nat, g: nat, g': nat)
    requires WordGreedyMakespan(w, m, g) && WordGreedyMakespan(w, m, g')
    ensures g == g'
  {
    var a :| WordLargest(w, a, m, g);
    var a' :| WordLargest(w, a', m, g');
    WordScheduleIsUnique(w, a, a', m, |w|);
    assert a == a';
  }

  /** Where the total work fits a word, no slack is below zero. */
  lemma SlackIsExact(w: seq<nat>, a: seq<nat>, i: nat, b: nat)
    requires i < |w| == |a| && Total(w) < WORD
    ensures 0 <= Total(w) - LoadTo(w, a, b, i) - w[i] == SlackWord(w, a, i, b)
  {
    LoadBelowSum(w, a, b, i);
    SumMonotone(w, Same, i + 1, |w|);
  }

  /** And then the largest slack is the least load. */
  lemma MostSlackIsLeastLoaded(w: seq<nat>, a: seq<nat>, m: nat, i: nat, j: nat)
    requires i < |w| == |a| && Total(w) < WORD
    ensures MostSlack(w, a, m, i, j) <==> LeastLoaded(w, a, m, i, j)
  {
    forall b: nat
      ensures SlackWord(w, a, i, b) == Total(w) - LoadTo(w, a, b, i) - w[i]
    {
      SlackIsExact(w, a, i, b);
    }
  }

  /** So the source computes a list schedule wherever the total work fits a word. */
  lemma WordGreedyIsGreedy(w: seq<nat>, m: nat, g: nat)
    requires Total(w) < WORD
    ensures WordGreedyMakespan(w, m, g) <==> GreedyMakespan(w, m, g)
  {
    forall a: seq<nat> | |a| == |w|
      ensures WordLargest(w, a, m, g) <==> GreedyLargest(w, a, m, g)
    {
      LargestAgree(w, a, m, g);
    }
  }

  lemma LargestAgree(w: seq<nat>, a: seq<nat>, m: nat, g: nat)
    requires |a| == |w| && Total(w) < WORD
    ensures WordLargest(w, a, m, g) <==> GreedyLargest(w, a, m, g)
  {
    forall i | 0 <= i < |w|
      ensures MostSlack(w, a, m, i, a[i]) <==> LeastLoaded(w, a, m, i, a[i])
    {
      MostSlackIsLeastLoaded(w, a, m, i, a[i]);
    }
    forall b: nat
      ensures Word(Load(w, a, b)) == Load(w, a, b)
    {
      LoadBelowSum(w, a, b, |w|);
    }
  }

  // ----- the competitive bound ----------------------------------------------------------------------

  lemma TwiceTheBest(m: nat, g: nat, t: nat, total: nat)
    requires m > 0 && m * g <= total + (m - 1) * t && total <= m * t
    ensures m * g <= (2 * m - 1) * t
  {
    assert (2 * m - 1) * t == m * t + (m - 1) * t;
  }

  lemma GreedyAgainstChunks(w: seq<nat>, a: seq<nat>, m: nat, g: nat, t: nat)
    requires GreedyLargest(w, a, m, g) && m > 0
    requires forall i :: 0 <= i < |w| ==> w[i] <= t
    ensures m * g <= Total(w) + (m - 1) * t
  {
    if g == 0 {
      assert m * g == 0 && (m - 1) * t >= 0;
    } else {
      var b: nat :| b < m && Load(w, a, b) == g;
      GreedyLoads(w, a, m, t, b, |w|);
    }
  }

  /**
  The greedy makespan against any other assignment to the same bins: a list schedule is
  less than twice as long as the best.
  */
  lemma GreedyIsTwoCompetitive(w: seq<nat>, m: nat, g: nat, other: seq<nat>, t: nat)
    requires GreedyMakespan(w, m, g) && m > 0
    requires Assigns(w, other, m) && Fits(w, other, t)
    ensures m * g <= Total(w) + (m - 1) * t
    ensures m * g <= (2 * m - 1) * t
  {
    var a :| GreedyLargest(w, a, m, g);
    forall i | 0 <= i < |w|
      ensures w[i] <= t
    {
      LoadHolds(w, other, i);
      assert Load(w, other, other[i]) <= t;
    }
    GreedyAgainstChunks(w, a, m, g, t);
    BinsHold(w, other, m, t);
    BinsPartition(w, other, m, Same, |w|);
    TwiceTheBest(m, g, t, Total(w));
  }
}
