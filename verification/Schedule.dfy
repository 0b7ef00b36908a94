/**
The class Schedule of scripts/profiling/task/for-loop/mir_loop_scheduler.cpp: the recorded
chunks of a loop, the bounds computed from them, and the loops that compute the bounds.
Numbers are unsigned 32-bit words in the source, and every sum is taken in words here; what
the results mean as numbers is stated where the total work fits a word.
*/
module LoopSchedule {
  import opened Wrappers
  import opened Packing
  import opened Greedy
  import opened L2Sweep

  datatype Chunk = Chunk(start: int, end: int, cpu: nat, work: nat)

  function Works(chunks: seq<Chunk>): (w: seq<nat>)
    ensures |w| == |chunks|
  {
    seq(|chunks|, i requires 0 <= i < |chunks| => chunks[i].work)
  }

  function Cpus(chunks: seq<Chunk>): (a: seq<nat>)
    ensures |a| == |chunks|
  {
    seq(|chunks|, i requires 0 <= i < |chunks| => chunks[i].cpu)
  }

  // ----- the greedy upper bound -------------------------------------------------------------

  /** get_greedy_upper_bound_makespan */
  method GreedyUpperBoundMakespan(w: seq<nat>, numBins: nat, totalWork: nat) returns (bound: nat)
    requires totalWork == Word(Total(w)) && (numBins > 0 || w == [])
    ensures WordGreedyMakespan(w, numBins, bound) && bound < WORD
  {
    var bins := new nat[numBins](_ => 0);
    ghost var a: seq<nat> := seq(|w|, _ => 0);
    for i := 0 to |w|
      invariant Assigns(w, a, numBins) && WordScheduled(w, a, numBins, i)
      invariant forall j :: 0 <= j < numBins ==> bins[j] == Word(LoadTo(w, a, j, i))
    {
      var binLargestSlack := LargestSlack(w, a, bins, i, totalWork);
      PlacementKeeps(w, a, numBins, i, binLargestSlack);
      WordAdd(LoadTo(w, a, binLargestSlack, i), w[i]);
      bins[binLargestSlack] := Word(bins[binLargestSlack] + w[i]);
      a := a[i := binLargestSlack];
    }
    bound := LargestBin(w, a, bins);
  }

  /** The inner loop: the first bin with the largest slack. */
  method LargestSlack(w: seq<nat>, ghost a: seq<nat>, bins: array<nat>, i: nat, totalWork: nat)
      returns (binLargestSlack: nat)
    requires i < |w| == |a| && bins.Length > 0 && totalWork == Word(Total(w))
    requires forall j :: 0 <= j < bins.Length ==> bins[j] == Word(LoadTo(w, a, j, i))
    ensures binLargestSlack < bins.Length
    ensures MostSlack(w, a, bins.Length, i, binLargestSlack)
  {
    var largestSlack := 0;
    binLargestSlack := 0;
    for j := 0 to bins.Length
      invariant binLargestSlack < bins.Length
      invariant largestSlack == 0 ==> binLargestSlack == 0
      invariant largestSlack > 0 ==> largestSlack == SlackWord(w, a, i, binLargestSlack)
      invariant forall b: nat :: b < j ==> SlackWord(w, a, i, b) <= largestSlack
      invariant forall b: nat :: b < binLargestSlack ==> SlackWord(w, a, i, b) < largestSlack
    {
      SlackInWords(Total(w), LoadTo(w, a, j, i), w[i]);
      var slack := Word(totalWork - Word(bins[j] + w[i]));
      assert slack == SlackWord(w, a, i, j);
      if slack > largestSlack {
        largestSlack := slack;
        binLargestSlack := j;
      }
    }
  }

  /** The slack computed from a bin and a total that may have wrapped. */
  lemma SlackInWords(total: nat, load: nat, x: nat)
    ensures Word(Word(total) - Word(Word(load) + x)) == Word(total - load - x)
  {
    WordAdd(load, x);
    WordSub(Word(total), load + x);
    WordAdd(total, -(load + x));
  }

  /** The last loop: the most loaded bin. */
  method LargestBin(w: seq<nat>, ghost a: seq<nat>, bins: array<nat>) returns (bound: nat)
    requires Assigns(w, a, bins.Length) && WordScheduled(w, a, bins.Length, |w|)
    requires forall j :: 0 <= j < bins.Length ==> bins[j] == Word(Load(w, a, j))
    ensures WordGreedyMakespan(w, bins.Length, bound) && bound < WORD
  {
    bound := 0;
    for j := 0 to bins.Length
      invariant bound < WORD && forall b: nat :: b < j ==> Word(Load(w, a, b)) <= bound
      invariant bound == 0 || exists b: nat :: b < bins.Length && Word(Load(w, a, b)) == bound
    {
      if bins[j] > bound {
        bound := bins[j];
        assert Word(Load(w, a, j)) == bound;
      }
    }
    assert WordLargest(w, a, bins.Length, bound);
  }

  lemma PlacementKeeps(w: seq<nat>, a: seq<nat>, m: nat, i: nat, j: nat)
    requires i < |w| && j < m && Assigns(w, a, m) && WordScheduled(w, a, m, i) && MostSlack(w, a, m, i, j)
    ensures Assigns(w, a[i := j], m) && WordScheduled(w, a[i := j], m, i + 1)
    ensures forall b: nat :: b < m ==>
      LoadTo(w, a[i := j], b, i + 1) == LoadTo(w, a, b, i) + (if b == j then w[i] else 0)
  {
    var a' := a[i := j];
    forall b: nat
      ensures LoadTo(w, a', b, i) == LoadTo(w, a, b, i)
    {
      LaterPlacement(w, a, i, j, b, i);
    }
    forall k | 0 <= k < i + 1
      ensures a'[k] < m && MostSlack(w, a', m, k, a'[k])
    {
      assert k < i ==> MostSlack(w, a, m, k, a[k]);
      forall b: nat
        ensures SlackWord(w, a', k, b) == SlackWord(w, a, k, b)
      {
        SameSlack(w, a, a', k, b);
      }
    }
  }

  // ----- work per CPU ---------------------------------------------------------------------------

  function CpuWork(chunks: seq<Chunk>, cpu: nat): nat {
    if chunks == [] then 0
    else CpuWork(chunks[..|chunks| - 1], cpu) +
         (if chunks[|chunks| - 1].cpu == cpu then chunks[|chunks| - 1].work else 0)
  }

  function CpuIds(chunks: seq<Chunk>): set<nat> {
    set k | 0 <= k < |chunks| :: chunks[k].cpu
  }

  function WorkOf(chunks: seq<Chunk>): nat {
    Total(Works(chunks))
  }

  /** The sums over recorded chunks are the loads of the recorded assignment. */
  lemma {:induction false} CpuWorkIsLoad(chunks: seq<Chunk>, cpu: nat, n: nat)
    requires n <= |chunks|
    ensures CpuWork(chunks[..n], cpu) == LoadTo(Works(chunks), Cpus(chunks), cpu, n)
  {
    if n > 0 {
      CpuWorkIsLoad(chunks, cpu, n - 1);
      assert chunks[..n][..n - 1] == chunks[..n - 1];
    }
  }

  lemma {:induction false} SumOfPrefix(w: seq<nat>, w': seq<nat>, n: nat)
    requires n <= |w| && n <= |w'| && w[..n] == w'[..n]
    ensures Sum(w, Same, n) == Sum(w', Same, n)
  {
    if n > 0 {
      assert w[..n][..n - 1] == w[..n - 1] && w'[..n][..n - 1] == w'[..n - 1];
      assert w[n - 1] == w[..n][n - 1] == w'[..n][n - 1];
      SumOfPrefix(w, w', n - 1);
    }
  }

  lemma WorkOfSnoc(chunks: seq<Chunk>, last: Chunk)
    ensures WorkOf(chunks + [last]) == WorkOf(chunks) + last.work
  {
    SumOfPrefix(Works(chunks + [last]), Works(chunks), |chunks|);
  }

  /** Taking a chunk out of the middle takes out its work. */
  lemma {:induction false} CpuWorkWithout(chunks: seq<Chunk>, i: nat, cpu: nat)
    requires i < |chunks|
    ensures CpuWork(chunks, cpu) ==
            CpuWork(chunks[..i] + chunks[i + 1..], cpu) + (if chunks[i].cpu == cpu then chunks[i].work else 0)
  {
    var n := |chunks| - 1;
    if i < n {
      CpuWorkWithout(chunks[..n], i, cpu);
      var rest := chunks[..i] + chunks[i + 1..];
      assert rest[..n - 1] == chunks[..n][..i] + chunks[..n][i + 1..];
      assert rest[n - 1] == chunks[n];
    } else {
      assert chunks[..i] + chunks[i + 1..] == chunks[..n];
    }
  }

  lemma {:induction false} WorkOfWithout(chunks: seq<Chunk>, i: nat)
    requires i < |chunks|
    ensures WorkOf(chunks) == WorkOf(chunks[..i] + chunks[i + 1..]) + chunks[i].work
  {
    var n := |chunks| - 1;
    assert chunks == chunks[..n] + [chunks[n]];
    WorkOfSnoc(chunks[..n], chunks[n]);
    if i < n {
      WorkOfWithout(chunks[..n], i);
      var rest := chunks[..n][..i] + chunks[..n][i + 1..];
      WorkOfSnoc(rest, chunks[n]);
      assert chunks[..i] + chunks[i + 1..] == rest + [chunks[n]];
    } else {
      assert chunks[..i] + chunks[i + 1..] == chunks[..n];
    }
  }

  lemma TakeOut(chunks: seq<Chunk>, i: nat)
    requires i < |chunks|
    ensures multiset(chunks[..i] + chunks[i + 1..]) == multiset(chunks) - multiset{chunks[i]}
  {
    assert chunks == chunks[..i] + [chunks[i]] + chunks[i + 1..];
  }

  /** Sorting changes neither the work of any CPU nor the total, nor which CPUs there are. */
  lemma {:induction false} SortingKeepsWork(chunks: seq<Chunk>, sorted: seq<Chunk>, cpu: nat)
    requires multiset(chunks) == multiset(sorted)
    ensures CpuWork(chunks, cpu) == CpuWork(sorted, cpu)
    ensures WorkOf(chunks) == WorkOf(sorted)
    decreases |chunks|
  {
    if chunks == [] {
      assert |multiset(sorted)| == 0;
    } else {
      var n := |chunks| - 1;
      assert chunks[n] in multiset(sorted);
      var i: nat :| i < |sorted| && sorted[i] == chunks[n];
      var rest := sorted[..i] + sorted[i + 1..];
      assert chunks == chunks[..n] + [chunks[n]];
      TakeOut(sorted, i);
      assert multiset(chunks[..n]) == multiset(chunks) - multiset{chunks[n]} == multiset(rest);
      SortingKeepsWork(chunks[..n], rest, cpu);
      CpuWorkWithout(sorted, i, cpu);
      WorkOfWithout(sorted, i);
      WorkOfSnoc(chunks[..n], chunks[n]);
    }
  }

  lemma SortingKeepsCpus(chunks: seq<Chunk>, sorted: seq<Chunk>)
    requires multiset(chunks) == multiset(sorted)
    ensures CpuIds(chunks) == CpuIds(sorted)
  {
    forall cpu
      ensures cpu in CpuIds(chunks) <==> cpu in CpuIds(sorted)
    {
      if cpu in CpuIds(chunks) {
        var k :| 0 <= k < |chunks| && chunks[k].cpu == cpu;
        assert chunks[k] in multiset(sorted);
      }
      if cpu in CpuIds(sorted) {
        var k :| 0 <= k < |sorted| && sorted[k].cpu == cpu;
        assert sorted[k] in multiset(chunks);
      }
    }
  }

  // ----- the bounds fit together ---------------------------------------------------------------

  function IdsBelow(ids: set<nat>, m: nat): set<nat> {
    set b | b in ids && b < m
  }

  /** Only bins that are assigned carry work. */
  lemma {:induction false} UsedWithin(w: seq<nat>, a: seq<nat>, m: nat, ids: set<nat>)
    requires |w| == |a| && forall i :: 0 <= i < |a| ==> a[i] in ids
    ensures Used(w, a, m) <= |IdsBelow(ids, m)|
  {
    if m > 0 {
      UsedWithin(w, a, m - 1, ids);
      var before, after := IdsBelow(ids, m - 1), IdsBelow(ids, m);
      if Load(w, a, m - 1) > 0 {
        LoadPositive(w, a, m - 1, |w|);
        assert after == before + {m - 1};
      } else {
        SubsetSize(before, after);
      }
    }
  }

  /** makespan is the largest amount of work among all CPUs. */
  ghost predicate IsMakespan(chunks: seq<Chunk>, makespan: nat) {
    && (forall cpu: nat :: CpuWork(chunks, cpu) <= makespan)
    && (makespan == 0 || exists cpu :: cpu in CpuIds(chunks) && CpuWork(chunks, cpu) == makespan)
  }

  /** The upper bound on the makespan: one more than the shorter of the two schedules known. */
  ghost predicate IsUpperBound(chunks: seq<Chunk>, c: nat) {
    exists makespan: nat, g: nat :: UpperBoundFrom(chunks, makespan, g, c)
  }

  ghost predicate UpperBoundFrom(chunks: seq<Chunk>, makespan: nat, g: nat, c: nat) {
    && IsMakespan(chunks, makespan) && GreedyMakespan(Works(chunks), |CpuIds(chunks)|, g)
    && c == Min(makespan, g) + 1
  }

  /** The same, computed in words. */
  ghost predicate IsWordMakespan(chunks: seq<Chunk>, makespan: nat) {
    && (forall cpu: nat :: Word(CpuWork(chunks, cpu)) <= makespan)
    && (makespan == 0 || exists cpu :: cpu in CpuIds(chunks) && Word(CpuWork(chunks, cpu)) == makespan)
  }

  ghost predicate IsWordUpperBound(chunks: seq<Chunk>, c: nat) {
    exists makespan: nat, g: nat :: WordUpperBoundFrom(chunks, makespan, g, c)
  }

  ghost predicate WordUpperBoundFrom(chunks: seq<Chunk>, makespan: nat, g: nat, c: nat) {
    && IsWordMakespan(chunks, makespan) && WordGreedyMakespan(Works(chunks), |CpuIds(chunks)|, g)
    && c == Word(Min(makespan, g) + 1)
  }

  lemma CpuWorkBelow(chunks: seq<Chunk>, cpu: nat)
    ensures CpuWork(chunks, cpu) <= WorkOf(chunks)
  {
    CpuWorkIsLoad(chunks, cpu, |chunks|);
    assert chunks[..|chunks|] == chunks;
    LoadBelowSum(Works(chunks), Cpus(chunks), cpu, |chunks|);
  }

  /** Where the total work fits a word, so does every sum that leads to the makespan. */
  lemma MakespansAgree(chunks: seq<Chunk>, makespan: nat)
    requires WorkOf(chunks) < WORD
    ensures IsWordMakespan(chunks, makespan) <==> IsMakespan(chunks, makespan)
    ensures IsMakespan(chunks, makespan) ==> makespan <= WorkOf(chunks)
  {
    forall cpu: nat
      ensures Word(CpuWork(chunks, cpu)) == CpuWork(chunks, cpu) <= WorkOf(chunks)
    {
      CpuWorkBelow(chunks, cpu);
    }
  }

  /** And so does the upper bound, if there is room for one more. */
  lemma UpperBoundsAgree(chunks: seq<Chunk>, c: nat)
    requires WorkOf(chunks) + 1 < WORD
    ensures IsWordUpperBound(chunks, c) <==> IsUpperBound(chunks, c)
  {
    if IsWordUpperBound(chunks, c) {
      var makespan: nat, g: nat :| WordUpperBoundFrom(chunks, makespan, g, c);
      MakespansAgree(chunks, makespan);
      WordGreedyIsGreedy(Works(chunks), |CpuIds(chunks)|, g);
      assert UpperBoundFrom(chunks, makespan, g, c);
    }
    if IsUpperBound(chunks, c) {
      var makespan: nat, g: nat :| UpperBoundFrom(chunks, makespan, g, c);
      MakespansAgree(chunks, makespan);
      WordGreedyIsGreedy(Works(chunks), |CpuIds(chunks)|, g);
      assert WordUpperBoundFrom(chunks, makespan, g, c);
    }
  }

  lemma RecordedFits(chunks: seq<Chunk>, makespan: nat) returns (m: nat)
    requires IsMakespan(chunks, makespan)
    ensures Assigns(Works(chunks), Cpus(chunks), m) && Fits(Works(chunks), Cpus(chunks), makespan)
    ensures Used(Works(chunks), Cpus(chunks), m) <= |CpuIds(chunks)|
  {
    var w, a := Works(chunks), Cpus(chunks);
    m := AboveAll(a);
    forall b: nat
      ensures Load(w, a, b) <= makespan
    {
      CpuWorkIsLoad(chunks, b, |chunks|);
      assert chunks[..|chunks|] == chunks;
      assert CpuWork(chunks, b) <= makespan;
    }
    UsedWithin(w, a, m, CpuIds(chunks));
    SubsetSize(IdsBelow(CpuIds(chunks), m), CpuIds(chunks));
  }

  lemma {:induction false} AboveAll(a: seq<nat>) returns (m: nat)
    ensures forall i :: 0 <= i < |a| ==> a[i] < m
  {
    if a == [] {
      m := 0;
    } else {
      var n := |a| - 1;
      m := AboveAll(a[..n]);
      assert forall i :: 0 <= i < n ==> a[i] == a[..n][i];
      m := Max(m, a[n] + 1);
    }
  }

  lemma GreedyFits(w: seq<nat>, m: nat, g: nat) returns (a: seq<nat>)
    requires GreedyMakespan(w, m, g)
    ensures GreedyLargest(w, a, m, g) && Fits(w, a, g) && Used(w, a, m) <= m && g <= Total(w)
  {
    a :| GreedyLargest(w, a, m, g);
    forall b: nat
      ensures Load(w, a, b) <= g
    {
      if b >= m {
        EmptyBin(w, a, m, b, |w|);
      }
    }
    UsedAtMost(w, a, m);
    if g > 0 {
      var b: nat :| b < m && Load(w, a, b) == g;
      LoadBelowSum(w, a, b, |w|);
    }
  }

  /** No chunk is longer than either schedule, and neither is longer than all the work. */
  lemma UpperBoundIsAbove(chunks: seq<Chunk>, makespan: nat, g: nat, c: nat)
    requires UpperBoundFrom(chunks, makespan, g, c)
    ensures forall i :: 0 <= i < |chunks| ==> Works(chunks)[i] < c
    ensures c <= WorkOf(chunks) + 1
  {
    var w := Works(chunks);
    var m := RecordedFits(chunks, makespan);
    var a := GreedyFits(w, |CpuIds(chunks)|, g);
    forall i | 0 <= i < |chunks|
      ensures w[i] < c
    {
      LoadHolds(w, a, i);
      LoadHolds(w, Cpus(chunks), i);
      assert Load(w, Cpus(chunks), Cpus(chunks)[i]) <= makespan;
    }
  }

  /** Where the total work fits a word, only the one added to the makespan can wrap. */
  lemma UpperBoundIsExact(chunks: seq<Chunk>, c: nat)
    requires IsWordUpperBound(chunks, c) && WorkOf(chunks) < WORD && c > 0
    ensures IsUpperBound(chunks, c)
  {
    var makespan: nat, g: nat :| WordUpperBoundFrom(chunks, makespan, g, c);
    MakespansAgree(chunks, makespan);
    WordGreedyIsGreedy(Works(chunks), |CpuIds(chunks)|, g);
    assert Min(makespan, g) <= makespan < WORD;
    assert UpperBoundFrom(chunks, makespan, g, c);
  }

  lemma SweptBoundFits(chunks: seq<Chunk>, c: nat)
    requires IsUpperBound(chunks, c) && WorkOf(chunks) < WORD && 0 < c < WORD
    ensures WordL2(Works(chunks), c, c / 2 + 1) <= |CpuIds(chunks)|
  {
    var makespan: nat, g: nat :| UpperBoundFrom(chunks, makespan, g, c);
    if makespan <= g {
      var m := RecordedFits(chunks, makespan);
      SweptBoundIsLowerBound(Works(chunks), Cpus(chunks), m, c, makespan);
    } else {
      var a := GreedyFits(Works(chunks), |CpuIds(chunks)|, g);
      SweptBoundIsLowerBound(Works(chunks), a, |CpuIds(chunks)|, c, g);
    }
  }

  /** The upper bound is one above the shorter of the two schedules known, and above no other. */
  lemma UpperBoundIsTight(chunks: seq<Chunk>, c: nat, makespan: nat, g: nat)
    requires IsUpperBound(chunks, c) && IsMakespan(chunks, makespan)
    requires GreedyMakespan(Works(chunks), |CpuIds(chunks)|, g) && WorkOf(chunks) < WORD
    ensures c <= makespan + 1 && c <= g + 1 && (c == makespan + 1 || c == g + 1)
  {
    var m: nat, h: nat :| UpperBoundFrom(chunks, m, h, c);
    MakespansAgree(chunks, m);
    MakespansAgree(chunks, makespan);
    MakespanIsUnique(chunks, m, makespan);
    WordGreedyIsGreedy(Works(chunks), |CpuIds(chunks)|, g);
    WordGreedyIsGreedy(Works(chunks), |CpuIds(chunks)|, h);
    WordGreedyMakespanIsUnique(Works(chunks), |CpuIds(chunks)|, g, h);
  }

  /**
  One below the upper bound there is a packing that uses no more bins than there are CPUs:
  the recorded one or the greedy one.
  */
  lemma UpperBoundIsMet(chunks: seq<Chunk>, c: nat) returns (a: seq<nat>, m: nat)
    requires IsUpperBound(chunks, c)
    ensures c > 0 && Assigns(Works(chunks), a, m) && Fits(Works(chunks), a, c - 1)
    ensures Used(Works(chunks), a, m) <= |CpuIds(chunks)|
  {
    var makespan: nat, g: nat :| UpperBoundFrom(chunks, makespan, g, c);
    if makespan <= g {
      a := Cpus(chunks);
      m := RecordedFits(chunks, makespan);
    } else {
      m := |CpuIds(chunks)|;
      a := GreedyFits(Works(chunks), m, g);
    }
  }

  /**
  Where the total work and one more fit a word, the domain of the number of CPUs is not
  empty: its lower end is at most its upper end.
  */
  lemma DomainNotEmpty(chunks: seq<Chunk>, c: nat)
    requires IsWordUpperBound(chunks, c) && WorkOf(chunks) + 1 < WORD
    ensures IsUpperBound(chunks, c) && 0 < c < WORD
    ensures WordL2(Works(chunks), c, c / 2 + 1) <= |CpuIds(chunks)|
  {
    UpperBoundsAgree(chunks, c);
    var makespan: nat, g: nat :| UpperBoundFrom(chunks, makespan, g, c);
    UpperBoundIsAbove(chunks, makespan, g, c);
    SweptBoundFits(chunks, c);
  }

  /** trial is the upper bound on the makespan and l the swept value for it. */
  ghost predicate BoundsAgree(chunks: seq<Chunk>, trial: nat, l: nat) {
    IsWordUpperBound(chunks, trial) && l == WordL2(Works(chunks), trial, trial / 2 + 1)
  }

  /** How many chunks have any work: with a capacity of zero each of them is big. */
  function Working(chunks: seq<Chunk>): nat {
    Sum(Works(chunks), Big(0), |chunks|)
  }

  /** With a capacity of zero the swept value counts the chunks that have work. */
  lemma NoCapacity(chunks: seq<Chunk>)
    requires WorkOf(chunks) < WORD
    ensures WordL2(Works(chunks), 0, 1) == Working(chunks)
  {
    var w := Works(chunks);
    PartsBelow(w, 0, 0, |w|);
    NoCapacityNoSmall(w, |w|);
    assert WordL2(w, 0, 1) == Max(WordL2(w, 0, 0), WordL2At(w, 0, 0));
  }

  /**
  Exactly when the domain is empty, for any total that fits a word: the upper bound on the
  makespan has wrapped to zero, and more chunks have work than there are CPUs.
  */
  lemma DomainExactly(chunks: seq<Chunk>, c: nat, l: nat)
    requires BoundsAgree(chunks, c, l) && WorkOf(chunks) < WORD
    ensures l <= |CpuIds(chunks)| <==> c > 0 || Working(chunks) <= |CpuIds(chunks)|
  {
    if c == 0 {
      NoCapacity(chunks);
    } else {
      UpperBoundIsExact(chunks, c);
      assert c < WORD by {
        var makespan: nat, g: nat :| WordUpperBoundFrom(chunks, makespan, g, c);
      }
      SweptBoundFits(chunks, c);
    }
  }

  // ----- the class ------------------------------------------------------------------------------

  lemma CpuIdsSnoc(chunks: seq<Chunk>, last: Chunk)
    ensures CpuIds(chunks + [last]) == CpuIds(chunks) + {last.cpu}
  {
    var more := chunks + [last];
    forall cpu
      ensures cpu in CpuIds(more) <==> cpu in CpuIds(chunks) + {last.cpu}
    {
      if cpu in CpuIds(chunks) {
        var k :| 0 <= k < |chunks| && chunks[k].cpu == cpu;
        assert more[k].cpu == cpu;
      }
      assert more[|chunks|] == last;
    }
  }

  lemma {:induction false} OthersHaveNoWork(chunks: seq<Chunk>, cpu: nat)
    requires cpu !in CpuIds(chunks)
    ensures CpuWork(chunks, cpu) == 0
  {
    if chunks != [] {
      var n := |chunks| - 1;
      assert chunks == chunks[..n] + [chunks[n]];
      CpuIdsSnoc(chunks[..n], chunks[n]);
      OthersHaveNoWork(chunks[..n], cpu);
    }
  }

  lemma MakespanIsUnique(chunks: seq<Chunk>, makespan: nat, makespan': nat)
    requires IsWordMakespan(chunks, makespan) && IsWordMakespan(chunks, makespan')
    ensures makespan == makespan'
  {
    assert makespan <= makespan' && makespan' <= makespan;
  }

  lemma UpperBoundIsUnique(chunks: seq<Chunk>, c: nat, c': nat)
    requires IsWordUpperBound(chunks, c) && IsWordUpperBound(chunks, c')
    ensures c == c'
  {
    var makespan: nat, g: nat :| WordUpperBoundFrom(chunks, makespan, g, c);
    var makespan': nat, g': nat :| WordUpperBoundFrom(chunks, makespan', g', c');
    WordGreedyMakespanIsUnique(Works(chunks), |CpuIds(chunks)|, g, g');
    MakespanIsUnique(chunks, makespan, makespan');
  }

  lemma SortingKeepsAll(chunks: seq<Chunk>, sorted: seq<Chunk>, makespan: nat)
    requires multiset(chunks) == multiset(sorted) && IsWordMakespan(chunks, makespan)
    ensures CpuIds(chunks) == CpuIds(sorted) && WorkOf(chunks) == WorkOf(sorted)
    ensures IsWordMakespan(sorted, makespan)
  {
    SortingKeepsCpus(chunks, sorted);
    forall cpu: nat
      ensures CpuWork(chunks, cpu) == CpuWork(sorted, cpu)
    {
      SortingKeepsWork(chunks, sorted, cpu);
    }
    SortingKeepsWork(chunks, sorted, 0);
  }

  lemma SortingKeepsWords(chunks: seq<Chunk>, sorted: seq<Chunk>)
    requires multiset(chunks) == multiset(sorted) && AllWords(Works(chunks))
    ensures AllWords(Works(sorted))
  {
    forall i | 0 <= i < |sorted|
      ensures Works(sorted)[i] < WORD
    {
      assert sorted[i] in multiset(chunks);
      var k :| 0 <= k < |chunks| && chunks[k] == sorted[i];
      assert Works(chunks)[k] < WORD;
    }
  }

  ghost predicate SweptFor(chunks: seq<Chunk>, l: nat) {
    exists c: nat :: BoundsAgree(chunks, c, l)
  }

  /** Both bounds are taken with the same upper bound on the makespan. */
  lemma BoundsFit(chunks: seq<Chunk>, trial: nat, l: nat)
    requires IsWordUpperBound(chunks, trial) && SweptFor(chunks, l)
    ensures BoundsAgree(chunks, trial, l)
    ensures WorkOf(chunks) + 1 < WORD ==> IsUpperBound(chunks, trial) && l <= |CpuIds(chunks)|
  {
    var c: nat :| BoundsAgree(chunks, c, l);
    UpperBoundIsUnique(chunks, c, trial);
    if WorkOf(chunks) + 1 < WORD {
      DomainNotEmpty(chunks, trial);
    }
  }

  class Schedule {
    var chunks: seq<Chunk>
    var cpus: set<nat>
    var totalWork: nat
    var makespan: nat
    var trialBoundMakespan: nat
    var lowerBoundNumCpus: nat

    /** What reading the rows and setting the makespan establishes, and sorting keeps. */
    ghost predicate Valid()
      reads this
    {
      && AllWords(Works(chunks))
      && cpus == CpuIds(chunks)
      && totalWork == Word(WorkOf(chunks))
      && IsWordMakespan(chunks, makespan)
    }

    /** The rows of a schedule file, and the same rows sorted by descending work. */
    constructor (rows: seq<Chunk>, sorted: seq<Chunk>)
      requires AllWords(Works(rows))
      requires multiset(rows) == multiset(sorted) && SortedDown(Works(sorted))
      ensures Valid() && chunks == sorted
      ensures cpus == CpuIds(rows) && totalWork == Word(WorkOf(rows)) && IsWordMakespan(rows, makespan)
      ensures BoundsAgree(sorted, trialBoundMakespan, lowerBoundNumCpus)
      ensures WorkOf(rows) + 1 < WORD ==>
        IsUpperBound(sorted, trialBoundMakespan) && lowerBoundNumCpus <= |cpus|
    {
      chunks, cpus, totalWork, makespan, lowerBoundNumCpus, trialBoundMakespan := [], {}, 0, 0, 1, 0;
      new;
      Read(rows);
      SetMakespan();
      Sort(sorted);
      SetBounds();
    }

    /** std::sort, whose result is given. */
    method Sort(sorted: seq<Chunk>)
      requires Valid() && multiset(chunks) == multiset(sorted)
      modifies this`chunks
      ensures Valid() && chunks == sorted
      ensures CpuIds(sorted) == CpuIds(old(chunks)) && WorkOf(sorted) == WorkOf(old(chunks))
    {
      SortingKeepsAll(chunks, sorted, makespan);
      SortingKeepsWords(chunks, sorted);
      chunks := sorted;
    }

    /** The loop of the constructor that reads the rows. */
    method Read(rows: seq<Chunk>)
      requires chunks == [] && cpus == {} && totalWork == 0
      modifies this`chunks, this`cpus, this`totalWork
      ensures chunks == rows && cpus == CpuIds(rows) && totalWork == Word(WorkOf(rows))
    {
      for i := 0 to |rows|
        invariant chunks == rows[..i] && cpus == CpuIds(chunks) && totalWork == Word(WorkOf(chunks))
      {
        WorkOfSnoc(chunks, rows[i]);
        CpuIdsSnoc(chunks, rows[i]);
        WordAdd(WorkOf(chunks), rows[i].work);
        cpus := cpus + {rows[i].cpu};
        totalWork := Word(totalWork + rows[i].work);
        chunks := chunks + [rows[i]];
      }
    }

    /** get_cpu_work */
    method GetCpuWork(cpu: nat) returns (work: nat)
      ensures work == Word(CpuWork(chunks, cpu))
    {
      work := 0;
      for i := 0 to |chunks|
        invariant work == Word(CpuWork(chunks[..i], cpu))
      {
        assert chunks[..i + 1][..i] == chunks[..i];
        if chunks[i].cpu == cpu {
          WordAdd(CpuWork(chunks[..i], cpu), chunks[i].work);
          work := Word(work + chunks[i].work);
        }
      }
      assert chunks[..|chunks|] == chunks;
    }

    /** The loop of the constructor that sets the makespan. */
    method SetMakespan()
      requires cpus == CpuIds(chunks)
      modifies this`makespan
      ensures IsWordMakespan(chunks, makespan)
    {
      makespan := 0;
      var rest := cpus;
      while rest != {}
        invariant rest <= cpus
        invariant forall cpu :: cpu in cpus - rest ==> Word(CpuWork(chunks, cpu)) <= makespan
        invariant makespan == 0 || exists cpu :: cpu in CpuIds(chunks) && Word(CpuWork(chunks, cpu)) == makespan
        decreases rest
      {
        var it :| it in rest;
        var work := GetCpuWork(it);
        if work > makespan {
          makespan := work;
        }
        rest := rest - {it};
      }
      forall cpu: nat
        ensures Word(CpuWork(chunks, cpu)) <= makespan
      {
        if cpu !in cpus {
          OthersHaveNoWork(chunks, cpu);
        }
      }
    }

    /** get_greedy_upper_bound_makespan */
    method GetGreedyUpperBoundMakespan() returns (bound: nat)
      requires Valid()
      ensures WordGreedyMakespan(Works(chunks), |cpus|, bound)
    {
      if |chunks| > 0 {
        assert chunks[0].cpu in cpus;
      }
      bound := GreedyUpperBoundMakespan(Works(chunks), |cpus|, totalWork);
    }

    /** get_upper_bound_makespan */
    method GetUpperBoundMakespan() returns (c: nat)
      requires Valid()
      ensures IsWordUpperBound(chunks, c) && c < WORD
    {
      var greedy := GetGreedyUpperBoundMakespan();
      c := Word(Min(makespan, greedy) + 1);
      assert WordUpperBoundFrom(chunks, makespan, greedy, c);
    }

    /** get_L2_lower_bound_cpus */
    method GetL2LowerBoundCpus() returns (l: nat)
      requires Valid() && SortedDown(Works(chunks))
      ensures SweptFor(chunks, l)
    {
      var c := GetUpperBoundMakespan();
      l := L2LowerBoundCpus(Works(chunks), c);
      assert BoundsAgree(chunks, c, l);
    }

    /** The end of the constructor. */
    method SetBounds()
      requires Valid() && SortedDown(Works(chunks))
      modifies this`lowerBoundNumCpus, this`trialBoundMakespan
      ensures BoundsAgree(chunks, trialBoundMakespan, lowerBoundNumCpus)
      ensures WorkOf(chunks) + 1 < WORD ==>
        IsUpperBound(chunks, trialBoundMakespan) && lowerBoundNumCpus <= |cpus|
    {
      lowerBoundNumCpus := GetL2LowerBoundCpus();
      trialBoundMakespan := GetUpperBoundMakespan();
      BoundsFit(chunks, trialBoundMakespan, lowerBoundNumCpus);
    }
  }
}
