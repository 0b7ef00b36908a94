/**
Schedules on which the bounds computed in 32-bit words are not what they are as numbers: one
whose lower bound on the CPUs is lost to a rounding that wraps, and two whose lower bound
exceeds the number of their CPUs, because the total work wraps or the upper bound does.
*/
module ScheduleLimits {
  import opened Wrappers
  import opened Packing
  import opened Greedy
  import opened L2Sweep
  import opened LoopSchedule

  lemma LoadsOfFour(w: seq<nat>, a: seq<nat>, b: nat)
    requires |w| == |a| == 4
    ensures LoadTo(w, a, b, 0) == 0
    ensures LoadTo(w, a, b, 1) == (if a[0] == b then w[0] else 0)
    ensures LoadTo(w, a, b, 2) == LoadTo(w, a, b, 1) + (if a[1] == b then w[1] else 0)
    ensures LoadTo(w, a, b, 3) == LoadTo(w, a, b, 2) + (if a[2] == b then w[2] else 0)
    ensures LoadTo(w, a, b, 4) == LoadTo(w, a, b, 3) + (if a[3] == b then w[3] else 0)
  {
  }

  lemma LoadsOfThree(w: seq<nat>, a: seq<nat>, b: nat)
    requires |w| == |a| == 3
    ensures LoadTo(w, a, b, 0) == 0
    ensures LoadTo(w, a, b, 1) == (if a[0] == b then w[0] else 0)
    ensures LoadTo(w, a, b, 2) == LoadTo(w, a, b, 1) + (if a[1] == b then w[1] else 0)
    ensures LoadTo(w, a, b, 3) == LoadTo(w, a, b, 2) + (if a[2] == b then w[2] else 0)
  {
  }

  lemma SumOfThree(w: seq<nat>, f: nat -> nat)
    requires |w| == 3
    ensures Sum(w, f, 3) == f(w[0]) + f(w[1]) + f(w[2])
  {
    assert Sum(w, f, 1) == f(w[0]);
    assert Sum(w, f, 2) == f(w[0]) + f(w[1]);
  }

  lemma CpuWorkIsCpuLoad(chunks: seq<Chunk>, cpu: nat)
    ensures CpuWork(chunks, cpu) == Load(Works(chunks), Cpus(chunks), cpu)
  {
    CpuWorkIsLoad(chunks, cpu, |chunks|);
    assert chunks[..|chunks|] == chunks;
  }

  // ----- a bound lost to rounding -------------------------------------------------------------

  const WRAPPING_ROWS: seq<Chunk> := [
    Chunk(0, 0, 0, WORD / 4), Chunk(1, 1, 1, WORD / 4), Chunk(2, 2, 0, WORD / 4), Chunk(3, 3, 1, WORD / 4 - 2)]

  lemma WrappingRows()
    ensures Works(WRAPPING_ROWS) == WRAPPING && Cpus(WRAPPING_ROWS) == [0, 1, 0, 1]
    ensures CpuIds(WRAPPING_ROWS) == {0, 1} && |CpuIds(WRAPPING_ROWS)| == 2
    ensures WorkOf(WRAPPING_ROWS) == WORD - 2
  {
    WrappingSums(0);
    forall cpu
      ensures cpu in CpuIds(WRAPPING_ROWS) <==> cpu in {0, 1}
    {
      assert WRAPPING_ROWS[0].cpu == 0 && WRAPPING_ROWS[1].cpu == 1;
    }
  }

  lemma WrappingLoads(b: nat)
    ensures Load(WRAPPING, [0, 1, 0, 1], b) == if b == 0 then WORD / 2 else if b == 1 then WORD / 2 - 2 else 0
  {
    LoadsOfFour(WRAPPING, [0, 1, 0, 1], b);
  }

  lemma WrappingMakespan()
    ensures IsMakespan(WRAPPING_ROWS, WORD / 2)
  {
    WrappingRows();
    forall cpu: nat
      ensures CpuWork(WRAPPING_ROWS, cpu) == Load(WRAPPING, [0, 1, 0, 1], cpu) <= WORD / 2
    {
      CpuWorkIsCpuLoad(WRAPPING_ROWS, cpu);
      WrappingLoads(cpu);
    }
    WrappingLoads(0);
    assert 0 in CpuIds(WRAPPING_ROWS);
  }

  lemma WrappingGreedy()
    ensures GreedyMakespan(WRAPPING, 2, WORD / 2)
  {
    var a: seq<nat> := [0, 1, 0, 1];
    LoadsOfFour(WRAPPING, a, 0);
    LoadsOfFour(WRAPPING, a, 1);
    forall i | 0 <= i < 4
      ensures LeastLoaded(WRAPPING, a, 2, i, a[i])
    {
      assert i == 0 || i == 1 || i == 2 || i == 3;
    }
    WrappingLoads(0);
    WrappingLoads(1);
    assert GreedyLargest(WRAPPING, a, 2, WORD / 2);
  }

  /** The capacity that loses the bound is the upper bound on the makespan of these rows. */
  lemma WrappingIsReached()
    ensures IsUpperBound(WRAPPING_ROWS, WRAPPING_CAPACITY)
    ensures IsWordUpperBound(WRAPPING_ROWS, WRAPPING_CAPACITY)
  {
    WrappingRows();
    WrappingMakespan();
    WrappingGreedy();
    assert UpperBoundFrom(WRAPPING_ROWS, WORD / 2, WORD / 2, WRAPPING_CAPACITY);
    UpperBoundsAgree(WRAPPING_ROWS, WRAPPING_CAPACITY);
  }

  lemma LostBound(c: nat, l: nat)
    requires BoundsAgree(WRAPPING_ROWS, c, l)
    ensures c == WRAPPING_CAPACITY && l == 0
    ensures L2(Works(WRAPPING_ROWS), c, c / 2 + 1) == 2
  {
    WrappingIsReached();
    UpperBoundIsUnique(WRAPPING_ROWS, c, WRAPPING_CAPACITY);
    assert Works(WRAPPING_ROWS) == WRAPPING by {
      WrappingRows();
    }
    WrapLosesBound(WRAPPING_CAPACITY / 2 + 1);
  }

  lemma WrappingSorted()
    ensures SortedDown(Works(WRAPPING_ROWS)) && AllWords(Works(WRAPPING_ROWS))
    ensures Word(WorkOf(WRAPPING_ROWS)) == WORD - 2
  {
    WrappingRows();
  }

  /** A schedule read from rows whose total fits a word: the lower bound is 0 and should be 2. */
  method LosesBound() returns (s: Schedule)
    ensures s.chunks == WRAPPING_ROWS && s.totalWork == WORD - 2
    ensures s.trialBoundMakespan == WRAPPING_CAPACITY && s.lowerBoundNumCpus == 0
    ensures L2(Works(s.chunks), s.trialBoundMakespan, s.trialBoundMakespan / 2 + 1) == 2
  {
    WrappingSorted();
    s := new Schedule(WRAPPING_ROWS, WRAPPING_ROWS);
    LostBound(s.trialBoundMakespan, s.lowerBoundNumCpus);
  }

  // ----- an empty domain -----------------------------------------------------------------------

  const UNIT: nat := WORD / 16

  /** 17 units of work on two CPUs, neither of which has a word of it. */
  const OVERFULL: seq<Chunk> := [Chunk(0, 0, 1, 15 * UNIT), Chunk(1, 1, 0, UNIT), Chunk(2, 2, 0, UNIT)]

  lemma OverfullRows()
    ensures Works(OVERFULL) == [15 * UNIT, UNIT, UNIT] && Cpus(OVERFULL) == [1, 0, 0]
    ensures CpuIds(OVERFULL) == {0, 1} && |CpuIds(OVERFULL)| == 2
    ensures WorkOf(OVERFULL) == WORD + UNIT
  {
    SumOfThree(Works(OVERFULL), Same);
    forall cpu
      ensures cpu in CpuIds(OVERFULL) <==> cpu in {0, 1}
    {
      assert OVERFULL[0].cpu == 1 && OVERFULL[1].cpu == 0;
    }
  }

  lemma OverfullMakespan()
    ensures IsWordMakespan(OVERFULL, 15 * UNIT)
    ensures forall cpu: nat :: CpuWork(OVERFULL, cpu) < WORD
  {
    OverfullRows();
    forall cpu: nat
      ensures CpuWork(OVERFULL, cpu) == if cpu == 0 then 2 * UNIT else if cpu == 1 then 15 * UNIT else 0
    {
      CpuWorkIsCpuLoad(OVERFULL, cpu);
      LoadsOfThree(Works(OVERFULL), Cpus(OVERFULL), cpu);
    }
    assert 1 in CpuIds(OVERFULL);
  }

  /** Each slack wraps, and everything is put into the first bin, whose load wraps. */
  lemma OverfullGreedy()
    ensures WordGreedyMakespan(Works(OVERFULL), 2, UNIT)
  {
    OverfullRows();
    var w, a: seq<nat> := Works(OVERFULL), [0, 0, 0];
    LoadsOfThree(w, a, 0);
    LoadsOfThree(w, a, 1);
    assert SlackWord(w, a, 0, 0) == SlackWord(w, a, 0, 1) == 2 * UNIT;
    assert SlackWord(w, a, 1, 0) == UNIT && SlackWord(w, a, 1, 1) == 0;
    assert SlackWord(w, a, 2, 0) == 0 && SlackWord(w, a, 2, 1) == 0;
    forall i | 0 <= i < 3
      ensures MostSlack(w, a, 2, i, a[i])
    {
      assert i == 0 || i == 1 || i == 2;
    }
    WordTurn(UNIT);
    assert Load(w, a, 0) == WORD + UNIT && Word(Load(w, a, 0)) == UNIT && Word(Load(w, a, 1)) == 0;
    assert WordLargest(w, a, 2, UNIT);
  }

  lemma OverfullValue()
    ensures WordL2At(Works(OVERFULL), UNIT + 1, 0) == 3
  {
    OverfullRows();
    var w := Works(OVERFULL);
    SumOfThree(w, Big(UNIT + 1));
    SumOfThree(w, Free(UNIT + 1, 0));
    SumOfThree(w, Small(UNIT + 1, 0));
  }

  lemma OverfullUpperBound()
    ensures IsWordUpperBound(OVERFULL, UNIT + 1)
  {
    OverfullRows();
    OverfullMakespan();
    OverfullGreedy();
    assert WordUpperBoundFrom(OVERFULL, 15 * UNIT, UNIT, UNIT + 1);
  }

  /** A value taken on the way is below the swept value. */
  lemma AtLeastFirst(w: seq<nat>, c: nat, l: nat)
    requires l == WordL2(w, c, c / 2 + 1) && c > 0
    ensures l >= WordL2At(w, c, 0)
  {
    ValuesBelow(w, c, 0, c / 2 + 1);
  }

  /** Without room for the total work in a word, the domain of the number of CPUs can be empty. */
  lemma DomainCanBeEmpty(c: nat, l: nat)
    requires BoundsAgree(OVERFULL, c, l)
    ensures l > |CpuIds(OVERFULL)|
  {
    assert |CpuIds(OVERFULL)| == 2 by {
      OverfullRows();
    }
    OverfullUpperBound();
    UpperBoundIsUnique(OVERFULL, c, UNIT + 1);
    OverfullValue();
    AtLeastFirst(Works(OVERFULL), c, l);
  }

  lemma OverfullSorted()
    ensures SortedDown(Works(OVERFULL)) && AllWords(Works(OVERFULL))
  {
    OverfullRows();
  }

  /** The schedule read from those rows. */
  method EmptyDomain() returns (s: Schedule)
    ensures s.chunks == OVERFULL && s.lowerBoundNumCpus > |s.cpus|
  {
    OverfullSorted();
    s := new Schedule(OVERFULL, OVERFULL);
    DomainCanBeEmpty(s.trialBoundMakespan, s.lowerBoundNumCpus);
  }

  // ----- an upper bound that wraps -------------------------------------------------------------

  /** One CPU with all the work of a word: one more is zero. */
  const FULL: seq<Chunk> := [Chunk(0, 0, 0, WORD / 2), Chunk(1, 1, 0, WORD / 2 - 1)]

  lemma SumOfTwo(w: seq<nat>, f: nat -> nat)
    requires |w| == 2
    ensures Sum(w, f, 2) == f(w[0]) + f(w[1])
  {
    assert Sum(w, f, 1) == f(w[0]);
  }

  lemma FullRows()
    ensures Works(FULL) == [WORD / 2, WORD / 2 - 1] && Cpus(FULL) == [0, 0]
    ensures CpuIds(FULL) == {0} && |CpuIds(FULL)| == 1
    ensures WorkOf(FULL) == WORD - 1 && Working(FULL) == 2
  {
    SumOfTwo(Works(FULL), Same);
    SumOfTwo(Works(FULL), Big(0));
    forall cpu
      ensures cpu in CpuIds(FULL) <==> cpu in {0}
    {
      assert FULL[0].cpu == 0;
    }
  }

  lemma FullLoads(b: nat)
    ensures Load(Works(FULL), [0, 0], b) == if b == 0 then WORD - 1 else 0
  {
    var w, a: seq<nat> := Works(FULL), [0, 0];
    FullRows();
    assert LoadTo(w, a, b, 0) == 0;
    assert LoadTo(w, a, b, 1) == LoadTo(w, a, b, 0) + (if a[0] == b then w[0] else 0);
  }

  lemma FullUpperBound()
    ensures IsWordUpperBound(FULL, 0)
  {
    FullRows();
    var w, a: seq<nat> := Works(FULL), [0, 0];
    forall cpu: nat
      ensures Word(CpuWork(FULL, cpu)) == Load(w, a, cpu) <= WORD - 1
    {
      CpuWorkIsCpuLoad(FULL, cpu);
      FullLoads(cpu);
    }
    FullLoads(0);
    assert 0 in CpuIds(FULL) && IsWordMakespan(FULL, WORD - 1);
    assert WordLargest(w, a, 1, WORD - 1);
    WordTurn(0);
    assert WordUpperBoundFrom(FULL, WORD - 1, WORD - 1, 0);
  }

  /** A total that just fits a word: the upper bound is 0, and the lower bound 2 on one CPU. */
  lemma UpperBoundCanWrap(c: nat, l: nat)
    requires BoundsAgree(FULL, c, l)
    ensures c == 0 && l > |CpuIds(FULL)|
  {
    FullUpperBound();
    UpperBoundIsUnique(FULL, c, 0);
    FullRows();
    DomainExactly(FULL, c, l);
  }
}
