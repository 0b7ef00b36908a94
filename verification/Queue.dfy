/**
The bounded queue of src/mir_queue.c as the object the policies call. The bodies are run
without interference (both locks are free), and each is shown to be exactly the
uninterrupted run of the corresponding steps of `QueueMachine`.
*/
module Queue {
  import opened Runs
  import opened Wrappers
  import M = QueueMachine

  lemma Perform<T(!new)>(s: M.State<T>, mid: M.State<T>, a: M.Action<T>) returns (mid': M.State<T>)
    requires M.Inv(mid) && Reaches(M.Step<T>, s, mid) && M.Enabled(mid, a)
    ensures mid' == M.Next(mid, a).0 && M.Inv(mid') && Reaches(M.Step<T>, s, mid')
  {
    mid' := M.Next(mid, a).0;
    assert M.Step(mid, M.Next(mid, a).1, mid');
    ReachesSnoc(M.Step<T>, s, mid, M.Next(mid, a).1, mid');
    M.StepRefines(mid, a);
  }

  /** No thread is inside. */
  ghost predicate Quiet<T>(s: M.State<T>) {
    M.Inv(s) && s.enq == M.FREE && s.deq == M.FREE && s.threads == [M.Out]
  }

  /** The steps of a push, with no other thread in between. */
  lemma SoloPush<T(!new)>(s: M.State<T>, x: T) returns (s': M.State<T>)
    requires Quiet(s)
    ensures Reaches(M.Step<T>, s, s') && Quiet(s')
    ensures s' == if s.size == s.capacity then s
      else s.(buffer := s.buffer[s.inn := x], inn := M.Advance(s.inn, s.capacity), size := s.size + 1)
  {
    ReachesSelf(M.Step<T>, s);
    s' := Perform(s, s, M.BeginPush(0, x));
    s' := Perform(s, s', M.Go(0));
    s' := Perform(s, s', M.Go(0));
    if s.size < s.capacity {
      assert s'.threads == [M.PushWrite(x)];
      s' := Perform(s, s', M.Go(0));
      assert s'.threads == [M.PushAdvance(x)];
      s' := Perform(s, s', M.Go(0));
      assert s'.threads == [M.PushCount(x)];
      s' := Perform(s, s', M.Go(0));
    }
    assert s'.threads == [M.PushUnlock];
    s' := Perform(s, s', M.Go(0));
  }

  /** The steps of a pop, with no other thread in between. */
  lemma SoloPop<T(!new)>(s: M.State<T>) returns (s': M.State<T>)
    requires Quiet(s)
    ensures Reaches(M.Step<T>, s, s') && Quiet(s')
    ensures s' == if s.size == 0 then s
      else s.(out := M.Advance(s.out, s.capacity), size := s.size - 1)
  {
    ReachesSelf(M.Step<T>, s);
    s' := Perform(s, s, M.BeginPop(0));
    s' := Perform(s, s', M.Go(0));
    s' := Perform(s, s', M.Go(0));
    if s.size > 0 {
      assert s'.threads == [M.PopRead];
      s' := Perform(s, s', M.Go(0));
      assert s'.threads[0].PopGate?;
      s' := Perform(s, s', M.Go(0));
      s' := Perform(s, s', M.Go(0));
      assert s'.threads == [M.PopAdvance];
      s' := Perform(s, s', M.Go(0));
    }
    assert s'.threads == [M.PopUnlock];
    s' := Perform(s, s', M.Go(0));
  }

  lemma PushedContents<T>(s: M.State<T>, x: T)
    requires Quiet(s) && s.size < s.capacity
    ensures var s' := s.(buffer := s.buffer[s.inn := x], inn := M.Advance(s.inn, s.capacity), size := s.size + 1);
      M.Contents(s') == M.Contents(s) + [x]
  {
    var s' := s.(buffer := s.buffer[s.inn := x], inn := M.Advance(s.inn, s.capacity), size := s.size + 1);
    assert M.Contents(s') == M.Contents(s) + [x];
  }

  lemma PoppedContents<T>(s: M.State<T>)
    requires Quiet(s) && s.size > 0
    ensures var s' := s.(out := M.Advance(s.out, s.capacity), size := s.size - 1);
      M.Contents(s) == [s.buffer[s.out]] + M.Contents(s')
  {
    var s' := s.(out := M.Advance(s.out, s.capacity), size := s.size - 1);
    assert M.Contents(s) == [s.buffer[s.out]] + M.Contents(s');
  }

  class BoundedQueue<T(0,!new)> {
    const capacity: nat
    const buffer: array<T>
    var inn: nat
    var out: nat
    var size: nat

    /** The machine's view of the object between calls. */
    ghost function View(): M.State<T>
      reads this, buffer
    {
      M.State(capacity, buffer[..], inn, out, size, M.FREE, M.FREE, [M.Out])
    }

    ghost predicate Valid()
      reads this, buffer
    {
      capacity == buffer.Length && Quiet(View())
    }

    ghost function Contents(): (q: seq<T>)
      requires Valid()
      reads this, buffer
      ensures |q| == size
    {
      M.Contents(View())
    }

    /** mir_queue_create */
    constructor (n: nat)
      requires n > 0
      ensures Valid() && Contents() == [] && capacity == n && fresh(buffer)
    {
      capacity := n;
      buffer := new T[n];
      inn, out, size := 0, 0, 0;
      new;
      M.InitInv(View());
    }

    /** mir_queue_push: refused exactly when the queue is full. */
    method Push(data: T) returns (pushed: bool)
      requires Valid()
      modifies this, buffer
      ensures Valid()
      ensures pushed == (|old(Contents())| < capacity)
      ensures Contents() == if pushed then old(Contents()) + [data] else old(Contents())
      ensures Reaches(M.Step<T>, old(View()), View())
    {
      ghost var s' := SoloPush(View(), data);
      if size == capacity {
        return false;
      }
      PushedContents(View(), data);
      buffer[inn] := data;
      inn := inn + 1;
      if inn >= capacity {
        inn := inn - capacity;
      }
      size := size + 1;
      assert s' == View();
      return true;
    }

    /** mir_queue_pop: the oldest element, or nothing when the queue is empty. */
    method Pop() returns (data: Option<T>)
      requires Valid()
      modifies this
      ensures Valid()
      ensures old(Contents()) == [] ==> data == None && Contents() == []
      ensures old(Contents()) != [] ==> data.Some? && old(Contents()) == [data.value] + Contents()
      ensures Reaches(M.Step<T>, old(View()), View())
    {
      ghost var s' := SoloPop(View());
      if size == 0 {
        return None;
      }
      PoppedContents(View());
      data := Some(buffer[out]);
      size := size - 1;
      out := out + 1;
      if out >= capacity {
        out := out - capacity;
      }
      assert s' == View();
    }
  }
}
