/**
What the fork-join machine leaves open, so that the promises about its runs are promises about
every schedule: a spawned body may run inline, at once, or as a task that any worker, or one
named worker, may take.
*/
module ForkJoinOffers {
  import opened Wrappers
  import opened Program
  import opened ForkJoinMachine
  import opened ForkJoinInvariant
  import opened ForkJoinSteps

  /** Worker v looks for tasks: it has none on its stack, or it waits and helps. */
  predicate LooksForTasks(s: State, v: nat)
    requires Shape(s)
  {
    v < |s.stacks| && (s.stacks[v] == [] || Cur(s, v).mode.Helping?)
  }

  lemma EnqueueShape(p: Program, s: State, w: nat, target: Option<nat>)
    requires Inv(p, s) && Enabled(p, s, Enqueue(w, target))
    ensures var (s', n) := (Next(p, s, Enqueue(w, target)), Cur(s, w).mode.child);
      && Inv(p, s') && s'.stacks == s.stacks && n < |s.calls| == |s'.calls| && n != Top(s, w)
      && s'.calls == s.calls[Top(s, w) := s.calls[Top(s, w)].(mode := Running)]
                       [n := s.calls[n].(place := Queued(target))]
      && s.calls[n].place == Fresh(w)
  {
    EnqueueInv(p, s, w, target);
    assert FrameOk(s, w, |s.stacks[w]| - 1);
  }

  /** A worker other than the creator is where it was. */
  lemma OtherWorkerKept(p: Program, s: State, w: nat, target: Option<nat>, v: nat)
    requires Inv(p, s) && Enabled(p, s, Enqueue(w, target)) && v < |s.stacks| && v != w && Busy(s, v)
    ensures var s' := Next(p, s, Enqueue(w, target));
      Shape(s') && Busy(s', v) && Top(s', v) == Top(s, v) && Cur(s', v) == Cur(s, v)
  {
    EnqueueShape(p, s, w, target);
    assert FrameOk(s, w, |s.stacks[w]| - 1) && FrameOk(s, v, |s.stacks[v]| - 1);
  }

  /**
  A task pushed to the policy may be taken by every worker, one pushed to a worker by that
  worker only; and whoever may take it and looks for tasks does not have to wait.
  */
  lemma EnqueueOffers(p: Program, s: State, w: nat, target: Option<nat>, v: nat)
    requires Inv(p, s) && Enabled(p, s, Enqueue(w, target)) && v < |s.stacks|
    ensures var (s', n) := (Next(p, s, Enqueue(w, target)), Cur(s, w).mode.child);
      && Inv(p, s')
      && (MayTake(s', v, n) <==> target == None || target == Some(v))
      && (v != w ==> (LooksForTasks(s', v) <==> LooksForTasks(s, v)))
      && (Enabled(p, s', Take(v, n)) <==> MayTake(s', v, n) && LooksForTasks(s', v))
  {
    EnqueueShape(p, s, w, target);
    if v != w && Busy(s, v) {
      OtherWorkerKept(p, s, w, target, v);
    }
  }

  /** Taking a task runs it: its body starts with its own argument, on top of what the worker had. */
  lemma TakeRuns(p: Program, s: State, v: nat, n: nat)
    requires Inv(p, s) && Enabled(p, s, Take(v, n))
    ensures var s' := Next(p, s, Take(v, n));
      && Shape(s') && s'.stacks == s.stacks[v := s.stacks[v] + [n]]
      && Top(s', v) == n && Cur(s', v).mode.Running? && Cur(s', v).arg == s.calls[n].arg
      && Wants(p, s', v) == p(s.calls[n].arg, s.calls[n].hist, |s.calls[n].kids|)
  {
    StartShape(s, v, n);
  }

  /** Stealing happens: a task offered to all is started by any other worker that looks for tasks. */
  lemma OfferedTaskRuns(p: Program, s: State, w: nat, target: Option<nat>, v: nat) returns (s': State)
    requires Inv(p, s) && Enabled(p, s, Enqueue(w, target))
    requires v != w && LooksForTasks(s, v) && (target == None || target == Some(v))
    ensures var (s1, n) := (Next(p, s, Enqueue(w, target)), Cur(s, w).mode.child);
      && Inv(p, s1) && Enabled(p, s1, Take(v, n)) && s' == Next(p, s1, Take(v, n))
      && Shape(s') && Busy(s', v) && Top(s', v) == n && Cur(s', v).arg == s.calls[n].arg
      && Cur(s', v).place == OnStack(v, |s.stacks[v]|)
  {
    var s1, n := Next(p, s, Enqueue(w, target)), Cur(s, w).mode.child;
    EnqueueOffers(p, s, w, target, v);
    EnqueueShape(p, s, w, target);
    TakeRuns(p, s1, v, n);
    s' := Next(p, s1, Take(v, n));
  }

  /** Where a body spawns, it may be run inline or become a task, and the task may go anywhere or run at once. */
  lemma SpawnChoices(p: Program, s: State, w: nat, target: Option<nat>)
    requires Inv(p, s) && Busy(s, w) && Cur(s, w).mode.Running? && Wants(p, s, w).Spawn?
    requires target.Some? ==> target.value < |s.stacks|
    ensures Enabled(p, s, RunInline(w)) && Enabled(p, s, Create(w))
    ensures var s' := Next(p, s, Create(w));
      && Inv(p, s') && Enabled(p, s', Enqueue(w, target)) && Enabled(p, s', ExecuteNow(w))
      && Cur(s', w).mode.child == |s.calls|
      && s'.calls[|s.calls|].arg == Wants(p, s, w).arg
      && s'.calls[|s.calls|].home == Cur(s, w).ctx
  {
    CreateInv(p, s, w);
  }

  /** The twin of a task has its data and its parent. */
  lemma TwinIsTwin(p: Program, s: State, w: nat)
    requires Inv(p, s) && Enabled(p, s, CreateTwin(w))
    ensures var (s', n, t) := (Next(p, s, CreateTwin(w)), |s.calls|, Cur(s, w).ctx);
      && Inv(p, s') && Busy(s', w) && Cur(s', w).mode == Created(n)
      && s'.calls[n].arg == s.calls[t].arg && s'.calls[n].home == s.calls[t].home
      && s'.calls[n].isTask && s'.calls[n].hist == [] && s'.calls[n].kids == []
      && Cur(s', w).kids == Cur(s, w).kids
      && s'.twcs[s.calls[t].home].count == s.twcs[s.calls[t].home].count + 1
  {
    CreateTwinInv(p, s, w);
  }
}
