# MIR runtime: a verified model

MIR is a task-parallel runtime in C. This project models its concurrent cores and the bounds
of its loop scheduler in Dafny and proves what they are meant to guarantee. `dafny verify
dfyconfig.toml` checks all of it.

Code that several workers run at once is a state machine with one shared access per step,
under sequential consistency and for any number of workers. The same code run by one worker
is a class or a method with loops, proved against functions of the old state, and for the
deque and the bounded queue shown to be an uninterrupted run of the machine.

| modules | what they model |
|---|---|
| `DequeMachine`, `Deque` | the Chase-Lev work-stealing deque: linearizability, conservation, live slots, the object itself |
| `QueueMachine`, `Queue` | the two-lock bounded queue with the team gate of the task queue |
| `Program`, `ForkJoinMachine`, `ForkJoinInvariant`, `ForkJoinFrames`, `ForkJoinCounters`, `ForkJoinMeaning`, `ForkJoinSteps`, `ForkJoin`, `ForkJoinOffers`, `Fib`, `WaitCounter` | tasks, wait counters with per-worker slots, nested helping, inlining; soundness of the wait (the taskwait construct, section 2.8.4 of the OpenMP API 3.0), results, progress |
| `PolicyMachine`, `PolicyAccounting`, `Policy`, `PolicyDeques`, `VictimScan`, `WsPolicy` | the policies ws and ws-de: exactly-once execution over atomic queues and over the real deques, the global counters, the search for a victim |
| `Packing`, `L2Sweep`, `Greedy`, `LoopSchedule`, `ScheduleLimits`, `Symmetry` | the bounds of the loop scheduler in 32-bit words, where they fail, and the constraints it posts |
| `MemDist` | bytes per NUMA node of an address range |
| `Runs`, `Wrappers` | runs of machines, result shapes, words |

## Findings

- Two global counters at zero do not mean that all tasks are done. A worker lowers
  `g_num_tasks_waiting` before it raises `g_worker_status_board`
  (`src/scheduling/mir_sched_pol_ws_de.c:105-134`, `src/mir_worker.c:282-296`;
  `Policy.LooksDoneTooEarly`), and a pusher raises `g_num_tasks_waiting` after its task is in the
  deque (`src/scheduling/mir_sched_pol_ws_de.c:62-74`; `Policy.LooksDoneBeforeCounting`). They
  mean it exactly when no worker is at either point (`Policy.DoneExactly`,
  `PolicyDeques.DoneExactly`).
- The rounding in the bin bound can wrap in 32 bits, and then the bound is lost
  (`scripts/profiling/task/for-loop/mir_loop_scheduler.cpp:155`): a schedule of four chunks on two
  CPUs has the lower bound 0 instead of 2 (`ScheduleLimits.LosesBound`). The swept value is never
  too high, and it is right if and only if some k attains the bound without a wrap
  (`L2Sweep.WordL2Exactly`); work and capacity together in one word are enough.
- The lower bound on the number of CPUs can exceed the number of CPUs when the total work does not
  fit a word (`scripts/profiling/task/for-loop/mir_loop_scheduler.cpp:78-105` and `:128-156`;
  `ScheduleLimits.EmptyDomain`): no CPU's own work wraps there. With a total and one more in a word
  it never does (`LoopSchedule.DomainNotEmpty`), and with a total in a word it does exactly when the
  upper bound wraps to 0 and more chunks have work than there are CPUs
  (`LoopSchedule.DomainExactly`, `ScheduleLimits.UpperBoundCanWrap`).
- A range that fits one page is counted twice when the machine reports 65535 nodes and the range
  is on node 0 (`src/mir_mem_pol.c:187-202`; `MemDist.GetMemNodeDist`,
  `MemDist.StartsOnNodeExactly`), and only then. No architecture in the repository has that many:
  `src/arch` describes machines of 1, 1, 8 and 64 nodes.
- A page of 65536 bytes is a page of 0 in `uint16_t`, and the loop over the pages does not end
  (`src/mir_mem_pol.c:185-193`; `MemDist.GetMemNodeDist`).
- Items that need a bin of their own are not all seen when a doubled work wraps in 32 bits
  (`scripts/profiling/task/for-loop/mir_loop_scheduler.cpp:653`; `Symmetry.ForcedItemsCanBeLost`).
  No solution is lost (`Symmetry.OptimumKept`), and without a wrap all are seen
  (`Symmetry.ForcedItemsExactly`).
- A deque request of 2^31 or more rounds to a size of zero (`src/mir_dequeue.c:86-100`;
  `Deque.NewWSDeque`).

## Model

| member | source | states |
|---|---|---|
| `DequeMachine.StepRefines` | src/mir_dequeue.c:148-322 | One access of the owner or of any thief keeps the invariant, never lowers `top`, and changes the contents by one operation of the atomic deque (push and pop at the back, steal at the front, refusal exactly when full, empty pop exactly when empty) or not at all. |
| `DequeMachine.RunsRefineAtomicDeque` | src/mir_dequeue.c:148-322 | Linearizability: every interleaving of one owner and any number of thieves is, event for event, a run of the atomic bounded deque from empty; refused pushes find it full, and pops and steals that return nothing find it empty. The last element leaves it when the owner lowers `bottom` to it. |
| `DequeMachine.StepLinearizes` | src/mir_dequeue.c:148-322 | One access is one operation of the atomic deque, or nothing, or it settles who gets the one element that has left the atomic deque and has not been handed out yet. |
| `DequeMachine.EmptyReturn` | src/mir_dequeue.c:206-253 | The step with which a thief reports nothing is taken at a moment when the atomic deque is empty. |
| `DequeMachine.AwardedInProgress` | src/mir_dequeue.c:160-242 | The last element goes to an operation that was in progress when it left the atomic deque: the pop of the owner, or the steal of a thief that had by then seen `bottom` above it. |
| `DequeMachine.StealsReturn` | src/mir_dequeue.c:206-253 | In every run a call of stealWSDeque returns with the oldest element, or with nothing at a moment when the atomic deque is empty, and in no other way; a lost compare-and-swap is no return. |
| `DequeMachine.StealReturns` | src/mir_dequeue.c:206-253 | One step: a thief is out of its call exactly with the event that carries its result. |
| `DequeMachine.OwnerDecides` | src/mir_dequeue.c:148-322 | A push or pop of the owner is undecided from its start to its one event, which carries the pushed element or the result of the pop. |
| `DequeMachine.OwnerWaitFree` | src/mir_dequeue.c:148-322 | Whatever the thieves do, each step of the owner brings its call closer to the end: at most four are left. |
| `DequeMachine.StealBegins` | src/mir_dequeue.c:244-253 | A call of stealWSDeque begins with an attempt, touches nothing shared, and left alone is over in four steps. |
| `DequeMachine.StealEnds` | src/mir_dequeue.c:206-253 | From any point of its call, in any reachable state, a thief that is left alone returns. |
| `DequeMachine.LookAnswers` | src/mir_dequeue.h:412-425 | The owner's answer "empty" is always the truth, and undisturbed both answers are exact. |
| `DequeMachine.Conservation` | src/mir_dequeue.c:148-322 | At every point of every run the accepted pushes are, as a multiset, the live contents plus everything popped plus everything stolen. |
| `DequeMachine.LiveSlotsKept` | src/mir_dequeue.c:276-318 | A live position keeps its slot and its element through any step, and `top` never decreases, so a thief that wins returns the element of its position. |
| `DequeMachine.WriteInv` | src/mir_dequeue.c:308-318 | Writing the slot at `bottom` before publishing it changes no live element. |
| `DequeMachine.ThiefFailsForCause` | src/mir_dequeue.c:206-253 | A thief loses its compare-and-swap only to another advance of `top`, and gives up only on a deque that is empty or whose single element the owner is popping. |
| `DequeMachine.SourceAssertions` | src/mir_dequeue.c:156-195 | In every reachable state `topBound` is at most `top`, the guarded decrement of `bottom` does not wrap, the unsigned full test does not wrap, a pop leaves `bottom` at least `top`, and at most size - 1 positions are live between calls. |
| `Deque.RoundUp2` | src/mir_dequeue.c:86-100 | The shifting loop returns a power of two strictly above the request and at most twice it, and zero for requests of 2^31 or more. |
| `Deque.RoundedWord` | src/mir_dequeue.c:86-100 | Where the bit above the request lies, and from which request on it falls out of a 32-bit word. |
| `Deque.MaskIsModulo` | src/mir_dequeue.c:118-119 | Masking by size - 1 is the remainder by size for every power of two. |
| `Deque.MaskIsSlot` | src/mir_dequeue.c:118-119 | The masked index of the source is the slot the machine uses, for every power of two. |
| `Deque.NewWSDeque` | src/mir_dequeue.c:102-123 | An empty deque with a power of two above the request, or the error the source stops with: a request of zero, or one whose rounded size is a word of zero. |
| `Deque.WSDeque.constructor` | src/mir_dequeue.c:110-122 | The fields of a new deque satisfy the invariant and hold nothing. |
| `Deque.WSDeque.LooksEmpty` | src/mir_dequeue.h:412-425 | Undisturbed, the answer is exact. |
| `Deque.WSDeque.Push` | src/mir_dequeue.c:263-322 | Appends, or is refused exactly when size - 1 elements are live; the body is the uninterrupted run of the machine's push. |
| `Deque.WSDeque.Pop` | src/mir_dequeue.c:148-200 | Takes the newest element, or nothing from an empty deque; the body is the uninterrupted run of the machine's pop. |
| `Deque.WSDeque.StealOnce` | src/mir_dequeue.c:206-242 | Takes the oldest element, or nothing from an empty deque; the body is the uninterrupted run of one attempt of the machine's thief. |
| `Deque.SoloPush` | src/mir_dequeue.c:263-322 | The machine's push steps in a row, with the state they end in. |
| `Deque.SoloPop` | src/mir_dequeue.c:148-200 | The machine's pop steps in a row: empty, last element and more than one. |
| `Deque.PopRuns` | src/mir_dequeue.c:148-200 | A whole undisturbed pop of the machine takes the newest element and leaves the rest, or finds nothing. |
| `Deque.SoloSteal` | src/mir_dequeue.c:206-242 | The machine's steps of one attempt in a row. |
| `QueueMachine.StepRefines` | src/mir_task_queue.c:42-104 | One access of any producer or consumer is one operation of the atomic bounded FIFO or nothing, linearized at the change of `size` or at the read that finds it full or empty; a task given back at the team gate stays the oldest. |
| `QueueMachine.ProducerStep` | src/mir_queue.c:56-60 | The producer writes and advances `in` unseen and appends when it raises `size`, with a consumer inside at the same time. |
| `QueueMachine.ConsumerStep` | src/mir_queue.c:78-84 | The consumer removes the oldest element when it lowers `size`; the slot between `size` and `out` has been read before a producer may reuse it. |
| `QueueMachine.ExclusiveKept` | src/mir_queue.c:46-89 | Each lock is held by the one thread inside its section. |
| `QueueMachine.CallDecides` | src/mir_queue.c:41-89 | A push or a pop is undecided from its start to its one event, which carries its own element or the one it has read; it ends only by giving back its lock, after that event. |
| `QueueMachine.HolderProceeds` | src/mir_queue.c:46-88 | A thread waits for nothing but a lock, each of its steps brings it closer to the end of its call, and whoever holds a lock it waits for can go on. |
| `QueueMachine.RunsRefineFifo` | src/mir_queue.c:41-89 | Every interleaving of any number of producers and consumers, at any positive capacity, is a run of the atomic bounded FIFO from empty. |
| `Queue.BoundedQueue.constructor` | src/mir_queue.c:11-26 | A new queue is empty and satisfies the invariant. |
| `Queue.BoundedQueue.Push` | src/mir_queue.c:41-66 | Appends, or is refused exactly when full; the uninterrupted run of the machine's push. |
| `Queue.BoundedQueue.Pop` | src/mir_queue.c:68-89 | Removes the oldest element, or nothing when empty; the uninterrupted run of the machine's pop. |
| `Program.ValueIsUnique` | tests/fib_native/test.c:42-73 | A fork-join program read sequentially has at most one value. |
| `Program.PassesWait` | src/mir_task.c:538-550 | Reading the cells of finished calls after a wait is what the sequential program does there. |
| `Program.ReturnIsSound` | tests/fib_native/test.c:42-73 | A value returned at a point the sequential program passes is its value. |
| `ForkJoinFrames.CtxsDiffer` | src/mir_task.c:336-340 | Two workers never run in the context of the same task. |
| `ForkJoinSteps.SumMatches` | src/mir_task.c:24-37 | Slots read one at a time never add up to more than the counter, and agree with it only when every task linked to it is finished. |
| `ForkJoinSteps.EmptyWaitIsDone` | src/mir_task.c:503-507 | A wait skipped because the counter is zero had nothing to wait for. |
| `ForkJoinSteps.CreateTwinInv` | src/mir_task.c:65-73 | A running task may add a sibling to the counter it is itself counted by, whatever its parent is reading. |
| `ForkJoinSteps.RunInlineInv` | src/mir_task.c:245-260 | A body run inline in its creator's context, whose waits use the creator's counter, keeps the invariant. |
| `ForkJoinSteps.ExecuteNowInv` | src/scheduling/mir_sched_pol_ws_de.c:62-68 | A task run at once because the queue is full keeps the invariant. |
| `ForkJoinSteps.StepInv` | src/mir_task.c:24-550 | Every step of every worker keeps the invariant on stacks, places, counters, slots and results. |
| `ForkJoin.TaskwaitSound` | src/mir_task.c:24-37 | In every reachable state the assertion of mir_twc_reduce holds, the reduce answers yes only when every linked task is done, and during the reset no such task is left whose increment could be lost. |
| `ForkJoin.SumTellsDone` | src/mir_task.c:24-37 | At any one moment the slots add up to the counter if and only if every task linked to it is done. |
| `ForkJoin.ScheduleIndependence` | src/mir_task.c:242-276 | In every run, with any number of workers and any policy, a result cell holds only the value of the sequential program, and exactly that when bodies wait for what they spawn. |
| `ForkJoin.RunsAgree` | src/mir_task.c:242-276 | Two runs of one program, on different workers and schedules, compute the same results. |
| `ForkJoin.NotStuck` | src/mir_task.c:509-514 | While anything is unfinished, some worker can go on: the task started last can run, leave its wait, or take what it waits for. |
| `ForkJoin.PollRuns` | src/mir_task.c:509-514 | An undisturbed poll of the wait passes exactly when all tasks waited for are done. |
| `ForkJoin.CanWorkActs` | src/mir_worker.c:274-302 | A worker that can go on does so by its own steps, without waiting for any other. |
| `ForkJoin.DeadlockFree` | src/mir_task.c:509-514 | In every reachable state with an unfinished task some worker, by itself, goes on with its call, leaves its wait or takes a task. |
| `ForkJoinOffers.EnqueueOffers` | src/mir_task.c:214-226 | A task pushed to the policy may be taken by every worker, one pushed to a worker by that worker and no other; whoever may take it and looks for tasks can take it at once. |
| `ForkJoinOffers.OfferedTaskRuns` | src/mir_worker.c:274-302 | A task offered by one worker is started, with its own argument and on top of what was there, by any other that looks for tasks. |
| `ForkJoinOffers.TakeRuns` | src/mir_worker.c:274-302 | Taking a task runs its body. |
| `ForkJoinOffers.SpawnChoices` | src/mir_task.c:242-276 | Where a body spawns, running inline and creating a task are both open, and the created task, with the argument of the spawn and counted by the creator's context, may go to any queue or run at once. |
| `ForkJoinOffers.TwinIsTwin` | src/mir_task.c:65-73 | A twin has the data and the parent of its task, and is counted by that parent. |
| `Fib.FibValue` | tests/fib_native/test.c:42-73 | The task version of fib, read sequentially, is fib_seq in 64-bit words, on both sides of the cutoff. |
| `Fib.FibUnderAnySchedule` | tests/fib_native/test.c:42-73 | Every task of every run that has finished holds the sequential Fibonacci number. |
| `Fib.FibSeqIsFib` | tests/fib_native/test.c:42-73 | The 64-bit words computed are the Fibonacci numbers modulo 2^64. |
| `Fib.FibComputed` | tests/fib_native/test.c:42-73 | A finished task holds the Fibonacci number itself whenever that fits a word, however the tasks were scheduled. |
| `Fib.FibOf42` | tests/fib_native/test.c:106-106 | The number at 42 is the one the test asserts. |
| `WaitCounter.WaitCounter.constructor` | src/mir_twc.c:6-24 | Counter and slots start at zero. |
| `WaitCounter.WaitCounter.Reduce` | src/mir_task.c:24-37 | The loop answers yes exactly when the slots add up to the counter. |
| `WaitCounter.WaitCounter.Reset` | src/mir_task.c:528-530 | The counter takes the new value, every slot is zero, and so is their sum. |
| `WaitCounter.WaitCounter.Bump` | src/mir_task.c:158-158 | With one task more to wait for, slots that add up to at most the counter add up to less, so that the next reduce answers no. |
| `WaitCounter.WaitCounter.Finish` | src/mir_task.c:402-403 | One slot, and so the sum, is one higher. |
| `PolicyAccounting.StepUnique` | src/scheduling/mir_sched_pol_ws_de.c:52-138 | Every step keeps each accepted task in exactly one place until it is claimed, and in none afterwards. |
| `PolicyAccounting.ClaimSucceeds` | src/scheduling/mir_sched_pol_ws_de.c:109-111 | Over deques that hand out each task once, the compare-and-swap of `taken` never fails. |
| `PolicyAccounting.StepWaiting` | src/mir_worker.c:217-260 | Every step keeps the waiting counter equal, modulo 2^32, to queued plus popped and not yet counted off minus pushed and not yet counted tasks. |
| `PolicyAccounting.StepBoard` | src/mir_worker.c:288-296 | Every step keeps the status board equal, modulo 2^32, to the number of calls of mir_worker_do_work that are executing. |
| `PolicyAccounting.StepBorne` | src/mir_worker.c:274-302 | Every step keeps each claimed task with exactly one worker until it has been executed. |
| `PolicyAccounting.StepInlined` | src/scheduling/mir_sched_pol_ws_de.c:62-68 | Every step keeps each refused task with the one stack frame that executes it, until its body has ended, and with none afterwards. |
| `PolicyAccounting.RefusedRuns` | src/scheduling/mir_sched_pol_ws_de.c:62-68 | A push on a full queue starts the task's body on the pusher's own stack and changes neither queue nor counter. |
| `PolicyAccounting.InlineEnds` | src/scheduling/mir_sched_pol_ws_de.c:62-68 | The end of that body removes its frame and nothing else. |
| `PolicyAccounting.OnlyBodiesEnd` | src/mir_worker.c:288-296 | A task becomes executed only by the end of its body, the topmost on some worker's stack. |
| `Policy.AtMostOnce` | src/scheduling/mir_sched_pol_ws_de.c:109-133 | Even over a deque that hands out accepted tasks again, a task is claimed at most once, only if accepted, and never when it was run inline. |
| `Policy.ExactlyOnce` | src/scheduling/mir_sched_pol_ws_de.c:52-138 | In every run each task handed to a push has been run inline once, or lies in one place, or has been claimed once; exactly one of the three. |
| `Policy.CountedIsExecuted` | src/scheduling/mir_sched_pol_ws_de.c:52-138 | In every run a task counted as run inline is the body of one frame or has been executed to its end, and a claimed task is with one worker or has been executed; never both. |
| `Policy.CountersMean` | src/mir_worker.c:217-296 | What the two global counters equal at every point of every run. |
| `Policy.WhatLooksDone` | src/mir_worker.c:282-332 | When both counters are zero and no pusher is between its push and its increment, the accepted and unexecuted tasks are exactly those held between the decrement of one counter and the increment of the other. |
| `Policy.DoneExactly` | src/mir_worker.c:319-332 | Two zero counters mean that everything accepted is done if and only if no worker is between those two updates and none is between its push and its increment. |
| `Policy.PusherLeavesTask` | src/scheduling/mir_sched_pol_ws_de.c:62-74 | A pusher that has not counted its task under a zero counter leaves an accepted task that is not done, its own or another. |
| `Policy.LooksDoneTooEarly` | src/mir_worker.c:282-302 | A reachable state with both counters zero and an accepted task not yet started. |
| `Policy.LooksDoneBeforeCounting` | src/scheduling/mir_sched_pol_ws_de.c:62-74 | A reachable state with both counters zero and an accepted task lying in a queue, with no worker between the two updates of a pop. |
| `PolicyDeques.StepFollows` | src/scheduling/mir_sched_pol_ws_de.c:52-138 | n workers over n deques whose accesses all interleave: each access keeps the invariant and is one step of the policy on the contents of the deques, or nothing. |
| `PolicyDeques.RunFollows` | src/scheduling/mir_sched_pol_ws_de.c:52-138 | Every run over the real deques is a run of the policy with atomic queues, with the same events. |
| `PolicyDeques.ExactlyOnce` | src/scheduling/mir_sched_pol_ws_de.c:52-138 | Exactly-once execution holds of the real deques under every interleaving of their accesses, and no compare-and-swap of `taken` ever fails. |
| `PolicyDeques.CountedIsExecuted` | src/scheduling/mir_sched_pol_ws_de.c:52-138 | What is counted as run inline or as claimed is executed once over the real deques as well. |
| `PolicyDeques.Choices` | src/scheduling/mir_sched_pol_ws_de.c:52-138 | A worker with nothing in hand may push any new task, look into its own deque or steal from any other; with a task in hand, or inside a call, it can go on. |
| `PolicyDeques.NoWorkerBlocks` | src/scheduling/mir_sched_pol_ws_de.c:52-138 | In every reachable state every worker has a step of its own: no worker waits for another. |
| `PolicyDeques.DoneExactly` | src/mir_worker.c:319-332 | The exact condition under which two zero counters mean done holds of the real deques as well. |
| `VictimScan.EachVictimOnce` | src/scheduling/mir_sched_pol_ws.c:91-100 | The cyclic order from any worker visits each queue at exactly one turn. |
| `VictimScan.Scan` | src/scheduling/mir_sched_pol_ws.c:91-133 | The loop ends, visits queues in cyclic order from the worker's own, none twice, stops at the first that has a task for it, and fails only after all of them; for every n, every worker including 0 and every behaviour of the queues. |
| `WsPolicy.NoneIsNone` | src/scheduling/mir_sched_pol_ws.c:91-133 | A scan that finds nothing in its n turns has seen every queue. |
| `WsPolicy.Ws.constructor` | src/scheduling/mir_sched_pol_ws.c:16-30 | One empty queue per worker. |
| `WsPolicy.Ws.Push` | src/scheduling/mir_sched_pol_ws.c:49-80 | Appends to the worker's own queue and counts, or is refused exactly when that queue is full; the counter stays the number of queued tasks. |
| `WsPolicy.Ws.Pop` | src/scheduling/mir_sched_pol_ws.c:82-134 | Undisturbed, takes the oldest task of the first non-empty queue in cyclic order and leaves the rest alone; fails if and only if all queues are empty. |
| `WsPolicy.WsDe.constructor` | src/scheduling/mir_sched_pol_ws_de.c:18-32 | The new policy is valid: each task is in the deques at most once and in none when taken, and the counter is the number of queued tasks; it holds no copy of any task and none is taken. |
| `WsPolicy.WsDe.Push` | src/scheduling/mir_sched_pol_ws_de.c:52-83 | Appends to the worker's own deque and counts, or is refused exactly when that deque is full; pushing a task that is new keeps the policy valid. |
| `WsPolicy.WsDe.Pop` | src/scheduling/mir_sched_pol_ws_de.c:85-138 | Whatever the deques hold, the result is the task of the first deque in cyclic order that does not come up with a taken one, and nothing if and only if there is none. A valid policy stays valid; then the result is the last task of the worker's own deque if it has one, otherwise the first of the first non-empty other deque. |
| `WsPolicy.WsDe.Scan` | src/scheduling/mir_sched_pol_ws_de.c:91-137 | The loop computes the recursive scan, taken tasks included; a task is marked and counted off exactly when one is returned. |
| `WsPolicy.ScanSound` | src/scheduling/mir_sched_pol_ws_de.c:85-138 | A scan over deques that hold each task at most once, and no taken one, leaves them so, and the counter right. |
| `WsPolicy.ScanKeeps` | src/scheduling/mir_sched_pol_ws_de.c:105-134 | A task returned was not taken and leaves one copy fewer; no other task that is not taken is lost. |
| `WsPolicy.ScanFinds` | src/scheduling/mir_sched_pol_ws_de.c:93-137 | When no queued task is taken, the scan gives the last task of the worker's own deque if it has one, otherwise the first task of the first non-empty deque in cyclic order, and nothing only when all deques are empty. |
| `WsPolicy.ScanGoesOn` | src/scheduling/mir_sched_pol_ws_de.c:93-137 | A taken task only sends the scan on to the next victim: it ends at the first deque whose end is not taken, and fails if and only if there is none. |
| `Packing.BinsPartition` | scripts/profiling/task/for-loop/mir_loop_scheduler.cpp:78-93 | Summed over the bins, the work of an assignment is all the work. |
| `Packing.BinsBalance` | scripts/profiling/task/for-loop/mir_loop_scheduler.cpp:137-157 | In bins that do not overflow, the works that are not big fit into the space beside the big ones and into the other used bins. |
| `Packing.L2AtIsLowerBound` | scripts/profiling/task/for-loop/mir_loop_scheduler.cpp:145-157 | For each k, every assignment that fits the capacity uses at least the number of bins the bound says. |
| `Packing.L2IsLowerBound` | scripts/profiling/task/for-loop/mir_loop_scheduler.cpp:120-159 | The Martello-Toth bound: every assignment with loads up to any t not above the capacity uses at least that many bins. |
| `L2Sweep.SweepMeans` | scripts/profiling/task/for-loop/mir_loop_scheduler.cpp:137-153 | At each k the pointers are exactly the counts, and the accumulators exactly the sums modulo 2^32, that they stand for. |
| `L2Sweep.OnlyRoundingWraps` | scripts/profiling/task/for-loop/mir_loop_scheduler.cpp:137-156 | With all the work in one 32-bit word, no accumulator and no value of the sweep wraps; only the rounding of the overspill can. |
| `L2Sweep.CountBig` | scripts/profiling/task/for-loop/mir_loop_scheduler.cpp:137-139 | The first loop before the sweep stops at the first work that is not big and sums in words what the big ones leave free. |
| `L2Sweep.SumOthers` | scripts/profiling/task/for-loop/mir_loop_scheduler.cpp:141-143 | The second loop before the sweep sums the other works in words. |
| `L2Sweep.GrowN1` | scripts/profiling/task/for-loop/mir_loop_scheduler.cpp:147-150 | The works above c - k, and no others, leave N2, in words; n1 stays at most n12, as the source asserts. |
| `L2Sweep.ShrinkN3` | scripts/profiling/task/for-loop/mir_loop_scheduler.cpp:151-153 | The works below k, and no others, leave N3, in words. |
| `L2Sweep.BoundFor` | scripts/profiling/task/for-loop/mir_loop_scheduler.cpp:146-156 | One round of the sweep takes the value for k and prepares k + 1. |
| `L2Sweep.MovePointers` | scripts/profiling/task/for-loop/mir_loop_scheduler.cpp:147-153 | The two inner loops leave pointers and accumulators as the value for k needs them. |
| `L2Sweep.GetOverspill` | scripts/profiling/task/for-loop/mir_loop_scheduler.cpp:155-155 | The expression for the overspill, which divides by the capacity only where it is not zero. |
| `L2Sweep.L2LowerBoundCpus` | scripts/profiling/task/for-loop/mir_loop_scheduler.cpp:120-159 | The incremental sweep returns the largest over 0..c/2 of the values defined by sums over all works, for every sorted list of words: each sum, difference and product of the source is taken modulo 2^32, with no bound on the total work. |
| `L2Sweep.RoundingUp` | scripts/profiling/task/for-loop/mir_loop_scheduler.cpp:155-155 | The expression that rounds up by division counts the bins begun. |
| `L2Sweep.WordL2AtExactly` | scripts/profiling/task/for-loop/mir_loop_scheduler.cpp:155-155 | For one k the value in words is at most the bound, and is the bound exactly when the rounding does not wrap. |
| `L2Sweep.WordL2Exactly` | scripts/profiling/task/for-loop/mir_loop_scheduler.cpp:120-159 | The swept value is the bound if and only if some k attains the bound without a wrap of the rounding; so it is whenever work and capacity together fit a word. |
| `L2Sweep.WordL2Below` | scripts/profiling/task/for-loop/mir_loop_scheduler.cpp:120-159 | The swept value is never above the bound. |
| `L2Sweep.WrapLosesBound` | scripts/profiling/task/for-loop/mir_loop_scheduler.cpp:155-155 | Works with a total that fits a word, and a capacity, for which the sweep returns 0 and the bound is 2. |
| `L2Sweep.SweptBoundIsLowerBound` | scripts/profiling/task/for-loop/mir_loop_scheduler.cpp:787-788 | The swept value is a lower bound for every trial makespan up to the capacity. |
| `Greedy.GreedyLoads` | scripts/profiling/task/for-loop/mir_loop_scheduler.cpp:81-93 | m times any greedy load is at most the work so far plus m - 1 largest chunks. |
| `Greedy.WordScheduleIsUnique` | scripts/profiling/task/for-loop/mir_loop_scheduler.cpp:81-93 | Taking the first bin with the largest slack, in words, determines the whole assignment. |
| `Greedy.SlackIsExact` | scripts/profiling/task/for-loop/mir_loop_scheduler.cpp:84-86 | Where the total work fits a word, no slack is below zero and the word is the slack. |
| `Greedy.WordGreedyIsGreedy` | scripts/profiling/task/for-loop/mir_loop_scheduler.cpp:66-105 | Where the total work fits a word, the makespan computed in words is that of the list schedule to the least loaded bins, and conversely. |
| `Greedy.GreedyIsTwoCompetitive` | scripts/profiling/task/for-loop/mir_loop_scheduler.cpp:66-105 | Against any assignment to the same m bins with makespan t, m times the greedy makespan is at most (2m - 1) t. |
| `LoopSchedule.LargestSlack` | scripts/profiling/task/for-loop/mir_loop_scheduler.cpp:82-91 | The inner loop picks the first bin with the largest slack, in words. |
| `LoopSchedule.LargestBin` | scripts/profiling/task/for-loop/mir_loop_scheduler.cpp:95-100 | The last loop finds the most loaded bin. |
| `LoopSchedule.GreedyUpperBoundMakespan` | scripts/profiling/task/for-loop/mir_loop_scheduler.cpp:66-105 | The loops return the largest load, in words, of the placement by largest slack. |
| `LoopSchedule.SortingKeepsAll` | scripts/profiling/task/for-loop/mir_loop_scheduler.cpp:202-212 | Sorting the chunks changes neither the CPUs, nor the total work, nor the makespan in words. |
| `LoopSchedule.UpperBoundIsAbove` | scripts/profiling/task/for-loop/mir_loop_scheduler.cpp:292-296 | Every chunk is below the upper bound on the makespan, which is at most one above the total work. |
| `LoopSchedule.UpperBoundsAgree` | scripts/profiling/task/for-loop/mir_loop_scheduler.cpp:292-296 | Where the total work and one more fit a word, the upper bound computed in words is the upper bound, and conversely. |
| `LoopSchedule.UpperBoundIsUnique` | scripts/profiling/task/for-loop/mir_loop_scheduler.cpp:292-296 | The upper bound, in words, is a function of the chunks, so both calls in the constructor agree. |
| `LoopSchedule.UpperBoundIsTight` | scripts/profiling/task/for-loop/mir_loop_scheduler.cpp:292-296 | The upper bound is one above the recorded or the greedy makespan, and at most one above either. |
| `LoopSchedule.UpperBoundIsMet` | scripts/profiling/task/for-loop/mir_loop_scheduler.cpp:292-296 | One below the upper bound the chunks can be packed with no more bins than CPUs. |
| `LoopSchedule.DomainNotEmpty` | scripts/profiling/task/for-loop/mir_loop_scheduler.cpp:204-218 | Where the total work and one more fit a word, the lower bound on the number of CPUs never exceeds the number of CPUs recorded. |
| `LoopSchedule.DomainExactly` | scripts/profiling/task/for-loop/mir_loop_scheduler.cpp:204-218 | Where the total work fits a word, the lower bound exceeds the number of CPUs if and only if the upper bound on the makespan has wrapped to zero and more chunks have work than there are CPUs. |
| `LoopSchedule.BoundsFit` | scripts/profiling/task/for-loop/mir_loop_scheduler.cpp:214-218 | The lower bound and the trial bound are taken with the same upper bound on the makespan, and leave the domain of the CPU count non-empty where the total work and one more fit a word. |
| `LoopSchedule.Schedule.constructor` | scripts/profiling/task/for-loop/mir_loop_scheduler.cpp:162-219 | For any rows of words: CPUs, total work and makespan are those of the rows in words, the trial bound is the upper bound in words, and the lower bound on CPUs is the swept value for it, at most the number of CPUs where the total work and one more fit a word. |
| `LoopSchedule.Schedule.Read` | scripts/profiling/task/for-loop/mir_loop_scheduler.cpp:187-192 | The rows read give the chunks, the CPUs and the total work modulo 2^32. |
| `LoopSchedule.Schedule.Sort` | scripts/profiling/task/for-loop/mir_loop_scheduler.cpp:211-212 | The sorted chunks have the same CPUs, total work and makespan. |
| `LoopSchedule.Schedule.GetCpuWork` | scripts/profiling/task/for-loop/mir_loop_scheduler.cpp:277-285 | The loop sums the work of one CPU modulo 2^32. |
| `LoopSchedule.Schedule.SetMakespan` | scripts/profiling/task/for-loop/mir_loop_scheduler.cpp:202-209 | The loop finds the largest work, in words, of any CPU. |
| `LoopSchedule.Schedule.GetGreedyUpperBoundMakespan` | scripts/profiling/task/for-loop/mir_loop_scheduler.cpp:66-105 | The greedy makespan in words for as many bins as CPUs. |
| `LoopSchedule.Schedule.GetUpperBoundMakespan` | scripts/profiling/task/for-loop/mir_loop_scheduler.cpp:292-296 | One more than the shorter of the recorded and the greedy makespan, as a word. |
| `LoopSchedule.Schedule.GetL2LowerBoundCpus` | scripts/profiling/task/for-loop/mir_loop_scheduler.cpp:120-159 | The swept value for the upper bound on the makespan. |
| `LoopSchedule.Schedule.SetBounds` | scripts/profiling/task/for-loop/mir_loop_scheduler.cpp:214-218 | Both bounds are set from the same capacity, and leave the domain of the CPU count non-empty where the total work and one more fit a word. |
| `ScheduleLimits.WrappingIsReached` | scripts/profiling/task/for-loop/mir_loop_scheduler.cpp:292-296 | The capacity that loses the bound is the upper bound on the makespan of four chunks on two CPUs, as a number and in words. |
| `ScheduleLimits.LostBound` | scripts/profiling/task/for-loop/mir_loop_scheduler.cpp:120-159 | For those chunks the lower bound on CPUs is 0, and the bound is 2. |
| `ScheduleLimits.LosesBound` | scripts/profiling/task/for-loop/mir_loop_scheduler.cpp:162-219 | The schedule read from those rows, with a total that fits a word, has the lower bound 0 where the bound is 2. |
| `ScheduleLimits.DomainCanBeEmpty` | scripts/profiling/task/for-loop/mir_loop_scheduler.cpp:78-156 | Three chunks on two CPUs, neither of which has a word of work, whose total wraps: the lower bound exceeds the number of CPUs. |
| `ScheduleLimits.EmptyDomain` | scripts/profiling/task/for-loop/mir_loop_scheduler.cpp:162-219 | The schedule read from those rows. |
| `ScheduleLimits.UpperBoundCanWrap` | scripts/profiling/task/for-loop/mir_loop_scheduler.cpp:292-296 | Two chunks on one CPU with a total of one below 2^32: the upper bound on the makespan is 0 and the lower bound on CPUs exceeds 1. |
| `Symmetry.ForcedDoNotShare` | scripts/profiling/task/for-loop/mir_loop_scheduler.cpp:649-658 | No two of the items forced to bins of their own number, the extra one included, fit one bin, in spite of the 32-bit products and sums. |
| `Symmetry.ForcedItemsExactly` | scripts/profiling/task/for-loop/mir_loop_scheduler.cpp:649-658 | Where no doubled work wraps, two or more items are forced exactly when no two of them fit one bin: the forced prefix is the longest there is. |
| `Symmetry.ForcedItemsCanBeLost` | scripts/profiling/task/for-loop/mir_loop_scheduler.cpp:653-653 | Two works whose total fits a word, which cannot share a bin and are not forced, because the doubled work wraps. |
| `Symmetry.Number` | scripts/profiling/task/for-loop/mir_loop_scheduler.cpp:649-658 | Every packing can be renumbered by first appearance with the same bound on loads and the same number of used bins. |
| `Symmetry.NumberedForced` | scripts/profiling/task/for-loop/mir_loop_scheduler.cpp:649-658 | After renumbering, items that cannot share are in the bins of their own numbers. |
| `Symmetry.NumberedWorkFirst` | scripts/profiling/task/for-loop/mir_loop_scheduler.cpp:660-662 | After renumbering, the bins that carry work are the first ones. |
| `Symmetry.SwapKeepsForced` | scripts/profiling/task/for-loop/mir_loop_scheduler.cpp:644-658 | Ordering two items of equal size never moves a forced item. |
| `Symmetry.OrderItems` | scripts/profiling/task/for-loop/mir_loop_scheduler.cpp:644-647 | Items of equal size can be ordered without changing loads, used bins or forced items. |
| `Symmetry.SymmetriesLoseNothing` | scripts/profiling/task/for-loop/mir_loop_scheduler.cpp:601-662 | Every packing within the trial makespan, and within the integers of the solver, has a solution of all posted constraints with as many bins. |
| `Symmetry.SolutionsArePackings` | scripts/profiling/task/for-loop/mir_loop_scheduler.cpp:601-662 | Every solution of the posted constraints is a packing within the trial makespan and the integers of the solver, with a number of bins between the bounds and at least the bins it uses. |
| `Symmetry.SolutionCounts` | scripts/profiling/task/for-loop/mir_loop_scheduler.cpp:660-662 | The number of bins of a solution is exact from the lower bound on: it counts every bin with work there. |
| `Symmetry.SolutionIsCanonical` | scripts/profiling/task/for-loop/mir_loop_scheduler.cpp:644-658 | In every solution equal items are in order, and items that cannot share are in the bins of their own numbers. |
| `Symmetry.OptimumKept` | scripts/profiling/task/for-loop/mir_loop_scheduler.cpp:601-662 | Where the total work fits a word, for every trial makespan t up to the upper bound, the constraints can be met with at most u bins if and only if the chunks can be packed into u bins of t; or of 2^31 - 1, where t is larger than that. |
| `MemDist.BytesPartition` | src/mir_mem_pol.c:184-203 | The bytes of the page-sized steps, summed over the nodes, are the whole range. |
| `MemDist.RunContinues` | src/mir_mem_pol.c:193-200 | One page more either extends the run on the current node or adds it and begins the next. |
| `MemDist.GetMemNodeDist` | src/mir_mem_pol.c:150-203 | Ends unless there is no header and the page size in 16 bits is zero. Then each node's count grows by exactly the bytes of the steps it owns; by the whole range on the header's node where there is a header; and by twice the range exactly when it fits one page and the start value of new_node is its node. |
| `MemDist.CountPages` | src/mir_mem_pol.c:184-203 | The loop over the pages, runs of one node at a time, counts exactly the bytes of each node. |
| `MemDist.TotalGrowsBySize` | src/mir_mem_pol.c:184-203 | The total over all nodes grows by exactly the size of the range. |
| `MemDist.StartsOnNodeExactly` | src/mir_mem_pol.c:190-190 | The start value of new_node is a node only with 65535 nodes, and then it is node 0. |

## Left out

- StealOnce: one attempt only; the retry loop of `stealWSDeque` is in `DequeMachine` (the states `Retry` and `RetryTop`), where its exit is `ThiefFailsForCause`. That the loop ends under contention is not claimed; left alone it does (`StealEnds`).
- NewWSDeque: the allocation failures of the source are not modelled.
- Pop: the class method of `Deque` requires `bottom > 0`, as the unsigned decrement does; the owner's emptiness guard provides it (`SourceAssertions`).
- Reduce: `WaitCounter` runs it undisturbed and requires the inequality that the source asserts; under interleaving the assertion is part of `TaskwaitSound`. Slots and counter are unbounded numbers here and in the fork-join machine; they are 32-bit and 64-bit words in `src/mir_twc.h:11-14`, so a worker that finishes 2^32 tasks of one wait is not covered.
- DeadlockFree: some worker can act in every unfinished state; that the operating system lets it, and that bodies end, is not claimed. Barriers are not modelled.
- ScheduleIndependence: bodies communicate through their arguments and result cells only; data races of the application are outside.
- ExactlyOnce: `PolicyDeques` composes the policy ws-de with its deques; the locked queues of ws, and the private queues, are atomic in `PolicyMachine`, as the queue machine justifies one by one. A push to a full private queue stops the program in the source and runs the task inline here. Pops of the plain ring queues have no `taken` flag in the source; their claim step is bookkeeping.
- DoneExactly: the counters are read at one moment, with fewer than 2^32 tasks about, as `LooksDone` says; the repeated separate reads of `mir_worker_check_done` are not modelled.
- Ws: queues are values with the contracts of `Queue.BoundedQueue`, so aliasing between queues is not captured; a refused task is reported to the caller instead of being executed inside.
- WsDe: deques are values with the contracts of `Deque.WSDeque`, and `taken` is the set of tasks whose flag is 1.
- Schedule: the rows and their sorted order are parameters, since reading the file and `std::sort` are outside; the number of chunks is taken to fit a 32-bit word.
- DomainNotEmpty: one direction for totals of 2^32 or more, where the bounds are sums that have wrapped; there `ScheduleLimits.EmptyDomain` is an input that fails, and for totals below `DomainExactly` says exactly which fail.
- OptimumKept: the lower bound it uses is the swept value, so the total work and the capacity must fit a 32-bit word.
- Posted: the constraints are predicates on complete packings; Gecode's search, propagators, brancher and its own limits on integers are outside.
- GetMemNodeDist: sizes whose steps wrap a 64-bit word are not modelled; the node of an address is a parameter, and the page-node cache is outside. Where the loop of the source would not end, the method says so in its result.
- Weak memory and barriers: all machines are sequentially consistent, and `cas` is atomic; the fallback in `src/mir_dequeue.h:127-133`, used when no architecture macro is set, is not atomic. `Policy.AtMostOnce` says what the `taken` flag still guarantees over a deque that hands out a task twice.
- Index overflow of the deque: positions are unbounded, as the source assumes (`src/mir_dequeue.c:16-20`).
- `discardElements` and freeing: not called while workers run.
- Recorder, statistics, overhead timing, affinity, start-up and shutdown: input and output or time.
- Architecture tables, OpenMP loop chunking and the trace tools: not part of this model.
- The numa and central policies: the same queues behind other choices of queue.
