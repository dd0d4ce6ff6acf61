# A model of the EVL core's inline protocols

This project models, in Dafny, the data structures and protocols that the EVL real-time core keeps in
its headers, and the RISC-V interrupt-state layer underneath, and proves what they promise.

- `PriorityOrder`, `DateOrder`: what sorted insertion and removal mean, stated by selection of
  priority groups and without walking a list.
- `IntrusiveList`: circular doubly-linked lists on the heap, with the priority insertion macros.
- `QueueModel`, `QueueRefinement`, `SchedQueue`, `FifoClass`: both builds of the runnable queue, on
  values and in place, their equivalence, and what the fifo class does with them.
- `Resched`: the multi-CPU reschedule protocol.
- `Crossing`: the reference-counted crossing, over any number of users and rounds.
- `WaitFlag`: the event flag and the wait loop, one memory access at a time.
- `IrqState`: the stall-bit and the hardware build of the in-band interrupt state.
- `TimerDate`, `TimerQueue`: timer dates in 64-bit arithmetic, and the timer list in place.
- `LockOrder`: ordered locking of threads and runqueues.
- `Accounting`, `SocketMem`: run-time accounts and receive-memory limits.
- `Options`: a value that may be missing.

Code that updates objects is a class whose methods are proved against functions of the old state; the
concurrent protocols are step relations over those functions, with invariants over every run. The
classes `ListQueue` and `MlqQueue` state their contents through the same two insertion functions, so
that a caller cannot tell the builds apart.

Callees whose bodies are in C files that are not part of this model appear as small contracts.
`__evl_schedule` consumes the request of its CPU and sends an IPI to each CPU in `resched_cpus`.
`__evl_get_schedq` takes the first entry of the first marked level. `evl_flush_wait_locked` empties the
wait list and wakes every waiter with the reason, and a new sleep forgets older reasons. A timeout or
an unblocking removes its thread from the wait list with the lock free. `inband_irq_*` read and write
the stall bit. Clock readings are parameters. `MAX_RT_PRIO` is 100 and `SR_IE` is bit 1 of `sstatus`,
their values for an S-mode Linux kernel (section 4.1.1 of the RISC-V Privileged Architecture, version
1.12).

## Where the code and its description part

- The caution of `evl/crossing.h` forbids every down after pass is entered. Proved: a down is safe
  exactly while the count is positive (`DownIsSafeIff`); the caution is sufficient, not necessary.
- The two builds of the in-band interrupt state differ: `native_irq_restore` only sets the enable bit,
  so a restore to "off" issued with interrupts on works in the pipelined build only (`BuildsAgreeIff`,
  with such a run in `BuildsDiffer`).
- `evl_clear_flag` writes the flag without the lock. "Raises = waits that returned with the flag +
  raises of a raised flag + clears of a raised flag + 1 if still raised" holds for a run that ends with
  the lock free if and only if no clear hits the flag between the two accesses of a reader
  (`ConservationIff`), and each such clear adds exactly one (`FlagConservation`). `RaceHappens` is a
  run with one.
- A wait that returns 0 has not necessarily read the flag: it has not if and only if a pulse hit it
  while it slept (`ZeroWithoutFlagIff`). `PulseReturnsZero` is a run with no raise at all.
- `__evl_del_schedq` trusts the current priority. If it changed while the thread was queued, the queue
  is damaged unless the old level keeps another thread (`DelAfterPriorityChange`), and later picks can
  be led to an empty list (`PriorityChangeDamages`).
- `evl_reset_account` leaves the last switch date alone, so an account reset in the middle of its slice
  is later charged for time before its start (`ResetSafeIff`, with such a run in `ResetOvercharges`).
- A pending reschedule request has its own CPU, an IPI in flight or a CPU owing the IPI to answer for
  it, except while its CPU is inside the handler of that IPI, between `evl_enter_irq` and
  `evl_exit_irq` (`NoLostReschedule`). `ServiceIsNeeded` is a run to such a state. Being inside a
  device interrupt does not count.

## Model

| member | source | states |
|---|---|---|
| `IntrusiveList.ListAdd` | kernel-overlay/include/evl/list.h:17 | list_add in place: both link directions close the circle with the new node right behind its position, all other entries in order |
| `IntrusiveList.ListDel` | kernel-overlay/include/evl/list.h:33-39 | list_del in place: the ring without the node, both directions consistent, and the links of the node poisoned |
| `IntrusiveList.ReverseWalk` | kernel-overlay/include/evl/list.h:19-22 | the reverse walk terminates and stops at the last entry that satisfies the relation, or at the head when there is none |
| `IntrusiveList.ListAddPri` | kernel-overlay/include/evl/list.h:13-25 | on a sorted ring the new node lands exactly between the entries at least as urgent as its bar and the rest |
| `IntrusiveList.ListAddPriff` | kernel-overlay/include/evl/list.h:27-28 | in-place insertion equals the declarative priority-FIFO insertion, links consistent, no node lost |
| `IntrusiveList.ListAddPrilf` | kernel-overlay/include/evl/list.h:30-31 | in-place insertion equals the declarative priority-LIFO insertion, links consistent, no node lost |
| `PriorityOrder.InsertFFSorted` | kernel-overlay/include/evl/list.h:27-28 | the FIFO insertion keeps the order, moves no existing item, and puts the new one last in its own priority group only |
| `PriorityOrder.InsertLFSorted` | kernel-overlay/include/evl/list.h:30-31 | the LIFO insertion keeps the order, moves no existing item, and puts the new one first in its own priority group only |
| `PriorityOrder.GroupsDetermine` | kernel-overlay/include/evl/sched/queue.h:128-166 | a sorted queue is determined by its priority groups: two sorted queues with equal groups are equal |
| `PriorityOrder.RemoveUndoesInsert` | kernel-overlay/include/evl/sched/queue.h:147-166 | deleting what was just inserted, anywhere, gives back the queue |
| `SchedQueue.ListQueue.AddSchedq` | kernel-overlay/include/evl/sched/queue.h:147-152 | the list build puts a thread first among its equals, in place |
| `SchedQueue.ListQueue.AddSchedqTail` | kernel-overlay/include/evl/sched/queue.h:154-159 | the list build puts a thread last among its equals, in place |
| `SchedQueue.ListQueue.DelSchedq` | kernel-overlay/include/evl/sched/queue.h:161-166 | the list build takes exactly that thread out, in place |
| `SchedQueue.ListQueue.GetSchedq` | kernel-overlay/include/evl/sched/queue.h:138-145 | NULL on an empty list, else the most urgent thread, unlinked |
| `SchedQueue.FindFirstBit` | kernel-overlay/include/evl/sched/queue.h:56-61 | the scan returns the first marked level, or the number of levels |
| `SchedQueue.MlqQueue.AddQ` | kernel-overlay/include/evl/sched/queue.h:73-88 | the count grows by one and the level is marked exactly if it was empty, before anything is linked |
| `SchedQueue.MlqQueue.AddSchedq` | kernel-overlay/include/evl/sched/queue.h:90-96 | on 102 disjoint heap rings, a bitmap and a count: the invariant is kept and the flattened queue is the priority-LIFO insertion |
| `SchedQueue.MlqQueue.AddSchedqTail` | kernel-overlay/include/evl/sched/queue.h:98-104 | the same for the tail of a level: the flattened queue is the priority-FIFO insertion |
| `SchedQueue.MlqQueue.DelSchedqAt` | kernel-overlay/include/evl/sched/queue.h:106-117 | the entry is unlinked from wherever it is; count and mark follow the level the caller named, right or wrong |
| `SchedQueue.MlqQueue.DelSchedq` | kernel-overlay/include/evl/sched/queue.h:119-124 | deleting a thread under its unchanged priority keeps the invariant and takes exactly it out of the flattened queue |
| `SchedQueue.MlqQueue.GetSchedq` | kernel-overlay/include/evl/sched/queue.h:45-61 | NULL iff the queue is empty, else the head of the flattened queue, found through count and bitmap only |
| `SchedQueue.MlqQueue.constructor` | kernel-overlay/include/evl/sched/queue.h:37-43 | an initialised queue has disjoint empty rings, a clear map and no element |
| `QueueModel.FlattenSorted` | kernel-overlay/include/evl/sched/queue.h:63-71 | levels of uniform priority, concatenated, are sorted, and each priority group is exactly its level |
| `QueueModel.FirstLevel` | kernel-overlay/include/evl/sched/queue.h:47-61 | the count is zero iff no bit is set, and otherwise the first marked level starts with the head of the whole queue |
| `QueueRefinement.AddHeadRefines` | kernel-overlay/include/evl/sched/queue.h:90-96 | head insertion into a level refines list_add_prilf and keeps bitmap, count and levels consistent |
| `QueueRefinement.AddTailRefines` | kernel-overlay/include/evl/sched/queue.h:98-104 | tail insertion into a level refines list_add_priff and keeps bitmap, count and levels consistent |
| `QueueRefinement.OnlyAtItsLevel` | kernel-overlay/include/evl/sched/queue.h:63-71 | a queued thread is linked at the level of its priority, inside the map, and at no other |
| `QueueRefinement.DelRefines` | kernel-overlay/include/evl/sched/queue.h:119-124 | deletion through the level of the priority refines list_del on the sorted list |
| `QueueRefinement.GetRefines` | kernel-overlay/include/evl/sched/queue.h:47-61 | a pick returns the head of the sorted list and leaves its tail |
| `QueueRefinement.BackEndsAgree` | kernel-overlay/include/evl/sched/queue.h:28-168 | for every sequence of head adds, tail adds, deletes and picks the two builds return the same threads and end in the same order |
| `QueueRefinement.OneGroupChanges` | kernel-overlay/include/evl/sched/queue.h:138-166 | each operation changes one priority group only: one thread more at its head or tail, or exactly that thread less; a pick takes the head of the queue |
| `FifoClass.RoundRobinFair` | kernel-overlay/include/evl/sched.h:532-546 | as many pick-then-enqueue turns as the top group has threads pick each once in order and restore the queue |
| `FifoClass.RoundRobinFairMlq` | kernel-overlay/include/evl/sched/queue.h:98-104 | the same for the multi-level build, operation by operation, with what every operation returns; levels, bitmap and count end as they began |
| `FifoClass.PreemptionUndone` | kernel-overlay/include/evl/sched.h:563-577 | requeueing the thread just picked restores the multi-level queue exactly: lists, bitmap and count |
| `PriorityOrder.RequeueUndoesPick` | kernel-overlay/include/evl/sched/queue.h:138-152 | the same for the list build: the head inserted again before its equals gives back the list |
| `FifoClass.Thread.TrackPriority` | kernel-overlay/include/evl/sched/fifo.h:76-87 | cprio follows the parameter, or the base priority with the weak bit cleared; wprio is cprio plus the class weight |
| `FifoClass.Thread.CeilPriority` | kernel-overlay/include/evl/sched/fifo.h:89-99 | cprio is the ceiling and wprio is weighted again, nothing else changes |
| `FifoClass.ChkFifoParam` | kernel-overlay/include/evl/sched/fifo.h:40-55 | every accepted priority indexes a level; user threads get exactly 1 to MAX_RT_PRIO - 1, hence never the reserved levels; kernel threads get the whole range |
| `FifoClass.FifoStepOk` | kernel-overlay/include/evl/sched.h:532-611 | every disciplined scheduler step keeps each thread queued under its current priority, with wprio = cprio + weight |
| `FifoClass.FifoStepOrder` | kernel-overlay/include/evl/sched.h:532-611 | enqueue is the FIFO insertion under the current priority, requeue the LIFO one, dequeue and pick remove exactly their thread, and track and ceil leave the queue and all other threads alone |
| `FifoClass.PickAndPutBack` | kernel-overlay/include/evl/sched.h:538-577 | a picked thread put back by requeue restores the whole state, put back by enqueue it waits behind its equals |
| `FifoClass.ChangeTakesEffect` | kernel-overlay/include/evl/sched/fifo.h:76-99 | after dequeue, track of a given priority or ceil, and enqueue, the thread has that priority, the weight on top of it, its base priority and weak bit unchanged, and is queued under it |
| `FifoClass.ChangedWaitsLast` | kernel-overlay/include/evl/sched.h:538-546 | and it is last in the group of that priority |
| `FifoClass.BoostsKeepLevels` | kernel-overlay/include/evl/sched.h:596-611 | after any run with boosts applied while dequeued, a queued thread is at the marked level of its current priority and at no other |
| `FifoClass.UnboostReturnsToBase` | kernel-overlay/include/evl/sched/fifo.h:76-87 | dequeue, track without parameter, enqueue: last among its equals at the base priority, not weak |
| `FifoClass.DelAfterPriorityChange` | kernel-overlay/include/evl/sched/queue.h:106-124 | a delete after the priority changed keeps the queue sound if and only if the priority is the same or the old level is not emptied |
| `FifoClass.PriorityChangeDamages` | kernel-overlay/include/evl/sched/queue.h:106-124 | for every such change of a lone thread the old level stays marked while empty, and the next pick after a less urgent thread is queued is led there |
| `Resched.Smp.SetResched` | kernel-overlay/include/evl/sched.h:221-245 | own request, coalesced remote request, or new remote request with the private flag and the target mask of the requester |
| `Resched.Smp.Schedule` | kernel-overlay/include/evl/sched.h:292-319 | __evl_schedule is entered iff a request is pending in either word and RQ_IRQ is clear; it consumes the request and sends the owed IPIs |
| `Resched.Smp.EnterIrq` | kernel-overlay/include/evl/irq.h:13-18 | RQ_IRQ is set, every other bit and runqueue unchanged; an IPI is taken off the wire |
| `Resched.Smp.ExitIrq` | kernel-overlay/include/evl/irq.h:21-36 | RQ_IRQ is cleared first, then evl_schedule runs iff a request is pending |
| `Resched.Smp.EnablePreempt` | kernel-overlay/include/evl/sched.h:337-341 | only the transition of the count to zero passes through evl_schedule |
| `Resched.PassTest` | kernel-overlay/include/evl/sched.h:310-311 | the masked comparison of the combined words is exactly: a request is pending and no interrupt is being handled |
| `Resched.StepKeeps` | kernel-overlay/include/evl/sched.h:221-341 | every step of every CPU keeps the signalling invariant |
| `Resched.NoLostReschedule` | kernel-overlay/include/evl/sched.h:221-319 | in every state N CPUs can reach, a pending request is answered by its CPU, an IPI in flight or a CPU owing the IPI; if by none of them, its CPU is inside the handler of that IPI, and leaving it serves the request |
| `Resched.RequestPosts` | kernel-overlay/include/evl/sched.h:221-245 | a request may be issued at any time and is always posted: the target flag is up, and the target itself or the requester, with its private request and target mask, is to act on it; a pending one is coalesced without any change |
| `Resched.ServiceEffect` | kernel-overlay/include/evl/sched.h:292-319 | __evl_schedule runs exactly at a scheduling point with a request pending and never under RQ_IRQ; it takes both requests down and sends exactly the owed IPIs, and nothing else does either |
| `Resched.HandlerIsNotPreempted` | kernel-overlay/include/evl/irq.h:13-36 | from the entry of a handler to its exit the CPU never runs __evl_schedule, and its requests stay up |
| `Resched.HandlersAreBracketed` | kernel-overlay/include/evl/irq.h:13-36 | over any run RQ_IRQ is up exactly when the last interrupt bracket of the CPU is an entry |
| `Resched.SectionsAreCounted` | kernel-overlay/include/evl/sched.h:332-341 | over any run the preemption count is the number of sections begun and not ended; foreign private bits never change |
| `Resched.ServiceIsNeeded` | kernel-overlay/include/evl/irq.h:13-36 | a state is reachable in which only the IPI in service answers |
| `Resched.BoundStepLightens` | kernel-overlay/include/evl/sched.h:292-341 | each step the CPUs are bound to take strictly lightens what is pending |
| `Resched.RequestsDrain` | kernel-overlay/include/evl/sched.h:302-308 | in every run without new requests, with any device interrupts, preemption-off sections and idle schedules in it, the bound steps are limited by the weight at the start plus what those add, and with no bound step left no flag and no IPI is left |
| `Resched.BoundRunsEnd` | kernel-overlay/include/evl/sched.h:302-308 | the bound steps by themselves end after no more steps than the weight, in any order |
| `Resched.RequestIsServed` | kernel-overlay/include/evl/sched.h:292-319 | a request disappears only by its CPU running __evl_schedule outside interrupts, so a drained run served everybody |
| `Resched.PostedIsServed` | kernel-overlay/include/evl/sched.h:221-319 | from the call on: once no bound step is left, in any order and with any interrupts in between, the target has run __evl_schedule |
| `Crossing.EvlCrossing.Up` | kernel-overlay/include/evl/crossing.h:60-66 | the count drops by one and the irq_work is queued iff it reached zero |
| `Crossing.EvlCrossing.PassEnter` | kernel-overlay/include/evl/crossing.h:68-72 | the bias is dropped and the caller waits iff somebody is still down |
| `Crossing.EvlCrossing.Reinit` | kernel-overlay/include/evl/crossing.h:49-53 | count and completion start over, the irq_work is not touched |
| `Crossing.StepKeeps` | kernel-overlay/include/evl/crossing.h:36-72 | every interleaved step, atomic access by atomic access, keeps count, tokens and round history consistent |
| `Crossing.PassIsSafe` | kernel-overlay/include/evl/crossing.h:14-28 | when pass has returned every user that went down has gone up, for any number of users and rounds |
| `Crossing.OneOpeningPerRound` | kernel-overlay/include/evl/crossing.h:60-72 | each round opens either directly with no completion, or by exactly one up with exactly one completion signalled and consumed |
| `Crossing.NoEarlyWork` | kernel-overlay/include/evl/crossing.h:60-66 | before pass is entered nothing is queued, signalled or about to be |
| `Crossing.ReinitIsFresh` | kernel-overlay/include/evl/crossing.h:49-53 | reinitialising after a pass gives exactly the initial state |
| `Crossing.ReinitFreshIff` | kernel-overlay/include/evl/crossing.h:49-53 | reinitialising gives a crossing as good as new if and only if its irq_work is not on its way |
| `Crossing.EveryRoundHappens` | kernel-overlay/include/evl/crossing.h:55-72 | for any set of users there is a round in which they all go down and pass returns, opened by pass when there are none and by the last up otherwise |
| `Crossing.PassReturns` | kernel-overlay/include/evl/crossing.h:68-72 | a waiting passer is never stuck and waits for a bounded number of steps once nobody goes down any more |
| `Crossing.DownIsSafeIff` | kernel-overlay/include/evl/crossing.h:25-27 | going down is safe in a state if and only if the count is still positive there |
| `Crossing.CautionSuffices` | kernel-overlay/include/evl/crossing.h:25-27 | the documented caution implies that condition |
| `WaitFlag.StepKeeps` | kernel-overlay/include/evl/flag.h:49-146 | lock exclusion, wait list, wakeup and conservation invariants hold across every single access |
| `WaitFlag.NoLostWakeup` | kernel-overlay/include/evl/flag.h:85-98 | with the wait-channel lock free and the flag raised, nobody is asleep |
| `WaitFlag.FlagConservation` | kernel-overlay/include/evl/flag.h:49-146 | over every run that ends with the lock free, raises plus racing clears are the waits that returned with the flag, the absorbed raises, the clears that hit and the flag still up; waits that end otherwise count nowhere |
| `WaitFlag.ConservationIff` | kernel-overlay/include/evl/flag.h:49-57 | the law without the racing clears holds if and only if the run has no clear between the two accesses of a reader |
| `WaitFlag.EventsConserved` | kernel-overlay/include/evl/flag.h:49-146 | the same law counted on the acts of the run itself |
| `WaitFlag.EveryCallRaises` | kernel-overlay/include/evl/flag.h:85-105 | over any run the raises done are the calls of evl_raise_flag, minus those that have not set the flag yet |
| `WaitFlag.FlagAndListChange` | kernel-overlay/include/evl/flag.h:49-98 | only a raise puts the flag up, only a clear or a read takes it down; a thread is on the wait list from its sleep to a flush or its interruption |
| `WaitFlag.RaceHappens` | kernel-overlay/include/evl/flag.h:49-57 | such a run exists: one raise is both cleared and read |
| `WaitFlag.OneReaderPerRaise` | kernel-overlay/include/evl/flag.h:49-57 | from any state on, successful reads exceed raises by no more than what was pending there |
| `WaitFlag.RaiseWakesAll` | kernel-overlay/include/evl/flag.h:85-89 | in every run from setting the flag to the end of the section, whatever is interleaved, every sleeper leaves the wait list with a plain wakeup, one raise is counted, and the flag is up unless somebody cleared it |
| `WaitFlag.RaiseCallWakesAll` | kernel-overlay/include/evl/flag.h:85-105 | the same from the call: whoever waits, it sets the flag once, and all who slept when it took the lock have a plain wakeup |
| `WaitFlag.FlushCallWakesAll` | kernel-overlay/include/evl/flag.h:107-141 | a flush or pulse wakes all who slept when it took the lock, for its reason, and raises nothing |
| `WaitFlag.FirstComerGetsFlag` | kernel-overlay/include/evl/wait.h:64-67 | the arriving or woken waiter that locks first while the flag is up returns with it in every run that does not clear it before that waiter looks |
| `WaitFlag.ReaderGetsFlag` | kernel-overlay/include/evl/wait.h:73-79 | the same from any point at which the waiter holds the lock and is about to look |
| `WaitFlag.ClearedReaderFails` | kernel-overlay/include/evl/wait.h:65-68 | with the flag down, or cleared before it looks, a non-blocking waiter returns -EAGAIN |
| `WaitFlag.LoserSleeps` | kernel-overlay/include/evl/wait.h:69-79 | a blocking waiter, arriving or woken, that finds the flag down or cleared before it looks goes to sleep and does not return |
| `WaitFlag.AgainOnlyNonblocking` | kernel-overlay/include/evl/wait.h:65-68 | only a wait called non-blocking ever returns -EAGAIN |
| `WaitFlag.NonblockingReturns` | kernel-overlay/include/evl/wait.h:64-68 | a non-blocking wait returns after at most four steps of its own, with the flag or -EAGAIN |
| `WaitFlag.StuckMeansAsleep` | kernel-overlay/include/evl/wait.h:69-79 | when no thread can move the lock is free and whoever waits sleeps on a lowered flag |
| `WaitFlag.SectionsEnd` | kernel-overlay/include/evl/wait.h:64-80 | whoever holds the wait-channel lock drops it after at most three steps of its own |
| `WaitFlag.PulseReturnsZero` | kernel-overlay/include/evl/wait.h:73-80 | a wait can return 0 with no raise at all, through a pulse |
| `WaitFlag.WaitEndsIff` | kernel-overlay/include/evl/wait.h:69-80 | in every run a wait ends by a broadcast or an error if and only if a flush or an interruption for that reason hit it asleep |
| `WaitFlag.DoomedReturns` | kernel-overlay/include/evl/wait.h:73-80 | and once hit it returns so after at most three steps of its own |
| `WaitFlag.ZeroWithoutFlagIff` | kernel-overlay/include/evl/wait.h:73-80 | a wait that returns 0 comes without the flag if and only if a pulse hit it asleep |
| `WaitFlag.EvlFlag.Wait` | kernel-overlay/include/evl/wait.h:59-81 | the loop ends at the first wakeup that is not plain or finds the flag up; only a plain one consumes the flag |
| `WaitFlag.EvlFlag.ReadFlag` | kernel-overlay/include/evl/flag.h:49-57 | returns whether the flag was up and leaves it down |
| `WaitFlag.EvlFlag.RaiseLocked` | kernel-overlay/include/evl/flag.h:85-89 | the flag is up and the wait list empty, all waiters returned for wakeup |
| `IrqState.SplitMerge` | kernel-overlay/include/asm-generic/irq_pipeline.h:38-53 | for every flags word and stall state, splitting the merge returns the stall state and exactly flags & SR_IE |
| `IrqState.MergeSplit` | kernel-overlay/include/asm-generic/irq_pipeline.h:38-53 | merging a split word returns it if and only if it holds nothing but the two bits |
| `IrqState.MergedWord` | kernel-overlay/include/asm-generic/irq_pipeline.h:38-42 | the merged word tests as the stall state, its lowest bit is the inverse of the hardware enable, and it holds nothing else |
| `IrqState.ConversionsAgree` | kernel-overlay/arch/riscv/include/asm/irq_pipeline.h:54-71 | both conversions between stall state and flags agree with the test on flags |
| `IrqState.Hart.StageSaveFlags` | kernel-overlay/include/asm-generic/irq_pipeline.h:65-70 | the saved word merges both states, and both can be split back out of it |
| `IrqState.Hart.CallPiped` | kernel-overlay/arch/riscv/include/asm/irq_pipeline.h:78-113 | each pipelined call has the effect of its step, and its frame has no write to sstatus |
| `IrqState.Hart.CallNative` | kernel-overlay/arch/riscv/include/asm/irq_pipeline.h:177-205 | each non-pipelined call has the effect of its step on sstatus |
| `IrqState.StepAlike` | kernel-overlay/arch/riscv/include/asm/irq_pipeline.h:109-113 | one call keeps the two builds alike if and only if it is not a restore that should turn interrupts off |
| `IrqState.NativeAnswer` | kernel-overlay/arch/riscv/include/asm/irqflags.h:44-77 | what each call makes of the native answer, with a restore only ever turning interrupts on |
| `IrqState.PipedAnswer` | kernel-overlay/arch/riscv/include/asm/irq_pipeline.h:78-113 | what each call makes of the pipelined answer |
| `IrqState.SavedWordTells` | kernel-overlay/arch/riscv/include/asm/irq_pipeline.h:78-102 | a saved word tells in either build what was so before the call, and no other saved word changes |
| `IrqState.OtherBitsKept` | kernel-overlay/arch/riscv/include/asm/irqflags.h:49-77 | no run of native calls changes any bit of sstatus but the enable bit |
| `IrqState.BuildsAgreeIff` | kernel-overlay/arch/riscv/include/asm/irqflags.h:44-77 | over any run the builds answer arch_irqs_disabled alike at every point if and only if every restore is issued with interrupts off or restores to on |
| `IrqState.BuildsDiffer` | kernel-overlay/arch/riscv/include/asm/irqflags.h:44-77 | from any alike states, saving flags with interrupts off and restoring them with interrupts on tells the builds apart |
| `IrqState.SectionsAgree` | kernel-overlay/arch/riscv/include/asm/irq_pipeline.h:78-113 | for critical sections nested to any depth the builds always agree, and the pipelined one ends with the stall bit and sstatus as found |
| `TimerDate.ExpiryIsDriftFree` | kernel-overlay/include/evl/timer.h:255-260 | for every gravity, in word arithmetic, the expiry after an update is start + ticks * interval modulo the word |
| `TimerDate.ExpiryExactIff` | kernel-overlay/include/evl/timer.h:343-348 | the expiry is the exact ideal date if and only if that date fits a ktime_t |
| `TimerDate.OneIntervalApart` | kernel-overlay/include/evl/timer.h:255-260 | consecutive expiries differ by one interval modulo the word, exactly so when both fit |
| `TimerDate.AnticipationExactIff` | kernel-overlay/include/evl/timer.h:255-260 | the anticipated date is the ideal one minus the signed gravity if and only if that fits |
| `TimerDate.GravityOfContext` | kernel-overlay/include/evl/timer.h:241-253 | a timer is anticipated by the gravity of its context: kernel before user, and interrupt when neither is set |
| `TimerDate.DatedByItsContext` | kernel-overlay/include/evl/timer.h:241-260 | its date is the ideal one minus the latency of that context if and only if that fits |
| `TimerQueue.Timer.DatedAhead` | kernel-overlay/include/evl/timer.h:241-260 | the same for a timer as last updated, queued or not |
| `DateOrder.InsertByDateOrdered` | kernel-overlay/include/evl/timer.h:128-143 | insertion keeps the dates ascending, moves nobody else, and puts the timer last among equal dates |
| `TimerQueue.InsertTnode` | kernel-overlay/include/evl/timer.h:128-143 | the in-place backward walk and link equal the declarative insertion by date, links consistent |
| `TimerQueue.TimerBase.Enqueue` | kernel-overlay/include/evl/timer.h:389-397 | the queue is the insertion by date, only the dequeued bit of the status is cleared, a dated timer stays dated, and every other timer's bit still says whether it is queued |
| `TimerQueue.TimerBase.Dequeue` | kernel-overlay/include/evl/timer.h:379-385 | the queue loses exactly that timer, only the dequeued bit of its status is set, and a dated timer stays dated |
| `TimerQueue.TimerBase.DequeueUndoes` | kernel-overlay/include/evl/timer.h:379-397 | dequeuing a timer right after it was enqueued gives back the queue |
| `TimerQueue.TimerBase.UpdateDequeued` | kernel-overlay/include/evl/timer.h:255-260 | a date changed while out of the queue disturbs nothing |
| `TimerQueue.TimerBase.Head` | kernel-overlay/include/evl/timer.h:109-116 | NULL iff empty, else no queued date is earlier |
| `TimerQueue.TimerBase.Walk` | kernel-overlay/include/evl/timer.h:118-152 | iteration visits each queued timer once, in date order, and exactly those whose dequeued bit is clear |
| `TimerQueue.TimerBase.NextOf` | kernel-overlay/include/evl/timer.h:118-126 | the next timer of the queue, NULL at the last one |
| `TimerQueue.Timer.GetExpiry` | kernel-overlay/include/evl/timer.h:343-348 | for a timer whose date was updated last, queued or not, the expiry is the ideal date as one word |
| `LockOrder.StepKeeps` | kernel-overlay/include/evl/thread.h:190-207 | acquiring, releasing in either order and migrating keep ownership and the lock prefix of every actor consistent |
| `LockOrder.Exclusion` | kernel-overlay/include/evl/sched.h:377-390 | no reachable state has two holders of a lock |
| `LockOrder.SectionOwns` | kernel-overlay/include/evl/sched.h:377-390 | inside its section an actor owns both threads, or the thread and the runqueue it is on now; the lower address and the thread lock come first |
| `LockOrder.SectionsExclude` | kernel-overlay/include/evl/sched.h:377-390 | no two actors are inside sections of threads on one runqueue, nor of one thread |
| `LockOrder.MovesByMigration` | kernel-overlay/include/evl/sched.h:377-384 | a thread changes runqueues exactly by migrating, and never while its lock is held |
| `LockOrder.SomebodyMoves` | kernel-overlay/include/evl/thread.h:196-199 | following blocked actors to the holders climbs the lock order, so one of them can move |
| `LockOrder.DeadlockFree` | kernel-overlay/include/evl/thread.h:190-207 | any number of actors using ordered double locks and thread-then-runqueue locks never all block |
| `LockOrder.EverybodyFinishes` | kernel-overlay/include/evl/sched.h:377-390 | in every run, migrations included, the actors take exactly as many steps as work was done, and where none can go on all operations are done and all locks free |
| `LockOrder.OperationsInOrder` | kernel-overlay/include/evl/thread.h:190-207 | over any run each actor enters the sections of its operations in its own order, each exactly once |
| `LockOrder.AllOperationsRun` | kernel-overlay/include/evl/sched.h:377-390 | where nobody can go on, each actor has been in the section of every one of its operations |
| `LockOrder.SameThreadBlocks` | kernel-overlay/include/evl/thread.h:193-206 | a double lock gets past its first lock if and only if the two threads differ |
| `Accounting.RunQueue.Switch` | kernel-overlay/include/evl/stat.h:135-139 | the time since the last switch goes to the outgoing account only, then the account changes |
| `Accounting.RunQueue.Close` | kernel-overlay/include/evl/stat.h:82-87 | the date and the account change, no total does |
| `Accounting.TimeConserved` | kernel-overlay/include/evl/stat.h:44-87 | over any run, totals plus dropped plus erased time equal the time from the start to the last switch |
| `Accounting.EachGetsItsOwn` | kernel-overlay/include/evl/stat.h:44-87 | over any run each account holds exactly the time it was current since its last reset, slice by slice, and the last switch date and the current account follow the last operations |
| `Accounting.ResetSafeIff` | kernel-overlay/include/evl/stat.h:44-48 | after a reset every total stays within the age of its account if and only if the account was not in the middle of its slice |
| `Accounting.ResetOvercharges` | kernel-overlay/include/evl/stat.h:44-48 | such a reset makes the next update charge the account for all the time before its start |
| `SocketMem.Socket.Charge` | kernel-overlay/include/evl/net/socket.h:112-123 | run alone, accepted iff below the limit, and then at most the limit - 1 plus one size |
| `SocketMem.Socket.Uncharge` | kernel-overlay/include/evl/net/socket.h:125-130 | the size is given back and the warning fires iff the counter went negative |
| `SocketMem.MemoryBound` | kernel-overlay/include/evl/net/socket.h:112-130 | the counter is the sum of the charges in force and never exceeds rmem_max - 1 + n * S with n racing parties |
| `SocketMem.UnchargeUndoes` | kernel-overlay/include/evl/net/socket.h:112-130 | charging and uncharging leaves nothing behind, whatever else is charged or under way |
| `SocketMem.RefusedAtLimit` | kernel-overlay/include/evl/net/socket.h:115-117 | a charge is refused exactly at or beyond the limit, and changes nothing then |
| `SocketMem.BoundReached` | kernel-overlay/include/evl/net/socket.h:115-120 | that bound is attained for every limit, every number of parties and every largest size (all of them positive) |

## Left out

- Red-black-tree timer queue: its insertion and the rbtree library are not part of this model.
- Priority-inheritance chain walk, quota, TP and weak policies, semaphores, mutexes, stax, caches and heaps: their bodies are in C files that are not part of this model.
- The interrupt log and its replay: `kernel/irq/pipeline.c` is not part of this model, so enabling in-band interrupts does not deliver anything here.
- `arch_steal_pipelined_tick`, interrupt controller registration, UAPI constants, scripts and configuration: single branches or constants.
- `evl_spin_trylock` and the debug variants of the preemption count.
- Weak-memory ordering, lockdep and debug assertions: each atomic access or lock-protected section is one step.
- EvlCrossing: the count is unbounded here, while `atomic_t` wraps beyond 2^31 - 1 simultaneous users.
- Accounting: ktime_t overflow of totals is not modelled.
- SocketMem: sizes and counts stay within an int; the truncation of a size_t beyond that is not modelled.
- LockOrder: lock acquisition is modelled on values, as steps that are enabled when the lock is free; spinning itself is not.
- Resched: the preemption count belongs to the context running on a CPU and is kept with its runqueue; a switch between contexts of different counts is not modelled.
- WaitFlag: the order in which the wait list wakes its threads is not modelled, since a flush wakes all of them.
