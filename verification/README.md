# Concurrent queues and TCP servers

A Dafny model of five concurrent queues and two TCP servers, with proofs about every interleaving of
their threads. Buffer sizes, numbers of threads, programs, values and peers are all symbolic.

| files | what they model |
|---|---|
| `FifoHistory.dfy` | histories of calls, effects and returns, and linearizability to a bounded or unbounded FIFO queue |
| `TwoLockQueue.dfy`, `TwoLockTheorems.dfy` | the fine-grained MPMC queue: linked nodes, a head mutex and a tail mutex, `new` and `delete` on an explicit heap, one step per statement |
| `CondVarQueue.dfy`, `CondVarTheorems.dfy`, `CondVarWorkloads.dfy` | the coarse-grained MPMC queue: one mutex and one condition variable, with sleeping, woken and lock-waiting threads and spurious wake-ups, and which workloads are free of deadlock (sections 30.4 and 30.5 of ISO/IEC 14882:2011) |
| `QueueClasses.dfy` | both MPMC queues as classes, one call at a time |
| `RingMachine.dfy`, `RingTheorems.dfy` | the single-producer single-consumer rings, wrapped and monotone, step by step, as images of one reference ring |
| `RingClasses.dfy` | the rings as classes over an array, and the ring behind a mutex |
| `ReleaseAcquireRing.dfy`, `ReleaseAcquireCalls.dfy`, `ReleaseAcquireViews.dfy` | the acquire/release ring under views and happens-before (sections 1.10 and 29.3 of ISO/IEC 14882:2011); what its calls return and when they are refused; and that the views are exact |
| `ClientInput.dfy`, `PeerSlots.dfy` | what a client sends, sockets, operating-system descriptors and the first-fit slot allocator |
| `Reactor.dfy`, `ServerClasses.dfy` | the reactor server: its functions on values with their invariant, and the classes that update in place |
| `ThreadPerClient.dfy`, `ThreadPerClientEffects.dfy` | the thread-per-client server as an interleaving of one acceptor and any number of handlers |
| `Int32.dfy`, `Modulo.dfy`, `Sums.dfy` | the narrowing to a 32-bit `int`, remainders, finite sums |

How the parts fit. A queue is modelled as a transition system with one step per statement that loads or
stores shared memory, plus a history to which steps append calls, effects and returns. A history is
accepted when its effects are a legal run of the sequential queue and every effect lies between its call
and its return; each system is shown to produce accepted histories only. The rings are proved once, on a
reference ring with unbounded indices and a limit, and the two rings of the source are shown to run in
lockstep with it. Faults (a node that is not allocated, an index outside the buffer, a missing slot, a
socket object that is gone, a descriptor closed for another connection) are explicit states, proved
unreachable.

The operating system is an environment. `accept` may return any descriptor that is not open; `receive`,
its error code, and the order of events are arbitrary; the allocator may return any address that is not
allocated. Every connection has a number of its own, which exists only to tell whose descriptor a
`close` releases and which object a slot holds.

Properties that turned out not to hold as one might state them, each with its exact condition:

- An error event of the acceptor is taken for slot 0's (`Reactor.HandledRightIff`,
  `Reactor.AcceptorErrorDropsPeerZero`). The theorems about batches assume the acceptor's events valid.
- A handler that sees the stop flag returns without disconnecting its peer, so a connected slot can be
  left without a running handler (`ThreadPerClient.ServedThroughoutIff`, `ServedAfterCheckIff`,
  `StoppingLeavesSlot`).
- As many pushes as pops do not suffice when a thread both pops and pushes
  (`CondVarTheorems.OwnPushTooLate`). The exact condition is on the programs: cut each of them anywhere,
  so that some thread has operations left and every such thread is about to pop; then more values must
  have been put than taken (`CondVarWorkloads.CompletesIffCutsLeaveSomething`).
- The narrowing of `increment(int)` is exact only up to 2^31 - 1 (`RingTheorems.WrappedNarrowing`,
  `MonotoneNextCall`), and every monotone ring can be brought beyond it (`MonotoneOverflows`). "Called
  within range" means that `try_push` is called only while `write` is below that bound.

## Model

| member | source | states |
|---|---|---|
| TwoLockTheorems.LinearizableToFifo | fine_grained_vs_coarse_grained/fine_grained/queue_mpmc.hpp:36-68 | Every run of any number of threads, interleaved statement by statement, is linearizable to an unbounded FIFO queue whose value is always the data of the linked nodes. |
| TwoLockTheorems.EffectPoints | fine_grained_vs_coarse_grained/fine_grained/queue_mpmc.hpp:41-65 | An enqueue takes effect exactly at its store to `tail->next`, a dequeue at its store to `head`, a failing dequeue at its read of a null `next`, when the queue is empty; no other step changes the queue. |
| TwoLockTheorems.NoUseAfterFree | fine_grained_vs_coarse_grained/fine_grained/queue_mpmc.hpp:42-66 | In no reachable state does a statement touch or delete a node that is not allocated, and no two threads have the same node to delete, with addresses recycled at the allocator's will. |
| TwoLockTheorems.LiveNodes | fine_grained_vs_coarse_grained/fine_grained/queue_mpmc.hpp:38-66 | The live nodes are exactly the list from `head`, the nodes not linked yet and the unlinked nodes awaiting `delete`; the three are disjoint, so nothing leaks. |
| TwoLockTheorems.TailLagsOnlyInWindow | fine_grained_vs_coarse_grained/fine_grained/queue_mpmc.hpp:41-43 | Whenever `tail` is not the last node, exactly one thread is between linking its node and moving `tail`, and it holds the tail mutex. |
| TwoLockTheorems.TailCanDangle | fine_grained_vs_coarse_grained/fine_grained/queue_mpmc.hpp:42-66 | The window is real: a run reaches a state in which `tail` names a deleted node. |
| TwoLockTheorems.DequeuesArePrefixOfEnqueues | fine_grained_vs_coarse_grained/fine_grained/queue_mpmc.hpp:36-68 | What was dequeued is a prefix of what was enqueued, and per producer a prefix of what it asked to enqueue, in its order. |
| TwoLockTheorems.WorkDecreases | fine_grained_vs_coarse_grained/fine_grained/queue_mpmc.hpp:36-68 | Every step of every thread strictly decreases one natural number, so no run diverges. |
| TwoLockTheorems.RunsAreBounded | fine_grained_vs_coarse_grained/fine_grained/queue_mpmc.hpp:36-68 | A run is never longer than nine steps for each requested operation. |
| TwoLockTheorems.SomeStepEnabled | fine_grained_vs_coarse_grained/fine_grained/queue_mpmc.hpp:41-64 | Unless all programs are finished some thread can step: the two mutexes cannot deadlock. |
| TwoLockTheorems.MaximalRunsComplete | fine_grained_vs_coarse_grained/fine_grained/queue_mpmc.hpp:36-68 | In a run that cannot go on every operation of every program, enqueue or dequeue, took effect exactly once and in program order, and every value enqueued was dequeued or is still linked. |
| TwoLockQueue.ExecMemory | fine_grained_vs_coarse_grained/fine_grained/queue_mpmc.hpp:38-66 | Each statement keeps the list well formed from `head` to the null `next`, with `tail` at its end while the tail mutex is free, and never faults. |
| TwoLockQueue.ExecOther | fine_grained_vs_coarse_grained/fine_grained/queue_mpmc.hpp:38-66 | No statement of a thread disturbs what another thread knows or the node another thread has to itself. |
| TwoLockQueue.ExecNoLeak | fine_grained_vs_coarse_grained/fine_grained/queue_mpmc.hpp:38-66 | Every node live after a statement is linked, or owned by a thread. |
| TwoLockQueue.ExecContents | fine_grained_vs_coarse_grained/fine_grained/queue_mpmc.hpp:42-61 | Only the store to `tail->next` and the store to `head` change the queue: one appends the value, the other removes the first. |
| TwoLockQueue.ExecFaithful | fine_grained_vs_coarse_grained/fine_grained/queue_mpmc.hpp:36-68 | Each statement logs what the sequential FIFO queue would answer, or nothing, and takes the queue and the call to where they should be. |
| TwoLockQueue.RunInv | fine_grained_vs_coarse_grained/fine_grained/queue_mpmc.hpp:27-68 | The invariants on memory, threads and history hold in every state of every run. |
| QueueClasses.LinkedQueue.Enqueue | fine_grained_vs_coarse_grained/fine_grained/queue_mpmc.hpp:36-44 | On real node objects: appends the value, adds one fresh node at the end, and writes only the last node's link and `tail`. |
| QueueClasses.LinkedQueue.Dequeue | fine_grained_vs_coarse_grained/fine_grained/queue_mpmc.hpp:46-68 | On real node objects: returns and removes the oldest value, or reports an empty queue and changes nothing; no node is written. |
| QueueClasses.WaitingQueue.Push | fine_grained_vs_coarse_grained/coarse_grained/queue_mpmc.hpp:27-34 | The value becomes the newest of those ever pushed, and everything pushed is what was popped followed by the queue; any thread running `push` alone in the step machine leaves the same queue. |
| QueueClasses.PushAloneIs | fine_grained_vs_coarse_grained/coarse_grained/queue_mpmc.hpp:27-34 | Run alone, the five statements of `push` append the value, take effect once, return, and leave the mutex free. |
| QueueClasses.WaitingQueue.PopOrSleep | fine_grained_vs_coarse_grained/coarse_grained/queue_mpmc.hpp:36-44 | The value returned is the oldest one pushed and not returned before; the call sleeps only if everything pushed has been popped; any thread running `pop` alone in the step machine does the same. |
| QueueClasses.PopAloneIs | fine_grained_vs_coarse_grained/coarse_grained/queue_mpmc.hpp:36-44 | Run alone, the statements of `pop` remove and return the first value, or fall asleep on an empty queue; either way the mutex is free. |
| FifoHistory.EffectWithinCall | fine_grained_vs_coarse_grained/fine_grained/queue_mpmc.hpp:36-68 | In an accepted history every return is preceded by its own call and by exactly one effect between the two, with the same answer. |
| FifoHistory.RealTimeOrder | fine_grained_vs_coarse_grained/fine_grained/queue_mpmc.hpp:36-68 | An operation that returned before another was called took effect first. |
| FifoHistory.PutsAreTakesThenQueue | fine_grained_vs_coarse_grained/fine_grained/queue_mpmc.hpp:36-68 | Conservation: what was put is what was taken followed by what is still queued. |
| FifoHistory.LeaveInProgramOrder | fine_grained_vs_coarse_grained/fine_grained/queue_mpmc.hpp:36-68 | Each producer's values leave in the order it asked to put them. |
| FifoHistory.EffectsFollowCalls | fine_grained_vs_coarse_grained/fine_grained/queue_mpmc.hpp:36-68 | Each call of a thread takes effect once, in the order of its calls; only the last may still be outstanding. |
| FifoHistory.VisibleParts | fine_grained_vs_coarse_grained/fine_grained/queue_mpmc.hpp:36-68 | What callers see of a history is taken event by event, in order: with `VisibleEvent`, all calls and returns and nothing else. |
| CondVarTheorems.NoLostWakeup | fine_grained_vs_coarse_grained/coarse_grained/queue_mpmc.hpp:27-44 | While a thread is asleep, the queue is no longer than the producers between push and notify plus the roused consumers not yet served, spurious wake-ups included. |
| CondVarTheorems.LinearizableToFifo | fine_grained_vs_coarse_grained/coarse_grained/queue_mpmc.hpp:27-44 | Every run is linearizable to a FIFO queue on which a pop never finds it empty; what was pushed is what was popped followed by what is queued. |
| CondVarTheorems.ProgramsPerformed | fine_grained_vs_coarse_grained/coarse_grained/queue_mpmc.hpp:27-44 | A thread with nothing left to do has performed its program, each push and pop once and in order. |
| CondVarTheorems.OnlySleepersRemain | fine_grained_vs_coarse_grained/coarse_grained/queue_mpmc.hpp:36-44 | When no thread can run, all unfinished threads are asleep and the queue is empty. |
| CondVarWorkloads.CompletesIffCutsLeaveSomething | fine_grained_vs_coarse_grained/coarse_grained/queue_mpmc.hpp:27-44 | Every run of a workload that can go no further has completed if and only if every blocked cut of its programs (some thread has operations left, and all such threads are about to pop) puts more values than it takes; for any mixture of pushes and pops in the threads. |
| CondVarWorkloads.StuckAtCut | fine_grained_vs_coarse_grained/coarse_grained/queue_mpmc.hpp:36-44 | A run stuck before completion stands at a blocked cut that takes as many values as it puts. |
| CondVarWorkloads.BlockedCutIsReached | fine_grained_vs_coarse_grained/coarse_grained/queue_mpmc.hpp:27-44 | Every blocked cut that takes at least what it puts yields a run that never completes. |
| CondVarWorkloads.QueueAtCut | fine_grained_vs_coarse_grained/coarse_grained/queue_mpmc.hpp:27-44 | With every thread between calls or asleep, the queue is as long as what its cut has put less what it has taken. |
| CondVarWorkloads.SomeRunEnds | fine_grained_vs_coarse_grained/coarse_grained/queue_mpmc.hpp:27-44 | Every workload has a run to a state in which no thread can step. |
| CondVarWorkloads.EnoughPushes | fine_grained_vs_coarse_grained/coarse_grained/queue_mpmc.hpp:27-44 | Every workload needs at least as many pushes as pops to complete always, and that is enough when each thread only pushes or only pops. |
| CondVarWorkloads.MixedRolesComplete | fine_grained_vs_coarse_grained/coarse_grained/queue_mpmc.hpp:27-44 | Threads that both push and pop can be safe: a workload that always completes, by the condition on cuts. |
| CondVarTheorems.OwnPushTooLate | fine_grained_vs_coarse_grained/coarse_grained/queue_mpmc.hpp:36-44 | Without separate roles that is not enough: a thread that pops before it pushes sleeps for ever. |
| CondVarQueue.ExecFaithful | fine_grained_vs_coarse_grained/coarse_grained/queue_mpmc.hpp:27-44 | Each statement logs what the sequential FIFO queue would answer, or nothing; `front` never meets an empty queue. |
| CondVarTheorems.RunsAreBounded | fine_grained_vs_coarse_grained/coarse_grained/queue_mpmc.hpp:27-44 | A run has at most eight steps per requested operation and three per spurious wake-up. |
| RingTheorems.WrappedLinearizable | concurrency_spsc_ringbuffer_queue/lockless_ring_buffer_spsc/lockless_ring_buffer_spsc.cpp:18-50 | Every interleaving of one producer and one consumer is linearizable to a FIFO queue of capacity size - 1 and stays within the buffer. |
| RingTheorems.WrappedTestsAreExact | concurrency_spsc_ringbuffer_queue/lockless_ring_buffer_spsc/lockless_ring_buffer_spsc.cpp:22-44 | In spite of stale snapshots `try_push` fails exactly if the queue is full at its load of `read`, and `try_pop` exactly if it is empty at its load of `write`. |
| RingTheorems.WrappedIsGuarded | concurrency_spsc_ringbuffer_queue/lockless_ring_buffer_spsc/lockless_ring_buffer_spsc.cpp:18-68 | On every run the wrapped ring moves in lockstep with the unbounded-index ring limited to size - 1 entries: same buffer, same events and answers, each index the remainder of the unbounded one. |
| RingTheorems.MonotoneIsGuarded | lockless_spsc_sequantial_vs_acquirerelease/lockless_ring_buffer_spsc_sequential/lockless_ring_buffer_spsc.cpp:18-69 | Called within range, the monotone ring moves in lockstep with the unbounded-index ring limited to its size. |
| RingTheorems.MonotoneLinearizable | lockless_spsc_sequantial_vs_acquirerelease/lockless_ring_buffer_spsc_sequential/lockless_ring_buffer_spsc.cpp:18-51 | Called within range, every interleaving is linearizable to a FIFO queue of capacity size, `write - read` stays between 0 and size, and no access leaves the buffer. |
| RingTheorems.SpinningDelivers | lockless_spsc_sequantial_vs_acquirerelease/lockless_ring_buffer_spsc_sequential/lockless_ring_buffer_spsc.cpp:33-58 | With a spinning producer of any input, what was popped is a prefix of what was pushed, itself a prefix of the input, at most size ahead; popping as many values as the input has yields the input. |
| RingTheorems.SpinsNeverBothStuck | lockless_spsc_sequantial_vs_acquirerelease/lockless_ring_buffer_spsc_sequential/lockless_ring_buffer_spsc.cpp:33-58 | Between a refused push and a refused pop, in either order, some operation succeeds. |
| RingTheorems.WrappedOneSideSucceeds | concurrency_spsc_ringbuffer_queue/lockless_ring_buffer_spsc/lockless_ring_buffer_spsc.cpp:32-57 | In every reachable state of the wrapped ring the producer alone would push, or the consumer alone would pop the oldest entry, within six of its steps. |
| RingTheorems.MonotoneOneSideSucceeds | lockless_spsc_sequantial_vs_acquirerelease/lockless_ring_buffer_spsc_sequential/lockless_ring_buffer_spsc.cpp:33-58 | The same in every reachable state of the monotone ring whose next call is within range. |
| RingTheorems.WrappedNarrowing | concurrency_spsc_ringbuffer_queue/lockless_ring_buffer_spsc/lockless_ring_buffer_spsc.cpp:65-68 | The sum `n + 1` in `increment(int)` is exact on all runs of the wrapped ring if and only if the size is at most 2^31 - 1. |
| RingTheorems.WrappedStaysInRing | concurrency_spsc_ringbuffer_queue/lockless_ring_buffer_spsc/lockless_ring_buffer_spsc.cpp:18-68 | With the overflow wrapping around, the indices stay in the ring on all runs if and only if the size is at most 2^31; beyond, a run publishes a negative index. |
| RingTheorems.MonotoneNarrowing | lockless_spsc_sequantial_vs_acquirerelease/lockless_ring_buffer_spsc_sequential/lockless_ring_buffer_spsc.cpp:66-69 | Called within range, the increments of the consumer and of a called producer are always exact. |
| RingTheorems.MonotoneNextCall | lockless_spsc_sequantial_vs_acquirerelease/lockless_ring_buffer_spsc_sequential/lockless_ring_buffer_spsc.cpp:18-31 | With room, the next whole call moves `write` on by one if and only if it is made within range; at 2^31 - 1 it publishes -2^31. |
| RingTheorems.MonotoneOverflows | lockless_spsc_sequantial_vs_acquirerelease/lockless_ring_buffer_spsc_sequential/lockless_ring_buffer_spsc.cpp:18-31 | A run that brings any monotone ring to that bound by calls within range, and one more call that publishes a negative index. |
| RingMachine.RefRun | lockless_spsc_sequantial_vs_acquirerelease/lockless_ring_buffer_spsc_sequential/lockless_ring_buffer_spsc.cpp:18-51 | Every run of the reference ring keeps the relation of snapshots, indices and slots, and is a run of a FIFO queue bounded by the limit. |
| RingClasses.WrappedRing.TryPush | concurrency_spsc_ringbuffer_queue/lockless_ring_buffer_spsc/lockless_ring_buffer_spsc.cpp:18-30 | On a real array: succeeds exactly if the bounded queue has room, appends the value, and changes memory as `Pushed` says. |
| RingClasses.WrappedRing.TryPop | concurrency_spsc_ringbuffer_queue/lockless_ring_buffer_spsc/lockless_ring_buffer_spsc.cpp:37-50 | On a real array: returns and removes the oldest value, or fails exactly if the queue is empty; changes memory as `Popped` says. |
| RingClasses.WrappedRing.QueueIsBetween | concurrency_spsc_ringbuffer_queue/lockless_ring_buffer_spsc/lockless_ring_buffer_spsc.cpp:18-50 | The queue of the class is what lies between the two wrapped indices, around the ring. |
| RingClasses.MonotoneRing.TryPush | lockless_spsc_sequantial_vs_acquirerelease/lockless_ring_buffer_spsc_sequential/lockless_ring_buffer_spsc.cpp:18-31 | The same for the monotone ring, with capacity size. |
| RingClasses.MonotoneRing.TryPop | lockless_spsc_sequantial_vs_acquirerelease/lockless_ring_buffer_spsc_sequential/lockless_ring_buffer_spsc.cpp:38-51 | The same for the monotone ring. |
| RingTheorems.PushAloneIs | concurrency_spsc_ringbuffer_queue/lockless_ring_buffer_spsc/lockless_ring_buffer_spsc.cpp:18-30 | `Pushed` is what the producer of the step machine does to memory when it runs one call alone, for both rings. |
| RingTheorems.PopAloneIs | concurrency_spsc_ringbuffer_queue/lockless_ring_buffer_spsc/lockless_ring_buffer_spsc.cpp:37-50 | `Popped` is what the consumer of the step machine does to memory when it runs one call alone, for both rings. |
| RingClasses.WrappedPush | concurrency_spsc_ringbuffer_queue/lockless_ring_buffer_spsc/lockless_ring_buffer_spsc.cpp:18-30 | The wrapped test fails exactly at size - 1 entries, and a push on wrapped indices is a push on unbounded ones. |
| RingClasses.WrappedPop | concurrency_spsc_ringbuffer_queue/lockless_ring_buffer_spsc/lockless_ring_buffer_spsc.cpp:37-50 | The wrapped test fails exactly without entries, and a pop on wrapped indices is a pop on unbounded ones. |
| RingClasses.LockedRing.Push | concurrency_spsc_ringbuffer_queue/locked_ring_buffer_spsc/locked_ring_buffer_spsc.cpp:17-23 | Stores into the slot of its index and keeps every written cell equal to the latest push congruent to it modulo size. |
| RingClasses.LockedRing.Pop | concurrency_spsc_ringbuffer_queue/locked_ring_buffer_spsc/locked_ring_buffer_spsc.cpp:25-32 | Returns the latest push congruent to its index, which is the push of that very index whenever `read < write <= read + size`. |
| RingClasses.LatestAfterPush | concurrency_spsc_ringbuffer_queue/locked_ring_buffer_spsc/locked_ring_buffer_spsc.cpp:20-21 | A push moves the latest index of its own slot and of no other. |
| RingClasses.PopsOwnPush | concurrency_spsc_ringbuffer_queue/locked_ring_buffer_spsc/locked_ring_buffer_spsc.cpp:28-29 | A pop meets the push of its own index if and only if that push was made and not overwritten. |
| RingClasses.GuardedHistoryIsLocked | lockless_spsc_sequantial_vs_acquirerelease/lockless_ring_buffer_spsc_sequential/lockless_ring_buffer_spsc.cpp:18-51 | Every history of a queue bounded by the size, replayed without its guards on the locked ring, stays in the window 0 <= write - read <= size and pops the same values. |
| RingClasses.MonotoneRunsOnLocked | lockless_spsc_sequantial_vs_acquirerelease/lockless_ring_buffer_spsc_sequential/lockless_ring_buffer_spsc.cpp:18-51 | So the successful operations of every run of the monotone ring are a legal run of the locked ring. |
| ReleaseAcquireRing.RaceFree | lockless_spsc_sequantial_vs_acquirerelease/lockless_ring_buffer_spsc_acquire_release/fine_grained_lockless_ring_buffer_spsc.cpp:18-50 | In every execution of the view model, stale loads included, any two conflicting accesses of producer and consumer to one slot are ordered by happens-before. |
| ReleaseAcquireCalls.AnswersArePrefixOfArguments | lockless_spsc_sequantial_vs_acquirerelease/lockless_ring_buffer_spsc_acquire_release/fine_grained_lockless_ring_buffer_spsc.cpp:18-50 | In every execution, stale loads included, the values returned by successful calls of `try_pop` are a prefix of the arguments of successful calls of `try_push`: the k-th answer is the k-th argument. |
| ReleaseAcquireCalls.CallsFillAndDrain | lockless_spsc_sequantial_vs_acquirerelease/lockless_ring_buffer_spsc_acquire_release/fine_grained_lockless_ring_buffer_spsc.cpp:18-50 | The slots are filled, in order, with the arguments of the successful calls of `try_push`, and what is read from them is what the successful calls of `try_pop` return; a call under way is accounted for. |
| ReleaseAcquireCalls.RefusedPush | lockless_spsc_sequantial_vs_acquirerelease/lockless_ring_buffer_spsc_acquire_release/fine_grained_lockless_ring_buffer_spsc.cpp:20-29 | A push is refused exactly if the `read` it loaded is at least size behind its tail, which is the number of pushes published; with the newest `read` that is the number of pops published, so the refusal is exact. |
| ReleaseAcquireCalls.RefusedPop | lockless_spsc_sequantial_vs_acquirerelease/lockless_ring_buffer_spsc_acquire_release/fine_grained_lockless_ring_buffer_spsc.cpp:39-44 | A pop is refused exactly if the `write` it loaded equals its head, which is the number of pops published; with the newest `write` that is the number of pushes published. |
| ReleaseAcquireCalls.RoomIsUsed | lockless_spsc_sequantial_vs_acquirerelease/lockless_ring_buffer_spsc_acquire_release/fine_grained_lockless_ring_buffer_spsc.cpp:22-26 | A push that saw room publishes one more value in two steps of its own and returns true. |
| ReleaseAcquireCalls.DataIsUsed | lockless_spsc_sequantial_vs_acquirerelease/lockless_ring_buffer_spsc_acquire_release/fine_grained_lockless_ring_buffer_spsc.cpp:46-49 | A pop that saw data gives its slot back in two steps of its own and returns true with the value it read. |
| ReleaseAcquireViews.LoadsAreCoherent | lockless_spsc_sequantial_vs_acquirerelease/lockless_ring_buffer_spsc_acquire_release/fine_grained_lockless_ring_buffer_spsc.cpp:20-47 | In every execution a load of either index by either side may read a store if and only if no newer store to that index happens before the load: the views are exact. |
| ReleaseAcquireRing.PopReturnsItsPush | lockless_spsc_sequantial_vs_acquirerelease/lockless_ring_buffer_spsc_acquire_release/fine_grained_lockless_ring_buffer_spsc.cpp:46-46 | The slot read of index k takes its value from the slot write of index k, which happens before it. |
| ReleaseAcquireRing.StaysInBuffer | lockless_spsc_sequantial_vs_acquirerelease/lockless_ring_buffer_spsc_acquire_release/fine_grained_lockless_ring_buffer_spsc.cpp:18-50 | In every execution no access leaves the buffer, and at most size more values have been pushed than popped. |
| ReleaseAcquireRing.PopsArePrefixOfPushes | lockless_spsc_sequantial_vs_acquirerelease/lockless_ring_buffer_spsc_acquire_release/fine_grained_lockless_ring_buffer_spsc.cpp:24-46 | The values read from slots are a prefix of the values written to slots. |
| ReleaseAcquireRing.OwnOrigin | lockless_spsc_sequantial_vs_acquirerelease/lockless_ring_buffer_spsc_acquire_release/fine_grained_lockless_ring_buffer_spsc.cpp:41-46 | The only write that the memory model lets a pop read is the push of the same index: earlier ones are hidden, later ones not yet possible. |
| ReleaseAcquireRing.OwnOriginAllowed | lockless_spsc_sequantial_vs_acquirerelease/lockless_ring_buffer_spsc_acquire_release/fine_grained_lockless_ring_buffer_spsc.cpp:41-46 | And the memory model does let it read that one. |
| ReleaseAcquireRing.PushBeforePop | lockless_spsc_sequantial_vs_acquirerelease/lockless_ring_buffer_spsc_acquire_release/fine_grained_lockless_ring_buffer_spsc.cpp:25-46 | The push of an index happens before the pop of that index and of every later one. |
| ReleaseAcquireRing.PopBeforePush | lockless_spsc_sequantial_vs_acquirerelease/lockless_ring_buffer_spsc_acquire_release/fine_grained_lockless_ring_buffer_spsc.cpp:22-47 | A pop happens before every push that reuses its slot. |
| PeerSlots.AddPeerIsFirstFit | epoll_vs_multithreaded_io/network/tcp_server.cpp:35-65 | The new peer takes the least free index, or a new slot at the end; every other slot is untouched. |
| PeerSlots.SlotsArePeak | epoll_vs_multithreaded_io/network/tcp_server.cpp:35-72 | After any history of connects and disconnects the number of slots is the largest number of peers ever connected at once. |
| PeerSlots.ReuseReleasesNothing | epoll_vs_multithreaded_io/network/socket.cpp:23-42 | As every free slot holds a disconnected socket, destroying it on reuse releases no descriptor. |
| PeerSlots.AddPeerKeeps | epoll_vs_multithreaded_io/network/tcp_server.cpp:35-65 | Adding a peer keeps: free slots are disconnected, connected slots own their open descriptors, no two share one. |
| PeerSlots.RemovePeerKeeps | epoll_vs_multithreaded_io/network/tcp_server.cpp:67-72 | Removing a peer keeps the same, and releases its own descriptor and no other (none if it is 0). |
| PeerSlots.SlotNumbersFit | epoll_vs_multithreaded_io/network/tcp_server.cpp:38-63 | As each peer has an `int` descriptor of its own, the slot number kept in an `int` is never narrowed. |
| Reactor.EventReachesOwner | epoll_vs_multithreaded_io/network/tcp_server_reactor.cpp:107-127 | While a batch of distinct ready descriptors is handled, with peers closed and accepted on recycled descriptors meanwhile, each client event reaches the connected slot whose connection owned the descriptor when the batch began. |
| Reactor.BatchKeeps | epoll_vs_multithreaded_io/network/tcp_server_reactor.cpp:107-127 | After any part of a batch the invariant holds and every descriptor still to come is served by the same slot, socket and connection as at the start. |
| Reactor.AcceptKeeps | epoll_vs_multithreaded_io/network/tcp_server_reactor.cpp:55-84 | Accepting on any descriptor that is not open keeps the table, the listener and the slots in agreement and releases nothing. |
| Reactor.AcceptDisturbsNobody | epoll_vs_multithreaded_io/network/tcp_server_reactor.cpp:55-84 | Accepting leaves every other descriptor of the listener with its slot. |
| Reactor.DisconnectKeeps | epoll_vs_multithreaded_io/network/tcp_server_reactor.cpp:63-68 | Disconnecting a connected peer keeps the table, the listener and the slots in agreement. |
| Reactor.LostKeeps | epoll_vs_multithreaded_io/network/socket.cpp:73-99 | The lost-connection path frees the slot and removes the descriptor from the listener, but leaves it open in the operating system. |
| Reactor.ClientEventEffect | epoll_vs_multithreaded_io/server_reactor.cpp:42-87 | In every state, an invalid event of a client and the text "quit" free the slot its descriptor leads to, remove the descriptor from the listener and release it if it is positive; errors 100 to 104 do so without releasing it; any other input leaves the server as it is. |
| Reactor.AcceptorEventEffect | epoll_vs_multithreaded_io/network/tcp_server_reactor.cpp:70-84 | In every state, a valid event of the acceptor seats an accepted peer in the least free slot or a new one and enters its descriptor in the table and the listener; without a connection nothing but the table entry of the acceptor changes. |
| ClientInput.QuitIsRecognised | epoll_vs_multithreaded_io/server_reactor.cpp:65-65 | The text compared equals "quit" exactly if the buffer begins with these four characters and ends there or goes on with a NUL. |
| ClientInput.CString | epoll_vs_multithreaded_io/server_reactor.cpp:56-65 | The longest prefix of the buffer without a NUL: free of NUL, and all of the buffer or followed by one. |
| Reactor.NeverClosesForeignDescriptor | epoll_vs_multithreaded_io/network/socket.cpp:23-42 | Over every run no `close` or destructor releases a descriptor of another connection, every free slot is disconnected, no missing slot is accessed, and adding a peer on any free descriptor releases nothing. |
| Reactor.AbandonedGrows | epoll_vs_multithreaded_io/network/socket.cpp:73-99 | An event leaves its descriptor open for ever exactly if it reports a lost connection, or ends the one on descriptor 0; no event releases an abandoned descriptor. |
| Reactor.DescriptorAccount | epoll_vs_multithreaded_io/network/socket.cpp:28-42 | Over every run the open descriptors are exactly the acceptor's, those of connected slots, and those abandoned by an event so far. |
| Reactor.HandledRightIff | epoll_vs_multithreaded_io/network/tcp_server_reactor.cpp:109-126 | An event is handled without harm to any other connection if and only if it is not an error event of the acceptor, or slot 0 exists and the listener does not know its descriptor. |
| Reactor.AcceptorErrorDropsPeerZero | epoll_vs_multithreaded_io/network/tcp_server_reactor.cpp:109-126 | An error event of the acceptor disconnects the peer in slot 0, because the table answers 0 for a descriptor it does not know. |
| Reactor.AcceptorErrorReached | epoll_vs_multithreaded_io/network/tcp_server_reactor.cpp:109-126 | A run that comes to it: one client connects, and the acceptor's error event disconnects that client. |
| ServerClasses.Socket.Close | epoll_vs_multithreaded_io/network/socket.cpp:28-42 | The socket is disconnected; its descriptor is released if the socket was not disconnected before and the descriptor is positive, and no other descriptor changes. |
| ServerClasses.Socket.IsConnectionLost | epoll_vs_multithreaded_io/network/socket.cpp:73-99 | True exactly for errors 100, 101, 102, 103 and 104, and then the socket is disconnected and its descriptor stays open. |
| ServerClasses.TcpServerReactor.AddPeer | epoll_vs_multithreaded_io/network/tcp_server.cpp:35-65 | The scanning loop finds the least free index; the new slots and descriptors are those of the slot model; the objects stay distinct. |
| ServerClasses.TcpServerReactor.RemovePeer | epoll_vs_multithreaded_io/network/tcp_server.cpp:67-72 | Clears the flag and closes the socket of that slot, and changes no other. |
| ServerClasses.TcpServerReactor.OnClientConnected | epoll_vs_multithreaded_io/network/tcp_server_reactor.cpp:55-61 | Enters the slot's descriptor in the table and the listener. |
| ServerClasses.TcpServerReactor.OnClientDisconnected | epoll_vs_multithreaded_io/network/tcp_server_reactor.cpp:63-68 | Removes the descriptor from the listener and the peer from its slot; the table entry stays. |
| ServerClasses.TcpServerReactor.AcceptNewConnection | epoll_vs_multithreaded_io/network/tcp_server_reactor.cpp:70-84 | Adds a peer on the accepted descriptor, or does nothing if `accept` failed. |
| ServerClasses.TcpServerReactor.HandleClient | epoll_vs_multithreaded_io/server_reactor.cpp:42-87 | Updates the objects as the reactor function of the same name does, whose effect `ClientEventEffect` states: "quit" and a lost connection disconnect the peer, anything else leaves the server as it is. |
| ServerClasses.TcpServerReactor.LookUp | epoll_vs_multithreaded_io/network/tcp_server_reactor.cpp:109-109 | Reads the slot of a descriptor from the table, inserting 0 for one it does not know. |
| ServerClasses.TcpServerReactor.HandleEvent | epoll_vs_multithreaded_io/network/tcp_server_reactor.cpp:109-126 | Looks the slot up and dispatches the event. |
| ServerClasses.TcpServerReactor.HandleBatch | epoll_vs_multithreaded_io/network/tcp_server_reactor.cpp:103-128 | The loop over a batch keeps the invariant and leaves the server as handling the events one by one does. |
| ThreadPerClient.NoUseAfterRecycle | epoll_vs_multithreaded_io/server_thread_per_client.cpp:53-107 | In any interleaving of the acceptor and the handlers no handler uses a socket object after its slot was recycled; it always holds the object of its own connection, still open while it receives, sends or tests the error; no `close` releases another connection's descriptor. |
| ThreadPerClient.OneHandlerPerSlot | epoll_vs_multithreaded_io/network/tcp_server_thread_per_client.cpp:40-72 | Every connected slot has exactly one handler once the acceptor has created it, and no connection ever gets two. |
| ThreadPerClient.RecycledSlotIsFree | epoll_vs_multithreaded_io/network/tcp_server_thread_per_client.cpp:64-69 | The slot that `addPeer` takes belongs to no handler, and destroying its old socket releases nothing. |
| ThreadPerClient.ServedUntilStopped | epoll_vs_multithreaded_io/server_thread_per_client.cpp:53-58 | Until the server is told to stop, the one handler of every connected slot is running. |
| ThreadPerClient.ServedAfterCheckIff | epoll_vs_multithreaded_io/server_thread_per_client.cpp:55-58 | After a handler's test of the stop flag its slot still has a running handler if and only if the flag was clear. |
| ThreadPerClient.ServedThroughoutIff | epoll_vs_multithreaded_io/server_thread_per_client.cpp:53-107 | Every connected slot has a running handler throughout a run if and only if no handler comes to its test after the server was told to stop. |
| ThreadPerClient.StoppingLeavesSlot | epoll_vs_multithreaded_io/server_thread_per_client.cpp:55-58 | A run that leaves a connected slot without a running handler. |
| ThreadPerClient.HandlerKeeps | epoll_vs_multithreaded_io/server_thread_per_client.cpp:53-107 | Every statement of every handler keeps the invariant of slots, sockets, descriptors, lock and threads. |
| ThreadPerClient.AcceptorKeeps | epoll_vs_multithreaded_io/network/tcp_server_thread_per_client.cpp:51-72 | Every statement of the acceptor keeps it. |
| ThreadPerClient.CloseReleasesOwn | epoll_vs_multithreaded_io/network/tcp_server.cpp:67-72 | Closing in `removePeer` keeps every other connection's descriptor open and its own. |
| ThreadPerClientEffects.CloseReleases | epoll_vs_multithreaded_io/network/tcp_server.cpp:67-72 | The closing step of a handler releases exactly its own descriptor, if the socket is still connected and the descriptor positive, and disconnects the socket. |
| ThreadPerClientEffects.DisconnectsIff | epoll_vs_multithreaded_io/server_thread_per_client.cpp:70-106 | Whatever the other threads do, a handler that has received goes on to disconnect its peer if and only if the text is "quit" or the error is one of 100 to 104, and otherwise to its next round. |
| ThreadPerClientEffects.RoundAlone | epoll_vs_multithreaded_io/server_thread_per_client.cpp:53-107 | A whole round of a handler that runs alone frees its slot, releases its descriptor (on "quit", if positive) and returns; or frees the slot only (lost connection); or changes nothing and is back at its test. |
| ThreadPerClientEffects.AcceptorRound | epoll_vs_multithreaded_io/network/tcp_server_thread_per_client.cpp:54-70 | A whole round of the acceptor that runs alone seats an accepted peer in the least free slot or a new one and gives it one handler at the start of its loop; without a connection it changes nothing. |
| ThreadPerClientEffects.AcceptorEndsIff | epoll_vs_multithreaded_io/network/tcp_server_thread_per_client.cpp:57-60 | A step ends the acceptor if and only if it is the test of the stop flag and the flag is set. |
| ThreadPerClientEffects.AbandonedGrows | epoll_vs_multithreaded_io/network/socket.cpp:73-99 | A move leaves a descriptor open for ever exactly if it marks a connection lost, or closes the socket on descriptor 0; no move releases an abandoned one. |
| ThreadPerClientEffects.DescriptorAccount | epoll_vs_multithreaded_io/network/tcp_server_thread_per_client.cpp:40-72 | Over every run the open descriptors are exactly the acceptor's, those of sockets still connected in a slot, that of a peer accepted and not yet added, and those abandoned so far. |

## Left out

- Weak memory in the fine-grained queue: its `next` field is a plain pointer that `enqueue` and `dequeue` reach under different mutexes, so the model takes each load and store of a pointer as one atomic, sequentially consistent step.
- Exact full and empty answers of the acquire/release ring: with stale loads a false result is only conservative, so exact answers on all runs are claimed for sequentially consistent runs only; for the view model `RefusedPush` and `RefusedPop` say when a call is refused, and that it is right when the newest index was loaded.
- The stronger ordering of `read.load()` and `write.load()` without an argument in the acquire/release ring: the view model lets them read any store not older than the thread's view, which allows more executions.
- RingTheorems.WrappedStaysInRing: at size 2^31 the last index overflows and the remainder undoes it; ISO/IEC 14882:2011 leaves that overflow undefined, so `WrappedLinearizable` and the theorems beside it ask for a size of at most 2^31 - 1.
- ReleaseAcquireRing.RaceFree: covers calls of `try_push` with `write` below 2^31 - 1, since beyond that the source's `int` arithmetic overflows.
- RingClasses.MonotoneRing.TryPush: requires `write` below 2^31 - 1 for the same reason; the model otherwise wraps a 32-bit overflow around, where ISO/IEC 14882:2011 leaves it undefined.
- The expression `buffer.get()[...]` in the sequentially consistent monotone ring, applied to a plain array: read as `buffer[...]`.
- RingClasses.LockedRing.Pop: the 64-bit indices of the ring behind a mutex are unbounded integers, and its mutex makes each call one step.
- The spinning `push` and `pop` as methods: alone they would not return on a full or empty ring; they are runs of the step machine that repeat calls.
- QueueClasses.LinkedQueue.Dequeue: `delete` has no counterpart on objects, so the class only says that the old dummy leaves the list; deletion is in the transition system.
- QueueClasses.WaitingQueue.PopOrSleep: waiting itself is in the transition system; the class does one pass.
- Reactor.LostKeeps: a connection found lost keeps its descriptor open for ever, as in the source, so descriptors are not conserved on that path; `Reactor.DescriptorAccount` says which stay open.
- The destructor of the servers, `stop` with its joins, and the vector of client threads: the model stops at the stop flag.
- Thread names: a handler looks itself up in `m_clientThreads` by slot number, which after reuse of a slot names an earlier thread.
- Growth of the peer vectors while a handler reads them without the lock: `getPeerSocket` is one atomic step.
- ThreadPerClient.OneHandlerPerSlot: slot numbers are unbounded here; that they fit an `int` is shown for the slot model.
- Errors other than a lost connection: the callback that prints them changes no state and is not modelled.
- Data race freedom of `isConnectionLost` against `close`: each handler is the only one to touch its socket's state, which the model takes as single steps.
- System calls, socket options, address resolution, blocking modes, the internals of epoll, and the network client.
- Counters, cache lines, virtual dispatch and everything about timing, fairness or placement of threads.
