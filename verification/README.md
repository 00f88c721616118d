# hairtos in Dafny

A model of the hairtos real-time kernel and of the layers built on it, with proofs of what they
promise: priority inheritance, freedom from deadlock, prompt scheduling, exact deadlines on a
wrapping tick, single-winner wakeups, queue and token conservation, event reference counting,
bounded state-machine transitions, a first-fit heap and the benchmark arithmetic.

`dafny verify dfyconfig.toml` checks the whole project.

## How it is organised

The kernel appears twice. `KernelModel` is a machine over values: one record holds the task
control blocks, the ready set, the wait lists, the running timeouts and the synchronisation
objects, and there is one function per atomic step (a critical section of a task call, an
interrupt handler's call, SysTick, PendSV). `KernelInvariant` states what every step keeps;
`Inheritance`, `Blocking`, `Waking`, `Scheduling`, `Exchange` and `MutexSteps` prove it step by
step, and `KernelRuns` puts them together for whole runs. `TaskEffects` says exactly what each step
does to each task and `Answers` what each call answers. `KernelTheorems`, `Ownership`, `Accounts`,
`Episodes`, `Deadlines`, `Deliveries`, `Slicing`, `Requests` and `OverBoost` say what follows for users.

`KernelObject` is the kernel in memory: a class with the globals of the source and objects for
the ready set (`ReadySet`), the timeout list (`TimeoutList`) and the ring of bytes of each queue
(`RingBuffer`), changed in place by the source's own sequence of checked operations. Each call is proved to have exactly the effect of the step
function, so everything proved of runs holds of it; the branches in which the source would roll a
call back or stop the kernel are there and proved dead. `Validator` is the kernel's own consistency check.

Time is absolute in `KernelModel`. `TimeoutModel` relates the two sorted lists on the 32-bit
counter to absolute deadlines. `TimerModel`, `TimerObject`, `TimerService`, `TimerRuns` and `TimerTheorems` treat
software timers and the service task that delivers them. `IntrusiveList` is the linked list on the
heap.

`EventPool`, `PubSub`, `EventRuns`, `EventCalls`, `EventTheorems` and `StateMachine` model the event framework;
`HeapModel` and `HeapLab` the memory allocator lab; `BenchStats` the benchmark statistics.

Choices made where the source leaves room, or where its parts disagree:

- A task call's critical section and the switch request that follows it are one step. Interrupt
  handlers report a woken task with a flag, which becomes a switch request when they return.
- Only tasks other than the idle one make calls, and no interrupt handler that calls the kernel
  runs inside the tick, which takes no critical section.
- `he_active_post` hands the caller's reference over and does not retain, although
  docs/03-haievent/event-model.md:31 says it does. The model follows the code.
- A lock refused because it would close a cycle does not restore the priorities that were raised
  while it was queued. Exact inheritance is therefore proved for runs without a refused lock,
  `MutexSteps.LockRejectedExactIff` says exactly when a refused lock keeps it, and
  `OverBoost.RefusedLockOverBoosts` is a run in which it does not. No run ever leaves a task less
  urgent than it should be.
- A delay of zero inserted at the last value of the counter is not due at the next tick;
  `TimeoutModel.ZeroDelayIff` gives the exact condition. The kernel never inserts one.
- Between a block and its context switch no task runs, and the validator, which counts exactly one,
  rejects the state; `Validator.RejectedIff` says that this is the only way it can.
- The heap's inspection adds sizes on machine words and does not notice a block whose size wraps
  around: `HeapLab.WrapOverlooked` is such a block. `HeapLab.Validate` says that it rejects no
  well-formed heap and that what it accepts is well formed if and only if no linked block has a
  size that wraps.

## Model

| member | source | states |
|---|---|---|
| `KernelTheorems.PrioritiesInherited` | kernel/src/hr_mutex.c:200-313 | After any run without a refused lock, each task's effective priority is the minimum of its base priority and the effective priorities of all waiters of the mutexes it owns, through chains of any length |
| `KernelTheorems.NeverUnderBoosted` | kernel/src/hr_mutex.c:233-313 | After any run at all, no owner is less urgent than any of its waiters or than its own base priority |
| `KernelTheorems.NoDeadlock` | kernel/src/hr_mutex.c:373-401 | After any run the wait-for graph has no cycle: no task reaches itself by following owners |
| `MutexSteps.LockRejectedIff` | kernel/src/hr_mutex.c:233-275 | Of the locks that would wait, exactly those that would close a cycle are refused; the depth bound never refuses an acyclic chain |
| `MutexSteps.LockRejectedOutcome` | kernel/src/hr_mutex.c:386-401 | A refused lock publishes the internal error and leaves the caller ready, in no wait list and without a timeout, its episode ended where it began, with a switch requested |
| `MutexSteps.WokenIsUnlinked` | kernel/src/hr_mutex.c:386-391 | A woken task, and so a refused caller, is in no wait list |
| `MutexSteps.LockRejectedExactIff` | kernel/src/hr_mutex.c:299-313 | A refused lock keeps priorities exact if and only if the owner already had the caller's effective priority |
| `OverBoost.RefusedLockOverBoosts` | kernel/src/hr_mutex.c:386-391 | A concrete reachable state in which a refused lock leaves a task over-boosted |
| `Inheritance.RecomputeCore` | kernel/src/hr_mutex.c:233-275 | The recursion changes nothing but priorities and the list places they determine, and succeeds exactly when the chain of owners ends within the remaining depth |
| `Inheritance.RecomputeExact` | kernel/src/hr_mutex.c:233-275 | If every priority but the first task's is exact, recomputing along the chain makes all of them exact |
| `Inheritance.RequiredIsInherited` | kernel/src/hr_mutex.c:200-231 | Looking only at the first waiter of each owned mutex yields the minimum over all waiters |
| `MutexSteps.LockGood` | kernel/src/hr_mutex.c:315-404 | Lock keeps the whole kernel invariant in every case, and exact priorities unless it is refused |
| `MutexSteps.UnlockGood` | kernel/src/hr_mutex.c:406-494 | Unlock with release or direct handoff keeps the invariant and exact priorities, both recomputations succeed, and every switch that is due is requested |
| `KernelRuns.StepGood` | kernel/src/hr_kernel.c:1163-1313 | Every step keeps the invariant: states agree with links and wait kinds, lists are ordered, ownership is consistent, the wait-for graph is acyclic, nobody is under-boosted, tokens and items are conserved, a due switch is requested |
| `KernelRuns.RunGood` | kernel/src/hr_kernel.c:1163-1313 | The same over whole runs, with exact priorities if no lock is refused |
| `KernelRuns.StartedGood` | kernel/src/hr_kernel.c:69-216 | Initialisation, registration and start establish the invariant with exact priorities |
| `KernelRuns.TickGood` | kernel/src/hr_kernel.c:831-977 | The tick, with any number of expiries and with or without a software timer, keeps the invariant and exact priorities |
| `Answers.LockAnswers` | kernel/src/hr_mutex.c:315-404 | A lock succeeds at once if and only if the mutex is free or the caller's own recursive one with room to count, and then the caller owns it once more; on another task's mutex it answers busy or waits; what it refuses changes nothing |
| `Answers.UnlockAnswers` | kernel/src/hr_mutex.c:406-494 | An unlock succeeds if and only if the caller is the owner; it counts down, passes the mutex to the first waiter, or frees it |
| `Ownership.MutualExclusion` | kernel/src/hr_mutex.c:315-494 | After any run the locks and grants of a mutex that a task has seen, less its unlocks, are how often it holds the mutex; they are positive for at most one task, the owner, and at most one for a non-recursive mutex |
| `Ownership.GrantedIff` | kernel/src/hr_mutex.c:430-470 | A wait for a mutex ends with success exactly in the unlock that releases it to the first waiter |
| `Answers.TakeAnswers` | kernel/src/hr_semaphore.c:142-206 | A take succeeds at once if and only if a token is available, which it removes; otherwise it answers empty or waits |
| `Answers.GiveAnswers` | kernel/src/hr_semaphore.c:115-140 | A give, by a task or an interrupt handler, succeeds if and only if somebody waits or the count is below its maximum |
| `Answers.SendAnswers` | kernel/src/hr_queue.c:208-266 | A send, with any timeout and by a task or an interrupt handler, succeeds at once if and only if a receiver waits or there is room; on a full queue it answers full or waits; what it refuses changes nothing |
| `Answers.SendStores` | kernel/src/hr_queue.c:224-232 | The item is stored behind the buffered ones exactly if the send succeeds and nobody waits for it |
| `Answers.ReceiveAnswers` | kernel/src/hr_queue.c:268-340 | A receive succeeds at once if and only if an item is buffered, and returns the oldest; otherwise it answers empty or waits |
| `Answers.DelayAnswers` | kernel/src/hr_task.c:243-274 | Zero ticks yield, an endless delay is refused, and anything else waits if the caller runs |
| `Answers.DelayUntilAnswers` | kernel/src/hr_task.c:276-325 | Which periodic delays are refused, return at once or wait, and what becomes of the caller's reference |
| `Answers.SuspendAnswers` | kernel/src/hr_kernel.c:297-395 | A suspension succeeds if and only if the task is neither idle nor suspended; then it is suspended, in no level of the ready set, with its wait and timeout untouched |
| `Answers.ResumeAnswers` | kernel/src/hr_kernel.c:397-478 | A resumption succeeds if and only if the task is suspended, and puts it back in its wait or at the end of its level |
| `Answers.RegisterAnswers` | kernel/src/hr_kernel.c:118-173 | Registration succeeds if and only if the priority is above the idle one and the table has room |
| `KernelTheorems.AlwaysRunnable` | kernel/src/hr_kernel.c:776-788 | After any run the ready set offers a runnable task, so selection cannot fail |
| `KernelTheorems.SwitchSelectsBest` | kernel/src/hr_kernel.c:712-829 | After any run followed by a context switch exactly the current task runs and no ready task is strictly more urgent |
| `KernelTheorems.SwitchRequested` | kernel/src/hr_kernel.c:568-579 | After any run, a ready task more urgent than the current one implies a pending switch or a wake flag not yet returned by an interrupt handler |
| `KernelTheorems.RoundRobin` | kernel/src/hr_scheduler.c:150-187 | Yields among the tasks of the best level select each of them once, in order, and restore the level and the running task |
| `Slicing.SwitchOrder` | kernel/src/hr_kernel.c:712-829 | A switch moves the running task behind its peers if and only if it heads the best level and yielded or used up its slice, keeps the order of all levels otherwise, and selects the oldest task of the best level |
| `Slicing.SliceElapses` | kernel/src/hr_kernel.c:937-976 | With a peer and nothing due, a task with n ticks left keeps the processor for n ticks; then a switch is requested that moves it behind its peers with a fresh slice |
| `Slicing.LoneKeepsRunning` | kernel/src/hr_kernel.c:937-976 | A task alone on its level is never asked to give way by its slice |
| `Requests.SwitchJustified` | kernel/src/hr_kernel.c:568-579 | No step requests a switch or reports a wake without a reason: the caller gave way or stopped, a ready task is more urgent, the slice elapsed, a handler returns that woke one, or an unlock served a more urgent task |
| `TaskEffects.StepEffect` | kernel/src/hr_kernel.c:480-674 | Every step ends, begins or keeps the wait of every task exactly as arguments and objects before it determine: at the deadline, by handing over to the first waiter, by a call that finds nothing and may wait, with a deadline of its timeout from now, or by a lock that would close a cycle; result, history, buffer and state follow, also in suspension |
| `Deadlines.TimedWait` | kernel/src/hr_kernel.c:633-664 | In any run a call with timeout d that waits from tick T is still waiting before T+d, was served before that tick, or timed out at exactly T+d; with an endless timeout it never times out |
| `Deadlines.DelayedExactly` | kernel/src/hr_kernel.c:239-295 | In any run a delay of d ticks from tick T lasts until exactly T+d and ends with success |
| `Episodes.SingleWinner` | kernel/src/hr_kernel.c:480-582 | In any run every blocking episode ends at most once before the next begins, by timeout exactly at its deadline and otherwise before it; every end was caused by a step of the run that handed over the mutex, the token, the room or the item waited for, unless it was the deadline or a refused lock; the task finds the result of its last episode; none stays open past its deadline |
| `Episodes.CauseIsUnique` | kernel/src/hr_kernel.c:480-526 | No two steps of a run end the same episode |
| `Episodes.HandsOver` | kernel/src/hr_mutex.c:430-494 | A step that ends a wait before its deadline has made the waiter the owner, counted a token given and taken, accepted the waiter's item or put an item into its buffer |
| `KernelTheorems.CompletedIsUnlinked` | kernel/src/hr_kernel.c:506-526 | A task that is not waiting is in no wait list and has no running timeout |
| `Episodes.SuspendedStep` | kernel/src/hr_kernel.c:541-550 | Whatever step is taken other than its resumption, a suspended task stays suspended and in no level of the ready set; a wait that ends meanwhile leaves its result |
| `Episodes.SuspendedStays` | kernel/src/hr_kernel.c:541-550 | The same over any run without its resumption, in which at most the one wait it was suspended in ends |
| `Episodes.SuspensionKeepsOutcome` | kernel/src/hr_kernel.c:541-550 | Every step ends the wait of a suspended task exactly when and with the result with which it would end the wait of the same task not suspended, also when a tick lowers mutex owners first |
| `Episodes.ResumedReturns` | kernel/src/hr_kernel.c:397-478 | Resumption returns a task to its wait, or to the ready set at its effective priority, with the result it was left |
| `TaskEffects.TickExpires` | kernel/src/hr_kernel.c:847-924 | One tick ends the wait of a task if and only if its deadline is this tick, a delay with success and any other wait with a timeout, and changes the record of no other task |
| `Waking.TickTimeoutsInv` | kernel/src/hr_kernel.c:847-924 | Waking any number of expired tasks keeps the invariant and exact priorities, also when mutex timeouts lower their owners |
| `KernelTheorems.QueueIsFifo` | kernel/src/hr_queue.c:208-340 | After any run what was received followed by what is buffered is what was accepted, in order; receivers wait only on an empty queue and senders only on a full one |
| `Accounts.QueueAccounted` | kernel/src/hr_queue.c:158-340 | Over any step a queue accepts exactly the item of a send that returns success or the item of the sender whose wait a receive ends, and delivers exactly the item a receive returns or the item of a send that ends a receiver's wait |
| `Deliveries.SendsAccounted` | kernel/src/hr_queue.c:178-266 | Over any run a queue has accepted, in order, the items of the sends that returned success and of the waits to send to it that ended with success, each such wait exactly once and with the item of the call that began it, and nothing else |
| `Deliveries.TimedOutNeverAccepted` | kernel/src/hr_kernel.c:897-916 | In any run a send whose wait ended by timeout contributed nothing to any queue |
| `Deliveries.StepItemsFit` | kernel/src/hr_queue.c:178-206 | Waiting senders hold items of their queue's item size, so that refilling a slot copies a whole item |
| `Accounts.ReceiveDelivers` | kernel/src/hr_queue.c:268-340 | A receive returns exactly the oldest buffered item and records it, and changes nothing otherwise |
| `Accounts.SendDelivers` | kernel/src/hr_queue.c:158-176 | A send to a waiting receiver fills that receiver's buffer and completes its wait |
| `Exchange.ReceiveCases` | kernel/src/hr_queue.c:279-305 | The branch for an empty queue with waiting senders is never entered; a receive refills the freed slot from the first sender |
| `KernelTheorems.TokensConserved` | kernel/src/hr_semaphore.c:115-206 | After any run initial plus given tokens equal taken plus available ones, the count respects its maximum, and nobody waits while a token is available |
| `Accounts.TokensAccounted` | kernel/src/hr_semaphore.c:115-206 | Over any step the tokens given and taken are exactly the successful gives, the takes that succeeded at once and the waits that a give completed |
| `KernelTheorems.DelayUntilExact` | kernel/src/hr_task.c:276-325 | If the next wake time lies 1 to 2^31-1 ticks ahead in absolute time, the task is delayed until exactly then, whatever the counter does |
| `KernelTheorems.DelayUntilLate` | kernel/src/hr_task.c:300-317 | If it is due or past, the call does not wait and advances the caller's reference |
| `KernelObject.KernelObject.Perform` | kernel/src/hr_kernel.c:712-977 | Any step performed by the kernel in memory, with its ready set, timeout list and rings, has exactly the effect of the step function, keeps the invariant, and stops the kernel in no case |
| `KernelObject.KernelObject.PerformAll` | kernel/src/hr_kernel.c:712-977 | Any run of the kernel in memory goes through the states of the model, so that every statement about runs holds of it |
| `KernelObject.KernelObject.RingIsFifo` | kernel/src/hr_queue.c:158-340 | Between steps the bytes in a queue's ring, read from the head across the wrap, are what the queue has accepted and not yet delivered |
| `KernelObject.KernelObject.constructor` | kernel/src/hr_kernel.c:69-116 | Initialisation yields empty lists and the registered idle task |
| `KernelObject.KernelObject.Register` | kernel/src/hr_kernel.c:118-173 | Registration appends a ready task at the end of its level, or refuses a bad priority or a full table |
| `KernelObject.KernelObject.Start` | kernel/src/hr_kernel.c:175-216 | Starting runs the oldest task of the best level and establishes the invariant |
| `KernelObject.KernelObject.BlockCurrent` | kernel/src/hr_kernel.c:584-674 | Blocking moves the running task from the ready set to its place in the wait list with its deadline; every rollback is dead |
| `KernelObject.KernelObject.DelayCurrent` | kernel/src/hr_kernel.c:239-295 | Delaying moves the running task from the ready set to the timeout list; every rollback is dead |
| `KernelObject.KernelObject.MakeTaskReady` | kernel/src/hr_kernel.c:480-582 | Completing a wait leaves both lists, recomputes the owner left by a mutex timeout before the task becomes ready, respects suspension, and reports whether to switch |
| `KernelObject.KernelObject.SetEffectivePriority` | kernel/src/hr_kernel.c:1018-1100 | A priority change requeues the task at the end of its new level and at its place in its wait list; the error exits are dead |
| `KernelObject.KernelObject.RequiredPriority` | kernel/src/hr_mutex.c:200-231 | The loop over owned mutexes computes the required priority |
| `KernelObject.KernelObject.Recompute` | kernel/src/hr_mutex.c:233-275 | The recursive recomputation in place has the effect and the verdict of the function |
| `KernelObject.KernelObject.Lock` | kernel/src/hr_mutex.c:315-404 | Lock takes a free mutex, counts or refuses a recursive lock, refuses without waiting, or queues and possibly takes the wait back |
| `KernelObject.KernelObject.Unlock` | kernel/src/hr_mutex.c:406-494 | Unlock refuses a non-owner, counts down, releases, or hands over to the first waiter, and requests the switches due |
| `KernelObject.KernelObject.FillFromSender` | kernel/src/hr_queue.c:178-206 | The slot that has become free in the ring is refilled from the first waiting sender, which is woken |
| `KernelObject.KernelObject.SendLocked` | kernel/src/hr_queue.c:208-266 | Send hands the item to a waiting receiver, copies it into the ring, refuses or blocks, deciding by the counters of the ring |
| `KernelObject.KernelObject.ReceiveLocked` | kernel/src/hr_queue.c:268-340 | Receive copies the oldest item out of the ring and refills it, refuses or blocks; the branch that takes from a sender directly is dead |
| `KernelObject.KernelObject.Suspend` | kernel/src/hr_kernel.c:297-395 | Suspension in every state, with the state to resume in |
| `KernelObject.KernelObject.Resume` | kernel/src/hr_kernel.c:397-478 | Resumption to the wait or to the ready set, with preemption |
| `KernelObject.KernelObject.ExpireTimeouts` | kernel/src/hr_kernel.c:845-924 | The loop over expired nodes wakes them in order; every check that would stop the kernel holds |
| `KernelObject.KernelObject.TickEnd` | kernel/src/hr_kernel.c:937-976 | Preemption is tested before time slicing, which reloads, counts down or requests a switch |
| `KernelObject.KernelObject.Tick` | kernel/src/hr_kernel.c:831-977 | The tick on the wrapping counter has the effect of the tick on absolute time |
| `KernelObject.KernelObject.SelectNext` | kernel/src/hr_kernel.c:712-829 | Selection rotates after a yield or an elapsed slice and runs the oldest task of the best level; every check that would stop the kernel holds, also when the blocked task was woken before the switch |
| `KernelObject.InsertByPriority` | kernel/src/hr_wait.c:37-65 | The scan inserts behind every waiter at least as urgent |
| `KernelObject.InsertPrioAt` | kernel/src/hr_wait.c:37-65 | A waiter comes behind all that are at least as urgent and before the next |
| `Validator.Validate` | kernel/src/hr_kernel.c:1163-1313 | The inspection returns true exactly when links, states, wait kinds, order and counts agree |
| `Validator.InvariantAccepted` | kernel/src/hr_kernel.c:1163-1313 | The invariant with a running task implies that the validator accepts, counts included |
| `Validator.RejectedIff` | kernel/src/hr_kernel.c:1302-1307 | At step boundaries the validator accepts if and only if the current task is running |
| `TimeoutModel.InsertRefines` | kernel/src/hr_timeout.c:91-120 | Inserting in one of two lists on the wrapping counter is inserting an absolute deadline |
| `Blocking.InsertDueAt` | kernel/src/hr_timeout.c:8-25 | A deadline comes behind all that are not later and before the next |
| `TimeoutModel.RemoveRefines` | kernel/src/hr_timeout.c:122-144 | Removing a node is removing its absolute deadline |
| `TimeoutModel.AdvanceRefines` | kernel/src/hr_timeout.c:146-194 | One tick expires exactly the nodes whose absolute deadline it is, in deadline order with first-in ties, also when the lists change places |
| `TimeoutModel.RunRefines` | kernel/src/hr_timeout.c:91-194 | Over any run and any number of turns of the counter both forms expire the same nodes in the same order |
| `TimeoutModel.ExpiresExactly` | kernel/src/hr_timeout.c:91-194 | A node inserted at T with delay d and left alone expires at the tick T+d and at no earlier one |
| `TimeoutModel.ZeroDelayIff` | kernel/src/hr_timeout.c:109-113 | A zero delay is due at the next tick if and only if the counter does not turn over there |
| `TimeoutList.TimeoutList.Insert` | kernel/src/hr_timeout.c:91-120 | Insertion in place, with its refusals |
| `TimeoutList.TimeoutList.Remove` | kernel/src/hr_timeout.c:122-144 | Removal in place, with its refusal |
| `TimeoutList.TimeoutList.Advance` | kernel/src/hr_timeout.c:146-194 | The swap and the expiry loop |
| `TimeoutList.TimeoutList.InsertSorted` | kernel/src/hr_timeout.c:8-25 | The scan inserts behind every node that wakes no later |
| `TimeoutList.TimeoutList.Validate` | kernel/src/hr_timeout.c:196-219 | Accepts exactly sorted lists with the right count |
| `TimerModel.ScheduleExact` | kernel/src/hr_timer.c:244-254 | All expirations since arming fell on the schedule, and the next deadline of an armed timer is the next point of it |
| `TimerModel.TickFires` | kernel/src/hr_timer.c:390-463 | A timer expires at a tick exactly when it is armed and its schedule says so |
| `TimerModel.CallsOk` | kernel/src/hr_timer.c:256-388 | Start, stop, reset and period change keep lists, schedules and counters consistent |
| `TimerModel.TimersTickOk` | kernel/src/hr_timer.c:390-463 | The tick keeps them consistent, with saturation counted |
| `TimerModel.TakePendingOk` | kernel/src/hr_timer.c:465-512 | Delivery keeps them consistent and finds something exactly when the pending list is not empty |
| `TimerTheorems.StartAnswers` | kernel/src/hr_timer.c:256-284 | Starting succeeds if and only if the timer is not armed; then it has forgotten what was pending and its schedule begins now with its period |
| `TimerTheorems.StopAnswers` | kernel/src/hr_timer.c:286-315 | Stopping leaves the timer neither armed nor pending, counts what was discarded, and touches no other timer |
| `TimerTheorems.ResetAnswers` | kernel/src/hr_timer.c:317-350 | Resetting begins the schedule afresh now, armed or not |
| `TimerTheorems.ChangePeriodAnswers` | kernel/src/hr_timer.c:352-388 | A valid period is installed and its schedule begins now; any other is refused without effect |
| `TimerTheorems.TickExpiresTimers` | kernel/src/hr_timer.c:390-463 | A tick expires exactly the armed timers due, counts each for delivery or as lost at saturation, queues it, and leaves the others as they are |
| `TimerTheorems.TakeDelivers` | kernel/src/hr_timer.c:465-495 | One expiration of the timer waiting longest is delivered; a timer with more goes behind the others |
| `TimerTheorems.StoppedStaysSilent` | kernel/src/hr_timer.c:286-315 | In any run of the system, after a stop and until a call arms it again, a timer is neither armed nor pending and neither expires nor calls back |
| `TimerTheorems.ArmedFiresOnTime` | kernel/src/hr_timer.c:244-388 | In any run of the system a timer armed by a call at tick T expires at T plus its period, and every period after that if periodic, and at no other tick, until a call disturbs it |
| `TimerRuns.TimersKept` | kernel/src/hr_timer.c:59-82 | After any run of the whole system: expirations at armed time plus k periods, expirations equal dispatched plus pending plus discarded plus saturated, and fields agree with both lists |
| `TimerRuns.NoLostWakeup` | kernel/src/hr_timer.c:84-103 | In every interleaving of ticks, timer calls, the service loop and all other kernel activity, a pending expiration implies that the signal is given or the service task is not waiting for it, and the service task never traps |
| `TimerService.StepLeavesAlone` | kernel/src/hr_semaphore.c:115-206 | A step that does not use a semaphore leaves it, its waiters and the wait of a task that waits for nothing else alone |
| `TimerObject.TimerObject.Start` | kernel/src/hr_timer.c:256-284 | Starting an idle timer clears and arms it; a running one is refused |
| `TimerObject.TimerObject.Stop` | kernel/src/hr_timer.c:286-315 | Stopping disarms and clears; it cannot fail |
| `TimerObject.TimerObject.Reset` | kernel/src/hr_timer.c:317-350 | Resetting disarms, clears and arms |
| `TimerObject.TimerObject.ChangePeriod` | kernel/src/hr_timer.c:352-388 | A new period takes effect from now; bad periods are refused |
| `TimerObject.TimerObject.Tick` | kernel/src/hr_timer.c:390-463 | The expiry loop counts, queues and re-arms every due timer; its early exits are dead |
| `TimerObject.TimerObject.ProcessOne` | kernel/src/hr_timer.c:465-495 | One expiration is taken, and a timer with more is queued again at the end |
| `ReadySet.ReadySet.Insert` | kernel/src/hr_scheduler.c:77-97 | Insertion appends to the queue of the priority, sets its bit and counts; bad priorities and linked nodes are refused |
| `ReadySet.ReadySet.Remove` | kernel/src/hr_scheduler.c:99-128 | Removal takes the node out wherever it stands and clears the bit exactly when the queue becomes empty |
| `ReadySet.ReadySet.HighestPriority` | kernel/src/hr_scheduler.c:18-31 | The bitmap scan finds the first non-empty queue |
| `ReadySet.ReadySet.PeekHighest` | kernel/src/hr_scheduler.c:130-148 | The oldest task of the best priority, or nothing exactly when the set is empty |
| `ReadySet.ReadySet.RotateHighest` | kernel/src/hr_scheduler.c:150-187 | The best queue is rotated by one; an empty set is refused |
| `ReadySet.ReadySet.YieldCurrent` | kernel/src/hr_scheduler.c:254-272 | Only the head of the best queue may yield |
| `ReadySet.ReadySet.ShouldPreempt` | kernel/src/hr_scheduler.c:274-287 | True exactly when a strictly better queue is not empty |
| `ReadySet.ReadySet.HasEqualPriorityPeer` | kernel/src/hr_scheduler.c:289-302 | True exactly when the task shares its queue |
| `ReadySet.ReadySet.Validate` | kernel/src/hr_scheduler.c:189-217 | Accepts exactly when bitmap and count describe the queues |
| `IntrusiveList.List.InsertBetween` | kernel/src/hr_list.c:3-26 | Linking between two neighbours inserts in the sequence there; a linked node is refused |
| `IntrusiveList.List.PushFront` | kernel/src/hr_list.c:117-125 | Prepends |
| `IntrusiveList.List.PushBack` | kernel/src/hr_list.c:127-135 | Appends |
| `IntrusiveList.List.InsertBefore` | kernel/src/hr_list.c:137-152 | Inserts in front of a member or at the end; a position in another list is refused |
| `IntrusiveList.List.Unlink` | kernel/src/hr_list.c:154-178 | Refuses unlinked nodes and roots |
| `IntrusiveList.List.PopFront` | kernel/src/hr_list.c:180-190 | Takes the first member, or nothing from an empty list |
| `IntrusiveList.List.PopBack` | kernel/src/hr_list.c:192-202 | Takes the last member, or nothing from an empty list |
| `IntrusiveList.List.InsertSorted` | kernel/src/hr_wait.c:37-65 | The scan links behind every node whose key is not larger, and before the next |
| `IntrusiveList.List.Validate` | kernel/src/hr_list.c:204-240 | On any shape of links the walk ends, and it returns true exactly when they form a well-formed circle of the stated size |
| `RingBuffer.RingBuffer.Push` | kernel/src/hr_queue.c:224-231 | Copying bytes into the tail slot appends the item to the buffered sequence across the wrap |
| `RingBuffer.RingBuffer.Pop` | kernel/src/hr_queue.c:279-285 | Copying bytes out of the head slot takes the oldest item |
| `EventRuns.ReferencesConserved` | haievent/src/he_event.c:203-272 | After any interleaving the count of a live event is the number of references held, in flight, queued or being dispatched, and nothing refers to a free block |
| `EventRuns.PoolPartitioned` | haievent/src/he_event.c:104-147 | After any interleaving free blocks are linked once each and counted, and every other block holds an event or is being given one by a thread |
| `EventRuns.ReceivedIsValid` | haievent/src/he_active.c:58-71 | Whatever a dispatcher receives is a valid event, so its trap is never entered |
| `EventRuns.PublishedStaysAlive` | haievent/src/he_pubsub.c:248-260 | From snapshot to final release the published event is alive, whatever subscribers do in between |
| `EventRuns.PublishCounts` | haievent/src/he_pubsub.c:248-260 | Every step inside a publish changes the count by what it records, and a delivery appends the event to the subscriber's queue |
| `EventRuns.PublishNets` | haievent/src/he_pubsub.c:248-276 | At its end a publish has added exactly what it delivered, its own release succeeds and takes one away, and it reports success exactly if it reached every subscriber of its snapshot |
| `EventRuns.PublishTotal` | haievent/src/he_pubsub.c:248-276 | Over a whole publish, with any steps of other threads in between, the publisher's steps change the count of its event by exactly the deliveries minus one |
| `EventRuns.StepGood` | haievent/src/he_active.c:155-188 | Every critical section and queue operation of every call keeps counts equal to references |
| `EventRuns.DispatchedInOrder` | haievent/src/he_active.c:58-71 | In any run what an active object has received followed by its queue is what was accepted for it, in order |
| `EventTheorems.PublishReaches` | haievent/src/he_pubsub.c:231-276 | Under any interleaving a publish reaches subscribers of the event's signal as they were at the call, in the order of subscription and each at most once per subscription, and all of them if and only if it reports success |
| `EventTheorems.PostReaches` | haievent/src/he_active.c:155-168 | Under any interleaving an accepted post puts the event at the end of the queue it was posted to and changes no other queue |
| `EventTheorems.PostSharedReaches` | haievent/src/he_active.c:170-188 | The same for a shared post, which leaves the caller its own references |
| `EventTheorems.NewIsOwned` | haievent/src/he_event.c:104-147 | Under any interleaving a new event has the signal asked for and its maker holds the only reference |
| `EventCalls.Framework.PostShared` | haievent/src/he_active.c:170-188 | A shared post under arbitrary interference leaves the caller's own references as they were, delivered or not |
| `EventCalls.Framework.Publish` | haievent/src/he_pubsub.c:205-276 | Publish under arbitrary interference takes exactly one reference from the publisher, and success means every subscriber of the snapshot was reached; other signals are refused without effect |
| `EventPool.EventPool.constructor` | haievent/src/he_event.c:45-86 | The loop links all blocks in address order |
| `EventPool.EventPool.New` | haievent/src/he_event.c:104-147 | Allocation takes the head of the free list and fails exactly when it is empty |
| `EventPool.EventPool.RetainEvent` | haievent/src/he_event.c:203-226 | Retain counts up, refuses an invalid event and a full counter, and leaves static events alone |
| `EventPool.EventPool.ReleaseEvent` | haievent/src/he_event.c:228-272 | Release of a valid event succeeds and frees the block with the last reference; the internal error cannot occur |
| `EventPool.TakeOk` | haievent/src/he_event.c:125-132 | Taking a block succeeds exactly when one is free and keeps the partition |
| `EventPool.RetainOk` | haievent/src/he_event.c:203-226 | Retaining counts a valid pool event up by one unless its counter is full, and changes nothing else |
| `EventPool.ReleaseOk` | haievent/src/he_event.c:246-269 | Releasing keeps the partition and never overflows the free list |
| `PubSub.PubSub.Subscribe` | haievent/src/he_pubsub.c:92-134 | Appends to the signal's row, refuses duplicates and a full row, and touches no other row |
| `PubSub.PubSub.Unsubscribe` | haievent/src/he_pubsub.c:136-177 | Removes from the row and closes the gap in order, touching no other row |
| `PubSub.PubSub.Snapshot` | haievent/src/he_pubsub.c:231-242 | The snapshot is the row |
| `PubSub.SubscribeRoundTrip` | haievent/src/he_pubsub.c:92-177 | Unsubscribing undoes subscribing |
| `PubSub.SubscribeAnswers` | haievent/src/he_pubsub.c:92-134 | A subscription succeeds if and only if it is new and there is room, and comes last |
| `PubSub.UnsubscribeAnswers` | haievent/src/he_pubsub.c:136-177 | Unsubscribing succeeds if and only if subscribed, and the others keep their order |
| `StateMachine.StateMachine.ApplyTransition` | haievent/src/he_state_machine.c:131-179 | For arbitrary handlers the loop ends; success means the machine settled by exit, entry and, when entry asked for nothing, init, within eight transitions; failure means that no such settling exists |
| `StateMachine.StateMachine.Start` | haievent/src/he_state_machine.c:181-222 | The same from the initial state; a second start is refused |
| `StateMachine.StateMachine.Dispatch` | haievent/src/he_state_machine.c:224-251 | The same after an event; a target requested without reporting a transition is dropped |
| `StateMachine.SettlesEnters` | haievent/src/he_state_machine.c:131-179 | A settled run only adds calls, enters one state per transition and ends in the state entered last |
| `HeapModel.AllocOk` | labs/memory-allocator/src/hr_heap_lab.c:168-220 | Allocation keeps the arena tiled by aligned blocks without free neighbours, and fails exactly when no free block is large enough |
| `HeapModel.AllocatedBlock` | labs/memory-allocator/src/hr_heap_lab.c:183-215 | It takes the fitting block with the lowest address, which stays where it is |
| `HeapModel.AllocTakes` | labs/memory-allocator/src/hr_heap_lab.c:192-215 | From a block with room for another, an allocation takes exactly the rounded request and leaves the rest less one header as a free block; from a smaller one it takes the whole; no other block changes |
| `HeapModel.NoWaste` | labs/memory-allocator/src/hr_heap_lab.c:192-215 | After any history each used block is smaller than its rounded request plus a header plus one unit of alignment |
| `HeapModel.FreeOk` | labs/memory-allocator/src/hr_heap_lab.c:222-265 | Freeing with merging in both directions keeps the heap well formed |
| `HeapModel.AllocFree` | labs/memory-allocator/src/hr_heap_lab.c:168-265 | Freeing what was just allocated restores the layout |
| `HeapModel.PayloadsDisjoint` | labs/memory-allocator/src/hr_heap_lab.c:46-52 | Payloads of different blocks do not overlap and lie in the arena |
| `HeapModel.AddrAligned` | labs/memory-allocator/src/hr_heap_lab.c:288-293 | Every block address is aligned |
| `HeapModel.HistoryOk` | labs/memory-allocator/src/hr_heap_lab.c:168-265 | Every history of allocations and frees keeps the heap well formed, with as many used blocks as live allocations |
| `HeapModel.LiveBlocks` | labs/memory-allocator/src/hr_heap_lab.c:168-265 | After any history the used blocks are exactly the allocations returned and not freed since, each at the address and with the size it was returned with |
| `HeapModel.LivePointers` | labs/memory-allocator/src/hr_heap_lab.c:222-265 | After any history a pointer can be freed if and only if it is live, and a live pointer points to a used block that holds what was requested |
| `HeapModel.NothingLive` | labs/memory-allocator/src/hr_heap_lab.c:63-88 | Whenever nothing is live the heap is one block of all bytes but its header |
| `HeapModel.OverflowTooLarge` | labs/memory-allocator/src/hr_heap_lab.c:23-38 | A request whose rounding overflows the size type is larger than any block |
| `HeapLab.HeapLab.constructor` | labs/memory-allocator/src/hr_heap_lab.c:144-165 | Initialisation yields one free block over the whole arena |
| `HeapLab.HeapLab.Alloc` | labs/memory-allocator/src/hr_heap_lab.c:168-220 | The walk over linked headers, the split and the counters do what the layout function says |
| `HeapLab.HeapLab.Free` | labs/memory-allocator/src/hr_heap_lab.c:222-265 | The walk, the merges and the counters do what the layout function says; foreign pointers and double frees change nothing |
| `HeapLab.HeapLab.MergeWithNext` | labs/memory-allocator/src/hr_heap_lab.c:63-88 | Relinking the headers merges the two blocks |
| `HeapLab.Validate` | labs/memory-allocator/src/hr_heap_lab.c:267-320 | On any memory the inspection on machine words ends; it accepts every well-formed heap, and what it accepts is well formed if and only if no block that the links lead to has a size that wraps |
| `HeapLab.WrapOverlooked` | labs/memory-allocator/src/hr_heap_lab.c:300-304 | A block whose size wraps passes every test although the heap is not well formed |
| `HeapLab.PassesIff` | labs/memory-allocator/src/hr_heap_lab.c:286-304 | The inspection of one header on words is the intended one exactly for sizes that do not wrap |
| `BenchStats.Divide` | benchmarks/kernel/src/hr_benchmark_stats.c:5-30 | Bit-serial division is the quotient rounded down for every 64-bit numerator and 32-bit denominator |
| `BenchStats.CyclesToNanoseconds` | benchmarks/kernel/src/hr_benchmark_stats.c:177-196 | Exact nanoseconds rounded down, saturating at the largest word |
| `BenchStats.Sort` | benchmarks/kernel/src/hr_benchmark_stats.c:105-121 | The insertion sort in place computes the sorted sequence and leaves the rest of the array alone |
| `BenchStats.SortedOfOk` | benchmarks/kernel/src/hr_benchmark_stats.c:105-121 | The sorted sequence is an ordered permutation |
| `BenchStats.PercentileNearest` | benchmarks/kernel/src/hr_benchmark_stats.c:123-162 | The percentile is a sample with at least p percent of the samples at or below it and fewer than p percent strictly below; at zero it is the minimum |
| `BenchStats.PercentileMonotone` | benchmarks/kernel/src/hr_benchmark_stats.c:123-162 | Percentiles are monotone |
| `BenchStats.Stats.Record` | benchmarks/kernel/src/hr_benchmark_stats.c:52-74 | Recording appends the sample unless full and keeps total, minimum and maximum right |
| `BenchStats.Stats.Mean` | benchmarks/kernel/src/hr_benchmark_stats.c:93-103 | The exact mean rounded down, which fits a word |
| `BenchStats.Stats.Percentile` | benchmarks/kernel/src/hr_benchmark_stats.c:123-162 | The method computes the nearest-rank percentile of the recorded samples |
| `BenchStats.ElapsedExact` | benchmarks/kernel/src/hr_benchmark_stats.c:164-168 | The wrapped difference of two readings is the time between them |

## Left out

- Architecture, SoC, board and driver code, the assembly context switch and clock set-up: SysTick and PendSV are steps.
- Diagnostics counters and fault records, stack filling, guards and watermarks: single-function facts.
- Time events, the context and time adapters and the pool lab: thin layers over what is modelled.
- Null checks, magic numbers and opaque storage: typed objects instead.
- Builds without preemption, time slicing or software timers, and other numbers of priorities and tasks than eight: the default configuration is fixed.
- Creation of mutexes, semaphores, queues and timers while the kernel runs: they exist from the start, as their creation leaves them.
- Heap statistics, and wrap-around of the heap's counters.
- Raw addresses in heap initialisation: the arena starts at an aligned offset 0 and its size is a multiple of the alignment.
- Handlers that call back into their own state machine.
- KernelObject.KernelObject.SendLocked: an item is a sequence of bytes of the queue's item size; the caller's pointer and the task's buffer pointer are not modelled.
- Rounding by masking low bits in the heap: AlignUp rounds by division.
- KernelObject.KernelObject.BlockCurrent: wait lists are sequences in a map; aliasing of list nodes is covered by IntrusiveList, not here.
- TimerObject.TimerObject.Tick: the semaphore that wakes the service task is given in TimerRuns, not by this object.
- EventPool.EventPool.New: does not model the event's size, only its signal and its block.
