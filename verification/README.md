# A verified model of the WUROS kernel

WUROS is a small preemptive kernel for one processor. Kernel entries do not nest: each timer tick,
key or system call runs one handler and then the scheduler, and returns to user code. So the kernel
is a state machine whose steps are kernel entries, and a run is any sequence of entries. This project
models that machine, the terminal pipeline, the timer table and the ping/pong programs, and proves
what holds in every run.

The model has two layers.

* **The code in its own form.** `CircularQueue`, `KernelMachine`, `RingBuffer`, `TtyMachine` and
  `TimerMachine` are classes over arrays, updated in place by the loops and branches of the C source.
  Each method is proved to compute a function of its old abstract state, return code included.
* **The abstract machine.** `KernelSpec`, `Terminal` and `Timers` hold these functions. `Placement`,
  `Invariant`, `Runs`, `Fairness`, `SleepWindow`, `Records`, `MutexRuns`, `SemRuns`, `Entries` and
  `PingPong` prove the properties below about them; `ErrorBranches` says what the branches do that no
  reachable state takes. `MachineRuns`, `TtyRuns` and `TimerMachine.RunTimers` carry
  the results over whole runs back to the arrays.

Main results, hardest first:

1. **The global invariant** (`Invariant.StepKeepsIff`, `Runs.BootRunKeepsInv`,
   `MachineRuns.RunEntries`). Every live process but the idle one is in exactly one place (running, or
   in one of 34 queues), its state names the place, tables and free lists partition the ids, no queue
   overflows, no panic is reached and no table is left. A kernel entry keeps all this *if and only if* a
   mutex lock or destroy names an allocated mutex and a semaphore post does not name id 16, which the
   dispatcher lets through; the first entry that breaks the rule breaks the tables.
2. **No starvation** (`Fairness.WaitDrops`, `Fairness.NoStarvation`): position k in the run queue is
   served within 10k + (10 - cpu_time) ticks, whatever other entries interleave.
3. **Each kernel entry in full** (`Entries`): the state after handler and scheduler, field by field, up to
   the order in which a tick leaves the queues (`Entries.TickEntry`); and the processor changes hands
   *if and only if* a slice of ten ticks ends while somebody else is ready, or the caller exits, sleeps,
   locks an owned mutex or waits for a unit that is not there (`Entries.ProcessorChangesIff`).
4. **Mutual exclusion** for disciplined clients, and first-come-first-served handoff
   (`MutexRuns.MutualExclusion`, `MutexRuns.FifoSinceInit`).
5. **Conservation of semaphore units and of ping/pong tokens** in every interleaving
   (`SemRuns.HistorySinceInit`, `PingPong.TokenConservation`); there is exactly one ping/pong token, plus
   the startup posts, *if and only if* the same program initialised both semaphores
   (`PingPong.TurnsSinceInit`).
6. **The sleep time, exactly** (`SleepWindow`). The sleeper at index j of n is passed over by a tick *if and
   only if* j plus the number of due sleepers before it is at least n; its remaining time is what it was
   less the ticks on which it was not passed over; so it wakes on exactly its t-th tick *if and only if*
   it is never passed over. It is never early, at most n - 1 ticks late, and wakes at all *if and only if*
   it asked for at least one second.
7. **The screen is a window on an unbounded page** for every text (`Terminal.ScreenIsWindow`), and the
   drawn frame is that window in every run of the pipeline (`TtyRuns.RunTerminal`), which loses nothing
   *if and only if* its ring never overflows and is never emptied unseen (`TtyRuns.LosslessIff`).
8. **Timers are called T/k - T0/k times** from their registration on (`Timers.CallsSinceRegister`).

Where code and documentation disagree, the model follows the code:

* `kproc_destroy` does not release mutexes: an entry leaves every owned mutex with a living owner if and
  only if it does not destroy an owner (`MutexRuns.OwnersLiveIff`).
* The wake-up loop of `scheduler_timer` re-reads a size it shrinks, so it does not count every sleeper down
  on every tick. `SleepWindow.PassedOverIff` says from the state before whom a tick passes over, and
  `SleepWindow.NobodyPassedOverIff` when it is nobody; `SleepWindow.PassedOverFromBoot` is a run from boot
  that gets there. The same loop shape makes `scheduler_remove` reorder the queue when the process is
  present (`Invariant.RemovePresent`).
* `proc_sleep(0)` sleeps forever (`SleepWindow.SleepCallWakesIff`).
* The `repeat` argument of a timer is documented as a number of intervals, but the count drops on every
  tick: `Timers.RepeatIsCallsIff` says exactly when it is the number of calls.
* `timer_callback_unregister` accepts ids that are not registered: `Timers.UnregisterKeepsIff` says
  exactly when that is harmless.
* `ksem_post` is documented to return the count, and does so if and only if somebody was waiting
  (`SemRuns.PostReturnsIff`); `io_write` is documented to return the number of bytes copied, and does so if
  and only if they all fit (`RingBuffer.IoWrite`).
* `sem_post` and `io_flush` check their ids with `>` instead of `>=`: the id one past the end is accepted. The
  model has no memory there and records the access (`strayed`).

Conventions: a pointer into a table is the table index, `NULL` is -1. `free` on a static table entry
clears the entry, as the comments beside it say. The idle process makes no system calls. Queues of pids are
numbered 0 (run), 1 (sleep), 2..17 (mutexes), 18..33 (semaphores).

## Model

| member | source | states |
|---|---|---|
| `Invariant.StepKeepsIff` | src/kernel.c:250-268 | One kernel entry (handler, then scheduler) keeps the global invariant, hence causes no panic, no overflow, no lost or doubled process and no access outside a table, if and only if a lock or destroy names an allocated mutex and a post does not name id 16. |
| `Invariant.UnguardedBreaks` | src/kmutex.c:93-172 | A lock or destroy of a mutex that is not allocated always leaves the mutex table and its id pool inconsistent; a post of semaphore 16 always leaves the semaphore table. |
| `Runs.BootRunKeepsInv` | src/kproc.c:275-345 | Every state reachable from boot by any run satisfies the global invariant. |
| `Runs.BootState` | src/kproc.c:275-345 | Boot in full: nobody runs, the idle process has pid 0, pids 1 to 10 are ready in that order (four shells, three ping, three pong), entries 11 to 19 and all mutex and semaphore ids are free in ascending order. |
| `MachineRuns.RunEntries` | src/kernel.c:250-268 | Running any sequence of entries on the arrays and circular queues goes through the abstract run, keeps the invariant and never panics. |
| `MachineRuns.BootAndRun` | src/kernel.c:250-268 | The same from the boot of the tables on, in one run. |
| `Placement.OnePlace` | src/scheduler.c:76-216 | A live process other than the idle one has exactly one place among running and the 34 queues, occurs there once, and its state names the kind of place. |
| `Placement.QueueNeverFull` | src/scheduler.c:130-143 | Every queue of pids holds fewer than 20 of its 32 slots, so no enqueue of a process fails. |
| `Placement.ParkPlaced` | src/kmutex.c:147-160 | Moving the active process to the tail of a queue, with the state of that queue, keeps every process in one place. |
| `Placement.MovePlaced` | src/kmutex.c:209-217 | Moving the head of one queue to the tail of another keeps every process in one place. |
| `Placement.DispatchPlaced` | src/scheduler.c:105-123 | Dispatching the head of the run queue keeps every process in one place. |
| `Invariant.RemoveAbsent` | src/scheduler.c:154-190 | Removing a process that is not in the run queue is a full rotation: the queue is unchanged. |
| `Invariant.RemovePresent` | src/scheduler.c:154-190 | Removing a process queued once drops exactly it; the order stays if it was last, and otherwise the old last process comes first. |
| `Invariant.RemoveActive` | src/scheduler.c:154-190 | The call made in reachable states, with the active process, only clears the active pointer. |
| `Invariant.RunKeeps` | src/scheduler.c:76-124 | After the scheduler some process is active, with a slice not used up, and the invariant holds. |
| `Invariant.WakeLoopKeeps` | src/scheduler.c:36-69 | The wake-up loop keeps every process in one place and the active process where it is. |
| `Invariant.SleepKeeps` | src/scheduler.c:197-216 | A sleep call takes its caller off the processor and to the tail of the sleep queue with the requested ticks, and changes nothing else. |
| `Invariant.CreateKeeps` | src/kproc.c:125-184 | Creation takes the oldest free entry, the next pid and the tail of the run queue, or nothing at all if the table is full. |
| `Invariant.DestroyKeeps` | src/kproc.c:192-226 | Destroying the active process frees its entry and only that; the idle process is refused. |
| `Invariant.LockKeeps` | src/kmutex.c:128-172 | Locking a free mutex makes the caller its owner; locking an owned one blocks the caller at the tail of its queue; `locks` counts owner and waiters. |
| `Invariant.UnlockKeeps` | src/kmutex.c:179-221 | Unlocking hands an owned mutex to its longest waiting process, or to nobody if none waits; the dequeue never fails. |
| `Invariant.WaitKeeps` | src/ksem.c:128-170 | A wait takes a unit if there is one and otherwise blocks the caller at the tail of the queue. |
| `Invariant.PostKeeps` | src/ksem.c:177-206 | A post makes the longest waiting process ready, or adds a unit if nobody waits. |
| `Invariant.MutexInitKeeps` | src/kmutex.c:56-86 | Initialisation hands out the oldest free id, with no owner and no waiter. |
| `Invariant.MutexDestroyKeeps` | src/kmutex.c:93-121 | Destroying an allocated mutex returns its id to the pool, and only if it has neither owner nor waiter. |
| `Invariant.SemInitKeeps` | src/ksem.c:56-82 | Initialisation hands out the oldest free id with the given count and no waiter. |
| `Invariant.SemDestroyKeeps` | src/ksem.c:89-121 | Destroying returns an id to the pool only if it is allocated and its count is positive, and then nobody waits on it. |
| `Fairness.WaitDrops` | src/scheduler.c:76-148 | The bound 10k + (10 - cpu_time) of a queued process drops by at least one on a tick and never rises on any other entry, until the process is dispatched. |
| `Fairness.NoStarvation` | src/scheduler.c:76-124 | In every run with that many ticks, the process at position k becomes the active one. |
| `Entries.ProcessorChangesIff` | src/kernel.c:250-268 | The active process changes if and only if: the tenth tick of its slice ends it while somebody is ready or due; it exits or is killed; it sleeps; it locks an owned mutex; it waits on a semaphore with count 0. |
| `Entries.OtherEntryIsNothing` | src/kernel.c:250-268 | An entry that concerns no process leaves the whole state as it is. |
| `Entries.TickEntry` | src/scheduler.c:29-124 | A tick in full: which sleepers have their turn, every process entry, the order of both queues, and who runs next. |
| `Entries.SleepEntry` | src/ksyscall.c:333-341 | A sleep call in full: 100 ticks per second at the tail of the sleep queue, and the next process runs; a negative argument changes nothing. |
| `Entries.KillEntry` | src/kproc.c:192-226 | Exit or Ctrl+q in full: the entry of the active process is cleared and freed, and the next process runs; the idle process stays. |
| `Entries.CreateEntry` | src/keyboard.c:458-462 | Ctrl+n in full: the new process takes the oldest free entry and the tail of the run queue, and the active process goes on. |
| `Entries.LockEntry` | src/kmutex.c:128-172 | A lock call in full: the caller owns the mutex and goes on, or waits at the tail of its queue and the next process runs. |
| `Entries.UnlockEntry` | src/kmutex.c:179-221 | An unlock call in full: the longest waiting process owns the mutex and is ready behind the others, and the caller goes on. |
| `Entries.WaitEntry` | src/ksem.c:128-170 | A wait call in full: the caller takes a unit and goes on, or waits at the tail of the queue and the next process runs. |
| `Entries.PostEntry` | src/ksem.c:177-206 | A post call in full: the longest waiting process is ready behind the others, or there is a unit more; the caller goes on. |
| `Entries.MutexInitEntry` | src/kmutex.c:56-86 | The call in full: the oldest free id is allocated, and nothing else changes. |
| `Entries.MutexDestroyEntry` | src/kmutex.c:93-121 | The call in full: an unowned mutex is cleared and its id joins the pool; otherwise nothing changes. |
| `Entries.SemInitEntry` | src/ksyscall.c:443-450 | The call in full: an initial value of 0 to 16 is stored under the oldest free id; any other is refused. |
| `Entries.SemDestroyEntry` | src/ksem.c:89-121 | The call in full: an allocated semaphore with units is cleared and its id joins the pool; otherwise nothing changes. |
| `Entries.CallWithoutCaller` | src/ksyscall.c:26-58 | A system call while nobody runs is a panic. |
| `Entries.CreateReturns` | src/kproc.c:117-184 | Creation returns the pid of the new process, which nobody had and which is last in the run queue, or -1 exactly if the table is full. |
| `Entries.DestroyReturns` | src/kproc.c:186-226 | Destroying the active process returns 0, and -1 for the idle process or nobody. |
| `Entries.InitReturns` | src/kmutex.c:52-86 | Initialisation, of a mutex or a semaphore, returns an id that was free and is allocated, or -1 exactly if there is none. |
| `Entries.PoolDestroyReturns` | src/ksem.c:84-121 | Destroying returns 0 exactly for an unowned mutex, or for an allocated semaphore with units. |
| `Entries.PreemptIff` | src/scheduler.c:76-103 | In any state, the active process loses the processor to the scheduler if and only if it is not running or has used ten ticks. |
| `SleepWindow.StepSleeper` | src/scheduler.c:36-69 | A tick leaves a sleeper untouched if it is passed over, and then the sleep queue shrinks; otherwise it makes it ready or running if due, and one tick closer if not. No other entry touches it. |
| `SleepWindow.ServedIff` | src/scheduler.c:36-69 | The wake-up loop serves a sleeper if and only if its index plus the number of due sleepers before it is less than the number of sleepers. |
| `SleepWindow.LoopQueues` | src/scheduler.c:36-69 | The loop in full: it serves a prefix of the sleep queue, whose length the state before determines; the due ones go in order to the tail of the run queue, the others in order to the tail of the sleep queue. |
| `SleepWindow.PassedOverIff` | src/scheduler.c:36-69 | The whole tick entry leaves a sleeper as it was if and only if its index plus the number of due sleepers before it reaches the number of sleepers. |
| `SleepWindow.NobodyPassedOverIff` | src/scheduler.c:36-69 | A tick passes nobody over if and only if no sleeper is due, except perhaps the last one queued. |
| `SleepWindow.RemainingTime` | src/scheduler.c:36-69 | In every run, until a sleeper has had all its turns it sleeps on, and its remaining time is what it was less the ticks on which it was not passed over. |
| `SleepWindow.AwakeIff` | src/scheduler.c:36-69 | An entry wakes a sleeper if and only if it is the tick that gives it the last of its turns. |
| `SleepWindow.OnTimeIff` | src/scheduler.c:36-69 | A process that sleeps for t ticks wakes on exactly the t-th tick if and only if it is never passed over. |
| `SleepWindow.PassedOverFromBoot` | src/scheduler.c:36-69 | After two `proc_sleep(1)` calls and 99 ticks from boot, one of the two sleepers is due and passed over by the hundredth tick. |
| `SleepWindow.SleepsLongEnough` | src/scheduler.c:36-69 | No process is woken before the ticks it asked for have passed. |
| `SleepWindow.WakesInTime` | src/scheduler.c:36-69 | With n sleepers, a process due in t ticks is ready or running, as the same process, within t + n - 1 ticks, plus one for each sleep call made meanwhile. |
| `SleepWindow.WakesIff` | src/scheduler.c:53-66 | A sleeper has some run that makes it ready or running if and only if its remaining time is at least 1. |
| `SleepWindow.SleepCallWakesIff` | src/ksyscall.c:333-341 | The sleep call sets 100 ticks per second, and its caller can wake again if and only if it asked for at least one second. |
| `Records.CpuAccounting` | src/scheduler.c:29-34 | Run time of the live processes plus that of the destroyed ones grows by exactly the number of timer ticks. |
| `Records.BootAccounting` | src/scheduler.c:29-34 | Since boot, that sum is the number of ticks after the entry that dispatches the first process. |
| `Records.PidsNeverReused` | src/kproc.c:125-184 | Over every run a pid assigned before is held only by the process that held it, in the same entry. |
| `Records.LookupsInverse` | src/kproc.c:50-97 | `pid_to_proc` and `proc_to_entry` are inverse on live processes, and a pid is found if and only if a live process has it. |
| `Records.EntriesPartitioned` | src/kproc.c:279-307 | Live entries and the allocator's contents partition 0..19 without duplicates. |
| `Records.IdsPartitioned` | src/kmutex.c:56-121 | Mutex ids 0..15, and semaphore ids likewise, are allocated or in their pool, never both and never twice. |
| `MutexRuns.StepMutexMove` | src/kmutex.c:128-221 | A mutex's owner and wait queue change only by its own lock and unlock calls, and exactly as first-come-first-served asks. |
| `MutexRuns.MutexFifo` | src/kmutex.c:128-221 | In every run, earlier waiters followed by new requests equal, in order, grants followed by those still waiting. |
| `MutexRuns.FifoSinceInit` | src/kmutex.c:56-221 | Since a mutex was initialised, the requests are the grants followed by the wait queue. |
| `MutexRuns.MutexState` | src/kmutex.c:128-221 | `locks` is the number of waiters plus one if owned, and an unowned mutex has no waiters. |
| `MutexRuns.MutualExclusion` | src/prog_user.c:81-93 | If clients never lock twice, never unlock without locking and never exit in between, a process running between its two calls is the owner, and every other process between its two calls is blocked in the queue. |
| `MutexRuns.FreshMutexHolding` | src/kmutex.c:56-86 | A mutex just initialised has no owner, no waiters and nobody between lock and unlock. |
| `MutexRuns.OwnersLiveIff` | src/kproc.c:192-226 | A kernel entry leaves every owned mutex with a living owner if and only if it does not destroy an owner. |
| `MutexRuns.LockReturns` | src/kmutex.c:123-172 | The lock call returns the number of processes that own or want the mutex afterwards, and -1 exactly for an id out of range. |
| `MutexRuns.UnlockReturns` | src/kmutex.c:174-221 | The unlock call returns the number of processes that own or want the mutex afterwards, and -1 exactly for an id out of range. |
| `SemRuns.StepSemMove` | src/ksem.c:128-206 | A semaphore's count and wait queue change only by its own calls: a unit taken, a caller queued, a unit added, or the longest waiter released. |
| `SemRuns.PostReadies` | src/ksem.c:195-203 | A post neither blocks nor preempts its caller; the whole entry extends the run queue by the longest waiting process, if any. |
| `SemRuns.SemConservation` | src/ksem.c:128-206 | Count at the start plus posts equals count at the end plus completed waits; the count is never negative, and positive only when nobody waits. |
| `SemRuns.SemFifo` | src/ksem.c:128-206 | Waits that had to block are completed in arrival order. |
| `SemRuns.WaitsAccounted` | src/ksem.c:128-170 | Every wait call either takes a unit at once or blocks. |
| `SemRuns.WaitReturns` | src/ksem.c:123-170 | The wait call returns the count afterwards, and -1 exactly for a semaphore that does not exist. |
| `SemRuns.PostReturnsIff` | src/ksem.c:172-206 | The post call returns the count afterwards if and only if somebody was waiting; otherwise it returns -1 although the post has taken effect. |
| `SemRuns.HistorySinceInit` | src/ksem.c:56-206 | Since a semaphore was initialised, its initial value plus posts equals its count plus completed waits, and the blocked are the released followed by the wait queue. |
| `PingPong.StepTokens` | src/prog_user.c:144-151 | One entry of any process conserves the tokens: units of both semaphores plus clients between a completed wait and their next post. |
| `PingPong.TokenConservation` | src/prog_user.c:130-174 | The tokens grow only by startup posts, in every interleaving in which no client is killed. |
| `PingPong.TurnsBounded` | src/prog_user.c:130-174 | From empty queues and nobody in its turn, the tokens are the two counts plus the startup posts, and no more clients than tokens have their turn. |
| `PingPong.PairInitialised` | src/prog_user.c:136-142 | The two `sem_init` calls leave empty queues and these counts: 1 for ping if a ping process made the first call and 0 otherwise, 1 for pong if a pong process made the second and 0 otherwise. |
| `PingPong.TurnsSinceInit` | src/prog_user.c:136-142 | Since the two `sem_init` calls, whatever runs between and after them: tokens equal 1 plus the startup posts if and only if the same program made both calls. |
| `PingPong.FirstTurn` | src/prog_user.c:144-173 | After one program has initialised both semaphores, its first process to wait goes on at once with the only unit; a process of the other program blocks until a post; a client in its turn posts the other program. |
| `CircularQueue.Queue.constructor` | src/queue.c:21-35 | A new queue is empty. |
| `CircularQueue.Queue.Init` | src/queue.c:21-35 | Initialisation empties the queue. |
| `CircularQueue.Queue.In` | src/queue.c:43-67 | Appends at the tail, or fails with -1 and no change when 32 items are queued. |
| `CircularQueue.Queue.Out` | src/queue.c:75-96 | Takes the oldest item, or fails with -1 and no change when empty; indices wrap and are reset on empty. |
| `ErrorBranches.AddBranches` | src/scheduler.c:130-148 | For any tables: making nobody ready, or one process too many, is a panic; the idle process is not queued. |
| `ErrorBranches.RemoveBranches` | src/scheduler.c:154-190 | Removing a process that is not queued changes nothing, except that the active process loses the processor. |
| `ErrorBranches.SleepBranches` | src/scheduler.c:197-216 | Sleeping nobody is a panic, a sleeper only gets a new time, and with a full sleep queue the process is in no queue. |
| `ErrorBranches.WakeBranches` | src/scheduler.c:36-69 | A queued pid that nobody has is dropped, waking into a full run queue is a panic. |
| `ErrorBranches.UnassignedPid` | src/kproc.c:50-71 | A pid not given out yet names nobody. |
| `ErrorBranches.NobodyToRun` | src/scheduler.c:105-123 | With nobody to dispatch the scheduler panics. |
| `ErrorBranches.FullWaitQueue` | src/kmutex.c:147-157 | A caller that finds the wait queue full, of a mutex or a semaphore, is refused but left marked as waiting. |
| `ErrorBranches.LostWaiter` | src/kmutex.c:193-214 | An unlock that should hand over but finds nobody waiting fails with the lock count already lowered. |
| `ErrorBranches.FullPools` | src/kmutex.c:108-113 | An id that finds its pool full is not given back and its entry is not cleared. |
| `ErrorBranches.FullFreeList` | src/kproc.c:206-225 | A process entry that finds the free list full is cleared and lost. |
| `KernelMachine.Machine.PidToProc` | src/kproc.c:50-71 | The scan finds the entry that the abstract lookup names. |
| `KernelMachine.Machine.ProcToEntry` | src/kproc.c:78-97 | The scan finds the entry that the abstract lookup names. |
| `KernelMachine.Machine.SchedulerTimer` | src/scheduler.c:29-70 | Charging the active process and the rotation over the sleep queue compute the abstract tick. |
| `KernelMachine.Machine.SchedulerRun` | src/scheduler.c:76-124 | Preemption and dispatch compute the abstract scheduler run. |
| `KernelMachine.Machine.SchedulerAdd` | src/scheduler.c:130-148 | The process goes to the tail of the run queue with a fresh slice; the idle process is left out. |
| `KernelMachine.Machine.SchedulerRemove` | src/scheduler.c:154-190 | The rotation loop over the circular queue computes the abstract removal. |
| `KernelMachine.Machine.SchedulerSleep` | src/scheduler.c:197-216 | Computes the abstract sleep, including the process that is asleep already. |
| `KernelMachine.Machine.KprocCreate` | src/kproc.c:125-184 | Computes the abstract creation and returns the pid or -1. |
| `KernelMachine.Machine.KprocDestroy` | src/kproc.c:192-226 | Computes the abstract destruction and returns 0 or -1. |
| `KernelMachine.Machine.KprocInit` | src/kproc.c:275-345 | The loops leave the table and allocator of boot, with the idle process, four shells, three ping and three pong processes. |
| `KernelMachine.Machine.KmutexesInit` | src/kmutex.c:27-50 | All mutexes cleared, all ids in the pool in order. |
| `KernelMachine.Machine.KmutexInit` | src/kmutex.c:56-86 | Computes the abstract initialisation and returns the id or -1. |
| `KernelMachine.Machine.KmutexDestroy` | src/kmutex.c:93-121 | Computes the abstract destruction, all error branches included. |
| `KernelMachine.Machine.KmutexLock` | src/kmutex.c:128-172 | Computes the abstract lock and returns the lock count or -1. |
| `KernelMachine.Machine.KmutexUnlock` | src/kmutex.c:179-221 | Computes the abstract unlock, with the handoff, and returns the lock count, 0 or -1. |
| `KernelMachine.Machine.KsemaphoresInit` | src/ksem.c:27-49 | All semaphores cleared, all ids in the pool in order. |
| `KernelMachine.Machine.Boot` | src/kproc.c:275-345 | The init routines together leave the boot state. |
| `KernelMachine.Machine.KsemInit` | src/ksem.c:56-82 | Computes the abstract initialisation and returns the id or -1. |
| `KernelMachine.Machine.KsemDestroy` | src/ksem.c:89-121 | Computes the abstract destruction, all error branches included. |
| `KernelMachine.Machine.KsemWait` | src/ksem.c:128-170 | Computes the abstract wait and its return value. |
| `KernelMachine.Machine.KsemPost` | src/ksem.c:177-206 | Computes the abstract post and its return value, -1 when nobody waits; an id outside the table, which is not checked, is recorded as an access outside it. |
| `KernelMachine.Machine.Handle` | src/ksyscall.c:118-172 | The dispatcher computes the abstract handler of each event, range checks included. |
| `KernelMachine.Machine.ContextEnter` | src/kernel.c:250-268 | One kernel entry computes the abstract step. |
| `RingBuffer.RingBuf.Write` | src/ringbuf.c:42-55 | Appends a byte, or fails with -1 and no change when 1024 bytes are buffered. |
| `RingBuffer.RingBuf.Read` | src/ringbuf.c:63-80 | Takes the oldest byte, or fails with -1 and leaves the destination alone when empty. |
| `RingBuffer.RingBuf.Flush` | src/ringbuf.c:150-158 | Empties the ring. |
| `RingBuffer.IoWrite` | src/ksyscall.c:198-229 | Appends exactly the first min(size, free) bytes and returns `size`, which is the number of bytes written if and only if they all fit; bad arguments give -1 and change nothing. |
| `RingBuffer.IoRead` | src/ksyscall.c:238-279 | The first `rc` bytes are the ring's oldest, the rest of the request repeats the last byte, the ring ends empty, and nothing outside the request is written. |
| `RingBuffer.IoFlush` | src/ksyscall.c:286-304 | Empties the ring of a valid id and returns 0, or returns -1; id 4 passes the check although there are four pointers. |
| `Terminal.UpdateShows` | src/tty.c:154-266 | Every byte, control bytes included, keeps the screen a window on the page. |
| `Terminal.DisplayShows` | src/tty.c:154-266 | From any page and screen that agree, any text leaves page and screen in agreement. |
| `Terminal.ScreenIsWindow` | src/tty.c:139-266 | After any text, row r of the screen is row base + r of a page that never scrolls, cell by cell, and the cursor is on the screen at the page's position. |
| `Terminal.LineFeedCells` | src/tty.c:229-241 | Cell by cell: a line feed goes to column 0 of the next of 25 rows; on the last row all rows move up and a blank one follows. |
| `Terminal.ReturnCells` | src/tty.c:218-227 | A carriage return goes to column 0 and changes no cell. |
| `Terminal.BackspaceCells` | src/tty.c:191-216 | Cell by cell: backspace pulls one cell back, blanks it and steps back over the line end; at the top left it does nothing. |
| `Terminal.TabCells` | src/tty.c:173-189 | Cell by cell: a tab writes four spaces before column 75 and is a line feed from there on. |
| `Terminal.TypedCells` | src/tty.c:243-263 | Any other byte is written under the cursor, and the 80th column goes over to the next line. |
| `Terminal.TabIsFourSpaces` | src/tty.c:173-189 | Before column 75 a tab, which fills four cells of the page, is the same as four spaces. |
| `Terminal.BaseCountsScrolls` | src/tty.c:139-148 | The first row on view is the number of times the screen scrolled. |
| `Terminal.PlainText` | src/tty.c:247-263 | Text without control bytes leaves its last lines on the screen, in order, then blanks, with the cursor behind the last byte. |
| `Terminal.BackspaceUndoes` | src/tty.c:191-216 | Backspace undoes a typed byte when nothing lies behind the cursor, and the view has moved if and only if the byte went into the last cell on view. |
| `TtyMachine.Tty.constructor` | src/tty.c:272-294 | A terminal starts with a blank screen and empty rings. |
| `TtyMachine.Tty.Input` | src/tty.c:48-59 | A key goes to the input ring and, with echo set, to the output ring; a full ring loses it. |
| `TtyMachine.Tty.ScrollUp` | src/tty.c:139-148 | The two loops move every line up by one and blank the last. |
| `TtyMachine.Tty.Update` | src/tty.c:154-266 | The in-place update computes the abstract screen and asks for a redraw. |
| `TtyMachine.Tty.Drain` | src/tty.c:97-103 | Empties the output ring onto the screen, byte by byte in order. |
| `TtyMachine.Tty.Render` | src/tty.c:108-129 | The loop with its own row and column counters copies the buffer cell for cell. |
| `TtyMachine.Tty.Refresh` | src/tty.c:91-133 | Terminates with the output ring empty, the screen after all its bytes, and the frame equal to the screen if a redraw was due and untouched otherwise. |
| `TtyRuns.LosslessIff` | src/ksyscall.c:198-304 | Bytes drawn followed by bytes pending are all bytes sent, in order, if and only if every event fits into the ring and every flush or read of the output ring finds it empty. |
| `TtyRuns.RunTerminal` | src/tty.c:48-133 | In every run of keys, writes, flushes, reads and redraws the screen is the window on the page of all bytes drawn, and from the first redraw on the frame is the screen. |
| `Timers.RunKeepsPool` | src/timer.c:47-100 | Registered ids and the allocator partition 0..31 along every run that releases only registered ids. |
| `Timers.InitRunKeepsPool` | src/timer.c:151-176 | So they do in every such run from `timer_init` on. |
| `Timers.InitPoolOk` | src/timer.c:151-172 | At the start no timer is registered, and ids 0 to 31 are free in ascending order. |
| `Timers.RegisterEffect` | src/timer.c:47-75 | A registration takes the oldest free id and stores exactly the callback, interval and repeat asked for; without a callback or a free id it returns -1 and changes nothing. |
| `Timers.UnregisterClears` | src/timer.c:83-100 | In any table an id in range loses its timer; it joins the allocator, or is refused with -1 if the allocator is full. |
| `Timers.UnregisterReturnsIff` | src/timer.c:77-100 | Releasing succeeds if and only if the id is in range and some timer is registered. |
| `Timers.HitIff` | src/timer.c:131-133 | A callback is due if and only if the tick is a multiple of its interval, whatever the sign of the interval. |
| `Timers.UnregisterKeepsIff` | src/timer.c:83-100 | Releasing an id keeps the partition if and only if the id is out of range, is registered, or no timer is registered at all. |
| `Timers.TickEffect` | src/timer.c:120-146 | A tick calls every registered callback whose interval is hit once, and no other, and ages or ends every timer. |
| `Timers.TickOrder` | src/timer.c:124-145 | The callbacks of a tick run in ascending order of their ids, and ended timers join the allocator in that order. |
| `Timers.CallCount` | src/timer.c:120-146 | A callback with interval k is called exactly T/k - T0/k times between ticks T0 and T, for as long as it is registered. |
| `Timers.CallsSinceRegister` | src/timer.c:41-146 | Registered at tick T0 with interval k and a negative repeat, a callback is called exactly T/k - T0/k times by tick T, unless somebody unregisters it; with interval 1, as the scheduler's, on every tick. |
| `Timers.Lifetime` | src/timer.c:135-143 | A timer with repeat count r ends r + 1 ticks after its registration, a negative count never. |
| `Timers.RepeatIsCallsIff` | src/timer.c:43-46 | A finite repeat count is the number of calls if and only if one of three conditions on tick, interval and count holds. |
| `TimerMachine.TimerDriver.constructor` | src/timer.c:151-176 | No timer registered, all ids in the allocator in order, tick 0. |
| `TimerMachine.TimerDriver.Register` | src/timer.c:47-75 | Computes the abstract registration and returns the id or -1. |
| `TimerMachine.TimerDriver.Unregister` | src/timer.c:83-100 | Computes the abstract release, with the branch of a full allocator. |
| `TimerMachine.TimerDriver.IrqHandler` | src/timer.c:120-146 | The loop over the table computes the abstract tick and calls the callbacks it names, in order. |
| `TimerMachine.RunTimers` | src/timer.c:47-146 | Any sequence of registrations, releases and ticks on the array goes through the abstract run and makes its calls. |

## Left out

- Hardware and assembly (context switch, interrupt set-up, trapframes, stacks, segment registers): only which process is active is kept.
- The VGA driver: `vga_putc_at` is a write to one cell of an abstract frame, and colours, which do not survive the truncation of a cell to a byte, are dropped.
- Keyboard decoding: Ctrl+n, Ctrl+q and a typed byte are events; `OtherEntry` stands for every entry that changes no scheduling state.
- Process names, types, start times, the clock, pid and name system calls, logging and the shell's parsing of commands.
- The return register of a caller: return codes are results of the methods, but a blocked caller's register is not modelled.
- The choice between ten terminals and the attachment of processes to them: the model has one active terminal, and the two rings are parameters of the I/O calls.
- `ringbuf_write_mem` and `ringbuf_read_mem`, which nothing calls and which use another convention for `tail`; `entry_to_proc`, used only for display.
- Overflow of ticks, pids and `seconds * 100`: integers are unbounded.
- An unknown system call number, which panics the kernel: events are the calls the user library makes.
- What an access past the semaphore table (post with id 16) or past a process's I/O pointers (flush with id 4) does: C promises nothing there, so the model only records that it happened.
- Callbacks that register or release timers themselves: a call is recorded, not run. In the kernel model the tick event contains the scheduler's callback, which is registered for every tick.
- A timer interval of 0, on which the handler divides by zero: `Timers.Sane` excludes it.
- MutexRuns.MutualExclusion: assumes that no process exits or is killed between its lock and unlock calls, because the kernel does not release its mutexes then; `MutexRuns.OwnersLiveIff` says exactly which entries break that.
- PingPong.TurnsSinceInit: follows one pair of semaphores. Two processes racing through the unguarded initialisation can each create the same semaphore, and clients that read the id before the second assignment then wait on another one than the rest; that is not followed.
- Liveness of blocked processes: a mutex never unlocked or a semaphore never posted blocks its waiters forever, and nothing is claimed about that.
