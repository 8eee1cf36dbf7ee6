/** The kernel state of WUROS as values: process table, queues, mutexes and semaphores,
    and the events that enter the kernel. Pointers to process table entries are entry
    indices, with `NULL` for the null pointer. */
module Types {

  const QUEUE_SIZE: nat := 32
  const PROC_MAX: nat := 20
  const MUTEX_MAX: nat := 16
  const SEM_MAX: nat := 16
  const TIMESLICE: nat := 10
  const TICKS_PER_SECOND: nat := 100
  const NULL: int := -1

  datatype ProcState = NoState | Idle | Active | Sleeping | Waiting

  /** The scheduling part of a process control block. A free entry has pid -1. */
  datatype Pcb = Pcb(pid: int, state: ProcState, runTime: int, cpuTime: int, sleepTime: int)

  const FREE_PCB := Pcb(-1, NoState, -1, -1, 0)

  datatype Mutex = Mutex(inUse: bool, locks: int, owner: int)
  datatype Semaphore = Semaphore(inUse: bool, count: int)

  const CLEAR_MUTEX := Mutex(false, 0, NULL)
  const CLEAR_SEM := Semaphore(false, 0)

  // Every queue of process ids: the run queue, the sleep queue, and the wait queue
  // of each mutex and of each semaphore.
  const RUN: nat := 0
  const SLEEP: nat := 1
  const PID_QUEUES: nat := 2 + MUTEX_MAX + SEM_MAX

  function MutexQ(id: int): int { 2 + id }
  function SemQ(id: int): int { 2 + MUTEX_MAX + id }

  datatype Kernel = Kernel(
    procs: seq<Pcb>,
    nextPid: int,
    freeEntries: seq<int>,
    active: int,
    queues: seq<seq<int>>,
    mutexes: seq<Mutex>,
    mutexPool: seq<int>,
    sems: seq<Semaphore>,
    semPool: seq<int>,
    panicked: bool,
    strayed: bool)  // the kernel has accessed memory outside its tables

  /** One kernel entry: a timer tick, a key combination, or a system call of the active process. */
  datatype Event =
    | Tick
    | CtrlN
    | CtrlQ
    | OtherEntry
    | ProcSleep(seconds: int)
    | ProcExit
    | MutexInit
    | MutexDestroy(id: int)
    | MutexLock(id: int)
    | MutexUnlock(id: int)
    | SemInit(value: int)
    | SemDestroy(id: int)
    | SemWait(id: int)
    | SemPost(id: int)

  predicate IsSyscall(e: Event) {
    !(e.Tick? || e.CtrlN? || e.CtrlQ? || e.OtherEntry?)
  }

  predicate InRange(id: int, max: nat) { 0 <= id < max }

  /** The sizes and pointer ranges that C's declarations fix, whatever the kernel does. */
  ghost predicate Shape(s: Kernel) {
    && |s.procs| == PROC_MAX && |s.queues| == PID_QUEUES
    && |s.mutexes| == MUTEX_MAX && |s.sems| == SEM_MAX
    && s.nextPid >= 0
    && NULL <= s.active < PROC_MAX
    && (s.active != NULL ==> s.procs[s.active].pid >= 0)
    && (forall x :: x in s.freeEntries ==> InRange(x, PROC_MAX))
    && (forall x :: x in s.mutexPool ==> InRange(x, MUTEX_MAX))
    && (forall x :: x in s.semPool ==> InRange(x, SEM_MAX))
  }
}
