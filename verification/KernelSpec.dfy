/** What each kernel routine does to the kernel state. The routines of the `Kernel` class
    in KernelMachine.dfy, which work on arrays and circular queues, are proved to compute these. */
module KernelSpec {
  import opened Types

  // ---- src/kproc.c: lookups ----

  /** The first live entry holding `pid`, or NULL. */
  function EntryOf(procs: seq<Pcb>, pid: int): (e: int)
    ensures NULL <= e < |procs|
    ensures e != NULL ==> procs[e].pid == pid && pid >= 0 && forall i :: 0 <= i < e ==> procs[i].pid != pid
    ensures e == NULL ==> forall i :: 0 <= i < |procs| && procs[i].pid >= 0 ==> procs[i].pid != pid
  {
    EntryFrom(procs, pid, 0)
  }

  function EntryFrom(procs: seq<Pcb>, pid: int, from: nat): (e: int)
    requires from <= |procs|
    ensures e == NULL || from <= e < |procs|
    ensures e != NULL ==> procs[e].pid == pid && pid >= 0 &&
                          forall i :: from <= i < e ==> procs[i].pid < 0 || procs[i].pid != pid
    ensures e == NULL ==> forall i :: from <= i < |procs| && procs[i].pid >= 0 ==> procs[i].pid != pid
    decreases |procs| - from
  {
    if from == |procs| then NULL
    else if procs[from].pid >= 0 && procs[from].pid == pid then from
    else EntryFrom(procs, pid, from + 1)
  }

  function PidToProc(s: Kernel, pid: int): (e: int)
    ensures NULL <= e < |s.procs|
    ensures e != NULL ==> s.procs[e].pid == pid && pid >= 0
  {
    if pid < 0 || pid >= s.nextPid then NULL else EntryOf(s.procs, pid)
  }

  function ProcToEntry(s: Kernel, proc: int): int
    requires NULL <= proc < |s.procs|
  {
    if proc == NULL then NULL else EntryOf(s.procs, s.procs[proc].pid)
  }

  // ---- src/scheduler.c ----

  function Panic(s: Kernel): Kernel { s.(panicked := true) }

  predicate Full(q: seq<int>) { |q| >= QUEUE_SIZE }

  function Enqueue(s: Kernel, k: int, pid: int): Kernel
    requires 0 <= k < |s.queues|
  {
    s.(queues := s.queues[k := s.queues[k] + [pid]])
  }

  function DropHead(s: Kernel, k: int): Kernel
    requires 0 <= k < |s.queues| && s.queues[k] != []
  {
    s.(queues := s.queues[k := s.queues[k][1..]])
  }

  function SetProc(s: Kernel, e: int, p: Pcb): Kernel
    requires 0 <= e < |s.procs|
  {
    s.(procs := s.procs[e := p])
  }

  function SchedulerAdd(s: Kernel, proc: int): (t: Kernel)
    requires Shape(s) && NULL <= proc < PROC_MAX
    ensures Shape(t) && t.queues == s.queues[RUN := t.queues[RUN]]
    ensures t.mutexes == s.mutexes && t.sems == s.sems
  {
    if proc == NULL then Panic(s)
    else if s.procs[proc].pid == 0 then s
    else if Full(s.queues[RUN]) then Panic(s)
    else SetProc(Enqueue(s, RUN, s.procs[proc].pid), proc, s.procs[proc].(state := Idle, cpuTime := 0))
  }

  /** The rotation that drops `pid`: it stops when `i` reaches the shrinking size. */
  function RemoveLoop(q: seq<int>, pid: int, i: nat): seq<int>
    decreases |q| - i
  {
    if i >= |q| then q
    else if q[0] == pid then RemoveLoop(q[1..], pid, i + 1)
    else RemoveLoop(q[1..] + [q[0]], pid, i + 1)
  }

  function SchedulerRemove(s: Kernel, proc: int): (t: Kernel)
    requires Shape(s) && NULL <= proc < PROC_MAX
    ensures Shape(t)
  {
    if proc == NULL then s
    else
      var pid := s.procs[proc].pid;
      var t := s.(queues := s.queues[RUN := RemoveLoop(s.queues[RUN], pid, 0)]);
      if s.active != NULL && s.procs[s.active].pid == pid then t.(active := NULL) else t
  }

  function SchedulerSleep(s: Kernel, proc: int, ticks: int): (t: Kernel)
    requires Shape(s) && NULL <= proc < PROC_MAX
    ensures Shape(t)
  {
    if proc == NULL then Panic(s)
    else
      var s1 := SetProc(s, proc, s.procs[proc].(sleepTime := ticks));
      if s1.procs[proc].state == Sleeping then s1
      else
        var s2 := SchedulerRemove(s1, proc);
        var s3 := SetProc(s2, proc, s2.procs[proc].(state := Sleeping));
        if Full(s3.queues[SLEEP]) then s3 else Enqueue(s3, SLEEP, s3.procs[proc].pid)
  }

  /** The wake-up loop over the sleep queue; it too stops at the shrinking size. */
  function WakeLoop(s: Kernel, i: nat): (t: Kernel)
    requires Shape(s)
    ensures Shape(t)
    decreases |s.queues[SLEEP]| - i
  {
    if i >= |s.queues[SLEEP]| then s
    else WakeLoop(WakeOne(s), i + 1)
  }

  function WakeOne(s: Kernel): (t: Kernel)
    requires Shape(s) && s.queues[SLEEP] != []
    ensures Shape(t) && |t.queues[SLEEP]| <= |s.queues[SLEEP]|
  {
    var pid := s.queues[SLEEP][0];
    var s1 := DropHead(s, SLEEP);
    var e := PidToProc(s1, pid);
    if e == NULL then s1
    else if s1.procs[e].sleepTime == 1 then
      SchedulerAdd(SetProc(s1, e, s1.procs[e].(sleepTime := 0)), e)
    else
      var s2 := SetProc(s1, e, s1.procs[e].(sleepTime := s1.procs[e].sleepTime - 1));
      if Full(s2.queues[SLEEP]) then s2 else Enqueue(s2, SLEEP, pid)
  }

  function ChargeActive(s: Kernel): (t: Kernel)
    requires Shape(s)
    ensures Shape(t)
  {
    if s.active == NULL then s
    else
      var p := s.procs[s.active];
      SetProc(s, s.active, p.(runTime := p.runTime + 1, cpuTime := p.cpuTime + 1))
  }

  function SchedulerTimer(s: Kernel): (t: Kernel)
    requires Shape(s)
    ensures Shape(t)
  {
    WakeLoop(ChargeActive(s), 0)
  }

  /** Takes the processor away from an active process that may not keep it. */
  function Preempt(s: Kernel): (t: Kernel)
    requires Shape(s)
    ensures Shape(t)
  {
    if s.active == NULL then s
    else
      var a := s.active;
      if s.procs[a].state != Active then s.(active := NULL)
      else if s.procs[a].cpuTime >= TIMESLICE then
        var s1 := SetProc(s, a, s.procs[a].(cpuTime := 0));
        var s2 := if s1.procs[a].pid != 0 then SchedulerAdd(s1, a)
                  else SetProc(s1, a, s1.procs[a].(state := Idle));
        s2.(active := NULL)
      else s
  }

  function Dispatch(s: Kernel): (t: Kernel)
    requires Shape(s)
    ensures Shape(t)
  {
    var s1 :=
      if s.active != NULL then s
      else if s.queues[RUN] == [] then s.(active := PidToProc(s, 0))
      else
        var s0 := DropHead(s, RUN);
        s0.(active := PidToProc(s0, s.queues[RUN][0]));
    if s1.active == NULL then Panic(s1)
    else SetProc(s1, s1.active, s1.procs[s1.active].(state := Active))
  }

  function SchedulerRun(s: Kernel): (t: Kernel)
    requires Shape(s)
    ensures Shape(t)
  {
    Dispatch(Preempt(s))
  }

  // ---- src/kproc.c: creation and destruction ----

  function KprocCreate(s: Kernel): (r: (Kernel, int))
    requires Shape(s)
    ensures Shape(r.0)
  {
    if s.freeEntries == [] then (s, -1)
    else
      var e := s.freeEntries[0];
      assert e in s.freeEntries;
      var s1 := SetProc(s.(freeEntries := s.freeEntries[1..], nextPid := s.nextPid + 1), e,
                        Pcb(s.nextPid, Idle, 0, 0, 0));
      (SchedulerAdd(s1, e), s.nextPid)
  }

  function KprocDestroy(s: Kernel, proc: int): (r: (Kernel, int))
    requires Shape(s) && NULL <= proc < PROC_MAX
    requires proc != NULL ==> s.procs[proc].pid >= 0
    ensures Shape(r.0)
  {
    if proc == NULL || s.procs[proc].pid == 0 then (s, -1)
    else
      var s1 := SchedulerRemove(s, proc);
      var e := ProcToEntry(s1, proc);
      var s2 := SetProc(s1, e, FREE_PCB);
      if Full(s2.freeEntries) then (s2, -1)
      else (s2.(freeEntries := s2.freeEntries + [e]), 0)
  }

  // ---- src/kmutex.c ----

  function SetMutex(s: Kernel, id: int, m: Mutex): Kernel
    requires 0 <= id < |s.mutexes|
  {
    s.(mutexes := s.mutexes[id := m])
  }

  function KmutexInit(s: Kernel): (r: (Kernel, int))
    requires Shape(s)
    ensures Shape(r.0) && r.0.nextPid == s.nextPid
  {
    if s.mutexPool == [] then (s, -1)
    else
      var id := s.mutexPool[0];
      assert id in s.mutexPool;
      var s1 := SetMutex(s.(mutexPool := s.mutexPool[1..]), id, Mutex(true, 0, NULL));
      (s1.(queues := s1.queues[MutexQ(id) := []]), id)
  }

  function KmutexDestroy(s: Kernel, id: int): (r: (Kernel, int))
    requires Shape(s)
    ensures Shape(r.0) && r.0.nextPid == s.nextPid
  {
    if !InRange(id, MUTEX_MAX) || s.mutexes[id].locks > 0 || Full(s.mutexPool) then (s, -1)
    else
      var s1 := SetMutex(s.(mutexPool := s.mutexPool + [id]), id, CLEAR_MUTEX);
      (s1.(queues := s1.queues[MutexQ(id) := []]), 0)
  }

  function KmutexLock(s: Kernel, id: int): (r: (Kernel, int))
    requires Shape(s)
    ensures Shape(r.0) && r.0.nextPid == s.nextPid
  {
    if !InRange(id, MUTEX_MAX) then (s, -1)
    else
      var m := s.mutexes[id];
      if m.owner != NULL then
        if s.active == NULL then (s, -1)
        else
          var s1 := SetProc(s, s.active, s.procs[s.active].(state := Waiting));
          if Full(s1.queues[MutexQ(id)]) then (s1, -1)
          else
            var s2 := SchedulerRemove(Enqueue(s1, MutexQ(id), s1.procs[s.active].pid), s.active);
            (SetMutex(s2, id, m.(locks := m.locks + 1)), m.locks + 1)
      else
        (SetMutex(s, id, m.(owner := s.active, locks := m.locks + 1)), m.locks + 1)
  }

  function KmutexUnlock(s: Kernel, id: int): (r: (Kernel, int))
    requires Shape(s)
    ensures Shape(r.0) && r.0.nextPid == s.nextPid
  {
    if !InRange(id, MUTEX_MAX) then (s, -1)
    else
      var m := s.mutexes[id];
      var k := MutexQ(id);
      if m.owner == NULL then (s, 0)
      else if m.locks - 1 == 0 then (SetMutex(s, id, m.(owner := NULL, locks := 0)), 0)
      else
        var s1 := SetMutex(s, id, m.(locks := m.locks - 1));
        if s1.queues[k] == [] then (s1, -1)
        else
          var s2 := DropHead(s1, k);
          var proc := PidToProc(s2, s1.queues[k][0]);
          (SetMutex(SchedulerAdd(s2, proc), id, m.(owner := proc, locks := m.locks - 1)), m.locks - 1)
  }

  // ---- src/ksem.c ----

  function SetSem(s: Kernel, id: int, m: Semaphore): Kernel
    requires 0 <= id < |s.sems|
  {
    s.(sems := s.sems[id := m])
  }

  function KsemInit(s: Kernel, value: int): (r: (Kernel, int))
    requires Shape(s)
    ensures Shape(r.0) && r.0.nextPid == s.nextPid
  {
    if s.semPool == [] then (s, -1)
    else
      var id := s.semPool[0];
      assert id in s.semPool;
      var s1 := SetSem(s.(semPool := s.semPool[1..]), id, Semaphore(true, value));
      (s1.(queues := s1.queues[SemQ(id) := []]), id)
  }

  function KsemDestroy(s: Kernel, id: int): (r: (Kernel, int))
    requires Shape(s)
    ensures Shape(r.0) && r.0.nextPid == s.nextPid
  {
    if !InRange(id, SEM_MAX) || !s.sems[id].inUse || s.sems[id].count == 0 || Full(s.semPool) then (s, -1)
    else
      var s1 := SetSem(s.(semPool := s.semPool + [id]), id, CLEAR_SEM);
      (s1.(queues := s1.queues[SemQ(id) := []]), 0)
  }

  function KsemWait(s: Kernel, id: int): (r: (Kernel, int))
    requires Shape(s)
    ensures Shape(r.0) && r.0.nextPid == s.nextPid
  {
    if !InRange(id, SEM_MAX) || !s.sems[id].inUse then (s, -1)
    else
      var m := s.sems[id];
      if m.count == 0 then
        if s.active == NULL then (s, -1)
        else
          var s1 := SetProc(s, s.active, s.procs[s.active].(state := Waiting));
          if Full(s1.queues[SemQ(id)]) then (s1, -1)
          else (SchedulerRemove(Enqueue(s1, SemQ(id), s1.procs[s.active].pid), s.active), 0)
      else if m.count > 0 then
        (SetSem(s, id, m.(count := m.count - 1)), m.count - 1)
      else (s, -1)
  }

  /** The id is not checked: outside the table, C promises nothing. */
  function KsemPost(s: Kernel, id: int): (r: (Kernel, int))
    requires Shape(s)
    ensures Shape(r.0) && r.0.nextPid == s.nextPid
  {
    if !InRange(id, SEM_MAX) then (s.(strayed := true), -1)
    else if !s.sems[id].inUse then (s, -1)
    else
      var m := s.sems[id];
      var k := SemQ(id);
      var s1 := SetSem(s, id, m.(count := m.count + 1));
      if s1.queues[k] == [] then (s1, -1)
      else
        var s2 := DropHead(s1, k);
        var s3 := SchedulerAdd(s2, PidToProc(s2, s1.queues[k][0]));
        (SetSem(s3, id, m), m.count)
  }

  // ---- src/ksyscall.c, src/keyboard.c and src/kernel.c: one kernel entry ----

  function Handle(s: Kernel, e: Event): (t: Kernel)
    requires Shape(s)
    ensures Shape(t)
  {
    if IsSyscall(e) && s.active == NULL then Panic(s)
    else
      match e
      case Tick => SchedulerTimer(s)
      case CtrlN => KprocCreate(s).0
      case CtrlQ => KprocDestroy(s, s.active).0
      case OtherEntry => s
      case ProcSleep(seconds) =>
        if seconds < 0 then s else SchedulerSleep(s, s.active, seconds * TICKS_PER_SECOND)
      case ProcExit => KprocDestroy(s, s.active).0
      case MutexInit => KmutexInit(s).0
      case MutexDestroy(id) => KmutexDestroy(s, id).0
      case MutexLock(id) => KmutexLock(s, id).0
      case MutexUnlock(id) => KmutexUnlock(s, id).0
      case SemInit(value) => if InRange(value, SEM_MAX + 1) then KsemInit(s, value).0 else s
      case SemDestroy(id) => KsemDestroy(s, id).0
      case SemWait(id) => KsemWait(s, id).0
      case SemPost(id) => if InRange(id, SEM_MAX + 1) then KsemPost(s, id).0 else s
  }

  function Step(s: Kernel, e: Event): (t: Kernel)
    requires Shape(s)
    ensures Shape(t)
  {
    SchedulerRun(Handle(s, e))
  }

  // ---- boot ----

  /** The tables as the init loops of kproc_init, kmutexes_init and ksemaphores_init leave them. */
  function Blank(): (s: Kernel)
    ensures Shape(s)
  {
    Kernel(seq(PROC_MAX, i => FREE_PCB), 0, seq(PROC_MAX, i => i), NULL, seq(PID_QUEUES, k => []),
           seq(MUTEX_MAX, i => CLEAR_MUTEX), seq(MUTEX_MAX, i => i),
           seq(SEM_MAX, i => CLEAR_SEM), seq(SEM_MAX, i => i), false, false)
  }

  function CreateMany(s: Kernel, n: nat): (t: Kernel)
    requires Shape(s)
    ensures Shape(t)
    decreases n
  {
    if n == 0 then s else CreateMany(KprocCreate(s).0, n - 1)
  }

  // The idle process, four shells, three ping and three pong processes.
  const BOOT_PROCESSES: nat := 11

  function Boot(): (s: Kernel)
    ensures Shape(s)
  {
    CreateMany(Blank(), BOOT_PROCESSES)
  }
}
