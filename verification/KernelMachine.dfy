/** The kernel as the source has it: tables and circular queues updated in place. Each routine is
    proved to compute the function of the same name in KernelSpec.dfy on the abstract state. */
module KernelMachine {
  import opened Types
  import opened KernelSpec
  import opened CircularQueue

  const ZERO_PCB := Pcb(0, NoState, 0, 0, 0)

  /** The kernel's static storage before any initialisation. */
  function Zeroed(): Kernel {
    Kernel(seq(PROC_MAX, i => ZERO_PCB), 0, [], NULL, seq(PID_QUEUES, k => []),
           seq(MUTEX_MAX, i => CLEAR_MUTEX), [], seq(SEM_MAX, i => CLEAR_SEM), [], false, false)
  }

  method MakeQueues(n: nat) returns (qs: seq<Queue>, ghost objects: set<object>)
    ensures |qs| == n && fresh(objects)
    ensures forall i :: 0 <= i < n ==> qs[i] in objects && qs[i].items in objects
    ensures forall i :: 0 <= i < n ==> fresh(qs[i]) && fresh(qs[i].items) && qs[i].Valid() && qs[i].contents == []
    ensures forall i, j :: 0 <= i < j < n ==> qs[i] != qs[j] && qs[i].items != qs[j].items
  {
    qs, objects := [], {};
    for k := 0 to n
      invariant |qs| == k && fresh(objects)
      invariant forall i :: 0 <= i < k ==> qs[i] in objects && qs[i].items in objects
      invariant forall i :: 0 <= i < k ==> fresh(qs[i]) && fresh(qs[i].items) && qs[i].Valid() && qs[i].contents == []
      invariant forall i, j :: 0 <= i < j < k ==> qs[i] != qs[j] && qs[i].items != qs[j].items
    {
      var q := new Queue();
      qs, objects := qs + [q], objects + {q, q.items};
    }
  }

  ghost predicate Apart(p: Queue, q: Queue) {
    p != q && p.items != q.items
  }

  ghost predicate SeparateQueues(qs: seq<Queue>, a: Queue, b: Queue, c: Queue) {
    && |qs| == PID_QUEUES
    && (forall i, j :: 0 <= i < j < PID_QUEUES ==> Apart(qs[i], qs[j]))
    && (forall i :: 0 <= i < PID_QUEUES ==> Apart(qs[i], a) && Apart(qs[i], b) && Apart(qs[i], c))
    && Apart(a, b) && Apart(a, c) && Apart(b, c)
  }

  ghost predicate Inside(qs: seq<Queue>, objects: set<object>) {
    forall i :: 0 <= i < |qs| ==> qs[i] in objects && qs[i].items in objects
  }

  ghost predicate Empty(q: Queue)
    reads q, q.items
  {
    q.Valid() && q.contents == []
  }

  /** Storage for every queue of the kernel. */
  method AllQueues() returns (qs: seq<Queue>, a: Queue, b: Queue, c: Queue, ghost objects: set<object>)
    ensures SeparateQueues(qs, a, b, c) && Inside(qs, objects)
    ensures (forall i :: 0 <= i < PID_QUEUES ==> Empty(qs[i])) && Empty(a) && Empty(b) && Empty(c)
    ensures fresh(objects) && fresh(a) && fresh(b) && fresh(c) && fresh(a.items) && fresh(b.items) && fresh(c.items)
  {
    a := new Queue();
    b := new Queue();
    c := new Queue();
    qs, objects := MakeQueues(PID_QUEUES);
  }

  class Machine {
    const procTable: array<Pcb>
    const procAllocator: Queue
    const pidQueues: seq<Queue>  // run queue, sleep queue, then the wait queues
    ghost const queueObjects: set<object>
    const mutexes: array<Mutex>
    const mutexQueue: Queue
    const semaphores: array<Semaphore>
    const semQueue: Queue
    var nextPid: int
    var active: int
    var panicked: bool

    /** The abstract state that the tables and queues stand for. */
    ghost var st: Kernel

    /** No two queues share storage. */
    ghost predicate Separate() {
      SeparateQueues(pidQueues, procAllocator, mutexQueue, semQueue) && Inside(pidQueues, queueObjects)
    }

    ghost function Repr(): set<object> {
      {this, procTable, mutexes, semaphores} +
      {procAllocator, procAllocator.items, mutexQueue, mutexQueue.items, semQueue, semQueue.items} +
      queueObjects
    }

    ghost predicate QueueIs(q: Queue, contents: seq<int>)
      reads q, q.items
    {
      q.Valid() && q.contents == contents
    }

    /** Every queue is where the abstract state says. */
    ghost predicate QueuesMatch()
      reads Repr()
    {
      && Separate()
      && QueueIs(procAllocator, st.freeEntries) && QueueIs(mutexQueue, st.mutexPool) && QueueIs(semQueue, st.semPool)
      && |st.queues| == PID_QUEUES
      && (forall k :: 0 <= k < PID_QUEUES ==> QueueIs(pidQueues[k], st.queues[k]))
    }

    ghost predicate Valid()
      reads Repr()
    {
      && procTable.Length == PROC_MAX && procTable[..] == st.procs
      && mutexes.Length == MUTEX_MAX && mutexes[..] == st.mutexes
      && semaphores.Length == SEM_MAX && semaphores[..] == st.sems
      && nextPid == st.nextPid && active == st.active && panicked == st.panicked
      && |st.queues| == PID_QUEUES && QueuesMatch()
    }

    /** Static storage before any initialisation. */
    constructor ()
      ensures Valid() && st == Zeroed()
      ensures fresh(queueObjects) && fresh(procTable) && fresh(mutexes) && fresh(semaphores)
      ensures fresh(procAllocator) && fresh(mutexQueue) && fresh(semQueue)
      ensures fresh(procAllocator.items) && fresh(mutexQueue.items) && fresh(semQueue.items)
    {
      procTable := new Pcb[PROC_MAX](i => ZERO_PCB);
      mutexes := new Mutex[MUTEX_MAX](i => CLEAR_MUTEX);
      semaphores := new Semaphore[SEM_MAX](i => CLEAR_SEM);
      var qs, a, b, c, objects := AllQueues();
      pidQueues, procAllocator, mutexQueue, semQueue, queueObjects := qs, a, b, c, objects;
      nextPid, active, panicked := 0, NULL, false;
      st := Zeroed();
    }

    function Size(k: int): (n: int)
      requires Valid() && 0 <= k < PID_QUEUES
      reads Repr()
      ensures n == |st.queues[k]| <= QUEUE_SIZE
    {
      assert QueueIs(pidQueues[k], st.queues[k]);
      pidQueues[k].size
    }

    function Proc(e: int): (p: Pcb)
      requires Valid() && 0 <= e < PROC_MAX
      reads Repr()
      ensures p == st.procs[e]
    {
      procTable[e]
    }

    function MutexAt(id: int): (m: Mutex)
      requires Valid() && 0 <= id < MUTEX_MAX
      reads Repr()
      ensures m == st.mutexes[id]
    {
      mutexes[id]
    }

    function SemAt(id: int): (m: Semaphore)
      requires Valid() && 0 <= id < SEM_MAX
      reads Repr()
      ensures m == st.sems[id]
    {
      semaphores[id]
    }

    function ActiveProc(): (a: int)
      requires Valid()
      reads Repr()
      ensures a == st.active
    {
      active
    }

    // ---- writes to one field or one queue ----

    method SetProcAt(e: int, p: Pcb)
      requires Valid() && 0 <= e < PROC_MAX
      modifies Repr()
      ensures Valid() && st == SetProc(old(st), e, p)
    {
      procTable[e] := p;
      st := SetProc(st, e, p);
    }

    /** Queue `k` is the machine's own and shares nothing with its other queues. */
    lemma OwnQueue(k: int)
      requires Separate() && 0 <= k < PID_QUEUES
      ensures |pidQueues| == PID_QUEUES && pidQueues[k] in Repr() && pidQueues[k].items in Repr()
      ensures forall j :: 0 <= j < PID_QUEUES && j != k ==> Apart(pidQueues[j], pidQueues[k])
      ensures Apart(pidQueues[k], procAllocator) && Apart(pidQueues[k], mutexQueue) && Apart(pidQueues[k], semQueue)
    {
    }

    method EnqueueAt(k: int, pid: int) returns (rc: int)
      requires Valid() && 0 <= k < PID_QUEUES
      modifies Repr()
      ensures Valid() && rc == (if Full(old(st).queues[k]) then -1 else 0)
      ensures st == if Full(old(st).queues[k]) then old(st) else Enqueue(old(st), k, pid)
    {
      hide SeparateQueues, Inside, Queue.Valid;
      OwnQueue(k);
      assert QueueIs(pidQueues[k], st.queues[k]);
      rc := pidQueues[k].In(pid);
      if rc == 0 {
        st := Enqueue(st, k, pid);
      }
    }

    method DequeueAt(k: int, previous: int) returns (rc: int, pid: int)
      requires Valid() && 0 <= k < PID_QUEUES
      modifies Repr()
      ensures Valid() && rc == (if old(st).queues[k] == [] then -1 else 0)
      ensures pid == if rc == 0 then old(st).queues[k][0] else previous
      ensures st == if rc == 0 then DropHead(old(st), k) else old(st)
    {
      hide SeparateQueues, Inside, Queue.Valid;
      OwnQueue(k);
      assert QueueIs(pidQueues[k], st.queues[k]);
      rc, pid := pidQueues[k].Out(previous);
      if rc == 0 {
        st := DropHead(st, k);
      }
    }

    method ResetQueue(k: int)
      requires Valid() && 0 <= k < PID_QUEUES
      modifies Repr()
      ensures Valid() && st == old(st).(queues := old(st).queues[k := []])
    {
      hide SeparateQueues, Inside;
      OwnQueue(k);
      assert QueueIs(pidQueues[k], st.queues[k]);
      pidQueues[k].Init();
      st := st.(queues := st.queues[k := []]);
    }

    method TakeEntry(previous: int) returns (rc: int, e: int)
      requires Valid()
      modifies Repr()
      ensures Valid() && rc == (if old(st).freeEntries == [] then -1 else 0)
      ensures e == if rc == 0 then old(st).freeEntries[0] else previous
      ensures st == if rc == 0 then old(st).(freeEntries := old(st).freeEntries[1..]) else old(st)
    {
      rc, e := procAllocator.Out(previous);
      if rc == 0 {
        st := st.(freeEntries := st.freeEntries[1..]);
      }
    }

    method FreeEntry(e: int) returns (rc: int)
      requires Valid()
      modifies Repr()
      ensures Valid() && rc == (if Full(old(st).freeEntries) then -1 else 0)
      ensures st == if rc == 0 then old(st).(freeEntries := old(st).freeEntries + [e]) else old(st)
    {
      rc := procAllocator.In(e);
      if rc == 0 {
        st := st.(freeEntries := st.freeEntries + [e]);
      }
    }

    method TakeMutexId(previous: int) returns (rc: int, id: int)
      requires Valid()
      modifies Repr()
      ensures Valid() && rc == (if old(st).mutexPool == [] then -1 else 0)
      ensures id == if rc == 0 then old(st).mutexPool[0] else previous
      ensures st == if rc == 0 then old(st).(mutexPool := old(st).mutexPool[1..]) else old(st)
    {
      rc, id := mutexQueue.Out(previous);
      if rc == 0 {
        st := st.(mutexPool := st.mutexPool[1..]);
      }
    }

    method FreeMutexId(id: int) returns (rc: int)
      requires Valid()
      modifies Repr()
      ensures Valid() && rc == (if Full(old(st).mutexPool) then -1 else 0)
      ensures st == if rc == 0 then old(st).(mutexPool := old(st).mutexPool + [id]) else old(st)
    {
      rc := mutexQueue.In(id);
      if rc == 0 {
        st := st.(mutexPool := st.mutexPool + [id]);
      }
    }

    method TakeSemId(previous: int) returns (rc: int, id: int)
      requires Valid()
      modifies Repr()
      ensures Valid() && rc == (if old(st).semPool == [] then -1 else 0)
      ensures id == if rc == 0 then old(st).semPool[0] else previous
      ensures st == if rc == 0 then old(st).(semPool := old(st).semPool[1..]) else old(st)
    {
      rc, id := semQueue.Out(previous);
      if rc == 0 {
        st := st.(semPool := st.semPool[1..]);
      }
    }

    method FreeSemId(id: int) returns (rc: int)
      requires Valid()
      modifies Repr()
      ensures Valid() && rc == (if Full(old(st).semPool) then -1 else 0)
      ensures st == if rc == 0 then old(st).(semPool := old(st).semPool + [id]) else old(st)
    {
      rc := semQueue.In(id);
      if rc == 0 {
        st := st.(semPool := st.semPool + [id]);
      }
    }

    method Kpanic()
      requires Valid()
      modifies Repr()
      ensures Valid() && st == Panic(old(st))
    {
      panicked := true;
      st := Panic(st);
    }

    /** Stands for an access outside a table: the model has no memory there, and records the fact. */
    method Stray()
      requires Valid()
      modifies Repr()
      ensures Valid() && st == old(st).(strayed := true)
    {
      st := st.(strayed := true);
    }

    method SetActive(proc: int)
      requires Valid()
      modifies Repr()
      ensures Valid() && st == old(st).(active := proc)
    {
      active := proc;
      st := st.(active := proc);
    }

    method BumpPid()
      requires Valid()
      modifies Repr()
      ensures Valid() && st == old(st).(nextPid := old(st).nextPid + 1)
    {
      nextPid := nextPid + 1;
      st := st.(nextPid := st.nextPid + 1);
    }

    method SetMutexAt(id: int, m: Mutex)
      requires Valid() && 0 <= id < MUTEX_MAX
      modifies Repr()
      ensures Valid() && st == SetMutex(old(st), id, m)
    {
      mutexes[id] := m;
      st := SetMutex(st, id, m);
    }

    method SetSemAt(id: int, m: Semaphore)
      requires Valid() && 0 <= id < SEM_MAX
      modifies Repr()
      ensures Valid() && st == SetSem(old(st), id, m)
    {
      semaphores[id] := m;
      st := SetSem(st, id, m);
    }

    // ---- src/kproc.c: lookups ----

    method PidToProc(pid: int) returns (e: int)
      requires Valid()
      ensures e == KernelSpec.PidToProc(st, pid)
    {
      if pid < 0 || pid >= nextPid {
        return NULL;
      }
      for i := 0 to PROC_MAX
        invariant EntryFrom(st.procs, pid, i) == EntryFrom(st.procs, pid, 0)
      {
        if procTable[i].pid >= 0 && procTable[i].pid == pid {
          return i;
        }
      }
      return NULL;
    }

    method ProcToEntry(proc: int) returns (e: int)
      requires Valid() && NULL <= proc < PROC_MAX
      ensures e == KernelSpec.ProcToEntry(st, proc)
    {
      if proc == NULL {
        return NULL;
      }
      for i := 0 to PROC_MAX
        invariant EntryFrom(st.procs, st.procs[proc].pid, i) == EntryFrom(st.procs, st.procs[proc].pid, 0)
      {
        if procTable[i].pid >= 0 && procTable[proc].pid == procTable[i].pid {
          return i;
        }
      }
      return NULL;
    }

    // ---- src/scheduler.c ----

    method SchedulerAdd(proc: int)
      requires Valid() && Shape(st) && NULL <= proc < PROC_MAX
      modifies Repr()
      ensures Valid() && st == KernelSpec.SchedulerAdd(old(st), proc)
    {
      hide Valid;
      if proc == NULL {
        Kpanic();
        return;
      }
      if Proc(proc).pid == 0 {
        return;
      }
      var rc := EnqueueAt(RUN, Proc(proc).pid);
      if rc != 0 {
        Kpanic();
        return;
      }
      SetProcAt(proc, Proc(proc).(state := Idle, cpuTime := 0));
    }

    method SchedulerRemove(proc: int)
      requires Valid() && Shape(st) && NULL <= proc < PROC_MAX
      modifies Repr()
      ensures Valid() && st == KernelSpec.SchedulerRemove(old(st), proc)
    {
      hide Valid;
      if proc == NULL {
        return;
      }
      RotateOut(Proc(proc).pid);
      if ActiveProc() == NULL {
        return;
      }
      if Proc(proc).pid == Proc(ActiveProc()).pid {
        SetActive(NULL);
      }
    }

    /** The loop of `scheduler_remove`. */
    method RotateOut(target: int)
      requires Valid() && |st.queues| == PID_QUEUES
      modifies Repr()
      ensures Valid()
      ensures st == old(st).(queues := old(st).queues[RUN := RemoveLoop(old(st).queues[RUN], target, 0)])
    {
      hide Valid;
      ghost var was := st;
      var i := 0;
      while i < Size(RUN)
        invariant Valid() && 0 <= i && |st.queues| == PID_QUEUES
        invariant st == was.(queues := was.queues[RUN := st.queues[RUN]])
        invariant RemoveLoop(st.queues[RUN], target, i) == RemoveLoop(was.queues[RUN], target, 0)
        decreases |st.queues[RUN]| - i
      {
        var _, pid := DequeueAt(RUN, 0);
        if target != pid {
          var rc := EnqueueAt(RUN, pid);
        }
        i := i + 1;
      }
    }

    /** What a lock or wait call does to a process that cannot go on. */
    method BlockActive(k: int) returns (rc: int)
      requires Valid() && Shape(st) && st.active != NULL && 0 <= k < PID_QUEUES
      modifies Repr()
      ensures Valid()
      ensures var a := old(st).active;
              var s1 := SetProc(old(st), a, old(st).procs[a].(state := Waiting));
              if Full(s1.queues[k]) then rc == -1 && st == s1
              else rc == 0 && st == KernelSpec.SchedulerRemove(Enqueue(s1, k, s1.procs[a].pid), a)
    {
      hide Valid;
      SetProcAt(ActiveProc(), Proc(ActiveProc()).(state := Waiting));
      rc := EnqueueAt(k, Proc(ActiveProc()).pid);
      if rc == 0 {
        SchedulerRemove(ActiveProc());
      }
    }

    /** What an unlock or post call does to the longest waiting process. */
    method WakeFirst(k: int) returns (rc: int, proc: int)
      requires Valid() && Shape(st) && 0 <= k < PID_QUEUES
      modifies Repr()
      ensures Valid()
      ensures if old(st).queues[k] == [] then rc == -1 && st == old(st)
              else rc == 0 && proc == KernelSpec.PidToProc(old(st), old(st).queues[k][0]) &&
                   st == KernelSpec.SchedulerAdd(DropHead(old(st), k), proc)
    {
      hide Valid;
      var pid;
      proc := NULL;
      rc, pid := DequeueAt(k, -1);
      if rc == 0 {
        proc := PidToProc(pid);
        SchedulerAdd(proc);
      }
    }

    method SchedulerSleep(proc: int, ticks: int)
      requires Valid() && Shape(st) && NULL <= proc < PROC_MAX
      modifies Repr()
      ensures Valid() && st == KernelSpec.SchedulerSleep(old(st), proc, ticks)
    {
      hide Valid;
      if proc == NULL {
        Kpanic();
        return;
      }
      SetProcAt(proc, Proc(proc).(sleepTime := ticks));
      if Proc(proc).state == Sleeping {
        return;
      }
      SchedulerRemove(proc);
      SetProcAt(proc, Proc(proc).(state := Sleeping));
      var rc := EnqueueAt(SLEEP, Proc(proc).pid);
    }

    method SchedulerTimer()
      requires Valid() && Shape(st)
      modifies Repr()
      ensures Valid() && st == KernelSpec.SchedulerTimer(old(st))
    {
      hide Valid;
      hide KernelSpec.WakeOne;
      if ActiveProc() != NULL {
        var p := Proc(ActiveProc());
        SetProcAt(ActiveProc(), p.(runTime := p.runTime + 1, cpuTime := p.cpuTime + 1));
      }
      var i := 0;
      while i < Size(SLEEP)
        invariant Valid() && Shape(st) && 0 <= i
        invariant WakeLoop(st, i) == KernelSpec.SchedulerTimer(old(st))
        decreases |st.queues[SLEEP]| - i
      {
        WakeOne();
        i := i + 1;
      }
    }

    /** The body of the wake-up loop. */
    method WakeOne()
      requires Valid() && Shape(st) && st.queues[SLEEP] != []
      modifies Repr()
      ensures Valid() && st == KernelSpec.WakeOne(old(st))
    {
      hide Valid;
      var _, pid := DequeueAt(SLEEP, 0);
      var proc := PidToProc(pid);
      if proc == NULL {
        return;
      }
      if Proc(proc).sleepTime == 1 {
        SetProcAt(proc, Proc(proc).(sleepTime := 0));
        SchedulerAdd(proc);
      } else {
        SetProcAt(proc, Proc(proc).(sleepTime := Proc(proc).sleepTime - 1));
        var rc := EnqueueAt(SLEEP, pid);
      }
    }

    method SchedulerRun()
      requires Valid() && Shape(st)
      modifies Repr()
      ensures Valid() && st == KernelSpec.SchedulerRun(old(st))
    {
      hide Valid;
      UnscheduleActive();
      ScheduleNext();
    }

    /** First half of `scheduler_run`: does the active process keep the processor? */
    method UnscheduleActive()
      requires Valid() && Shape(st)
      modifies Repr()
      ensures Valid() && st == Preempt(old(st))
    {
      hide Valid;
      if ActiveProc() != NULL && Proc(ActiveProc()).state != Active {
        SetActive(NULL);
      }
      if ActiveProc() != NULL && Proc(ActiveProc()).cpuTime >= TIMESLICE {
        SetProcAt(ActiveProc(), Proc(ActiveProc()).(cpuTime := 0));
        if Proc(ActiveProc()).pid != 0 {
          SchedulerAdd(ActiveProc());
        } else {
          SetProcAt(ActiveProc(), Proc(ActiveProc()).(state := Idle));
        }
        SetActive(NULL);
      }
    }

    /** Second half of `scheduler_run`: pick the next process, the idle process by default. */
    method ScheduleNext()
      requires Valid() && Shape(st)
      modifies Repr()
      ensures Valid() && st == Dispatch(old(st))
    {
      hide Valid;
      if ActiveProc() == NULL {
        var err, pid := DequeueAt(RUN, 0);
        if err != 0 {
          pid := 0;
        }
        var proc := PidToProc(pid);
        SetActive(proc);
      }
      if ActiveProc() == NULL {
        Kpanic();
        return;
      }
      SetProcAt(ActiveProc(), Proc(ActiveProc()).(state := Active));
    }

    // ---- src/kproc.c: creation and destruction ----

    method KprocCreate() returns (rc: int)
      requires Valid() && Shape(st)
      modifies Repr()
      ensures Valid() && (st, rc) == KernelSpec.KprocCreate(old(st))
    {
      hide Valid;
      var err, e := TakeEntry(-1);
      if err != 0 {
        return -1;
      }
      assert e in old(st).freeEntries;
      SetProcAt(e, Pcb(nextPid, Idle, 0, 0, 0));
      BumpPid();
      SchedulerAdd(e);
      return Proc(e).pid;
    }

    method KprocDestroy(proc: int) returns (rc: int)
      requires Valid() && Shape(st) && NULL <= proc < PROC_MAX
      requires proc != NULL ==> st.procs[proc].pid >= 0
      modifies Repr()
      ensures Valid() && (st, rc) == KernelSpec.KprocDestroy(old(st), proc)
    {
      hide Valid;
      if proc == NULL || Proc(proc).pid == 0 {
        return -1;
      }
      SchedulerRemove(proc);
      var e := ProcToEntry(proc);
      SetProcAt(e, FREE_PCB);
      rc := FreeEntry(e);
    }

    // ---- src/kmutex.c ----

    method KmutexInit() returns (rc: int)
      requires Valid() && Shape(st)
      modifies Repr()
      ensures Valid() && (st, rc) == KernelSpec.KmutexInit(old(st))
    {
      hide Valid;
      var err, id := TakeMutexId(-1);
      if err != 0 {
        return -1;
      }
      assert id in old(st).mutexPool;
      SetMutexAt(id, Mutex(true, 0, NULL));
      ResetQueue(MutexQ(id));
      return id;
    }

    /** `free` on a table entry clears it. */
    method KmutexDestroy(id: int) returns (rc: int)
      requires Valid() && Shape(st)
      modifies Repr()
      ensures Valid() && (st, rc) == KernelSpec.KmutexDestroy(old(st), id)
    {
      hide Valid;
      if !InRange(id, MUTEX_MAX) {
        return -1;
      }
      if MutexAt(id).locks > 0 {
        return -1;
      }
      var err := FreeMutexId(id);
      if err != 0 {
        return -1;
      }
      SetMutexAt(id, CLEAR_MUTEX);
      ResetQueue(MutexQ(id));
      return 0;
    }

    method KmutexLock(id: int) returns (rc: int)
      requires Valid() && Shape(st)
      modifies Repr()
      ensures Valid() && (st, rc) == KernelSpec.KmutexLock(old(st), id)
    {
      hide Valid;
      if !InRange(id, MUTEX_MAX) {
        return -1;
      }
      if MutexAt(id).owner != NULL {
        if ActiveProc() == NULL {
          return -1;
        }
        var err := BlockActive(MutexQ(id));
        if err != 0 {
          return -1;
        }
      } else {
        SetMutexAt(id, MutexAt(id).(owner := ActiveProc()));
      }
      SetMutexAt(id, MutexAt(id).(locks := MutexAt(id).locks + 1));
      assert st.mutexes == old(st).mutexes[id := st.mutexes[id]];
      return MutexAt(id).locks;
    }

    method KmutexUnlock(id: int) returns (rc: int)
      requires Valid() && Shape(st)
      modifies Repr()
      ensures Valid() && (st, rc) == KernelSpec.KmutexUnlock(old(st), id)
    {
      hide Valid, KernelSpec.SchedulerAdd;
      if !InRange(id, MUTEX_MAX) {
        return -1;
      }
      if MutexAt(id).owner == NULL {
        return 0;
      }
      SetMutexAt(id, MutexAt(id).(locks := MutexAt(id).locks - 1));
      if MutexAt(id).locks == 0 {
        SetMutexAt(id, MutexAt(id).(owner := NULL));
        assert st.mutexes == old(st).mutexes[id := st.mutexes[id]];
        return 0;
      }
      rc := HandOff(id);
    }

    /** The mutex passes to the longest waiting process. */
    method HandOff(id: int) returns (rc: int)
      requires Valid() && Shape(st) && InRange(id, MUTEX_MAX)
      modifies Repr()
      ensures Valid()
      ensures var k := MutexQ(id);
              var s := old(st);
              if s.queues[k] == [] then rc == -1 && st == s
              else
                var proc := KernelSpec.PidToProc(s, s.queues[k][0]);
                rc == s.mutexes[id].locks &&
                st == SetMutex(KernelSpec.SchedulerAdd(DropHead(s, k), proc), id, s.mutexes[id].(owner := proc))
    {
      hide Valid, KernelSpec.SchedulerAdd;
      var err, proc := WakeFirst(MutexQ(id));
      if err != 0 {
        return -1;
      }
      SetMutexAt(id, MutexAt(id).(owner := proc));
      return MutexAt(id).locks;
    }

    // ---- src/ksem.c ----

    method KsemInit(value: int) returns (rc: int)
      requires Valid() && Shape(st)
      modifies Repr()
      ensures Valid() && (st, rc) == KernelSpec.KsemInit(old(st), value)
    {
      hide Valid;
      var err, id := TakeSemId(-1);
      if err != 0 {
        return -1;
      }
      assert id in old(st).semPool;
      SetSemAt(id, Semaphore(true, value));
      ResetQueue(SemQ(id));
      return id;
    }

    method KsemDestroy(id: int) returns (rc: int)
      requires Valid() && Shape(st)
      modifies Repr()
      ensures Valid() && (st, rc) == KernelSpec.KsemDestroy(old(st), id)
    {
      hide Valid;
      if !InRange(id, SEM_MAX) {
        return -1;
      }
      if !SemAt(id).inUse {
        return -1;
      }
      if SemAt(id).count == 0 {
        return -1;
      }
      var err := FreeSemId(id);
      if err != 0 {
        return -1;
      }
      SetSemAt(id, CLEAR_SEM);
      ResetQueue(SemQ(id));
      return 0;
    }

    method KsemWait(id: int) returns (rc: int)
      requires Valid() && Shape(st)
      modifies Repr()
      ensures Valid() && (st, rc) == KernelSpec.KsemWait(old(st), id)
    {
      hide Valid;
      if !InRange(id, SEM_MAX) {
        return -1;
      }
      if !SemAt(id).inUse {
        return -1;
      }
      if SemAt(id).count == 0 {
        if ActiveProc() == NULL {
          return -1;
        }
        var err := BlockActive(SemQ(id));
        return err;
      }
      if SemAt(id).count > 0 {
        SetSemAt(id, SemAt(id).(count := SemAt(id).count - 1));
        return SemAt(id).count;
      }
      return -1;
    }

    method KsemPost(id: int) returns (rc: int)
      requires Valid() && Shape(st)
      modifies Repr()
      ensures Valid() && (st, rc) == KernelSpec.KsemPost(old(st), id)
    {
      hide Valid, KernelSpec.SchedulerAdd;
      if !InRange(id, SEM_MAX) {
        Stray();
        return -1;
      }
      if !SemAt(id).inUse {
        return -1;
      }
      SetSemAt(id, SemAt(id).(count := SemAt(id).count + 1));
      if Size(SemQ(id)) != 0 {
        var _, proc := WakeFirst(SemQ(id));
        SetSemAt(id, SemAt(id).(count := SemAt(id).count - 1));
        return SemAt(id).count;
      }
      return -1;
    }

    // ---- src/ksyscall.c, src/keyboard.c and src/kernel.c: one kernel entry ----

    /** The handler of the interrupt: the timer, a key combination, or the system call dispatcher. */
    method Handle(e: Event)
      requires Valid() && Shape(st)
      modifies Repr()
      ensures Valid() && st == KernelSpec.Handle(old(st), e)
    {
      hide Valid;
      if IsSyscall(e) && ActiveProc() == NULL {
        Kpanic();
        return;
      }
      var rc := 0;
      match e
      case Tick => SchedulerTimer();
      case CtrlN => rc := KprocCreate();
      case CtrlQ => rc := KprocDestroy(ActiveProc());
      case OtherEntry =>
      case ProcSleep(seconds) => if seconds >= 0 { SchedulerSleep(ActiveProc(), seconds * TICKS_PER_SECOND); }
      case ProcExit => rc := KprocDestroy(ActiveProc());
      case MutexInit => rc := KmutexInit();
      case MutexDestroy(id) => rc := KmutexDestroy(id);
      case MutexLock(id) => rc := KmutexLock(id);
      case MutexUnlock(id) => rc := KmutexUnlock(id);
      case SemInit(value) => if InRange(value, SEM_MAX + 1) { rc := KsemInit(value); }
      case SemDestroy(id) => rc := KsemDestroy(id);
      case SemWait(id) => rc := KsemWait(id);
      case SemPost(id) => if InRange(id, SEM_MAX + 1) { rc := KsemPost(id); }
    }

    method ContextEnter(e: Event)
      requires Valid() && Shape(st)
      modifies Repr()
      ensures Valid() && st == Step(old(st), e)
    {
      hide Valid;
      Handle(e);
      SchedulerRun();
    }

    // ---- boot: src/scheduler.c, src/kproc.c, src/kmutex.c and src/ksem.c initialisation ----

    method KprocInit()
      requires Valid() && st.queues == KernelSpec.Blank().queues && st.active == NULL && !st.panicked && !st.strayed
      requires st.mutexes == KernelSpec.Blank().mutexes && st.sems == KernelSpec.Blank().sems
      requires st.mutexPool == [] && st.semPool == []
      modifies Repr()
      ensures Valid() && st == KernelSpec.CreateMany(Unpooled(), KernelSpec.BOOT_PROCESSES)
    {
      hide QueuesMatch, KernelSpec.CreateMany;
      ResetEntries();
      FillEntries();
      ClearTable();
      CreateProcesses();
    }

    method FillEntries()
      requires Valid() && st.freeEntries == []
      modifies Repr()
      ensures Valid() && st == old(st).(freeEntries := KernelSpec.Blank().freeEntries)
    {
      hide QueuesMatch;
      for i := 0 to PROC_MAX
        invariant Valid() && st == old(st).(freeEntries := seq(i, j => j))
      {
        var rc := FreeEntry(i);
      }
    }

    method ClearTable()
      requires Valid()
      modifies Repr()
      ensures Valid() && st == old(st).(procs := KernelSpec.Blank().procs)
    {
      hide QueuesMatch;
      for i := 0 to PROC_MAX
        invariant Valid() && st == old(st).(procs := st.procs)
        invariant forall j :: 0 <= j < i ==> st.procs[j] == FREE_PCB
      {
        SetProcAt(i, FREE_PCB);
      }
      assert st.procs == KernelSpec.Blank().procs;
    }

    method ResetEntries()
      requires Valid()
      modifies Repr()
      ensures Valid() && st == old(st).(nextPid := 0, freeEntries := [])
    {
      nextPid := 0;
      procAllocator.Init();
      st := st.(nextPid := 0, freeEntries := []);
    }

    /** The idle process, then the shells, ping and pong processes. */
    method CreateProcesses()
      requires Valid() && Shape(st)
      modifies Repr()
      ensures Valid() && st == KernelSpec.CreateMany(old(st), KernelSpec.BOOT_PROCESSES)
    {
      hide QueuesMatch, KernelSpec.KprocCreate;
      for n := 0 to KernelSpec.BOOT_PROCESSES
        invariant Valid() && Shape(st)
        invariant KernelSpec.CreateMany(st, KernelSpec.BOOT_PROCESSES - n)
                  == KernelSpec.CreateMany(old(st), KernelSpec.BOOT_PROCESSES)
      {
        var rc := KprocCreate();
      }
    }

    method KmutexesInit()
      requires Valid()
      modifies Repr()
      ensures Valid()
      ensures st == old(st).(mutexes := KernelSpec.Blank().mutexes, mutexPool := KernelSpec.Blank().mutexPool,
                             queues := st.queues)
      ensures forall k :: 0 <= k < PID_QUEUES ==>
                st.queues[k] == if MutexQ(0) <= k < MutexQ(MUTEX_MAX) then [] else old(st).queues[k]
    {
      hide QueuesMatch;
      ghost var was := st;
      for i := 0 to MUTEX_MAX
        invariant Valid() && st == was.(mutexes := st.mutexes, queues := st.queues)
        invariant forall j :: 0 <= j < i ==> st.mutexes[j] == CLEAR_MUTEX
        invariant forall k :: 0 <= k < PID_QUEUES ==>
                    st.queues[k] == if MutexQ(0) <= k < MutexQ(i) then [] else was.queues[k]
      {
        SetMutexAt(i, CLEAR_MUTEX);
        ResetQueue(MutexQ(i));
      }
      assert st.mutexes == KernelSpec.Blank().mutexes;
      FillMutexPool();
    }

    method FillMutexPool()
      requires Valid()
      modifies Repr()
      ensures Valid() && st == old(st).(mutexPool := KernelSpec.Blank().mutexPool)
    {
      hide QueuesMatch;
      ClearMutexPool();
      for i := 0 to MUTEX_MAX
        invariant Valid() && st == old(st).(mutexPool := seq(i, j => j))
      {
        var rc := FreeMutexId(i);
      }
    }

    method ClearMutexPool()
      requires Valid()
      modifies Repr()
      ensures Valid() && st == old(st).(mutexPool := [])
    {
      mutexQueue.Init();
      st := st.(mutexPool := []);
    }

    method KsemaphoresInit()
      requires Valid()
      modifies Repr()
      ensures Valid()
      ensures st == old(st).(sems := KernelSpec.Blank().sems, semPool := KernelSpec.Blank().semPool,
                             queues := st.queues)
      ensures forall k :: 0 <= k < PID_QUEUES ==>
                st.queues[k] == if SemQ(0) <= k < SemQ(SEM_MAX) then [] else old(st).queues[k]
    {
      hide QueuesMatch;
      ghost var was := st;
      for i := 0 to SEM_MAX
        invariant Valid() && st == was.(sems := st.sems, queues := st.queues)
        invariant forall j :: 0 <= j < i ==> st.sems[j] == CLEAR_SEM
        invariant forall k :: 0 <= k < PID_QUEUES ==>
                    st.queues[k] == if SemQ(0) <= k < SemQ(i) then [] else was.queues[k]
      {
        SetSemAt(i, CLEAR_SEM);
        ResetQueue(SemQ(i));
      }
      assert st.sems == KernelSpec.Blank().sems;
      FillSemPool();
    }

    method FillSemPool()
      requires Valid()
      modifies Repr()
      ensures Valid() && st == old(st).(semPool := KernelSpec.Blank().semPool)
    {
      hide QueuesMatch;
      ClearSemPool();
      for i := 0 to SEM_MAX
        invariant Valid() && st == old(st).(semPool := seq(i, j => j))
      {
        var rc := FreeSemId(i);
      }
    }

    method ClearSemPool()
      requires Valid()
      modifies Repr()
      ensures Valid() && st == old(st).(semPool := [])
    {
      semQueue.Init();
      st := st.(semPool := []);
    }

    /** The order of src/main.c. */
    method Boot()
      requires Valid() && st == Zeroed()
      modifies Repr()
      ensures Valid() && st == KernelSpec.Boot()
    {
      hide QueuesMatch, KernelSpec.CreateMany;
      InitScheduler();
      KprocInit();
      ghost var created := st;
      KmutexesInit();
      KsemaphoresInit();
      BootAssembled(created, st);
    }

    method InitScheduler()
      requires Valid() && st == Zeroed()
      modifies Repr()
      ensures Valid() && st == old(st).(queues := KernelSpec.Blank().queues)
      ensures st.mutexes == KernelSpec.Blank().mutexes && st.sems == KernelSpec.Blank().sems
    {
      hide QueuesMatch;
      ResetQueue(RUN);
      ResetQueue(SLEEP);
      assert st.queues == KernelSpec.Blank().queues;
    }
  }

  function WithoutPools(s: Kernel): Kernel { s.(mutexPool := [], semPool := []) }

  function Unpooled(): (s: Kernel)
    ensures Shape(s)
  {
    WithoutPools(KernelSpec.Blank())
  }

  /** Creating processes does not depend on the id pools, which are filled later. */
  lemma {:induction false} CreateManyUnpooled(s: Kernel, n: nat)
    requires Shape(s)
    ensures Shape(WithoutPools(s))
    ensures KernelSpec.CreateMany(WithoutPools(s), n) == WithoutPools(KernelSpec.CreateMany(s, n))
    decreases n
  {
    if n > 0 {
      CreateUnpooled(s);
      hide KernelSpec.KprocCreate, Shape;
      CreateManyUnpooled(KernelSpec.KprocCreate(s).0, n - 1);
    }
  }

  lemma CreateUnpooled(s: Kernel)
    requires Shape(s)
    ensures Shape(WithoutPools(s))
    ensures KernelSpec.KprocCreate(WithoutPools(s)).0 == WithoutPools(KernelSpec.KprocCreate(s).0)
  {
  }

  ghost predicate SameLocks(s: Kernel, t: Kernel)
    requires |s.queues| == PID_QUEUES && |t.queues| == PID_QUEUES
  {
    && t.mutexes == s.mutexes && t.mutexPool == s.mutexPool && t.sems == s.sems && t.semPool == s.semPool
    && forall k :: 0 < k < PID_QUEUES ==> t.queues[k] == s.queues[k]
  }

  lemma {:induction false} CreateManyFrame(s: Kernel, n: nat)
    requires Shape(s)
    ensures SameLocks(s, KernelSpec.CreateMany(s, n))
    decreases n
  {
    if n > 0 {
      assert SameLocks(s, KernelSpec.KprocCreate(s).0);
      hide KernelSpec.KprocCreate, Shape;
      CreateManyFrame(KernelSpec.KprocCreate(s).0, n - 1);
    }
  }

  /** The init routines together leave the boot state. */
  lemma BootAssembled(created: Kernel, t: Kernel)
    requires created == KernelSpec.CreateMany(Unpooled(), KernelSpec.BOOT_PROCESSES)
    requires |t.queues| == PID_QUEUES && |created.queues| == PID_QUEUES
    requires t == created.(mutexes := KernelSpec.Blank().mutexes, mutexPool := KernelSpec.Blank().mutexPool,
                           sems := KernelSpec.Blank().sems, semPool := KernelSpec.Blank().semPool, queues := t.queues)
    requires forall k :: 0 <= k < PID_QUEUES ==> t.queues[k] == if k < 2 then created.queues[k] else []
    ensures t == KernelSpec.Boot()
  {
    hide KernelSpec.CreateMany;
    CreateManyUnpooled(KernelSpec.Blank(), KernelSpec.BOOT_PROCESSES);
    CreateManyFrame(KernelSpec.Blank(), KernelSpec.BOOT_PROCESSES);
    assert t.queues == KernelSpec.Boot().queues;
  }
}
