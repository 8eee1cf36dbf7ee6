/** Runs: any sequence of kernel entries that the processes and devices can produce. */
module Runs {
  import opened Types
  import opened KernelSpec
  import opened Placement
  import opened Invariant

  ghost predicate Legal(s: Kernel, es: seq<Event>)
    requires Shape(s)
    decreases |es|
  {
    es == [] || (Enabled(s, es[0]) && Guard(s, es[0]) && Legal(Step(s, es[0]), es[1..]))
  }

  ghost function Run(s: Kernel, es: seq<Event>): (t: Kernel)
    requires Shape(s) && Legal(s, es)
    ensures Shape(t)
    decreases |es|
  {
    if es == [] then s else Run(Step(s, es[0]), es[1..])
  }

  /** The pid running user code, or NULL before the first dispatch. */
  function ActivePid(s: Kernel): int
    requires NULL <= s.active < |s.procs|
  {
    if s.active == NULL then NULL else s.procs[s.active].pid
  }

  function Ticks(es: seq<Event>): nat {
    if es == [] then 0 else (if es[0] == Tick then 1 else 0) + Ticks(es[1..])
  }

  // ---- the invariant over runs, from boot ----

  lemma {:induction false} RunKeepsInv(s: Kernel, es: seq<Event>)
    requires Shape(s) && Inv(s) && Legal(s, es)
    ensures Inv(Run(s, es))
    ensures es != [] ==> Run(s, es).active != NULL
    decreases |es|
  {
    hide Step, Inv;
    if es != [] {
      StepKeeps(s, es[0]);
      RunKeepsInv(Step(s, es[0]), es[1..]);
    }
  }

  lemma {:induction false} RunSplit(s: Kernel, es: seq<Event>, n: nat)
    requires Shape(s) && Legal(s, es) && n <= |es|
    ensures Legal(s, es[..n]) && Legal(Run(s, es[..n]), es[n..])
    ensures Run(s, es) == Run(Run(s, es[..n]), es[n..])
    decreases |es|
  {
    hide Step, Shape;
    if n == 0 {
      assert es[0..] == es;
    } else {
      assert es[..n][0] == es[0] && es[..n][1..] == es[1..][..n - 1];
      assert es[1..][n - 1..] == es[n..];
      RunSplit(Step(s, es[0]), es[1..], n - 1);
    }
  }

  lemma {:induction false} RunAppend(s: Kernel, es: seq<Event>, fs: seq<Event>)
    requires Shape(s) && Legal(s, es) && Legal(Run(s, es), fs)
    ensures Legal(s, es + fs) && Run(s, es + fs) == Run(Run(s, es), fs)
    decreases |es|
  {
    hide Step, Shape;
    if es == [] {
      assert es + fs == fs;
    } else {
      assert (es + fs)[0] == es[0] && (es + fs)[1..] == es[1..] + fs;
      RunAppend(Step(s, es[0]), es[1..], fs);
    }
  }

  lemma IdleValue() returns (s: Kernel)
    ensures s == KprocCreate(Blank()).0
    ensures s == Blank().(procs := Blank().procs[0 := Pcb(0, Idle, 0, 0, 0)], nextPid := 1,
                          freeEntries := Blank().freeEntries[1..])
  {
    s := KprocCreate(Blank()).0;
  }

  lemma IdlePlacedAtBoot(procs: seq<Pcb>, queues: seq<seq<int>>)
    requires |procs| == PROC_MAX && procs[0] == Pcb(0, Idle, 0, 0, 0)
    requires forall i :: 0 < i < PROC_MAX ==> procs[i] == FREE_PCB
    requires |queues| == PID_QUEUES && forall k :: 0 <= k < PID_QUEUES ==> queues[k] == []
    ensures Placed(procs, NULL, queues)
  {
  }

  lemma FreeListAtBoot(procs: seq<Pcb>, free: seq<int>)
    requires |procs| == PROC_MAX && procs[0] == Pcb(0, Idle, 0, 0, 0)
    requires forall i :: 0 < i < PROC_MAX ==> procs[i] == FREE_PCB
    requires |free| == PROC_MAX - 1 && forall i :: 0 <= i < PROC_MAX - 1 ==> free[i] == i + 1
    ensures PidsOk(procs, 1, free)
  {
    forall i | 0 < i < PROC_MAX ensures i in free {
      assert free[i - 1] == i;
    }
  }

  lemma LocksAtBoot(s: Kernel)
    requires Shape(s) && s.mutexes == Blank().mutexes && s.mutexPool == Blank().mutexPool
    requires s.sems == Blank().sems && s.semPool == Blank().semPool && s.queues == Blank().queues
    ensures MutexesOk(s) && SemsOk(s)
  {
    forall i | 0 <= i < MUTEX_MAX ensures i in s.mutexPool {
      assert s.mutexPool[i] == i;
    }
    forall i | 0 <= i < SEM_MAX ensures i in s.semPool {
      assert s.semPool[i] == i;
    }
  }

  lemma IdleCreated()
    ensures Inv(KprocCreate(Blank()).0) && KprocCreate(Blank()).0.active == NULL
  {
    var s := IdleValue();
    IdlePlacedAtBoot(s.procs, s.queues);
    FreeListAtBoot(s.procs, s.freeEntries);
    LocksAtBoot(s);
    hide KprocCreate, Placed, PidsOk, MutexesOk, SemsOk;
  }

  lemma {:induction false} CreateManyKeeps(s: Kernel, n: nat)
    requires Inv(s)
    ensures Inv(CreateMany(s, n)) && CreateMany(s, n).active == s.active
    decreases n
  {
    if n > 0 {
      CreateKeeps(s);
      hide KprocCreate, Inv, Shape;
      CreateManyKeeps(KprocCreate(s).0, n - 1);
    }
  }

  /** The kernel after the idle process and `n` more have been created, and nothing else. */
  ghost predicate Created(s: Kernel, n: int)
    requires Shape(s)
  {
    && 0 <= n < 20 && s.nextPid == n + 1 && s.active == -1 && !s.panicked && !s.strayed
    && (forall i :: 0 <= i < 20 ==> s.procs[i] == if i <= n then Pcb(i, Idle, 0, 0, 0) else Pcb(-1, NoState, -1, -1, 0))
    && |s.freeEntries| == 19 - n && (forall i :: 0 <= i < 19 - n ==> s.freeEntries[i] == n + 1 + i)
    && |s.queues| == 34 && |s.queues[0]| == n && (forall i :: 0 <= i < n ==> s.queues[0][i] == i + 1)
    && (forall k :: 0 < k < 34 ==> s.queues[k] == [])
    && |s.mutexes| == |s.mutexPool| == 16 && |s.sems| == |s.semPool| == 16
    && (forall i :: 0 <= i < 16 ==> s.mutexes[i] == Mutex(false, 0, -1) && s.mutexPool[i] == i)
    && (forall i :: 0 <= i < 16 ==> s.sems[i] == Semaphore(false, 0) && s.semPool[i] == i)
  }

  lemma CreatedNext(s: Kernel, n: int)
    requires Shape(s) && Inv(s) && Created(s, n) && n < 19
    ensures Created(KprocCreate(s).0, n + 1)
  {
    hide Inv, KprocCreate;
    CreateKeeps(s);
  }

  lemma {:induction false} CreateManyCreated(s: Kernel, m: int, n: nat)
    requires Shape(s) && Inv(s) && Created(s, m) && m + n < 20
    ensures Created(CreateMany(s, n), m + n)
    decreases n
  {
    hide Inv, KprocCreate, Created;
    if n > 0 {
      assert m < 19;
      CreatedNext(s, m);
      CreateManyKeeps(s, 1);
      assert CreateMany(KprocCreate(s).0, 0) == KprocCreate(s).0;
      CreateManyCreated(KprocCreate(s).0, m + 1, n - 1);
    }
  }

  lemma BootCreates()
    ensures Shape(KprocCreate(Blank()).0) && Boot() == CreateMany(KprocCreate(Blank()).0, 10)
  {
  }

  lemma IdleState()
    ensures Created(KprocCreate(Blank()).0, 0)
  {
    var s := IdleValue();
    hide KprocCreate;
  }

  /** Boot in full: nobody runs; the idle process has pid 0 and ten more processes, with pids 1 to 10, are ready
      in that order; entries 11 to 19 and all mutex and semaphore ids are free, in ascending order. */
  lemma BootState()
    ensures Shape(Boot()) && Inv(Boot()) && Created(Boot(), 10)
  {
    hide CreateMany, Inv, KprocCreate, Created, Blank, Boot;
    IdleCreated();
    BootCreates();
    IdleState();
    var s := KprocCreate(Blank()).0;
    CreateManyKeeps(s, 10);
    CreateManyCreated(s, 0, 10);
  }

  /** At boot nobody runs, and ten processes are ready to. */
  lemma BootQueues()
    ensures Shape(Boot()) && Inv(Boot()) && Boot().active == NULL
    ensures |Boot().queues[RUN]| == 10
    ensures forall k :: 0 < k < PID_QUEUES ==> Boot().queues[k] == []
  {
    BootState();
    hide Boot, Inv;
  }

  /** Every kernel state reachable from boot satisfies the invariant. */
  lemma BootRunKeepsInv(es: seq<Event>)
    requires Legal(Boot(), es)
    ensures Inv(Boot()) && Inv(Run(Boot(), es))
  {
    IdleCreated();
    CreateManyKeeps(KprocCreate(Blank()).0, BOOT_PROCESSES - 1);
    RunKeepsInv(Boot(), es);
  }
}
