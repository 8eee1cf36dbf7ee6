/** The process table over runs: pids are never reused, and processor time is accounted for. */
module Records {
  import opened Types
  import opened KernelSpec
  import opened Placement
  import opened Invariant
  import opened Runs
  import opened Fairness

  /** Same process, same total run time. */
  ghost predicate SameRecord(p: Pcb, q: Pcb) {
    p.pid == q.pid && p.runTime == q.runTime
  }

  ghost predicate SameRecords(ps: seq<Pcb>, qs: seq<Pcb>) {
    |ps| == |qs| && forall i :: 0 <= i < |ps| ==> SameRecord(ps[i], qs[i])
  }

  lemma RunRecords(h: Kernel)
    requires Shape(h)
    ensures SameRecords(h.procs, SchedulerRun(h).procs)
  {
    hide Preempt, Dispatch;
    PreemptRecords(h);
    DispatchRecords(Preempt(h));
  }

  lemma PreemptRecords(h: Kernel)
    requires Shape(h)
    ensures SameRecords(h.procs, Preempt(h).procs)
  {
  }

  lemma DispatchRecords(h: Kernel)
    requires Shape(h)
    ensures SameRecords(h.procs, Dispatch(h).procs)
  {
  }

  lemma {:induction false} WakeLoopRecords(s: Kernel, i: nat)
    requires Shape(s) && Mid(s)
    ensures SameRecords(s.procs, WakeLoop(s, i).procs)
    decreases |s.queues[SLEEP]| - i
  {
    hide Mid, WakeOne;
    if i < |s.queues[SLEEP]| {
      var _ := WakeOneTurn(s);
      WakeLoopRecords(WakeOne(s), i + 1);
    }
  }

  lemma EffectRecords(s: Kernel, h: Kernel, f: Effect)
    requires Shape(s) && Shape(h) && HasEffect(s, h, f)
    ensures SameRecords(s.procs, h.procs)
  {
  }

  predicate Kills(e: Event) { e.CtrlQ? || e.ProcExit? }

  /** What a kernel entry does to the process table, up to scheduling fields. */
  ghost predicate TableStep(s: Kernel, t: Kernel, e: Event)
    requires Shape(s) && Shape(t)
  {
    if Kills(e) && s.active > 0 then
      t.nextPid == s.nextPid && SameRecords(s.procs[s.active := FREE_PCB], t.procs)
    else if e.CtrlN? && s.freeEntries != [] then
      var n := s.freeEntries[0];
      n in s.freeEntries && !Live(s.procs[n]) && t.nextPid == s.nextPid + 1 &&
      SameRecords(s.procs[n := Pcb(s.nextPid, Idle, 0, 0, 0)], t.procs)
    else if e.Tick? && s.active != NULL then
      t.nextPid == s.nextPid &&
      SameRecords(s.procs[s.active := s.procs[s.active].(runTime := s.procs[s.active].runTime + 1)], t.procs)
    else
      t.nextPid == s.nextPid && SameRecords(s.procs, t.procs)
  }

  lemma StepTable(s: Kernel, e: Event)
    requires Shape(s) && Inv(s) && Enabled(s, e) && Guard(s, e)
    ensures TableStep(s, Step(s, e), e)
  {
    hide Inv, Mid, SchedulerRun, Handle;
    HandleTable(s, e);
    RunRecords(Handle(s, e));
    RunFrame(Handle(s, e));
  }

  lemma HandleTable(s: Kernel, e: Event)
    requires Shape(s) && Inv(s) && Enabled(s, e) && Guard(s, e)
    ensures TableStep(s, Handle(s, e), e)
  {
    hide Inv, Mid, KprocCreate, KprocDestroy, SchedulerSleep, WakeLoop;
    if ProcessEvent(e) {
      match e
      case Tick =>
        TimerKeeps(s);
        WakeLoopRecords(ChargeActive(s), 0);
        WakeLoopNextPid(ChargeActive(s), 0);
      case CtrlN => CreateKeeps(s);
      case CtrlQ => DestroyKeeps(s);
      case OtherEntry =>
      case ProcSleep(seconds) => if seconds >= 0 { SleepKeeps(s, seconds * TICKS_PER_SECOND); }
      case ProcExit => DestroyKeeps(s);
    } else {
      var f := LockEffect(s, e);
      EffectRecords(s, Handle(s, e), f);
      LockNextPid(s, e);
    }
  }

  lemma {:induction false} WakeLoopNextPid(s: Kernel, i: nat)
    requires Shape(s)
    ensures WakeLoop(s, i).nextPid == s.nextPid
    decreases |s.queues[SLEEP]| - i
  {
    hide WakeOne;
    if i < |s.queues[SLEEP]| {
      WakeOneNextPid(s);
      WakeLoopNextPid(WakeOne(s), i + 1);
    }
  }

  lemma WakeOneNextPid(s: Kernel)
    requires Shape(s) && s.queues[SLEEP] != []
    ensures WakeOne(s).nextPid == s.nextPid
  {
  }

  lemma LockNextPid(s: Kernel, e: Event)
    requires Shape(s) && !ProcessEvent(e)
    ensures Handle(s, e).nextPid == s.nextPid
  {
    hide KmutexInit, KmutexDestroy, KmutexLock, KmutexUnlock, KsemInit, KsemDestroy, KsemWait, KsemPost;
  }

  // ---- processor time ----

  function Charge(p: Pcb): int { if Live(p) then p.runTime else 0 }

  /** Total run time of the live processes. */
  function TotalRun(ps: seq<Pcb>): int {
    if ps == [] then 0 else TotalRun(ps[..|ps| - 1]) + Charge(ps[|ps| - 1])
  }

  lemma {:induction false} TotalRunUpdate(ps: seq<Pcb>, i: nat, p: Pcb)
    requires i < |ps|
    ensures TotalRun(ps[i := p]) == TotalRun(ps) - Charge(ps[i]) + Charge(p)
  {
    var n := |ps| - 1;
    if i == n {
      assert ps[i := p][..n] == ps[..n];
    } else {
      TotalRunUpdate(ps[..n], i, p);
      assert ps[i := p][..n] == ps[..n][i := p];
    }
  }

  lemma {:induction false} TotalRunSame(ps: seq<Pcb>, qs: seq<Pcb>)
    requires SameRecords(ps, qs)
    ensures TotalRun(ps) == TotalRun(qs)
  {
    if ps != [] {
      TotalRunSame(ps[..|ps| - 1], qs[..|qs| - 1]);
      assert SameRecord(ps[|ps| - 1], qs[|qs| - 1]);
    }
  }

  /** Run time that a kernel entry removes from the table with the process it destroys. */
  function RetiredBy(s: Kernel, e: Event): int
    requires s.active < |s.procs|
  {
    if Kills(e) && s.active > 0 then s.procs[s.active].runTime else 0
  }

  ghost function Retired(s: Kernel, es: seq<Event>): int
    requires Shape(s) && Legal(s, es)
    decreases |es|
  {
    if es == [] then 0 else RetiredBy(s, es[0]) + Retired(Step(s, es[0]), es[1..])
  }

  lemma StepCharges(s: Kernel, e: Event)
    requires Shape(s) && Inv(s) && s.active != NULL && Enabled(s, e) && Guard(s, e)
    ensures TotalRun(Step(s, e).procs) + RetiredBy(s, e) == TotalRun(s.procs) + (if e == Tick then 1 else 0)
  {
    hide Inv, Step;
    var t := Step(s, e);
    StepTable(s, e);
    ActiveLive(s);
    if Kills(e) && s.active > 0 {
      TotalRunSame(s.procs[s.active := FREE_PCB], t.procs);
      TotalRunUpdate(s.procs, s.active, FREE_PCB);
    } else if e.CtrlN? && s.freeEntries != [] {
      var n := s.freeEntries[0];
      TotalRunSame(s.procs[n := Pcb(s.nextPid, Idle, 0, 0, 0)], t.procs);
      TotalRunUpdate(s.procs, n, Pcb(s.nextPid, Idle, 0, 0, 0));
    } else if e.Tick? {
      var p := s.procs[s.active];
      TotalRunSame(s.procs[s.active := p.(runTime := p.runTime + 1)], t.procs);
      TotalRunUpdate(s.procs, s.active, p.(runTime := p.runTime + 1));
    } else {
      TotalRunSame(s.procs, t.procs);
    }
  }

  lemma ActiveLive(s: Kernel)
    requires Inv(s) && s.active != NULL
    ensures Live(s.procs[s.active])
  {
  }

  /** Every timer tick since the first dispatch is charged to exactly one process. */
  lemma {:induction false} CpuAccounting(s: Kernel, es: seq<Event>)
    requires Shape(s) && Inv(s) && s.active != NULL && Legal(s, es)
    ensures TotalRun(Run(s, es).procs) + Retired(s, es) == TotalRun(s.procs) + Ticks(es)
    decreases |es|
  {
    hide Inv, Step;
    if es != [] {
      StepCharges(s, es[0]);
      StepKeeps(s, es[0]);
      CpuAccounting(Step(s, es[0]), es[1..]);
    }
  }

  /** Nobody has run yet. */
  ghost predicate NothingCharged(ps: seq<Pcb>) {
    forall i :: 0 <= i < |ps| ==> Charge(ps[i]) == 0
  }

  lemma {:induction false} NothingTotal(ps: seq<Pcb>)
    requires NothingCharged(ps)
    ensures TotalRun(ps) == 0
  {
    if ps != [] {
      NothingTotal(ps[..|ps| - 1]);
    }
  }

  lemma CreateUncharged(s: Kernel)
    requires Inv(s) && NothingCharged(s.procs)
    ensures Inv(KprocCreate(s).0) && NothingCharged(KprocCreate(s).0.procs)
  {
    CreateKeeps(s);
    hide Inv, KprocCreate;
  }

  lemma {:induction false} CreateManyUncharged(s: Kernel, n: nat)
    requires Inv(s) && NothingCharged(s.procs)
    ensures NothingCharged(CreateMany(s, n).procs)
    decreases n
  {
    if n > 0 {
      CreateUncharged(s);
      hide Inv, Shape, KprocCreate, NothingCharged;
      CreateManyUncharged(KprocCreate(s).0, n - 1);
    }
  }

  lemma BootUncharged()
    ensures NothingCharged(Boot().procs)
  {
    IdleCreated();
    var s := IdleValue();
    assert NothingCharged(s.procs);
    BootCreates();
    hide Inv, KprocCreate, CreateMany;
    CreateManyUncharged(s, BOOT_PROCESSES - 1);
  }

  /** The entry with the first dispatch charges nobody, even if it is a tick. */
  lemma FirstEntryUncharged(s: Kernel, e: Event)
    requires Shape(s) && Inv(s) && s.active == NULL && Enabled(s, e) && Guard(s, e) && NothingCharged(s.procs)
    ensures NothingCharged(Step(s, e).procs)
  {
    hide Inv, Step;
    StepTable(s, e);
    var ps := if e.CtrlN? && s.freeEntries != [] then s.procs[s.freeEntries[0] := Pcb(s.nextPid, Idle, 0, 0, 0)]
              else s.procs;
    assert SameRecords(ps, Step(s, e).procs);
    forall i | 0 <= i < PROC_MAX ensures Charge(Step(s, e).procs[i]) == 0 {
      assert SameRecord(ps[i], Step(s, e).procs[i]);
    }
  }

  /** Since boot: run time is the number of ticks after the entry that dispatches the first process. */
  lemma BootAccounting(es: seq<Event>)
    requires Legal(Boot(), es) && es != []
    ensures TotalRun(Run(Boot(), es).procs) + Retired(Boot(), es) == Ticks(es[1..])
  {
    BootQueues();
    BootUncharged();
    hide Inv, Step, Boot;
    var t := Step(Boot(), es[0]);
    FirstEntryUncharged(Boot(), es[0]);
    StepKeeps(Boot(), es[0]);
    NothingTotal(t.procs);
    CpuAccounting(t, es[1..]);
  }

  // ---- pids and entries ----

  /** A pid is never given out twice: a process whose pid was already assigned in `s` is the one that
      held it in `s`, in the same entry; pids assigned since are `s.nextPid` or above. */
  lemma {:induction false} PidsNeverReused(s: Kernel, es: seq<Event>, i: int)
    requires Shape(s) && Inv(s) && Legal(s, es) && 0 <= i < PROC_MAX
    ensures s.nextPid <= Run(s, es).nextPid
    ensures var p := Run(s, es).procs[i]; Live(p) && p.pid < s.nextPid ==> p.pid == s.procs[i].pid
    decreases |es|
  {
    hide Inv, Step;
    if es != [] {
      StepTable(s, es[0]);
      StepKeeps(s, es[0]);
      PidsNeverReused(Step(s, es[0]), es[1..], i);
      assert SameRecord(Step(s, es[0]).procs[i], Step(s, es[0]).procs[i]);
    }
  }

  /** `pid_to_proc` and `proc_to_entry` are inverse to each other on live processes, and
      `pid_to_proc` finds nothing for any other pid. */
  lemma LookupsInverse(s: Kernel, pid: int)
    requires Inv(s)
    ensures forall i :: 0 <= i < PROC_MAX && Live(s.procs[i]) ==>
              PidToProc(s, s.procs[i].pid) == i && ProcToEntry(s, i) == i
    ensures PidToProc(s, pid) != NULL <==> exists i :: 0 <= i < PROC_MAX && Live(s.procs[i]) && s.procs[i].pid == pid
  {
    forall i | 0 <= i < PROC_MAX && Live(s.procs[i])
      ensures PidToProc(s, s.procs[i].pid) == i && ProcToEntry(s, i) == i
    {
      EntryOfLive(s.procs, i);
    }
  }

  /** Table entries are either live or on the free list, never both, and the free list has no duplicates. */
  lemma EntriesPartitioned(s: Kernel)
    requires Inv(s)
    ensures NoDup(s.freeEntries)
    ensures |s.procs| == 20 && forall i :: 0 <= i < 20 ==> (i in s.freeEntries <==> !Live(s.procs[i]))
    ensures |s.freeEntries| + |LiveEntries(s.procs)| == 20
  {
    var free := set x | x in s.freeEntries;
    NoDupExactSize(s.freeEntries);
    assert UpTo(PROC_MAX) == free + LiveEntries(s.procs);
    assert free !! LiveEntries(s.procs);
  }

  /** Mutex and semaphore ids 0..15 are either allocated or in their pool, never both and never twice. */
  lemma IdsPartitioned(s: Kernel)
    requires Inv(s)
    ensures |s.mutexes| == 16 && NoDup(s.mutexPool) && |s.sems| == 16 && NoDup(s.semPool)
    ensures forall id :: id in s.mutexPool <==> 0 <= id < 16 && !s.mutexes[id].inUse
    ensures forall id :: id in s.semPool <==> 0 <= id < 16 && !s.sems[id].inUse
  {
  }

  ghost function LiveEntries(ps: seq<Pcb>): set<int> {
    set i | 0 <= i < |ps| && Live(ps[i])
  }

  lemma {:induction false} NoDupExactSize(q: seq<int>)
    requires NoDup(q)
    ensures |set x | x in q| == |q|
  {
    if q != [] {
      HeadNotInTail(q);
      NoDupExactSize(q[1..]);
      assert (set x | x in q) == {q[0]} + (set x | x in q[1..]) by {
        assert q == [q[0]] + q[1..];
      }
    }
  }
}
