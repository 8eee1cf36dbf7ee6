/** Mutexes over runs: grants follow request order, and critical sections exclude each other. */
module MutexRuns {
  import opened Types
  import opened KernelSpec
  import opened Placement
  import opened Invariant
  import opened Runs
  import opened Fairness
  import opened Records

  function Waiters(s: Kernel, m: int): seq<int>
    requires |s.queues| == PID_QUEUES && InRange(m, MUTEX_MAX)
  {
    s.queues[MutexQ(m)]
  }

  function OwnerPid(s: Kernel, m: int): int
    requires |s.procs| == PROC_MAX && |s.mutexes| == MUTEX_MAX && InRange(m, MUTEX_MAX)
  {
    var o := s.mutexes[m].owner;
    if 0 <= o < PROC_MAX then s.procs[o].pid else NULL
  }

  /** How a kernel entry changes the owner and the waiters of mutex `m`. */
  ghost predicate MutexMove(s: Kernel, t: Kernel, e: Event, m: int)
    requires Shape(s) && Shape(t) && InRange(m, MUTEX_MAX)
  {
    var o, o', q, q' := s.mutexes[m].owner, t.mutexes[m].owner, Waiters(s, m), Waiters(t, m);
    if e == MutexLock(m) && o == NULL then o' == s.active > 0 && q' == q == []
    else if e == MutexLock(m) then s.active > 0 && o' == o && q' == q + [ActivePid(s)]
    else if e == MutexUnlock(m) && o != NULL then
      if q == [] then o' == NULL && q' == []
      else 0 < o' < PROC_MAX && s.procs[o'].pid == q[0] && q' == q[1..]
    else o' == o && q' == q
  }

  lemma {:induction false} WakeLoopQueues(s: Kernel, i: nat)
    requires Shape(s)
    ensures var t := WakeLoop(s, i);
            t.mutexes == s.mutexes && t.sems == s.sems && forall k :: 2 <= k < PID_QUEUES ==> t.queues[k] == s.queues[k]
    decreases |s.queues[SLEEP]| - i
  {
    if i < |s.queues[SLEEP]| {
      WakeOneQueues(s);
      hide WakeOne;
      WakeLoopQueues(WakeOne(s), i + 1);
    }
  }

  lemma WakeOneQueues(s: Kernel)
    requires Shape(s) && s.queues[SLEEP] != []
    ensures var t := WakeOne(s);
            t.mutexes == s.mutexes && t.sems == s.sems && forall k :: 2 <= k < PID_QUEUES ==> t.queues[k] == s.queues[k]
  {
  }

  /** Ticks, keys, sleeping and exiting leave mutexes, semaphores and their queues alone. */
  lemma ProcessQueues(s: Kernel, e: Event)
    requires Shape(s) && Inv(s) && Enabled(s, e) && ProcessEvent(e)
    ensures var h := Handle(s, e);
            h.mutexes == s.mutexes && h.sems == s.sems && forall k :: 2 <= k < PID_QUEUES ==> h.queues[k] == s.queues[k]
  {
    hide Inv, Mid, KprocCreate, KprocDestroy, SchedulerSleep, WakeLoop;
    match e
    case Tick => WakeLoopQueues(ChargeActive(s), 0);
    case CtrlN => CreateKeeps(s);
    case CtrlQ => DestroyKeeps(s);
    case OtherEntry =>
    case ProcSleep(seconds) => if seconds >= 0 { SleepKeeps(s, seconds * TICKS_PER_SECOND); }
    case ProcExit => DestroyKeeps(s);
  }

  /** Calls that name no table entry are refused. */
  lemma OutOfRangeRefused(s: Kernel, e: Event)
    requires Shape(s) && s.active != NULL
    requires match e
             case MutexDestroy(id) => !InRange(id, MUTEX_MAX)
             case MutexLock(id) => !InRange(id, MUTEX_MAX)
             case MutexUnlock(id) => !InRange(id, MUTEX_MAX)
             case SemDestroy(id) => !InRange(id, SEM_MAX)
             case SemWait(id) => !InRange(id, SEM_MAX)
             case SemPost(id) => !InRange(id, SEM_MAX + 1)
             case _ => false
    ensures Handle(s, e) == s
  {
  }

  /** Semaphore calls leave mutexes and their queues alone. */
  lemma SemCallSparesMutexes(s: Kernel, e: Event)
    requires Shape(s) && Inv(s) && Enabled(s, e) && Guard(s, e)
    requires e.SemInit? || e.SemDestroy? || e.SemWait? || e.SemPost?
    ensures var h := Handle(s, e);
            h.mutexes == s.mutexes && forall m :: 0 <= m < MUTEX_MAX ==> Waiters(h, m) == Waiters(s, m)
  {
    hide Inv, Mid, KsemInit, KsemDestroy, KsemWait, KsemPost, SchedulerAdd;
    match e
    case SemInit(value) => if InRange(value, SEM_MAX + 1) { SemInitKeeps(s, value); }
    case SemDestroy(id) => if InRange(id, SEM_MAX) { SemDestroyKeeps(s, id); } else { OutOfRangeRefused(s, e); }
    case SemWait(id) => if InRange(id, SEM_MAX) { WaitKeeps(s, id); } else { OutOfRangeRefused(s, e); }
    case SemPost(id) =>
      if InRange(id, SEM_MAX) {
        PostKeeps(s, id);
        if s.queues[SemQ(id)] != [] { HandoffForm(s, SemQ(id)); }
      }
  }

  lemma MutexState(s: Kernel, m: int)
    requires Shape(s) && Inv(s) && InRange(m, MUTEX_MAX)
    ensures NULL <= s.mutexes[m].owner < PROC_MAX
    ensures s.mutexes[m].locks == |Waiters(s, m)| + (if s.mutexes[m].owner == NULL then 0 else 1)
    ensures s.mutexes[m].owner == NULL ==> Waiters(s, m) == []
    ensures !s.mutexes[m].inUse ==> s.mutexes[m].owner == NULL
  {
    assert MutexOk(s.mutexes[m], s.queues[MutexQ(m)]);
  }

  lemma UnlockMove(s: Kernel, id: int, m: int)
    requires Shape(s) && Inv(s) && InRange(id, MUTEX_MAX) && InRange(m, MUTEX_MAX)
    ensures MutexMove(s, KmutexUnlock(s, id).0, MutexUnlock(id), m)
  {
    hide Inv, KmutexUnlock, SchedulerAdd;
    UnlockKeeps(s, id);
    MutexState(s, id);
    if s.mutexes[id].owner != NULL && s.queues[MutexQ(id)] != [] {
      HandoffForm(s, MutexQ(id));
    }
  }

  lemma LockMove(s: Kernel, id: int, m: int)
    requires Shape(s) && Inv(s) && s.active > 0 && InRange(id, MUTEX_MAX) && InRange(m, MUTEX_MAX)
    requires s.mutexes[id].inUse
    ensures MutexMove(s, KmutexLock(s, id).0, MutexLock(id), m)
  {
    hide Inv, KmutexLock;
    LockKeeps(s, id);
    MutexState(s, id);
  }

  lemma InitMove(s: Kernel, m: int)
    requires Shape(s) && Inv(s) && InRange(m, MUTEX_MAX)
    ensures MutexMove(s, KmutexInit(s).0, MutexInit, m)
  {
    hide Inv, KmutexInit;
    MutexInitKeeps(s);
    MutexState(s, m);
  }

  lemma DestroyMove(s: Kernel, id: int, m: int)
    requires Shape(s) && Inv(s) && InRange(id, MUTEX_MAX) && InRange(m, MUTEX_MAX) && s.mutexes[id].inUse
    ensures MutexMove(s, KmutexDestroy(s, id).0, MutexDestroy(id), m)
  {
    hide Inv, KmutexDestroy;
    MutexDestroyKeeps(s, id);
    MutexState(s, id);
  }

  lemma RefusedMove(s: Kernel, e: Event, m: int)
    requires Shape(s) && s.active != NULL && InRange(m, MUTEX_MAX)
    requires match e
             case MutexDestroy(id) => !InRange(id, MUTEX_MAX)
             case MutexLock(id) => !InRange(id, MUTEX_MAX)
             case MutexUnlock(id) => !InRange(id, MUTEX_MAX)
             case _ => false
    ensures MutexMove(s, Handle(s, e), e, m)
  {
    hide Handle;
    OutOfRangeRefused(s, e);
  }

  lemma MutexCallMove(s: Kernel, e: Event, m: int)
    requires Shape(s) && Inv(s) && Enabled(s, e) && Guard(s, e) && InRange(m, MUTEX_MAX)
    requires e.MutexInit? || e.MutexDestroy? || e.MutexLock? || e.MutexUnlock?
    ensures MutexMove(s, Handle(s, e), e, m)
  {
    hide Inv, KmutexInit, KmutexDestroy, KmutexLock, KmutexUnlock, MutexMove;
    match e
    case MutexInit => InitMove(s, m);
    case MutexDestroy(id) => if InRange(id, MUTEX_MAX) { DestroyMove(s, id, m); } else { RefusedMove(s, e, m); }
    case MutexLock(id) => if InRange(id, MUTEX_MAX) { LockMove(s, id, m); } else { RefusedMove(s, e, m); }
    case MutexUnlock(id) => if InRange(id, MUTEX_MAX) { UnlockMove(s, id, m); } else { RefusedMove(s, e, m); }
  }

  lemma HandleMutexMove(s: Kernel, e: Event, m: int)
    requires Shape(s) && Inv(s) && Enabled(s, e) && Guard(s, e) && InRange(m, MUTEX_MAX)
    ensures MutexMove(s, Handle(s, e), e, m)
  {
    hide Inv, Handle;
    if ProcessEvent(e) {
      ProcessQueues(s, e);
    } else if e.SemInit? || e.SemDestroy? || e.SemWait? || e.SemPost? {
      SemCallSparesMutexes(s, e);
    } else {
      MutexCallMove(s, e, m);
    }
  }

  lemma StepMutexMove(s: Kernel, e: Event, m: int)
    requires Shape(s) && Inv(s) && Enabled(s, e) && Guard(s, e) && InRange(m, MUTEX_MAX)
    ensures MutexMove(s, Step(s, e), e, m)
  {
    hide Inv, Handle, SchedulerRun;
    HandleMutexMove(s, e, m);
    RunFrame(Handle(s, e));
  }

  // ---- first come, first served ----

  /** The pids that asked for mutex `m`, in order. */
  ghost function Requests(s: Kernel, es: seq<Event>, m: int): seq<int>
    requires Shape(s) && Legal(s, es)
    decreases |es|
  {
    if es == [] then []
    else (if es[0] == MutexLock(m) then [ActivePid(s)] else []) + Requests(Step(s, es[0]), es[1..], m)
  }

  /** The pid that owns `m` after a kernel entry that gave it a new owner. */
  function GrantOf(s: Kernel, t: Kernel, e: Event, m: int): seq<int>
    requires |s.mutexes| == MUTEX_MAX && |t.mutexes| == MUTEX_MAX && |t.procs| == PROC_MAX && InRange(m, MUTEX_MAX)
  {
    if (e == MutexLock(m) && s.mutexes[m].owner == NULL) || (e == MutexUnlock(m) && t.mutexes[m].owner != NULL)
    then [OwnerPid(t, m)] else []
  }

  ghost function Grants(s: Kernel, es: seq<Event>, m: int): seq<int>
    requires Shape(s) && Legal(s, es) && InRange(m, MUTEX_MAX)
    decreases |es|
  {
    if es == [] then []
    else GrantOf(s, Step(s, es[0]), es[0], m) + Grants(Step(s, es[0]), es[1..], m)
  }

  lemma StepGrants(s: Kernel, e: Event, m: int)
    requires Shape(s) && Inv(s) && Enabled(s, e) && Guard(s, e) && InRange(m, MUTEX_MAX)
    ensures var t := Step(s, e);
            Waiters(s, m) + (if e == MutexLock(m) then [ActivePid(s)] else []) == GrantOf(s, t, e, m) + Waiters(t, m)
  {
    hide Inv, Step;
    var t := Step(s, e);
    StepMutexMove(s, e, m);
    StepTable(s, e);
    if e == MutexLock(m) && s.mutexes[m].owner == NULL {
      assert SameRecord(s.procs[s.active], t.procs[s.active]);
    } else if e == MutexUnlock(m) && t.mutexes[m].owner != NULL {
      var o := t.mutexes[m].owner;
      assert SameRecord(s.procs[o], t.procs[o]);
      assert Waiters(s, m) == [Waiters(s, m)[0]] + Waiters(s, m)[1..];
    }
  }

  /** FIFO handoff, in every run: those waiting at the start followed by those who asked are,
      in this order, those who were granted the mutex followed by those still waiting. */
  lemma {:induction false} MutexFifo(s: Kernel, es: seq<Event>, m: int)
    requires Shape(s) && Inv(s) && Legal(s, es) && InRange(m, MUTEX_MAX)
    ensures Waiters(s, m) + Requests(s, es, m) == Grants(s, es, m) + Waiters(Run(s, es), m)
    decreases |es|
  {
    hide Inv, Step;
    if es != [] {
      StepKeeps(s, es[0]);
      StepGrants(s, es[0], m);
      MutexFifo(Step(s, es[0]), es[1..], m);
      var t := Step(s, es[0]);
      var req := if es[0] == MutexLock(m) then [ActivePid(s)] else [];
      FifoChain(Waiters(s, m), req, GrantOf(s, t, es[0], m), Waiters(t, m),
                Requests(t, es[1..], m), Grants(t, es[1..], m), Waiters(Run(t, es[1..]), m));
    }
  }

  lemma FifoChain(w: seq<int>, r: seq<int>, g: seq<int>, w1: seq<int>, r1: seq<int>, g1: seq<int>, w2: seq<int>)
    requires w + r == g + w1 && w1 + r1 == g1 + w2
    ensures w + (r + r1) == (g + g1) + w2
  {
    calc {
      w + (r + r1);
      (w + r) + r1;
      (g + w1) + r1;
      g + (w1 + r1);
      g + (g1 + w2);
      (g + g1) + w2;
    }
  }

  // ---- mutual exclusion ----
  // `callers` is what the processes know: who has called lock(m) and has not called unlock(m) since.

  ghost function CallersNext(s: Kernel, e: Event, m: int, callers: set<int>): set<int>
    requires Shape(s)
  {
    if e == MutexLock(m) then callers + {ActivePid(s)}
    else if e == MutexUnlock(m) then callers - {ActivePid(s)}
    else callers
  }

  /** The client discipline for `m`: never lock it twice, unlock it only after locking it,
      and never exit (or be killed) in between. */
  ghost predicate Polite(s: Kernel, e: Event, m: int, callers: set<int>)
    requires Shape(s)
  {
    && (e == MutexLock(m) || Kills(e) ==> ActivePid(s) !in callers)
    && (e == MutexUnlock(m) ==> ActivePid(s) in callers)
  }

  ghost predicate Disciplined(s: Kernel, es: seq<Event>, m: int, callers: set<int>)
    requires Shape(s) && Legal(s, es)
    decreases |es|
  {
    es == [] || (Polite(s, es[0], m, callers) &&
                 Disciplined(Step(s, es[0]), es[1..], m, CallersNext(s, es[0], m, callers)))
  }

  ghost function Callers(s: Kernel, es: seq<Event>, m: int, callers: set<int>): set<int>
    requires Shape(s) && Legal(s, es)
    decreases |es|
  {
    if es == [] then callers else Callers(Step(s, es[0]), es[1..], m, CallersNext(s, es[0], m, callers))
  }

  /** The callers are the owner and the waiters, and the owner does not wait. */
  ghost predicate Holding(s: Kernel, m: int, callers: set<int>)
    requires Shape(s) && InRange(m, MUTEX_MAX)
  {
    var o := s.mutexes[m].owner;
    if o == NULL then callers == {} && Waiters(s, m) == []
    else 0 <= o < PROC_MAX && Live(s.procs[o]) && s.procs[o].pid !in Waiters(s, m) &&
         forall x :: x in callers <==> x == s.procs[o].pid || x in Waiters(s, m)
  }

  lemma StepHolding(s: Kernel, e: Event, m: int, callers: set<int>)
    requires Shape(s) && Inv(s) && Enabled(s, e) && Guard(s, e) && InRange(m, MUTEX_MAX)
    requires Holding(s, m, callers) && Polite(s, e, m, callers)
    ensures Holding(Step(s, e), m, CallersNext(s, e, m, callers))
  {
    hide Inv, Step;
    StepMutexMove(s, e, m);
    StepTable(s, e);
    var o := s.mutexes[m].owner;
    if e == MutexLock(m) {
      ActiveNotWaiting(s, m);
      assert SameRecord(s.procs[s.active], Step(s, e).procs[s.active]);
    } else if e == MutexUnlock(m) {
      ActiveNotWaiting(s, m);
      if Waiters(s, m) != [] {
        UnlockHolding(s, Step(s, e), m, callers);
      } else {
        forall x | x in callers ensures x == ActivePid(s) {
          assert x == s.procs[o].pid;
        }
      }
    } else if o != NULL {
      OwnerSurvives(s, Step(s, e), e, m, callers);
    }
  }

  lemma ActiveNotWaiting(s: Kernel, m: int)
    requires Shape(s) && Inv(s) && s.active != NULL && InRange(m, MUTEX_MAX)
    ensures Live(s.procs[s.active]) && ActivePid(s) !in Waiters(s, m) && NoDup(Waiters(s, m))
    ensures forall x :: x in Waiters(s, m) ==> x >= 0
    ensures forall i :: 0 <= i < PROC_MAX && s.procs[i].pid == ActivePid(s) ==> i == s.active
  {
    ActiveUnqueued(s.procs, s.active, s.queues, MutexQ(m));
    forall x | x in Waiters(s, m) ensures x >= 0 {
      assert Queued(s.procs, x, MutexQ(m));
    }
  }

  lemma UnlockHolding(s: Kernel, t: Kernel, m: int, callers: set<int>)
    requires Shape(s) && Shape(t) && InRange(m, MUTEX_MAX) && s.active != NULL
    requires Holding(s, m, callers) && ActivePid(s) in callers && ActivePid(s) !in Waiters(s, m)
    requires NoDup(Waiters(s, m)) && Waiters(s, m) != [] && forall x :: x in Waiters(s, m) ==> x >= 0
    requires MutexMove(s, t, MutexUnlock(m), m) && SameRecords(s.procs, t.procs)
    ensures Holding(t, m, callers - {ActivePid(s)})
  {
    var q := Waiters(s, m);
    var o := t.mutexes[m].owner;
    HeadNotInTail(q);
    assert SameRecord(s.procs[o], t.procs[o]);
    var h := q[0];
    assert h in q && h >= 0;
    assert q == [h] + q[1..];
  }

  /** A live process that the entry does not destroy keeps its table entry. */
  lemma RecordSurvives(s: Kernel, t: Kernel, e: Event, o: int)
    requires Shape(s) && Shape(t) && TableStep(s, t, e) && 0 <= o < PROC_MAX && Live(s.procs[o])
    requires !(Kills(e) && s.active > 0 && o == s.active)
    ensures t.procs[o].pid == s.procs[o].pid
  {
    if Kills(e) && s.active > 0 {
      assert SameRecord(s.procs[s.active := FREE_PCB][o], t.procs[o]);
    } else if e.CtrlN? && s.freeEntries != [] {
      assert SameRecord(s.procs[s.freeEntries[0] := Pcb(s.nextPid, Idle, 0, 0, 0)][o], t.procs[o]);
    } else if e.Tick? && s.active != NULL {
      var p := s.procs[s.active];
      assert SameRecord(s.procs[s.active := p.(runTime := p.runTime + 1)][o], t.procs[o]);
    } else {
      assert SameRecord(s.procs[o], t.procs[o]);
    }
  }

  lemma OwnerSurvives(s: Kernel, t: Kernel, e: Event, m: int, callers: set<int>)
    requires Shape(s) && Shape(t) && InRange(m, MUTEX_MAX) && s.mutexes[m].owner != NULL
    requires Holding(s, m, callers) && Polite(s, e, m, callers)
    requires MutexMove(s, t, e, m) && TableStep(s, t, e) && e != MutexLock(m) && e != MutexUnlock(m)
    ensures Holding(t, m, callers)
  {
    RecordSurvives(s, t, e, s.mutexes[m].owner);
  }

  /** Mutual exclusion, in every run whose processes follow the discipline for `m`: if the process that
      runs user code is between its lock call and its unlock call, it is the owner, and every other process
      that is between its own two calls is blocked in the wait queue. So a blocked caller is not
      dispatched before it owns the mutex, and no two processes are in the critical section. */
  lemma {:induction false} MutualExclusion(s: Kernel, es: seq<Event>, m: int, callers: set<int>)
    requires Shape(s) && Inv(s) && Legal(s, es) && InRange(m, MUTEX_MAX)
    requires Holding(s, m, callers) && Disciplined(s, es, m, callers)
    ensures var t := Run(s, es);
            var inside := Callers(s, es, m, callers);
            Holding(t, m, inside) &&
            (t.active != NULL && ActivePid(t) in inside ==>
               t.mutexes[m].owner == t.active &&
               forall x :: x in inside && x != ActivePid(t) ==>
                 x in Waiters(t, m) && PidToProc(t, x) != NULL && t.procs[PidToProc(t, x)].state == Waiting)
    decreases |es|
  {
    hide Inv, Step;
    if es == [] {
      if s.active != NULL && ActivePid(s) in callers {
        InsideIsOwner(s, m, callers);
      }
    } else {
      StepKeeps(s, es[0]);
      StepHolding(s, es[0], m, callers);
      MutualExclusion(Step(s, es[0]), es[1..], m, CallersNext(s, es[0], m, callers));
    }
  }

  lemma InsideIsOwner(s: Kernel, m: int, callers: set<int>)
    requires Shape(s) && Inv(s) && InRange(m, MUTEX_MAX) && Holding(s, m, callers)
    requires s.active != NULL && ActivePid(s) in callers
    ensures s.mutexes[m].owner == s.active
    ensures forall x :: x in callers && x != ActivePid(s) ==>
              x in Waiters(s, m) && PidToProc(s, x) != NULL && s.procs[PidToProc(s, x)].state == Waiting
  {
    ActiveNotWaiting(s, m);
    forall x | x in Waiters(s, m) ensures PidToProc(s, x) != NULL && s.procs[PidToProc(s, x)].state == Waiting {
      assert Queued(s.procs, x, MutexQ(m));
    }
  }

  /** A mutex just handed out by `mutex_init` starts with no owner, no waiters and no callers. */
  lemma FreshMutexHolding(s: Kernel)
    requires Shape(s) && Inv(s) && Enabled(s, MutexInit) && s.mutexPool != []
    ensures var t, m := Step(s, MutexInit), s.mutexPool[0];
            InRange(m, MUTEX_MAX) && KmutexInit(s).1 == m && t.mutexes[m] == Mutex(true, 0, NULL) &&
            Waiters(t, m) == [] && Holding(t, m, {})
  {
    hide Inv, SchedulerRun;
    MutexInitKeeps(s);
    MutexState(s, s.mutexPool[0]);
    RunFrame(Handle(s, MutexInit));
  }

  /** Since a mutex was initialised: those who have asked for it are, in order, those who have been
      granted it, followed by those waiting. */
  lemma FifoSinceInit(s: Kernel, es: seq<Event>)
    requires Shape(s) && Inv(s) && Enabled(s, MutexInit) && s.mutexPool != []
    requires Legal(Step(s, MutexInit), es)
    ensures var t, m := Step(s, MutexInit), s.mutexPool[0];
            InRange(m, MUTEX_MAX) && Requests(t, es, m) == Grants(t, es, m) + Waiters(Run(t, es), m)
  {
    hide Inv, Step;
    FreshMutexHolding(s);
    StepKeeps(s, MutexInit);
    var t, m := Step(s, MutexInit), s.mutexPool[0];
    MutexFifo(t, es, m);
    assert [] + Requests(t, es, m) == Requests(t, es, m);
  }

  // ---- what the calls report ----

  /** `kmutex_lock` reports how many processes own or want the mutex, its caller included. */
  lemma LockReturns(s: Kernel, id: int)
    requires Shape(s) && Inv(s) && s.active > 0 && (InRange(id, MUTEX_MAX) ==> s.mutexes[id].inUse)
    ensures var (t, rc) := KmutexLock(s, id);
            rc == if InRange(id, MUTEX_MAX) then 1 + |Waiters(t, id)| else -1
  {
    hide Inv;
    if InRange(id, MUTEX_MAX) {
      MutexState(s, id);
      LockKeeps(s, id);
    }
  }

  /** `kmutex_unlock` reports how many processes own or want the mutex after the call; it never
      fails on an id in range. */
  lemma UnlockReturns(s: Kernel, id: int)
    requires Shape(s) && Inv(s)
    ensures var (t, rc) := KmutexUnlock(s, id);
            rc == if !InRange(id, MUTEX_MAX) then -1
                  else |Waiters(t, id)| + (if t.mutexes[id].owner == NULL then 0 else 1)
  {
    hide Inv;
    if InRange(id, MUTEX_MAX) {
      MutexState(s, id);
      UnlockMove(s, id, id);
    }
  }

  // ---- a dead owner ----

  ghost predicate OwnersLive(s: Kernel)
    requires Shape(s)
  {
    forall m :: 0 <= m < MUTEX_MAX ==>
      s.mutexes[m].owner == NULL || (0 <= s.mutexes[m].owner < PROC_MAX && Live(s.procs[s.mutexes[m].owner]))
  }

  /** The entry destroys a process that owns a mutex. */
  ghost predicate KillsOwner(s: Kernel, e: Event)
    requires Shape(s)
  {
    Kills(e) && s.active > 0 && exists m :: 0 <= m < MUTEX_MAX && s.mutexes[m].owner == s.active
  }

  lemma OwnerLives(s: Kernel, e: Event, m: int)
    requires Shape(s) && Inv(s) && Enabled(s, e) && Guard(s, e) && InRange(m, MUTEX_MAX)
    requires OwnersLive(s) && !(Kills(e) && s.active > 0 && s.mutexes[m].owner == s.active)
    ensures var o := Step(s, e).mutexes[m].owner;
            o == NULL || (0 <= o < PROC_MAX && Live(Step(s, e).procs[o]))
  {
    hide Inv, Step, Guard;
    var t := Step(s, e);
    var o := t.mutexes[m].owner;
    StepMutexMove(s, e, m);
    StepTable(s, e);
    if s.active != NULL {
      ActiveNotWaiting(s, m);
      assert Waiters(s, m) != [] ==> Waiters(s, m)[0] in Waiters(s, m);
    }
    if o != NULL {
      RecordSurvives(s, t, e, o);
    }
  }

  /** `kproc_destroy` does not release mutexes: an entry leaves every owned mutex with a living owner
      exactly if it does not destroy an owner. */
  lemma OwnersLiveIff(s: Kernel, e: Event)
    requires Shape(s) && Inv(s) && Enabled(s, e) && Guard(s, e) && OwnersLive(s)
    ensures OwnersLive(Step(s, e)) <==> !KillsOwner(s, e)
  {
    hide Inv, Step, Guard;
    var t := Step(s, e);
    if KillsOwner(s, e) {
      var m :| 0 <= m < MUTEX_MAX && s.mutexes[m].owner == s.active;
      StepMutexMove(s, e, m);
      StepTable(s, e);
      assert SameRecord(s.procs[s.active := FREE_PCB][s.active], t.procs[s.active]);
    } else {
      forall m | 0 <= m < MUTEX_MAX
        ensures t.mutexes[m].owner == NULL || (0 <= t.mutexes[m].owner < PROC_MAX && Live(t.procs[t.mutexes[m].owner]))
      {
        OwnerLives(s, e, m);
      }
    }
  }
}
