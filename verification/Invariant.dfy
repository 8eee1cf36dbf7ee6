/** The kernel's global invariant and the proof that every kernel entry keeps it exactly
    when mutex calls name allocated mutexes. */
module Invariant {
  import opened Types
  import opened KernelSpec
  import opened Placement

  // ---- scheduler_remove ----

  lemma {:induction false} RemoveAbsentFrom(q: seq<int>, pid: int, i: nat)
    requires pid !in q && i <= |q|
    ensures RemoveLoop(q, pid, i) == q[|q| - i..] + q[..|q| - i]
    decreases |q| - i
  {
    if i < |q| {
      var r := q[1..] + [q[0]];
      RemoveAbsentFrom(r, pid, i + 1);
      var n := |q| - i - 1;
      assert r[|r| - (i + 1)..] == q[n + 1..] + [q[0]] && r[..n] == q[1..n + 1];
    }
  }

  lemma {:induction false} RotateTo(q: seq<int>, pid: int, i: nat, j: nat)
    requires i + j <= |q| && pid !in q[..j]
    ensures RemoveLoop(q, pid, i) == RemoveLoop(q[j..] + q[..j], pid, i + j)
    decreases j
  {
    if j == 0 {
      assert q[j..] + q[..j] == q;
    } else {
      var r := q[1..] + [q[0]];
      assert q[0] == q[..j][0] && r[..j - 1] == q[..j][1..];
      RotateTo(r, pid, i + 1, j - 1);
      assert r[j - 1..] + r[..j - 1] == q[j..] + q[..j];
    }
  }

  /** `scheduler_remove` on the run queue: the identity for an absent process. */
  lemma RemoveAbsent(q: seq<int>, pid: int)
    requires pid !in q
    ensures RemoveLoop(q, pid, 0) == q
  {
    RemoveAbsentFrom(q, pid, 0);
    assert q[|q|..] + q[..|q|] == q;
  }

  /** A process queued once, at index `j`, is the only one dropped. The order of the others is kept
      if it was last; otherwise the loop stops one rotation early and the last comes first. */
  lemma RemovePresent(q: seq<int>, pid: int, j: nat)
    requires j < |q| && q[j] == pid && pid !in q[..j] && pid !in q[j + 1..]
    ensures RemoveLoop(q, pid, 0) ==
            if j == |q| - 1 then q[..j] else [q[|q| - 1]] + q[..j] + q[j + 1..|q| - 1]
  {
    RotateTo(q, pid, 0, j);
    var r := q[j + 1..] + q[..j];
    assert (q[j..] + q[..j])[1..] == r;
    if j < |q| - 1 {
      RemoveAbsentFrom(r, pid, j + 1);
      assert r[|q| - 2 - j..] == [q[|q| - 1]] + q[..j] && r[..|q| - 2 - j] == q[j + 1..|q| - 1];
    } else {
      assert r == q[..j];
    }
  }

  // ---- the invariant ----

  ghost predicate PidsOk(procs: seq<Pcb>, nextPid: int, freeEntries: seq<int>) {
    && |procs| == PROC_MAX
    && (forall i :: 0 <= i < PROC_MAX ==> procs[i].pid < nextPid)
    && NoDup(freeEntries)
    && (forall i :: 0 <= i < PROC_MAX ==> (i in freeEntries <==> !Live(procs[i])))
  }

  /** `locks` counts the owner and the waiters; an unowned mutex has no waiters, and a
      mutex in the pool is unowned. */
  ghost predicate MutexOk(m: Mutex, waiters: seq<int>) {
    && NULL <= m.owner < PROC_MAX
    && m.locks == |waiters| + (if m.owner == NULL then 0 else 1)
    && (m.owner == NULL ==> waiters == [])
    && (!m.inUse ==> m.owner == NULL)
  }

  ghost predicate SemOk(m: Semaphore, waiters: seq<int>) {
    && m.count >= 0
    && (m.count > 0 ==> waiters == [])
    && (!m.inUse ==> waiters == [])
  }

  ghost predicate MutexesOk(s: Kernel)
    requires Shape(s)
  {
    && (forall id :: 0 <= id < MUTEX_MAX ==> MutexOk(s.mutexes[id], s.queues[MutexQ(id)]))
    && NoDup(s.mutexPool)
    && (forall id :: 0 <= id < MUTEX_MAX ==> (id in s.mutexPool <==> !s.mutexes[id].inUse))
  }

  ghost predicate SemsOk(s: Kernel)
    requires Shape(s)
  {
    && (forall id :: 0 <= id < SEM_MAX ==> SemOk(s.sems[id], s.queues[SemQ(id)]))
    && NoDup(s.semPool)
    && (forall id :: 0 <= id < SEM_MAX ==> (id in s.semPool <==> !s.sems[id].inUse))
  }

  /** A process that is ready to run has a fresh time slice; the active one has used at most `limit`. */
  ghost predicate CpuOk(procs: seq<Pcb>, active: int, limit: int)
    requires NULL <= active < |procs|
  {
    && (forall i :: 0 <= i < |procs| && procs[i].state == Idle ==> procs[i].cpuTime == 0)
    && (active != NULL ==> 0 <= procs[active].cpuTime <= limit)
  }

  ghost predicate Within(s: Kernel, limit: int) {
    && Shape(s)
    && Placed(s.procs, s.active, s.queues)
    && PidsOk(s.procs, s.nextPid, s.freeEntries)
    && MutexesOk(s)
    && SemsOk(s)
    && CpuOk(s.procs, s.active, limit)
    && !s.panicked && !s.strayed
  }

  /** Holds whenever user code runs, and before the first dispatch. */
  ghost predicate Inv(s: Kernel) { Within(s, TIMESLICE - 1) }

  /** Holds between a handler and the scheduler run that ends the kernel entry. */
  ghost predicate Mid(s: Kernel) { Within(s, TIMESLICE) }

  /** The handler leaves the scheduler's own conditions to the scheduler; the lock tables
      care only about the wait queues. */
  lemma LocksKept(s: Kernel, t: Kernel)
    requires Shape(s) && Shape(t) && MutexesOk(s) && SemsOk(s)
    requires t.mutexes == s.mutexes && t.mutexPool == s.mutexPool && t.sems == s.sems && t.semPool == s.semPool
    requires forall k :: 2 <= k < PID_QUEUES ==> t.queues[k] == s.queues[k]
    ensures MutexesOk(t) && SemsOk(t)
  {
  }

  // ---- the scheduler ----

  lemma PreemptKeeps(s: Kernel)
    requires Mid(s)
    ensures Inv(Preempt(s))
    ensures Preempt(s).active == NULL || Preempt(s) == s
  {
    var t := Preempt(s);
    var a := s.active;
    if a != NULL && s.procs[a].cpuTime >= TIMESLICE {
      var p := s.procs[a].(cpuTime := 0, state := Idle);
      if a == 0 {
        IdlePreempted(s.procs, s.queues, p);
        assert t == s.(procs := s.procs[a := p], active := NULL);
      } else {
        QueueNeverFull(s.procs, s.queues, RUN);
        ParkPlaced(s.procs, a, s.queues, RUN, p);
        EntryOfLive(s.procs, 0);
        assert t.procs == s.procs[a := p];
        LocksKept(s, t);
      }
    }
  }

  lemma DispatchKeeps(s: Kernel)
    requires Inv(s)
    ensures Inv(Dispatch(s)) && Dispatch(s).active != NULL
    ensures s.active != NULL ==> Dispatch(s) == s
    ensures s.active == NULL && s.queues[RUN] != [] ==>
              Dispatch(s).queues == s.queues[RUN := s.queues[RUN][1..]] &&
              Dispatch(s).procs[Dispatch(s).active].pid == s.queues[RUN][0]
    ensures s.active == NULL ==> Dispatch(s).procs[Dispatch(s).active].cpuTime == 0
  {
    var t := Dispatch(s);
    if s.active != NULL {
      assert s.procs[s.active := s.procs[s.active].(state := Active)] == s.procs;
    } else if s.queues[RUN] == [] {
      EntryOfLive(s.procs, 0);
      IdlePlaced(s.procs, s.queues);
    } else {
      DispatchPlaced(s.procs, s.queues);
      LocksKept(s, t);
    }
  }

  lemma RunKeeps(s: Kernel)
    requires Mid(s)
    ensures Inv(SchedulerRun(s)) && SchedulerRun(s).active != NULL
  {
    PreemptKeeps(s);
    DispatchKeeps(Preempt(s));
  }

  /** The sleeper at the head of the sleep queue, and where `WakeOne` leaves it: woken at the
      tail of the run queue, or one tick closer at the tail of the sleep queue. */
  function Sleeper(s: Kernel): int
    requires Shape(s) && s.queues[SLEEP] != []
  {
    EntryOf(s.procs, s.queues[SLEEP][0])
  }

  function AfterTurn(p: Pcb): Pcb {
    if p.sleepTime == 1 then p.(state := Idle, cpuTime := 0, sleepTime := 0)
    else p.(sleepTime := p.sleepTime - 1)
  }

  lemma WakeOneComputes(s: Kernel)
    requires Mid(s) && s.queues[SLEEP] != []
    ensures var e := Sleeper(s);
            var pid := s.queues[SLEEP][0];
            var rest := s.queues[SLEEP := s.queues[SLEEP][1..]];
            0 < e < PROC_MAX && e != s.active && s.procs[e].pid == pid && s.procs[e].state == Sleeping &&
            var k := if s.procs[e].sleepTime == 1 then RUN else SLEEP;
            WakeOne(s) == s.(procs := s.procs[e := AfterTurn(s.procs[e])],
                             queues := rest[k := rest[k] + [pid]])
  {
    QueueNeverFull(s.procs, s.queues, RUN);
    QueueNeverFull(s.procs, s.queues, SLEEP);
    var e := TakeHead(s.procs, s.active, s.queues, SLEEP);
    assert WakeOne(s).procs == s.procs[e := AfterTurn(s.procs[e])];
  }

  lemma WakeOneKeeps(s: Kernel)
    requires Mid(s) && s.queues[SLEEP] != []
    ensures Mid(WakeOne(s)) && WakeOne(s).active == s.active
  {
    var t := WakeOne(s);
    WakeOneComputes(s);
    var p := s.procs[Sleeper(s)];
    MovePlaced(s.procs, s.active, s.queues, SLEEP, if p.sleepTime == 1 then RUN else SLEEP, AfterTurn(p));
    hide WakeOne;
    LocksKept(s, t);
  }

  /** One turn of the loop, for the sleeper with entry `e`, read queue by queue. */
  ghost predicate TurnTaken(s: Kernel, t: Kernel, e: int)
    requires Shape(s) && Shape(t) && s.queues[SLEEP] != []
  {
    var pid := s.queues[SLEEP][0];
    0 < e < PROC_MAX && e != s.active && s.procs[e].pid == pid && s.procs[e].state == Sleeping &&
    t.active == s.active && t.procs == s.procs[e := AfterTurn(s.procs[e])] &&
    if s.procs[e].sleepTime == 1 then
      t.queues[SLEEP] == s.queues[SLEEP][1..] && t.queues[RUN] == s.queues[RUN] + [pid]
    else
      t.queues[SLEEP] == s.queues[SLEEP][1..] + [pid] && t.queues[RUN] == s.queues[RUN]
  }

  lemma WakeOneTurn(s: Kernel) returns (e: int)
    requires Shape(s) && Mid(s) && s.queues[SLEEP] != []
    ensures Mid(WakeOne(s)) && TurnTaken(s, WakeOne(s), e)
  {
    e := Sleeper(s);
    WakeOneComputes(s);
    WakeOneKeeps(s);
    hide WakeOne, Mid, Shape;
  }

  lemma {:induction false} WakeLoopKeeps(s: Kernel, i: nat)
    requires Shape(s) && Mid(s)
    ensures Mid(WakeLoop(s, i)) && WakeLoop(s, i).active == s.active
    decreases |s.queues[SLEEP]| - i
  {
    hide WakeOne, Mid;
    if i < |s.queues[SLEEP]| {
      var _ := WakeOneTurn(s);
      WakeLoopKeeps(WakeOne(s), i + 1);
    }
  }

  lemma ChargeKeeps(s: Kernel)
    requires Inv(s)
    ensures Mid(ChargeActive(s)) && ChargeActive(s).active == s.active
  {
    hide MutexesOk, SemsOk, QueuesOk;
    if s.active != NULL {
      var p := s.procs[s.active];
      var q := p.(runTime := p.runTime + 1, cpuTime := p.cpuTime + 1);
      TouchPlaced(s.procs, s.active, s.queues, s.active, q);
      LocksKept(s, ChargeActive(s));
    }
  }

  lemma TimerKeeps(s: Kernel)
    requires Inv(s)
    ensures Mid(ChargeActive(s)) && Mid(SchedulerTimer(s)) && SchedulerTimer(s).active == s.active
  {
    InvIsMid(s);
    hide Inv, Mid, ChargeActive;
    ChargeKeeps(s);
    WakeLoopKeeps(ChargeActive(s), 0);
  }

  // ---- the active process leaves the processor ----

  /** Removing the active process from the scheduler only clears the active pointer. */
  lemma RemoveActive(s: Kernel)
    requires Shape(s) && s.active != NULL && s.procs[s.active].pid !in s.queues[RUN]
    ensures SchedulerRemove(s, s.active) == s.(active := NULL)
  {
    RemoveAbsent(s.queues[RUN], s.procs[s.active].pid);
    assert s.queues[RUN := s.queues[RUN]] == s.queues;
  }

  /** The state after the active process has been put into queue `k`. */
  function Parked(s: Kernel, k: int, p: Pcb): Kernel
    requires Shape(s) && s.active != NULL && 0 <= k < PID_QUEUES
  {
    s.(procs := s.procs[s.active := p], active := NULL, queues := s.queues[k := s.queues[k] + [p.pid]])
  }

  lemma ParkedKeeps(s: Kernel, k: int, p: Pcb)
    requires Inv(s) && s.active > 0 && 0 < k < PID_QUEUES
    requires p.pid == s.procs[s.active].pid && p.state == StateAt(k)
    ensures Shape(Parked(s, k, p)) && !Full(s.queues[k])
    ensures Placed(s.procs[s.active := p], NULL, Parked(s, k, p).queues)
    ensures PidsOk(Parked(s, k, p).procs, s.nextPid, s.freeEntries)
    ensures CpuOk(Parked(s, k, p).procs, NULL, TIMESLICE)
  {
    QueueNeverFull(s.procs, s.queues, k);
    ParkPlaced(s.procs, s.active, s.queues, k, p);
    EntryOfLive(s.procs, s.active);
  }

  lemma SleepKeeps(s: Kernel, ticks: int)
    requires Inv(s) && s.active > 0
    ensures var p := s.procs[s.active].(state := Sleeping, sleepTime := ticks);
            SchedulerSleep(s, s.active, ticks) == Parked(s, SLEEP, p)
    ensures Mid(SchedulerSleep(s, s.active, ticks))
  {
    var p := s.procs[s.active].(state := Sleeping, sleepTime := ticks);
    var t := SchedulerSleep(s, s.active, ticks);
    ActiveUnqueued(s.procs, s.active, s.queues, RUN);
    var s1 := SetProc(s, s.active, s.procs[s.active].(sleepTime := ticks));
    RemoveActive(s1);
    ParkedKeeps(s, SLEEP, p);
    assert t.procs == s.procs[s.active := p];
    LocksKept(s, t);
  }

  // ---- creation and destruction ----

  lemma CreateKeeps(s: Kernel)
    requires Inv(s)
    ensures var t := KprocCreate(s).0;
            Inv(t) && t.active == s.active &&
            if s.freeEntries == [] then t == s
            else
              var e := s.freeEntries[0];
              0 < e < PROC_MAX && !Live(s.procs[e]) &&
              t == s.(procs := s.procs[e := Pcb(s.nextPid, Idle, 0, 0, 0)], nextPid := s.nextPid + 1,
                      freeEntries := s.freeEntries[1..],
                      queues := s.queues[RUN := s.queues[RUN] + [s.nextPid]])
  {
    var t := KprocCreate(s).0;
    if s.freeEntries != [] {
      var e := s.freeEntries[0];
      assert e in s.freeEntries;
      var p := Pcb(s.nextPid, Idle, 0, 0, 0);
      QueueNeverFull(s.procs, s.queues, RUN);
      CreatePlaced(s.procs, s.active, s.queues, e, p);
      assert t.procs == s.procs[e := p];
      EntryTaken(s.procs, s.nextPid, s.freeEntries, p);
      LocksKept(s, t);
    }
  }

  lemma EntryTaken(procs: seq<Pcb>, nextPid: int, free: seq<int>, p: Pcb)
    requires PidsOk(procs, nextPid, free) && free != [] && InRange(free[0], PROC_MAX) && p.pid == nextPid >= 0
    ensures PidsOk(procs[free[0] := p], nextPid + 1, free[1..])
  {
    var e := free[0];
    HeadNotInTail(free);
    forall i | 0 <= i < PROC_MAX && i != e ensures i in free[1..] <==> !Live(procs[i]) {
      assert free == [e] + free[1..];
    }
  }

  lemma EntryFreed(procs: seq<Pcb>, nextPid: int, free: seq<int>, e: int)
    requires PidsOk(procs, nextPid, free) && 0 <= e < PROC_MAX && Live(procs[e])
    ensures PidsOk(procs[e := FREE_PCB], nextPid, free + [e])
  {
  }

  /** The free list holds at most one slot per table entry, so it never overflows. */
  lemma FreeListBound(free: seq<int>, bound: nat)
    requires NoDup(free) && forall x :: x in free ==> 0 <= x < bound
    ensures |free| <= bound
  {
    NoDupSize(free, UpTo(bound));
  }

  function UpTo(n: nat): (r: set<int>)
    ensures |r| == n && forall x :: x in r <==> 0 <= x < n
  {
    if n == 0 then {} else UpTo(n - 1) + {n - 1}
  }

  lemma DestroyKeeps(s: Kernel)
    requires Inv(s)
    ensures var t := KprocDestroy(s, s.active).0;
            Inv(t) &&
            if s.active <= 0 then t == s
            else t == s.(procs := s.procs[s.active := FREE_PCB], active := NULL,
                         freeEntries := s.freeEntries + [s.active])
  {
    var t := KprocDestroy(s, s.active).0;
    if s.active > 0 {
      ActiveUnqueued(s.procs, s.active, s.queues, RUN);
      EntryOfLive(s.procs, s.active);
      EntryOfLive(s.procs, 0);
      RemoveActive(s);
      FreeListBound(s.freeEntries, PROC_MAX);
      DestroyPlaced(s.procs, s.active, s.queues);
      EntryFreed(s.procs, s.nextPid, s.freeEntries, s.active);
      LocksKept(s, t);
    }
  }

  // ---- mutexes and semaphores ----

  lemma MutexChange(s: Kernel, t: Kernel, id: int)
    requires Shape(s) && Shape(t) && MutexesOk(s) && SemsOk(s) && 0 <= id < MUTEX_MAX
    requires t.sems == s.sems && t.semPool == s.semPool
    requires forall i :: 0 <= i < MUTEX_MAX && i != id ==> t.mutexes[i] == s.mutexes[i]
    requires forall k :: 2 <= k < PID_QUEUES && k != MutexQ(id) ==> t.queues[k] == s.queues[k]
    requires MutexOk(t.mutexes[id], t.queues[MutexQ(id)])
    requires t.mutexPool == s.mutexPool && t.mutexes[id].inUse == s.mutexes[id].inUse
    ensures MutexesOk(t) && SemsOk(t)
  {
    forall i | 0 <= i < MUTEX_MAX ensures MutexOk(t.mutexes[i], t.queues[MutexQ(i)]) {
      assert MutexOk(s.mutexes[i], s.queues[MutexQ(i)]);
    }
    forall i | 0 <= i < SEM_MAX ensures SemOk(t.sems[i], t.queues[SemQ(i)]) {
      assert SemOk(s.sems[i], s.queues[SemQ(i)]);
    }
  }

  lemma SemChange(s: Kernel, t: Kernel, id: int)
    requires Shape(s) && Shape(t) && MutexesOk(s) && SemsOk(s) && 0 <= id < SEM_MAX
    requires t.mutexes == s.mutexes && t.mutexPool == s.mutexPool
    requires forall i :: 0 <= i < SEM_MAX && i != id ==> t.sems[i] == s.sems[i]
    requires forall k :: 2 <= k < PID_QUEUES && k != SemQ(id) ==> t.queues[k] == s.queues[k]
    requires SemOk(t.sems[id], t.queues[SemQ(id)])
    requires t.semPool == s.semPool && t.sems[id].inUse == s.sems[id].inUse
    ensures MutexesOk(t) && SemsOk(t)
  {
    forall i | 0 <= i < MUTEX_MAX ensures MutexOk(t.mutexes[i], t.queues[MutexQ(i)]) {
      assert MutexOk(s.mutexes[i], s.queues[MutexQ(i)]);
    }
    forall i | 0 <= i < SEM_MAX ensures SemOk(t.sems[i], t.queues[SemQ(i)]) {
      assert SemOk(s.sems[i], s.queues[SemQ(i)]);
    }
  }

  lemma LockKeeps(s: Kernel, id: int)
    requires Inv(s) && s.active > 0 && 0 <= id < MUTEX_MAX && s.mutexes[id].inUse
    ensures var t := KmutexLock(s, id).0;
            var m := s.mutexes[id];
            Mid(t) &&
            if m.owner == NULL then t == SetMutex(s, id, m.(owner := s.active, locks := 1))
            else t == SetMutex(Parked(s, MutexQ(id), s.procs[s.active].(state := Waiting)), id,
                               m.(locks := m.locks + 1))
  {
    hide Placed, PidsOk;
    var t := KmutexLock(s, id).0;
    assert MutexOk(s.mutexes[id], s.queues[MutexQ(id)]);
    if s.mutexes[id].owner != NULL {
      var p := s.procs[s.active].(state := Waiting);
      ParkedKeeps(s, MutexQ(id), p);
      ActiveUnqueued(s.procs, s.active, s.queues, RUN);
      RemoveActive(Enqueue(SetProc(s, s.active, p), MutexQ(id), p.pid));
    }
    MutexChange(s, t, id);
  }

  /** Handing queue `k`'s head to the run queue, as unlock and post do. */
  lemma HandoffForm(s: Kernel, k: int)
    requires Inv(s) && 2 <= k < PID_QUEUES && s.queues[k] != []
    ensures var pid := s.queues[k][0];
            var e := EntryOf(s.procs, pid);
            var rest := s.queues[k := s.queues[k][1..]];
            var t := SchedulerAdd(DropHead(s, k), e);
            0 < e < PROC_MAX && e != s.active && s.procs[e].pid == pid && s.procs[e].state == Waiting &&
            PidToProc(DropHead(s, k), pid) == e &&
            t == s.(procs := s.procs[e := s.procs[e].(state := Idle, cpuTime := 0)],
                    queues := rest[RUN := s.queues[RUN] + [pid]])
    ensures var e := EntryOf(s.procs, s.queues[k][0]);
            var t := SchedulerAdd(DropHead(s, k), e);
            Placed(t.procs, s.active, t.queues) && PidsOk(t.procs, s.nextPid, s.freeEntries) &&
            CpuOk(t.procs, s.active, TIMESLICE - 1)
  {
    QueueNeverFull(s.procs, s.queues, RUN);
    var e := TakeHead(s.procs, s.active, s.queues, k);
    MovePlaced(s.procs, s.active, s.queues, k, RUN, s.procs[e].(state := Idle, cpuTime := 0));
  }

  lemma UnlockKeeps(s: Kernel, id: int)
    requires Inv(s) && 0 <= id < MUTEX_MAX
    ensures var t := KmutexUnlock(s, id).0;
            var m := s.mutexes[id];
            var q := s.queues[MutexQ(id)];
            Inv(t) &&
            if m.owner == NULL then t == s
            else if q == [] then t == SetMutex(s, id, m.(owner := NULL, locks := 0))
            else
              var e := EntryOf(s.procs, q[0]);
              0 < e && s.procs[e].pid == q[0] &&
              t == SetMutex(SchedulerAdd(DropHead(s, MutexQ(id)), e), id, m.(owner := e, locks := m.locks - 1))
  {
    hide Placed, PidsOk, CpuOk;
    var t := KmutexUnlock(s, id).0;
    var m := s.mutexes[id];
    var q := s.queues[MutexQ(id)];
    assert MutexOk(m, q);
    if m.owner != NULL && q != [] {
      HandoffForm(s, MutexQ(id));
      UnlockOrder(s, id);
    }
    MutexChange(s, t, id);
  }

  lemma AddSparesMutexes(s: Kernel, proc: int, mutexes: seq<Mutex>)
    requires Shape(s) && NULL <= proc < PROC_MAX && |mutexes| == MUTEX_MAX
    ensures SchedulerAdd(s.(mutexes := mutexes), proc) == SchedulerAdd(s, proc).(mutexes := mutexes)
  {
  }

  /** Whether the lock count is written before or after the handoff makes no difference. */
  lemma UnlockOrder(s: Kernel, id: int)
    requires Shape(s) && 0 <= id < MUTEX_MAX && s.queues[MutexQ(id)] != []
    requires s.mutexes[id].owner != NULL && s.mutexes[id].locks > 1
    ensures var k := MutexQ(id);
            var m := s.mutexes[id];
            var e := PidToProc(DropHead(s, k), s.queues[k][0]);
            KmutexUnlock(s, id).0 == SetMutex(SchedulerAdd(DropHead(s, k), e), id, m.(owner := e, locks := m.locks - 1))
  {
    hide SchedulerAdd;
    var k := MutexQ(id);
    var m := s.mutexes[id];
    var e := PidToProc(DropHead(s, k), s.queues[k][0]);
    var m1 := m.(locks := m.locks - 1);
    var m2 := m1.(owner := e);
    AddSparesMutexes(DropHead(s, k), e, s.mutexes[id := m1]);
    assert s.mutexes[id := m1][id := m2] == s.mutexes[id := m2];
  }

  lemma WaitKeeps(s: Kernel, id: int)
    requires Inv(s) && s.active > 0 && 0 <= id < SEM_MAX
    ensures var t := KsemWait(s, id).0;
            var m := s.sems[id];
            Mid(t) &&
            if !m.inUse then t == s
            else if m.count == 0 then t == Parked(s, SemQ(id), s.procs[s.active].(state := Waiting))
            else t == SetSem(s, id, m.(count := m.count - 1))
  {
    hide Placed, PidsOk;
    var t := KsemWait(s, id).0;
    assert SemOk(s.sems[id], s.queues[SemQ(id)]);
    if s.sems[id].inUse && s.sems[id].count == 0 {
      var p := s.procs[s.active].(state := Waiting);
      ParkedKeeps(s, SemQ(id), p);
      ActiveUnqueued(s.procs, s.active, s.queues, RUN);
      RemoveActive(Enqueue(SetProc(s, s.active, p), SemQ(id), p.pid));
    }
    SemChange(s, t, id);
  }

  lemma PostKeeps(s: Kernel, id: int)
    requires Inv(s) && 0 <= id < SEM_MAX
    ensures var t := KsemPost(s, id).0;
            var m := s.sems[id];
            var q := s.queues[SemQ(id)];
            Inv(t) &&
            if !m.inUse then t == s
            else if q == [] then t == SetSem(s, id, m.(count := m.count + 1))
            else t == SchedulerAdd(DropHead(s, SemQ(id)), EntryOf(s.procs, q[0]))
  {
    hide Placed, PidsOk, CpuOk;
    var t := KsemPost(s, id).0;
    var m := s.sems[id];
    assert SemOk(m, s.queues[SemQ(id)]);
    if m.inUse && s.queues[SemQ(id)] != [] {
      HandoffForm(s, SemQ(id));
      assert s.sems[id := m.(count := m.count + 1)][id := m] == s.sems;
    }
    SemChange(s, t, id);
  }

  // ---- id pools ----

  lemma MutexInitKeeps(s: Kernel)
    requires Inv(s)
    ensures var t := KmutexInit(s).0;
            Inv(t) &&
            if s.mutexPool == [] then t == s
            else
              var id := s.mutexPool[0];
              0 <= id < MUTEX_MAX && !s.mutexes[id].inUse &&
              t == SetMutex(s.(mutexPool := s.mutexPool[1..]), id, Mutex(true, 0, NULL))
  {
    hide Placed, PidsOk, CpuOk;
    var t := KmutexInit(s).0;
    if s.mutexPool != [] {
      var id := s.mutexPool[0];
      assert id in s.mutexPool;
      assert MutexOk(s.mutexes[id], s.queues[MutexQ(id)]);
      assert s.queues[MutexQ(id) := []] == s.queues;
      HeadNotInTail(s.mutexPool);
      assert s.mutexPool == [id] + s.mutexPool[1..];
      assert MutexesOk(t);
      LocksKept(s, t.(mutexes := s.mutexes, mutexPool := s.mutexPool));
    }
  }

  /** Destroying an allocated mutex frees its id, and only when it has no owner and no waiter. */
  lemma MutexDestroyKeeps(s: Kernel, id: int)
    requires Inv(s) && 0 <= id < MUTEX_MAX && s.mutexes[id].inUse
    ensures var t := KmutexDestroy(s, id).0;
            Inv(t) &&
            if s.mutexes[id].owner != NULL then t == s
            else s.queues[MutexQ(id)] == [] &&
                 t == SetMutex(s.(mutexPool := s.mutexPool + [id]), id, CLEAR_MUTEX)
  {
    hide Placed, PidsOk, CpuOk;
    var t := KmutexDestroy(s, id).0;
    assert MutexOk(s.mutexes[id], s.queues[MutexQ(id)]);
    FreeListBound(s.mutexPool, MUTEX_MAX);
    if s.mutexes[id].owner == NULL {
      assert s.queues[MutexQ(id) := []] == s.queues;
      assert MutexesOk(t);
      LocksKept(s, t.(mutexes := s.mutexes, mutexPool := s.mutexPool));
    }
  }

  lemma SemInitKeeps(s: Kernel, value: int)
    requires Inv(s) && value >= 0
    ensures var t := KsemInit(s, value).0;
            Inv(t) &&
            if s.semPool == [] then t == s
            else
              var id := s.semPool[0];
              0 <= id < SEM_MAX && !s.sems[id].inUse &&
              t == SetSem(s.(semPool := s.semPool[1..]), id, Semaphore(true, value))
  {
    hide Placed, PidsOk, CpuOk;
    var t := KsemInit(s, value).0;
    if s.semPool != [] {
      var id := s.semPool[0];
      assert id in s.semPool;
      assert SemOk(s.sems[id], s.queues[SemQ(id)]);
      assert s.queues[SemQ(id) := []] == s.queues;
      HeadNotInTail(s.semPool);
      assert s.semPool == [id] + s.semPool[1..];
      assert SemsOk(t);
      LocksKept(s, t.(sems := s.sems, semPool := s.semPool));
    }
  }

  lemma SemDestroyKeeps(s: Kernel, id: int)
    requires Inv(s) && 0 <= id < SEM_MAX
    ensures var t := KsemDestroy(s, id).0;
            Inv(t) &&
            if !s.sems[id].inUse || s.sems[id].count == 0 then t == s
            else s.queues[SemQ(id)] == [] &&
                 t == SetSem(s.(semPool := s.semPool + [id]), id, CLEAR_SEM)
  {
    hide Placed, PidsOk, CpuOk;
    var t := KsemDestroy(s, id).0;
    assert SemOk(s.sems[id], s.queues[SemQ(id)]);
    FreeListBound(s.semPool, SEM_MAX);
    if s.sems[id].inUse && s.sems[id].count > 0 {
      assert s.queues[SemQ(id) := []] == s.queues;
      assert SemsOk(t);
      LocksKept(s, t.(sems := s.sems, semPool := s.semPool));
    }
  }

  // ---- one kernel entry ----

  /** System calls come from a process other than the idle process, which makes none. */
  predicate Enabled(s: Kernel, e: Event) {
    IsSyscall(e) ==> s.active > 0
  }

  /** `kmutex_lock` and `kmutex_destroy` trust the caller that the mutex is allocated. `ksem_post` trusts
      the dispatcher with the range of its id, and the dispatcher lets SEM_MAX through. */
  predicate Guard(s: Kernel, e: Event)
    requires |s.mutexes| == MUTEX_MAX
  {
    match e
    case MutexLock(id) => InRange(id, MUTEX_MAX) ==> s.mutexes[id].inUse
    case MutexDestroy(id) => InRange(id, MUTEX_MAX) ==> s.mutexes[id].inUse
    case SemPost(id) => id != SEM_MAX
    case _ => true
  }

  lemma InvIsMid(s: Kernel)
    requires Inv(s)
    ensures Mid(s) && Shape(s)
  {
  }

  predicate ProcessEvent(e: Event) {
    e.Tick? || e.CtrlN? || e.CtrlQ? || e.OtherEntry? || e.ProcSleep? || e.ProcExit?
  }

  lemma HandleProcessKeeps(s: Kernel, e: Event)
    requires Inv(s) && Enabled(s, e) && ProcessEvent(e)
    ensures Mid(Handle(s, e))
  {
    hide Placed, PidsOk, MutexesOk, SemsOk, SchedulerTimer, KprocCreate, KprocDestroy, SchedulerSleep;
    InvIsMid(s);
    match e
    case Tick => TimerKeeps(s);
    case CtrlN => CreateKeeps(s);
    case CtrlQ => DestroyKeeps(s);
    case OtherEntry =>
    case ProcSleep(seconds) => if seconds >= 0 { SleepKeeps(s, seconds * TICKS_PER_SECOND); }
    case ProcExit => DestroyKeeps(s);
  }

  /** What a mutex or semaphore call does to the processes: nothing, or it blocks the active
      process in wait queue `k`, or it makes the head of wait queue `k` ready. */
  datatype Effect = Quiet | Block(k: int) | Release(k: int)

  ghost predicate HasEffect(s: Kernel, h: Kernel, f: Effect)
    requires Shape(s)
  {
    match f
    case Quiet => h.procs == s.procs && h.active == s.active && h.queues == s.queues
    case Block(k) =>
      2 <= k < PID_QUEUES && s.active > 0 &&
      (var t := Parked(s, k, s.procs[s.active].(state := Waiting));
       h.procs == t.procs && h.active == NULL && h.queues == t.queues)
    case Release(k) =>
      2 <= k < PID_QUEUES && s.queues[k] != [] &&
      (var e := EntryOf(s.procs, s.queues[k][0]);
       0 < e && e != s.active && h.active == s.active && s.procs[e].state == Waiting &&
       h.procs == s.procs[e := s.procs[e].(state := Idle, cpuTime := 0)] &&
       h.queues == s.queues[k := s.queues[k][1..]][RUN := s.queues[RUN] + [s.queues[k][0]]])
  }

  lemma MutexLockEffect(s: Kernel, id: int) returns (f: Effect)
    requires Inv(s) && s.active > 0 && 0 <= id < MUTEX_MAX && s.mutexes[id].inUse
    ensures Mid(KmutexLock(s, id).0) && HasEffect(s, KmutexLock(s, id).0, f)
  {
    hide Placed, PidsOk, CpuOk, MutexesOk, SemsOk;
    LockKeeps(s, id);
    f := if s.mutexes[id].owner == NULL then Quiet else Block(MutexQ(id));
  }

  lemma MutexUnlockEffect(s: Kernel, id: int) returns (f: Effect)
    requires Inv(s) && 0 <= id < MUTEX_MAX
    ensures Mid(KmutexUnlock(s, id).0) && HasEffect(s, KmutexUnlock(s, id).0, f)
  {
    hide Placed, PidsOk, MutexesOk, SemsOk;
    UnlockKeeps(s, id);
    f := Quiet;
    if s.mutexes[id].owner != NULL && s.queues[MutexQ(id)] != [] {
      HandoffForm(s, MutexQ(id));
      f := Release(MutexQ(id));
    }
  }

  lemma SemWaitEffect(s: Kernel, id: int) returns (f: Effect)
    requires Inv(s) && s.active > 0 && 0 <= id < SEM_MAX
    ensures Mid(KsemWait(s, id).0) && HasEffect(s, KsemWait(s, id).0, f)
  {
    hide Placed, PidsOk, CpuOk, MutexesOk, SemsOk;
    WaitKeeps(s, id);
    f := if s.sems[id].inUse && s.sems[id].count == 0 then Block(SemQ(id)) else Quiet;
  }

  lemma SemPostEffect(s: Kernel, id: int) returns (f: Effect)
    requires Inv(s) && 0 <= id < SEM_MAX
    ensures Mid(KsemPost(s, id).0) && HasEffect(s, KsemPost(s, id).0, f)
  {
    hide Placed, PidsOk, MutexesOk, SemsOk;
    PostKeeps(s, id);
    f := Quiet;
    if s.sems[id].inUse && s.queues[SemQ(id)] != [] {
      HandoffForm(s, SemQ(id));
      f := Release(SemQ(id));
    }
  }

  lemma MutexInitEffect(s: Kernel)
    requires Inv(s)
    ensures Mid(KmutexInit(s).0) && HasEffect(s, KmutexInit(s).0, Quiet)
  {
    hide KmutexInit, Placed, PidsOk, MutexesOk, SemsOk;
    MutexInitKeeps(s);
  }

  lemma MutexDestroyEffect(s: Kernel, id: int)
    requires Inv(s) && 0 <= id < MUTEX_MAX && s.mutexes[id].inUse
    ensures Mid(KmutexDestroy(s, id).0) && HasEffect(s, KmutexDestroy(s, id).0, Quiet)
  {
    hide KmutexDestroy, Placed, PidsOk, MutexesOk, SemsOk;
    MutexDestroyKeeps(s, id);
  }

  lemma SemInitEffect(s: Kernel, value: int)
    requires Inv(s) && value >= 0
    ensures Mid(KsemInit(s, value).0) && HasEffect(s, KsemInit(s, value).0, Quiet)
  {
    hide KsemInit, Placed, PidsOk, MutexesOk, SemsOk;
    SemInitKeeps(s, value);
  }

  lemma SemDestroyEffect(s: Kernel, id: int)
    requires Inv(s) && 0 <= id < SEM_MAX
    ensures Mid(KsemDestroy(s, id).0) && HasEffect(s, KsemDestroy(s, id).0, Quiet)
  {
    hide KsemDestroy, Placed, PidsOk, MutexesOk, SemsOk;
    SemDestroyKeeps(s, id);
  }

  lemma LockEffect(s: Kernel, e: Event) returns (f: Effect)
    requires Inv(s) && Enabled(s, e) && Guard(s, e) && !ProcessEvent(e)
    ensures Mid(Handle(s, e)) && HasEffect(s, Handle(s, e), f)
  {
    InvIsMid(s);
    f := Quiet;
    assert HasEffect(s, s, Quiet);
    hide HasEffect, Inv, Mid, Shape, KmutexInit, KmutexDestroy, KmutexLock, KmutexUnlock;
    hide KsemInit, KsemDestroy, KsemWait, KsemPost;
    match e
    case MutexLock(id) => if InRange(id, MUTEX_MAX) { f := MutexLockEffect(s, id); }
    case MutexUnlock(id) => if InRange(id, MUTEX_MAX) { f := MutexUnlockEffect(s, id); }
    case SemWait(id) => if InRange(id, SEM_MAX) { f := SemWaitEffect(s, id); }
    case SemPost(id) => if InRange(id, SEM_MAX) { f := SemPostEffect(s, id); }
    case MutexInit => MutexInitEffect(s);
    case MutexDestroy(id) => if InRange(id, MUTEX_MAX) { MutexDestroyEffect(s, id); }
    case SemInit(value) => if InRange(value, SEM_MAX + 1) { SemInitEffect(s, value); }
    case SemDestroy(id) => if InRange(id, SEM_MAX) { SemDestroyEffect(s, id); }
  }

  lemma StepKeeps(s: Kernel, e: Event)
    requires Inv(s) && Enabled(s, e) && Guard(s, e)
    ensures Inv(Step(s, e)) && Step(s, e).active != NULL
  {
    if ProcessEvent(e) {
      HandleProcessKeeps(s, e);
    } else {
      var _ := LockEffect(s, e);
    }
    RunKeeps(Handle(s, e));
  }

  /** What the scheduler never touches. */
  ghost predicate SameTables(s: Kernel, t: Kernel)
    requires |s.queues| == PID_QUEUES && |t.queues| == PID_QUEUES
  {
    && t.mutexes == s.mutexes && t.mutexPool == s.mutexPool && t.sems == s.sems && t.semPool == s.semPool
    && t.nextPid == s.nextPid && t.freeEntries == s.freeEntries && t.strayed == s.strayed
    && t.queues == s.queues[RUN := t.queues[RUN]]
  }

  lemma PreemptFrame(s: Kernel)
    requires Shape(s)
    ensures SameTables(s, Preempt(s))
  {
  }

  lemma DispatchFrame(s: Kernel)
    requires Shape(s)
    ensures SameTables(s, Dispatch(s))
  {
  }

  lemma RunFrame(s: Kernel)
    requires Shape(s)
    ensures SameTables(s, SchedulerRun(s))
  {
    PreemptFrame(s);
    DispatchFrame(Preempt(s));
    hide Preempt, Dispatch;
  }

  /** Without the guard things go wrong at once: a lock leaves a free mutex owned, a destroy puts an
      id in the pool a second time, and a post reads past the end of the semaphore table. */
  lemma UnguardedBreaks(s: Kernel, e: Event)
    requires Inv(s) && Enabled(s, e) && !Guard(s, e)
    ensures if e.SemPost? then Step(s, e).strayed else !MutexesOk(Step(s, e))
  {
    var t := Step(s, e);
    RunFrame(Handle(s, e));
    match e
    case MutexLock(id) =>
      assert MutexOk(s.mutexes[id], s.queues[MutexQ(id)]);
      assert t.mutexes[id].owner == s.active && !t.mutexes[id].inUse;
      assert !MutexOk(t.mutexes[id], t.queues[MutexQ(id)]);
    case MutexDestroy(id) =>
      assert MutexOk(s.mutexes[id], s.queues[MutexQ(id)]);
      FreeListBound(s.mutexPool, MUTEX_MAX);
      var i :| 0 <= i < |s.mutexPool| && s.mutexPool[i] == id;
      assert t.mutexPool[i] == t.mutexPool[|s.mutexPool|];
    case SemPost(id) =>
  }

  /** A kernel entry keeps the global invariant, and so never panics, overflows a queue, loses or duplicates
      a process, or leaves its tables, exactly when a lock or destroy names an allocated mutex and a post
      does not name the id that its dispatcher should have refused. */
  lemma StepKeepsIff(s: Kernel, e: Event)
    requires Inv(s) && Enabled(s, e)
    ensures Inv(Step(s, e)) <==> Guard(s, e)
  {
    if Guard(s, e) {
      StepKeeps(s, e);
    } else {
      UnguardedBreaks(s, e);
    }
  }
}
