/** Each kernel entry as a whole, handler and scheduler together: what the state is afterwards, field by
    field, and what the call reports. Queue 0 is the run queue, queue 1 the sleep queue. */
module Entries {
  import opened Types
  import opened KernelSpec
  import opened Placement
  import opened Invariant
  import opened Runs
  import opened Fairness
  import opened Records
  import opened SleepWindow
  import MutexRuns
  import SemRuns

  // ---- the scheduler after a handler ----

  /** The processor goes to the head of the run queue, or to the idle process if nobody is ready, and
      nothing else changes. */
  ghost predicate Dispatched(h: Kernel, t: Kernel)
    requires Shape(h) && Shape(t)
  {
    && 0 <= t.active < 20
    && t == h.(active := t.active, procs := h.procs[t.active := h.procs[t.active].(state := Active)],
               queues := t.queues)
    && if h.queues[0] == [] then t.active == 0 && t.queues == h.queues
       else h.procs[t.active].pid == h.queues[0][0] && t.queues == h.queues[0 := h.queues[0][1..]]
  }

  /** A process with some of its ten ticks left keeps the processor, and the scheduler does nothing. */
  lemma Stays(h: Kernel)
    requires Mid(h) && h.active != -1 && h.procs[h.active].cpuTime < 10
    ensures SchedulerRun(h) == h
  {
    PreemptAppends(h);
    InvOfUnspent(h);
    DispatchKeeps(h);
  }

  lemma InvOfUnspent(h: Kernel)
    requires Mid(h) && h.active != -1 && h.procs[h.active].cpuTime < 10
    ensures Inv(h)
  {
  }

  lemma Leaves(h: Kernel)
    requires Mid(h) && h.active == -1
    ensures Dispatched(h, SchedulerRun(h))
  {
    if h.queues[RUN] == [] {
      EntryOfLive(h.procs, 0);
    } else {
      assert Queued(h.procs, h.queues[RUN][0], RUN);
    }
  }

  /** Whatever the scheduler finds: the active process loses the processor exactly if it is not running or has
      used its ten ticks. */
  lemma PreemptIff(h: Kernel)
    requires Shape(h) && h.active != -1
    ensures Preempt(h).active == -1 <==> h.procs[h.active].state != Active || h.procs[h.active].cpuTime >= 10
  {
  }

  // ---- entries that leave the processor alone ----

  /** An entry that concerns no process, like a key or a call that only reads, changes nothing. */
  lemma OtherEntryIsNothing(s: Kernel)
    requires Shape(s) && Inv(s)
    ensures if s.active != -1 then Step(s, OtherEntry) == s else Dispatched(s, Step(s, OtherEntry))
  {
    hide Inv, Mid, SchedulerRun;
    InvIsMid(s);
    if s.active != -1 {
      SliceUsed(s);
      Stays(s);
    } else {
      Leaves(s);
    }
  }

  /** Ctrl+n: the oldest free entry, the next pid, the tail of the run queue. */
  lemma CreateEntry(s: Kernel)
    requires Shape(s) && Inv(s)
    ensures var t, free := Step(s, CtrlN), s.freeEntries;
            (free != [] ==> 0 < free[0] < 20 && s.procs[free[0]].pid == -1) &&
            var h := if free == [] then s else
                       s.(procs := s.procs[free[0] := Pcb(s.nextPid, Idle, 0, 0, 0)], nextPid := s.nextPid + 1,
                          freeEntries := free[1..], queues := s.queues[0 := s.queues[0] + [s.nextPid]]);
            if s.active != -1 then t == h else Dispatched(h, t)
  {
    hide Inv, Mid, SchedulerRun, KprocCreate;
    CreateKeeps(s);
    FreeIsUnused(s);
    if s.active != -1 {
      Quiet(s, CtrlN);
    } else {
      InvIsMid(KprocCreate(s).0);
      Blocks(s, CtrlN);
    }
  }

  lemma FreeIsUnused(s: Kernel)
    requires Inv(s)
    ensures s.freeEntries != [] ==> InRange(s.freeEntries[0], PROC_MAX) && s.procs[s.freeEntries[0]].pid == -1
  {
    assert s.freeEntries != [] ==> s.freeEntries[0] in s.freeEntries;
  }

  /** A handler that ends in the invariant with somebody active is the whole entry. */
  lemma Quiet(s: Kernel, e: Event)
    requires Shape(s) && Inv(Handle(s, e)) && Handle(s, e).active != -1
    ensures Step(s, e) == Handle(s, e)
  {
    InvIsMid(Handle(s, e));
    SliceUsed(Handle(s, e));
    hide Inv, Mid, Handle;
    Stays(Handle(s, e));
  }

  lemma Blocks(s: Kernel, e: Event)
    requires Shape(s) && Mid(Handle(s, e)) && Handle(s, e).active == -1
    ensures Dispatched(Handle(s, e), Step(s, e))
  {
    hide Mid, Handle;
    Leaves(Handle(s, e));
  }

  lemma MutexInitEntry(s: Kernel)
    requires Shape(s) && Inv(s) && s.active > 0
    ensures var t := Step(s, MutexInit);
            if s.mutexPool == [] then t == s
            else
              var id := s.mutexPool[0];
              0 <= id < 16 &&
              t == s.(mutexes := s.mutexes[id := Mutex(true, 0, -1)], mutexPool := s.mutexPool[1..])
  {
    hide Inv, Mid, SchedulerRun, KmutexInit;
    MutexInitKeeps(s);
    Quiet(s, MutexInit);
  }

  lemma MutexDestroyEntry(s: Kernel, id: int)
    requires Shape(s) && Inv(s) && s.active > 0 && Guard(s, MutexDestroy(id))
    ensures var t := Step(s, MutexDestroy(id));
            if !(0 <= id < 16) || s.mutexes[id].owner != -1 then t == s
            else t == s.(mutexes := s.mutexes[id := Mutex(false, 0, -1)], mutexPool := s.mutexPool + [id])
  {
    hide Inv, Mid, SchedulerRun, KmutexDestroy;
    if InRange(id, MUTEX_MAX) {
      MutexDestroyKeeps(s, id);
    } else {
      MutexRuns.OutOfRangeRefused(s, MutexDestroy(id));
    }
    Quiet(s, MutexDestroy(id));
  }

  lemma SemInitEntry(s: Kernel, value: int)
    requires Shape(s) && Inv(s) && s.active > 0
    ensures var t := Step(s, SemInit(value));
            if !(0 <= value <= 16) || s.semPool == [] then t == s
            else
              var id := s.semPool[0];
              0 <= id < 16 && t == s.(sems := s.sems[id := Semaphore(true, value)], semPool := s.semPool[1..])
  {
    hide Inv, Mid, SchedulerRun, KsemInit;
    if 0 <= value {
      SemInitKeeps(s, value);
    }
    Quiet(s, SemInit(value));
  }

  lemma SemDestroyEntry(s: Kernel, id: int)
    requires Shape(s) && Inv(s) && s.active > 0
    ensures var t := Step(s, SemDestroy(id));
            if !(0 <= id < 16) || !s.sems[id].inUse || s.sems[id].count == 0 then t == s
            else t == s.(sems := s.sems[id := Semaphore(false, 0)], semPool := s.semPool + [id])
  {
    hide Inv, Mid, SchedulerRun, KsemDestroy;
    if InRange(id, SEM_MAX) {
      SemDestroyKeeps(s, id);
    } else {
      MutexRuns.OutOfRangeRefused(s, SemDestroy(id));
    }
    Quiet(s, SemDestroy(id));
  }

  // ---- locks ----

  /** A lock call: its caller becomes the owner and goes on, or joins the queue and gives up the processor. */
  lemma LockEntry(s: Kernel, id: int)
    requires Shape(s) && Inv(s) && s.active > 0 && Guard(s, MutexLock(id))
    ensures var t := Step(s, MutexLock(id));
            if !(0 <= id < 16) then t == s
            else
              var m, p := s.mutexes[id], s.procs[s.active];
              if m.owner == -1 then t == s.(mutexes := s.mutexes[id := Mutex(true, 1, s.active)])
              else Dispatched(s.(procs := s.procs[s.active := p.(state := Waiting)], active := -1,
                                 queues := s.queues[2 + id := s.queues[2 + id] + [p.pid]],
                                 mutexes := s.mutexes[id := Mutex(true, m.locks + 1, m.owner)]), t)
  {
    hide Inv, Mid, SchedulerRun, KmutexLock;
    var e := MutexLock(id);
    if !InRange(id, MUTEX_MAX) {
      MutexRuns.OutOfRangeRefused(s, e);
      Quiet(s, e);
    } else {
      LockKeeps(s, id);
      StepKeeps(s, e);
      if s.mutexes[id].owner == -1 {
        SliceUsed(s);
        Stays(Handle(s, e));
      } else {
        Blocks(s, e);
      }
    }
  }

  /** An unlock call: nothing for a free mutex, free if nobody waits, and otherwise the longest waiting process owns
      the mutex and is ready. The caller goes on. */
  lemma UnlockEntry(s: Kernel, id: int) returns (e: int)
    requires Shape(s) && Inv(s) && s.active > 0
    ensures var t := Step(s, MutexUnlock(id));
            if !(0 <= id < 16) || s.mutexes[id].owner == -1 then t == s
            else
              var m, q := s.mutexes[id], s.queues[2 + id];
              if q == [] then t == s.(mutexes := s.mutexes[id := Mutex(m.inUse, 0, -1)])
              else
                0 < e < 20 && e != s.active && s.procs[e].pid == q[0] && s.procs[e].state == Waiting &&
                t == s.(procs := s.procs[e := s.procs[e].(state := Idle, cpuTime := 0)],
                        queues := s.queues[2 + id := q[1..]][0 := s.queues[0] + [q[0]]],
                        mutexes := s.mutexes[id := Mutex(m.inUse, m.locks - 1, e)])
  {
    hide Inv, Mid, SchedulerRun, KmutexUnlock;
    var ev := MutexUnlock(id);
    e := 0;
    if !InRange(id, MUTEX_MAX) {
      MutexRuns.OutOfRangeRefused(s, ev);
      Quiet(s, ev);
    } else {
      UnlockKeeps(s, id);
      MutexRuns.MutexState(s, id);
      if s.mutexes[id].owner != -1 && s.queues[2 + id] != [] {
        HandoffForm(s, 2 + id);
        e := EntryOf(s.procs, s.queues[2 + id][0]);
      }
      Quiet(s, ev);
    }
  }

  /** A wait call: its caller takes a unit and goes on, or joins the queue and gives up the processor. */
  lemma WaitEntry(s: Kernel, id: int)
    requires Shape(s) && Inv(s) && s.active > 0
    ensures var t := Step(s, SemWait(id));
            if !(0 <= id < 16) || !s.sems[id].inUse then t == s
            else
              var c, p := s.sems[id].count, s.procs[s.active];
              if c > 0 then t == s.(sems := s.sems[id := Semaphore(true, c - 1)])
              else c == 0 &&
                   Dispatched(s.(procs := s.procs[s.active := p.(state := Waiting)], active := -1,
                                 queues := s.queues[18 + id := s.queues[18 + id] + [p.pid]]), t)
  {
    hide Inv, Mid, SchedulerRun, KsemWait;
    var e := SemWait(id);
    if !InRange(id, SEM_MAX) {
      MutexRuns.OutOfRangeRefused(s, e);
      Quiet(s, e);
    } else {
      SemRuns.SemState(s, id);
      WaitKeeps(s, id);
      if s.sems[id].inUse && s.sems[id].count == 0 {
        Blocks(s, e);
      } else {
        SliceUsed(s);
        Stays(Handle(s, e));
      }
    }
  }

  /** A post call: the longest waiting process is ready, or there is one unit more. The caller goes on. */
  lemma PostEntry(s: Kernel, id: int) returns (e: int)
    requires Shape(s) && Inv(s) && s.active > 0 && Guard(s, SemPost(id))
    ensures var t := Step(s, SemPost(id));
            if !(0 <= id < 16) || !s.sems[id].inUse then t == s
            else
              var c, q := s.sems[id].count, s.queues[18 + id];
              if q == [] then t == s.(sems := s.sems[id := Semaphore(true, c + 1)])
              else
                0 < e < 20 && e != s.active && s.procs[e].pid == q[0] && s.procs[e].state == Waiting &&
                t == s.(procs := s.procs[e := s.procs[e].(state := Idle, cpuTime := 0)],
                        queues := s.queues[18 + id := q[1..]][0 := s.queues[0] + [q[0]]])
  {
    hide Inv, Mid, SchedulerRun, KsemPost;
    var ev := SemPost(id);
    e := 0;
    if InRange(id, SEM_MAX) {
      PostKeeps(s, id);
      if s.sems[id].inUse && s.queues[18 + id] != [] {
        HandoffForm(s, 18 + id);
        e := EntryOf(s.procs, s.queues[18 + id][0]);
      }
    }
    Quiet(s, ev);
  }

  // ---- entries that give up the processor ----

  /** A sleep call: the caller sleeps for 100 ticks per second; a negative argument is refused. */
  lemma SleepEntry(s: Kernel, seconds: int)
    requires Shape(s) && Inv(s) && s.active > 0
    ensures var t, p := Step(s, ProcSleep(seconds)), s.procs[s.active];
            if seconds < 0 then t == s
            else Dispatched(s.(procs := s.procs[s.active := p.(state := Sleeping, sleepTime := 100 * seconds)],
                               active := -1, queues := s.queues[1 := s.queues[1] + [p.pid]]), t)
  {
    hide Inv, Mid, SchedulerRun, SchedulerSleep;
    if seconds < 0 {
      Quiet(s, ProcSleep(seconds));
    } else {
      SleepKeeps(s, 100 * seconds);
      Blocks(s, ProcSleep(seconds));
    }
  }

  /** Exit, or Ctrl+q: the entry of the active process is cleared and goes to the end of the free list; the
      idle process is not destroyed. */
  lemma KillEntry(s: Kernel, e: Event)
    requires Shape(s) && Inv(s) && (e == CtrlQ || (e == ProcExit && s.active > 0))
    ensures var t := Step(s, e);
            if s.active == 0 then t == s
            else if s.active == -1 then Dispatched(s, t)
            else Dispatched(s.(procs := s.procs[s.active := Pcb(-1, NoState, -1, -1, 0)], active := -1,
                               freeEntries := s.freeEntries + [s.active]), t)
  {
    hide Inv, Mid, SchedulerRun, KprocDestroy;
    DestroyKeeps(s);
    if s.active == 0 {
      Quiet(s, e);
    } else {
      InvIsMid(Handle(s, e));
      Blocks(s, e);
    }
  }

  // ---- a tick ----

  /** Entry `e` after a tick that gives the first `m` sleepers their turn, apart from being dispatched. */
  function Ticked(s: Kernel, m: nat, e: int): Pcb
    requires Shape(s) && 0 <= e < 20 && m <= |s.queues[1]|
  {
    var p := s.procs[e];
    if e == s.active && p.cpuTime == 9 then p.(runTime := p.runTime + 1, cpuTime := 0, state := Idle)
    else if e == s.active then p.(runTime := p.runTime + 1, cpuTime := p.cpuTime + 1)
    else if p.pid in s.queues[1][..m] && p.sleepTime == 1 then p.(sleepTime := 0, cpuTime := 0, state := Idle)
    else if p.pid in s.queues[1][..m] then p.(sleepTime := p.sleepTime - 1)
    else p
  }

  /** Those ready to run after a tick: the old run queue, the woken, and an active process whose ten ticks are over. */
  function ReadyAfter(s: Kernel, m: nat): seq<int>
    requires Shape(s) && m <= |s.queues[1]|
  {
    s.queues[0] + DueOf(s.procs, s.queues[1][..m]) +
    if s.active > 0 && s.procs[s.active].cpuTime == 9 then [s.procs[s.active].pid] else []
  }

  ghost predicate TickDone(s: Kernel, t: Kernel, m: nat)
    requires Shape(s) && Shape(t) && m <= |s.queues[1]|
  {
    var q, ready := s.queues[1], ReadyAfter(s, m);
    && t == s.(active := t.active, procs := t.procs, queues := s.queues[0 := t.queues[0]][1 := t.queues[1]])
    && t.queues[1] == q[m..] + NotDueOf(s.procs, q[..m])
    && 0 <= t.active < 20
    && (forall e :: 0 <= e < 20 ==>
          t.procs[e] == if e == t.active then Ticked(s, m, e).(state := Active) else Ticked(s, m, e))
    && (if s.active != -1 && s.procs[s.active].cpuTime != 9 then t.active == s.active && t.queues[0] == ready
        else if ready == [] then t.active == 0 && t.queues[0] == []
        else s.procs[t.active].pid == ready[0] && t.queues[0] == ready[1..])
  }

  /** What the handler of a tick leaves to the scheduler. */
  ghost predicate TickHandled(s: Kernel, h: Kernel, m: nat)
    requires Shape(s) && Shape(h) && m <= |s.queues[1]|
  {
    var q := s.queues[1];
    && h == s.(procs := h.procs, queues := s.queues[0 := h.queues[0]][1 := h.queues[1]])
    && h.queues[1] == q[m..] + NotDueOf(s.procs, q[..m])
    && h.queues[0] == s.queues[0] + DueOf(s.procs, q[..m])
    && forall e :: 0 <= e < 20 ==>
         h.procs[e] == if e == s.active
                       then s.procs[e].(runTime := s.procs[e].runTime + 1, cpuTime := s.procs[e].cpuTime + 1)
                       else Ticked(s, m, e)
  }

  lemma TurnsCharged(s: Kernel, m: nat)
    requires Shape(s) && Inv(s) && m <= |s.queues[1]|
    ensures var s1, q := ChargeActive(s), s.queues[1];
            s1.queues == s.queues && (TurnsAre(s1.procs, q, 0, m) <==> TurnsAre(s.procs, q, 0, m)) &&
            DueOf(s1.procs, q[..m]) == DueOf(s.procs, q[..m]) && NotDueOf(s1.procs, q[..m]) == NotDueOf(s.procs, q[..m])
  {
    var q := s.queues[1];
    if s.active != -1 {
      ActiveUnqueued(s.procs, s.active, s.queues, SLEEP);
      var p := s.procs[s.active];
      var p1 := p.(runTime := p.runTime + 1, cpuTime := p.cpuTime + 1);
      hide Inv, IsDue;
      DueOfKept(s.procs, s.active, p1, q[..m]);
      forall j | 0 <= j <= m ensures Due(s.procs[s.active := p1], q[..j]) == Due(s.procs, q[..j]) {
        DueKept(s.procs, s.active, p1, q[..j]);
      }
    }
  }

  lemma TickFields(s: Kernel, h: Kernel, m: nat)
    requires Shape(s) && Shape(h) && m <= |s.queues[1]|
    requires s.active != -1 ==> s.procs[s.active].pid !in s.queues[1]
    requires var s1, q := ChargeActive(s), s.queues[1];
             h == s1.(procs := h.procs, queues := s.queues[0 := h.queues[0]][1 := h.queues[1]]) &&
             h.queues[1] == q[m..] + NotDueOf(s.procs, q[..m]) && h.queues[0] == s.queues[0] + DueOf(s.procs, q[..m]) &&
             forall e :: 0 <= e < PROC_MAX ==>
               h.procs[e] == if s1.procs[e].pid in q[..m] then AfterTurn(s1.procs[e]) else s1.procs[e]
    ensures TickHandled(s, h, m)
  {
  }

  lemma HandleTick(s: Kernel) returns (m: nat)
    requires Shape(s) && Inv(s)
    ensures m <= |s.queues[1]| && TurnsAre(s.procs, s.queues[1], 0, m)
    ensures Mid(Handle(s, Tick)) && TickHandled(s, Handle(s, Tick), m)
  {
    hide Inv, Mid, WakeLoop, ChargeActive, TickHandled, TurnsAre, Due, DueOf, NotDueOf;
    var s1 := ChargeActive(s);
    TimerKeeps(s);
    NoTurns(s1, 0);
    LoopFrame(s1, 0);
    m := LoopQueues(s1, 0);
    TurnsCharged(s, 0);
    TurnsCharged(s, m);
    if s.active != -1 {
      ActiveNotAsleep(s);
    }
    TickFields(s, Handle(s, Tick), m);
  }

  lemma ActiveNotAsleep(s: Kernel)
    requires Shape(s) && Inv(s) && s.active != -1
    ensures s.procs[s.active].pid !in s.queues[1] && s.procs[s.active].state == Active
  {
    ActiveUnqueued(s.procs, s.active, s.queues, SLEEP);
  }

  /** The end of a time slice: the active process goes to the tail of the run queue, and the idle process nowhere. */
  lemma SliceOver(h: Kernel)
    requires Shape(h) && Mid(h) && h.active != -1 && h.procs[h.active].cpuTime == 10
    ensures var p := h.procs[h.active];
            Preempt(h) == h.(procs := h.procs[h.active := p.(state := Idle, cpuTime := 0)], active := -1,
                             queues := if h.active == 0 then h.queues else h.queues[0 := h.queues[0] + [p.pid]])
  {
    QueueNeverFull(h.procs, h.queues, RUN);
    EntryOfLive(h.procs, 0);
    assert Preempt(h).procs == h.procs[h.active := h.procs[h.active].(state := Idle, cpuTime := 0)];
  }

  lemma TickKeepsProcessor(s: Kernel, h: Kernel, m: nat)
    requires Shape(s) && Shape(h) && m <= |s.queues[1]| && TickHandled(s, h, m)
    requires s.active != -1 && s.procs[s.active].cpuTime != 9 && s.procs[s.active].state == Active
    ensures TickDone(s, h, m)
  {
  }

  lemma TickGivesProcessor(s: Kernel, h: Kernel, u: Kernel, t: Kernel, m: nat)
    requires Shape(s) && Shape(h) && Shape(u) && Shape(t) && m <= |s.queues[1]| && TickHandled(s, h, m)
    requires if s.active == -1 then u == h else
               s.procs[s.active].cpuTime == 9 &&
               var p := h.procs[s.active];
               u == h.(procs := h.procs[s.active := p.(state := Idle, cpuTime := 0)], active := -1,
                       queues := if s.active == 0 then h.queues else h.queues[0 := h.queues[0] + [p.pid]])
    requires Dispatched(u, t)
    ensures TickDone(s, t, m)
  {
    hide DueOf, NotDueOf;
    assert u.queues[0] == ReadyAfter(s, m);
    assert forall e :: 0 <= e < 20 ==> u.procs[e] == Ticked(s, m, e);
  }

  /** A tick in full. */
  lemma TickEntry(s: Kernel) returns (m: nat)
    requires Shape(s) && Inv(s)
    ensures m <= |s.queues[1]| && TurnsAre(s.procs, s.queues[1], 0, m) && TickDone(s, Step(s, Tick), m)
  {
    hide Inv, Mid, Handle, Preempt, Dispatch, TickHandled, TickDone, TurnsAre, Dispatched;
    m := HandleTick(s);
    var h := Handle(s, Tick);
    HandledActive(s, h, m);
    if s.active == -1 {
      Blocks(s, Tick);
      TickGivesProcessor(s, h, h, Step(s, Tick), m);
    } else {
      SliceUsed(s);
      ActiveNotAsleep(s);
      if s.procs[s.active].cpuTime != 9 {
        Stays(h);
        TickKeepsProcessor(s, h, m);
      } else {
        var u := Preempt(h);
        SliceOver(h);
        PreemptKeeps(h);
        InvIsMid(u);
        Leaves(u);
        PreemptTwice(u);
        TickGivesProcessor(s, h, u, Step(s, Tick), m);
      }
    }
  }

  lemma HandledActive(s: Kernel, h: Kernel, m: nat)
    requires Shape(s) && Shape(h) && m <= |s.queues[1]| && TickHandled(s, h, m)
    ensures h.active == s.active
    ensures s.active != -1 ==> h.procs[s.active].cpuTime == s.procs[s.active].cpuTime + 1
  {
  }

  lemma PreemptTwice(u: Kernel)
    requires Shape(u) && u.active == -1
    ensures Preempt(u) == u
  {
  }

  // ---- who keeps the processor ----

  /** The tenth tick of a slice while somebody else is ready or becomes so, exit or kill, a sleep call, a lock of
      an owned mutex, a wait on a semaphore without units. */
  ghost predicate GivesUp(s: Kernel, e: Event)
    requires Shape(s) && s.active != -1
  {
    match e
    case Tick => s.procs[s.active].cpuTime == 9 &&
                 (s.queues[0] != [] || exists x :: x in s.queues[1] && IsDue(s.procs, x))
    case CtrlQ => s.active > 0
    case ProcExit => s.active > 0
    case ProcSleep(seconds) => seconds >= 0
    case MutexLock(id) => 0 <= id < 16 && s.mutexes[id].owner != -1
    case SemWait(id) => 0 <= id < 16 && s.sems[id].inUse && s.sems[id].count == 0
    case _ => false
  }

  lemma {:induction false} DueListed(procs: seq<Pcb>, q: seq<int>)
    ensures forall x :: x in DueOf(procs, q) <==> x in q && IsDue(procs, x)
    ensures Due(procs, q) == |DueOf(procs, q)|
  {
    if q != [] {
      DueListed(procs, q[1..]);
      assert q == [q[0]] + q[1..];
    }
  }

  /** If anybody is due, somebody is woken. */
  lemma SomebodyWoken(procs: seq<Pcb>, q: seq<int>, m: nat)
    requires m <= |q| && TurnsAre(procs, q, 0, m)
    ensures DueOf(procs, q[..m]) != [] <==> exists x :: x in q && IsDue(procs, x)
  {
    DueListed(procs, q[..m]);
    if DueOf(procs, q[..m]) == [] {
      assert q[..m] == q;
      DueListed(procs, q);
    } else {
      var x := DueOf(procs, q[..m])[0];
      assert x in DueOf(procs, q[..m]);
    }
  }

  lemma NewcomerDiffers(s: Kernel, h: Kernel, t: Kernel)
    requires Shape(s) && Inv(s) && s.active > 0 && Shape(h) && Shape(t) && Dispatched(h, t)
    requires h.queues[0] == s.queues[0] && h.procs[0].pid == s.procs[0].pid
    ensures ActivePid(t) != ActivePid(s)
  {
    ActiveUnqueued(s.procs, s.active, s.queues, RUN);
    assert h.queues[0] != [] ==> h.queues[0][0] in s.queues[0];
  }

  /** The active process is neither ready nor asleep. */
  lemma OwnPid(s: Kernel, m: nat)
    requires Shape(s) && Inv(s) && s.active != -1 && m <= |s.queues[1]|
    ensures var own := s.procs[s.active].pid;
            own !in s.queues[0] && own !in DueOf(s.procs, s.queues[1][..m])
  {
    ActiveUnqueued(s.procs, s.active, s.queues, RUN);
    ActiveUnqueued(s.procs, s.active, s.queues, SLEEP);
    DueListed(s.procs, s.queues[1][..m]);
  }

  lemma TickChangesIff(s: Kernel)
    requires Shape(s) && Inv(s) && s.active != -1
    ensures ActivePid(Step(s, Tick)) != ActivePid(s) <==> GivesUp(s, Tick)
  {
    hide Inv, Step, TickDone, TurnsAre, Due, DueOf, IsDue;
    var m := TickEntry(s);
    var others := s.queues[0] + DueOf(s.procs, s.queues[1][..m]);
    SomebodyWoken(s.procs, s.queues[1], m);
    TickPids(s, Step(s, Tick), m);
    OwnPid(s, m);
    if s.procs[s.active].cpuTime == 9 {
      if others == [] {
        assert s.queues[0] == [] && DueOf(s.procs, s.queues[1][..m]) == [];
        assert !GivesUp(s, Tick);
        if s.active > 0 {
          assert ReadyAfter(s, m) == others + [s.procs[s.active].pid];
          assert ReadyAfter(s, m)[0] == s.procs[s.active].pid && ReadyAfter(s, m) != [];
        } else {
          assert ReadyAfter(s, m) == others + [];
          assert ReadyAfter(s, m) == [];
        }
      } else {
        assert ReadyAfter(s, m)[0] == others[0] && others[0] in others;
        assert s.queues[0] != [] || DueOf(s.procs, s.queues[1][..m]) != [];
      }
    }
  }

  lemma TickPids(s: Kernel, t: Kernel, m: nat)
    requires Shape(s) && Shape(t) && m <= |s.queues[1]| && TickDone(s, t, m)
    ensures 0 <= t.active < 20 && t.procs[t.active].pid == s.procs[t.active].pid
    ensures if s.active != -1 && s.procs[s.active].cpuTime != 9 then t.active == s.active
            else if ReadyAfter(s, m) == [] then t.active == 0 else s.procs[t.active].pid == ReadyAfter(s, m)[0]
  {
    assert t.procs[t.active] == Ticked(s, m, t.active).(state := Active);
  }

  /** After an unlock or a post, which may change the entry of another process, the caller goes on. */
  lemma CallerGoesOn(s: Kernel, e: Event)
    requires Shape(s) && Inv(s) && s.active > 0 && Guard(s, e) && (e.MutexUnlock? || e.SemPost?)
    ensures ActivePid(Step(s, e)) == ActivePid(s)
  {
    hide Inv, Step;
    match e
    case MutexUnlock(id) => var _ := UnlockEntry(s, id);
    case SemPost(id) => var _ := PostEntry(s, id);
  }

  /** Allocating and freeing ids, creating a process, and any other entry leave the caller running. */
  lemma AllocatorGoesOn(s: Kernel, e: Event)
    requires Shape(s) && Inv(s) && s.active != -1 && Enabled(s, e) && Guard(s, e)
    requires e.MutexInit? || e.MutexDestroy? || e.SemInit? || e.SemDestroy? || e.CtrlN? || e.OtherEntry?
    ensures ActivePid(Step(s, e)) == ActivePid(s)
  {
    IdleEntry(s);
    hide Inv, Step;
    match e
    case MutexInit => MutexInitEntry(s);
    case MutexDestroy(id) => MutexDestroyEntry(s, id);
    case SemInit(value) => SemInitEntry(s, value);
    case SemDestroy(id) => SemDestroyEntry(s, id);
    case CtrlN => CreateEntry(s);
    case OtherEntry => OtherEntryIsNothing(s);
  }

  /** The processor changes hands exactly then: whatever else a process calls, it goes on running. */
  lemma ProcessorChangesIff(s: Kernel, e: Event)
    requires Shape(s) && Inv(s) && s.active != -1 && Enabled(s, e) && Guard(s, e)
    ensures ActivePid(Step(s, e)) != ActivePid(s) <==> GivesUp(s, e)
  {
    hide Inv, Step, ActivePid, Guard;
    match e
    case Tick => TickChangesIff(s);
    case CtrlQ => KillChanges(s, e);
    case ProcExit => KillChanges(s, e);
    case ProcSleep(seconds) => SleepChanges(s, seconds);
    case MutexLock(id) => LockChanges(s, id);
    case SemWait(id) => WaitChanges(s, id);
    case MutexUnlock(_) => CallerGoesOn(s, e);
    case SemPost(_) => CallerGoesOn(s, e);
    case _ => AllocatorGoesOn(s, e);
  }

  lemma IdleEntry(s: Kernel)
    requires Inv(s)
    ensures |s.procs| == 20 && s.procs[0].pid == 0
  {
  }

  lemma KillChanges(s: Kernel, e: Event)
    requires Shape(s) && Inv(s) && s.active != -1 && (e == CtrlQ || (e == ProcExit && s.active > 0))
    ensures ActivePid(Step(s, e)) != ActivePid(s) <==> s.active > 0
  {
    hide Inv, Step, Dispatched;
    KillEntry(s, e);
    if s.active > 0 {
      var h := s.(procs := s.procs[s.active := Pcb(-1, NoState, -1, -1, 0)], active := -1,
                  freeEntries := s.freeEntries + [s.active]);
      NewcomerDiffers(s, h, Step(s, e));
    }
  }

  lemma SleepChanges(s: Kernel, seconds: int)
    requires Shape(s) && Inv(s) && s.active > 0
    ensures ActivePid(Step(s, ProcSleep(seconds))) != ActivePid(s) <==> seconds >= 0
  {
    hide Inv, Step, Dispatched;
    SleepEntry(s, seconds);
    if seconds >= 0 {
      var p := s.procs[s.active];
      var h := s.(procs := s.procs[s.active := p.(state := Sleeping, sleepTime := 100 * seconds)],
                  active := -1, queues := s.queues[1 := s.queues[1] + [p.pid]]);
      NewcomerDiffers(s, h, Step(s, ProcSleep(seconds)));
    }
  }

  lemma LockChanges(s: Kernel, id: int)
    requires Shape(s) && Inv(s) && s.active > 0 && Guard(s, MutexLock(id))
    ensures ActivePid(Step(s, MutexLock(id))) != ActivePid(s) <==> 0 <= id < 16 && s.mutexes[id].owner != -1
  {
    hide Inv, Step, Dispatched;
    LockEntry(s, id);
    if 0 <= id < 16 && s.mutexes[id].owner != -1 {
      var m, p := s.mutexes[id], s.procs[s.active];
      var h := s.(procs := s.procs[s.active := p.(state := Waiting)], active := -1,
                  queues := s.queues[2 + id := s.queues[2 + id] + [p.pid]],
                  mutexes := s.mutexes[id := Mutex(true, m.locks + 1, m.owner)]);
      NewcomerDiffers(s, h, Step(s, MutexLock(id)));
    }
  }

  lemma WaitChanges(s: Kernel, id: int)
    requires Shape(s) && Inv(s) && s.active > 0
    ensures ActivePid(Step(s, SemWait(id))) != ActivePid(s) <==>
              0 <= id < 16 && s.sems[id].inUse && s.sems[id].count == 0
  {
    hide Inv, Step, Dispatched;
    WaitEntry(s, id);
    if 0 <= id < 16 && s.sems[id].inUse && s.sems[id].count == 0 {
      var p := s.procs[s.active];
      var h := s.(procs := s.procs[s.active := p.(state := Waiting)], active := -1,
                  queues := s.queues[18 + id := s.queues[18 + id] + [p.pid]]);
      NewcomerDiffers(s, h, Step(s, SemWait(id)));
    }
  }

  // ---- what the calls report ----

  /** `kproc_create` reports the pid of the new process, which nobody had before, or -1 if the table is full. */
  lemma CreateReturns(s: Kernel)
    requires Shape(s) && Inv(s)
    ensures var (t, rc) := KprocCreate(s);
            (rc == -1 <==> s.freeEntries == []) &&
            (rc != -1 ==>
               var e := PidToProc(t, rc);
               rc >= 0 && PidToProc(s, rc) == -1 && 0 <= e < 20 && e == s.freeEntries[0] &&
               t.procs[e].pid == rc && t.queues[0] == s.queues[0] + [rc])
  {
    CreateKeeps(s);
    var (t, rc) := KprocCreate(s);
    if s.freeEntries != [] {
      EntryOfLive(t.procs, s.freeEntries[0]);
    }
  }

  /** `kproc_destroy` reports 0 exactly if the active process is another than the idle one. */
  lemma DestroyReturns(s: Kernel)
    requires Shape(s) && Inv(s)
    ensures KprocDestroy(s, s.active).1 == if s.active > 0 then 0 else -1
  {
    if s.active > 0 {
      ActiveUnqueued(s.procs, s.active, s.queues, RUN);
      EntryOfLive(s.procs, s.active);
      EntryOfLive(s.procs, 0);
      RemoveActive(s);
      FreeListBound(s.freeEntries, PROC_MAX);
    }
  }

  /** Initialisation reports the id handed out, which was not in use and is now, or -1 if there is none. */
  lemma InitReturns(s: Kernel, value: int)
    requires Shape(s) && Inv(s) && value >= 0
    ensures var (t, rc) := KmutexInit(s);
            if s.mutexPool == [] then rc == -1
            else 0 <= rc < 16 && !s.mutexes[rc].inUse && t.mutexes[rc].inUse && [rc] + t.mutexPool == s.mutexPool
    ensures var (t, rc) := KsemInit(s, value);
            if s.semPool == [] then rc == -1
            else 0 <= rc < 16 && !s.sems[rc].inUse && t.sems[rc] == Semaphore(true, value) &&
                 [rc] + t.semPool == s.semPool
  {
    hide Inv;
    MutexInitKeeps(s);
    SemInitKeeps(s, value);
  }

  /** Destroying an allocated mutex succeeds exactly if nobody owns it; destroying a semaphore exactly if it is
      allocated and has units. */
  lemma PoolDestroyReturns(s: Kernel, id: int)
    requires Shape(s) && Inv(s)
    ensures Guard(s, MutexDestroy(id)) ==>
              KmutexDestroy(s, id).1 == if 0 <= id < 16 && s.mutexes[id].owner == -1 then 0 else -1
    ensures KsemDestroy(s, id).1 == if 0 <= id < 16 && s.sems[id].inUse && s.sems[id].count > 0 then 0 else -1
  {
    FreeListBound(s.mutexPool, MUTEX_MAX);
    FreeListBound(s.semPool, SEM_MAX);
    hide Inv;
    if InRange(id, MUTEX_MAX) {
      MutexRuns.MutexState(s, id);
      SemRuns.SemState(s, id);
    }
  }

  /** A system call while nobody runs is a panic. */
  lemma CallWithoutCaller(s: Kernel, e: Event)
    requires Shape(s) && s.active == -1 && IsSyscall(e)
    ensures Step(s, e).panicked
  {
  }
}
