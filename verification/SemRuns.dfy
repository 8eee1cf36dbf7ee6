/** Semaphores over runs: units are conserved and blocked waiters are served in arrival order. */
module SemRuns {
  import opened Types
  import opened KernelSpec
  import opened Placement
  import opened Invariant
  import opened Runs
  import opened Fairness
  import opened Records
  import MutexRuns

  function Waiters(s: Kernel, m: int): seq<int>
    requires |s.queues| == PID_QUEUES && InRange(m, SEM_MAX)
  {
    s.queues[SemQ(m)]
  }

  /** How a kernel entry changes the count and the waiters of semaphore `m`. */
  ghost predicate SemMove(s: Kernel, t: Kernel, e: Event, m: int)
    requires Shape(s) && Shape(t) && InRange(m, SEM_MAX)
  {
    var c, c', q, q' := s.sems[m], t.sems[m], Waiters(s, m), Waiters(t, m);
    if e == SemWait(m) && c.inUse && c.count == 0 then s.active > 0 && c' == c && q' == q + [ActivePid(s)]
    else if e == SemWait(m) && c.inUse then c.count > 0 && c' == c.(count := c.count - 1) && q' == q
    else if e == SemPost(m) && c.inUse && q == [] then c' == c.(count := c.count + 1) && q' == q
    else if e == SemPost(m) && c.inUse then c' == c && q' == q[1..]
    else q' == q && (c.inUse && e != SemDestroy(m) ==> c' == c)
  }

  lemma SemState(s: Kernel, m: int)
    requires Shape(s) && Inv(s) && InRange(m, SEM_MAX)
    ensures s.sems[m].count >= 0 && (s.sems[m].count > 0 ==> Waiters(s, m) == [])
    ensures !s.sems[m].inUse ==> Waiters(s, m) == []
  {
    assert SemOk(s.sems[m], s.queues[SemQ(m)]);
  }

  /** Mutex calls leave semaphores and their queues alone. */
  lemma MutexCallSparesSems(s: Kernel, e: Event)
    requires Shape(s) && Inv(s) && Enabled(s, e) && Guard(s, e)
    requires e.MutexInit? || e.MutexDestroy? || e.MutexLock? || e.MutexUnlock?
    ensures var h := Handle(s, e);
            h.sems == s.sems && forall m :: 0 <= m < SEM_MAX ==> Waiters(h, m) == Waiters(s, m)
  {
    hide Inv, Mid, KmutexInit, KmutexDestroy, KmutexLock, KmutexUnlock, SchedulerAdd;
    match e
    case MutexInit => MutexInitKeeps(s);
    case MutexDestroy(id) =>
      if InRange(id, MUTEX_MAX) { MutexDestroyKeeps(s, id); } else { MutexRuns.OutOfRangeRefused(s, e); }
    case MutexLock(id) =>
      if InRange(id, MUTEX_MAX) { LockKeeps(s, id); } else { MutexRuns.OutOfRangeRefused(s, e); }
    case MutexUnlock(id) =>
      if InRange(id, MUTEX_MAX) {
        UnlockKeeps(s, id);
        if s.queues[MutexQ(id)] != [] { HandoffForm(s, MutexQ(id)); }
      } else {
        MutexRuns.OutOfRangeRefused(s, e);
      }
  }

  lemma PostMove(s: Kernel, id: int, m: int)
    requires Shape(s) && Inv(s) && InRange(id, SEM_MAX) && InRange(m, SEM_MAX)
    ensures SemMove(s, KsemPost(s, id).0, SemPost(id), m)
    ensures s.sems[id].inUse ==>
              KsemPost(s, id).0.queues[RUN] ==
              s.queues[RUN] + (if Waiters(s, id) == [] then [] else [Waiters(s, id)[0]])
  {
    hide Inv, KsemPost, SchedulerAdd;
    PostKeeps(s, id);
    SemState(s, id);
    if s.queues[SemQ(id)] != [] {
      HandoffForm(s, SemQ(id));
    }
  }

  lemma InitMove(s: Kernel, value: int, m: int)
    requires Shape(s) && Inv(s) && InRange(value, SEM_MAX + 1) && InRange(m, SEM_MAX)
    ensures SemMove(s, KsemInit(s, value).0, SemInit(value), m)
  {
    hide Inv, KsemInit;
    SemInitKeeps(s, value);
    SemState(s, m);
  }

  lemma DestroyMove(s: Kernel, id: int, m: int)
    requires Shape(s) && Inv(s) && InRange(id, SEM_MAX) && InRange(m, SEM_MAX)
    ensures SemMove(s, KsemDestroy(s, id).0, SemDestroy(id), m)
  {
    hide Inv, KsemDestroy;
    SemDestroyKeeps(s, id);
    SemState(s, m);
  }

  lemma WaitMove(s: Kernel, id: int, m: int)
    requires Shape(s) && Inv(s) && s.active > 0 && InRange(id, SEM_MAX) && InRange(m, SEM_MAX)
    ensures SemMove(s, KsemWait(s, id).0, SemWait(id), m)
  {
    hide Inv, KsemWait;
    WaitKeeps(s, id);
    SemState(s, id);
    SemState(s, m);
  }

  lemma UnchangedMove(s: Kernel, e: Event, m: int)
    requires Shape(s) && InRange(m, SEM_MAX) && e != SemWait(m) && e != SemPost(m)
    ensures SemMove(s, s, e, m)
  {
  }

  lemma RefusedMove(s: Kernel, e: Event, m: int)
    requires Shape(s) && Inv(s) && Enabled(s, e) && InRange(m, SEM_MAX)
    requires match e
             case SemDestroy(id) => !InRange(id, SEM_MAX)
             case SemWait(id) => !InRange(id, SEM_MAX)
             case SemPost(id) => !InRange(id, SEM_MAX + 1)
             case _ => false
    ensures SemMove(s, Handle(s, e), e, m)
  {
    hide Inv, Handle;
    MutexRuns.OutOfRangeRefused(s, e);
    UnchangedMove(s, e, m);
  }

  lemma SemCallMove(s: Kernel, e: Event, m: int)
    requires Shape(s) && Inv(s) && Enabled(s, e) && Guard(s, e) && InRange(m, SEM_MAX)
    requires e.SemInit? || e.SemDestroy? || e.SemWait? || e.SemPost?
    ensures SemMove(s, Handle(s, e), e, m)
  {
    hide Inv, KsemInit, KsemDestroy, KsemWait, KsemPost, SemMove;
    match e
    case SemInit(value) => if InRange(value, SEM_MAX + 1) { InitMove(s, value, m); } else { UnchangedMove(s, e, m); }
    case SemDestroy(id) => if InRange(id, SEM_MAX) { DestroyMove(s, id, m); } else { RefusedMove(s, e, m); }
    case SemWait(id) => if InRange(id, SEM_MAX) { WaitMove(s, id, m); } else { RefusedMove(s, e, m); }
    case SemPost(id) => if InRange(id, SEM_MAX) { PostMove(s, id, m); } else { RefusedMove(s, e, m); }
  }

  lemma HandleSemMove(s: Kernel, e: Event, m: int)
    requires Shape(s) && Inv(s) && Enabled(s, e) && Guard(s, e) && InRange(m, SEM_MAX)
    ensures SemMove(s, Handle(s, e), e, m)
  {
    hide Inv, Mid, KsemInit, KsemDestroy, KsemWait, KsemPost;
    if ProcessEvent(e) {
      MutexRuns.ProcessQueues(s, e);
      hide Handle;
    } else if e.MutexInit? || e.MutexDestroy? || e.MutexLock? || e.MutexUnlock? {
      MutexCallSparesSems(s, e);
      hide Handle;
    } else {
      SemCallMove(s, e, m);
    }
  }

  lemma StepSemMove(s: Kernel, e: Event, m: int)
    requires Shape(s) && Inv(s) && Enabled(s, e) && Guard(s, e) && InRange(m, SEM_MAX)
    ensures SemMove(s, Step(s, e), e, m)
  {
    hide Inv, Handle, SchedulerRun;
    HandleSemMove(s, e, m);
    RunFrame(Handle(s, e));
  }

  /** A post neither blocks nor preempts its caller: the entry only extends the run queue,
      by the process that has waited longest. */
  lemma PostReadies(s: Kernel, m: int)
    requires Shape(s) && Inv(s) && Enabled(s, SemPost(m)) && InRange(m, SEM_MAX) && s.sems[m].inUse
    ensures Step(s, SemPost(m)).queues[RUN] ==
            s.queues[RUN] + (if Waiters(s, m) == [] then [] else [Waiters(s, m)[0]])
  {
    hide Inv, Mid, KsemPost, SchedulerRun;
    var h := Handle(s, SemPost(m));
    PostKeeps(s, m);
    PostMove(s, m, m);
    HandleMid(s, SemPost(m));
    PostActive(s, m);
    RunAdvances(h);
  }

  lemma PostActive(s: Kernel, m: int)
    requires Shape(s) && Inv(s) && Enabled(s, SemPost(m)) && InRange(m, SEM_MAX)
    ensures var h := Handle(s, SemPost(m)); h.active != NULL && h.procs[h.active].cpuTime < TIMESLICE
  {
    hide Inv, Mid, KsemPost;
    var f := SemPostEffect(s, m);
    SliceUsed(s);
    PostKeepsActive(s, m);
  }

  lemma PostKeepsActive(s: Kernel, m: int)
    requires Shape(s) && InRange(m, SEM_MAX)
    ensures KsemPost(s, m).0.active == s.active
  {
  }

  // ---- what the calls report ----

  /** `ksem_wait` reports the count after the call, and -1 exactly for a semaphore that does not exist. */
  lemma WaitReturns(s: Kernel, id: int)
    requires Shape(s) && Inv(s) && s.active > 0
    ensures var (t, rc) := KsemWait(s, id);
            rc == if InRange(id, SEM_MAX) && s.sems[id].inUse then t.sems[id].count else -1
  {
    hide Inv;
    if InRange(id, SEM_MAX) {
      SemState(s, id);
      WaitKeeps(s, id);
    }
  }

  /** `ksem_post` is meant to report the count after the call; it does so exactly if somebody was
      waiting, and otherwise reports an error although the post has taken effect. */
  lemma PostReturnsIff(s: Kernel, id: int)
    requires Shape(s) && Inv(s) && InRange(id, SEM_MAX)
    ensures var (t, rc) := KsemPost(s, id);
            if !s.sems[id].inUse then rc == -1 && t == s
            else
              (rc == t.sems[id].count <==> Waiters(s, id) != []) &&
              (Waiters(s, id) == [] ==> rc == -1 && t.sems[id].count == s.sems[id].count + 1)
  {
    hide Inv;
    SemState(s, id);
    PostKeeps(s, id);
    if s.sems[id].inUse && Waiters(s, id) != [] {
      HandoffForm(s, SemQ(id));
    }
  }

  // ---- the history of semaphore `m` ----

  /** The pid of a process that has to block in this wait call. */
  function BlockedBy(s: Kernel, e: Event, m: int): seq<int>
    requires NULL <= s.active < |s.procs| && |s.sems| == SEM_MAX && InRange(m, SEM_MAX)
  {
    if e == SemWait(m) && s.sems[m].inUse && s.sems[m].count == 0 then [ActivePid(s)] else []
  }

  /** The pid of the process that a post makes ready to run, read off the run queue. */
  function ReleasedBy(s: Kernel, t: Kernel, e: Event, m: int): seq<int>
    requires |s.queues| == PID_QUEUES && |t.queues| == PID_QUEUES && |s.sems| == SEM_MAX && InRange(m, SEM_MAX)
  {
    if e == SemPost(m) && s.sems[m].inUse && |t.queues[RUN]| > |s.queues[RUN]| then t.queues[RUN][|s.queues[RUN]|..]
    else []
  }

  ghost function Blocked(s: Kernel, es: seq<Event>, m: int): seq<int>
    requires Shape(s) && Legal(s, es) && InRange(m, SEM_MAX)
    decreases |es|
  {
    if es == [] then [] else BlockedBy(s, es[0], m) + Blocked(Step(s, es[0]), es[1..], m)
  }

  ghost function Released(s: Kernel, es: seq<Event>, m: int): seq<int>
    requires Shape(s) && Legal(s, es) && InRange(m, SEM_MAX)
    decreases |es|
  {
    if es == [] then []
    else ReleasedBy(s, Step(s, es[0]), es[0], m) + Released(Step(s, es[0]), es[1..], m)
  }

  /** Wait calls that take a unit at once. */
  ghost function TakenAtOnce(s: Kernel, es: seq<Event>, m: int): nat
    requires Shape(s) && Legal(s, es) && InRange(m, SEM_MAX)
    decreases |es|
  {
    if es == [] then 0
    else (if es[0] == SemWait(m) && s.sems[m].count > 0 then 1 else 0) + TakenAtOnce(Step(s, es[0]), es[1..], m)
  }

  function Calls(es: seq<Event>, e: Event): nat {
    if es == [] then 0 else (if es[0] == e then 1 else 0) + Calls(es[1..], e)
  }

  lemma StepReleases(s: Kernel, e: Event, m: int)
    requires Shape(s) && Inv(s) && Enabled(s, e) && Guard(s, e) && InRange(m, SEM_MAX)
    ensures Waiters(s, m) + BlockedBy(s, e, m) == ReleasedBy(s, Step(s, e), e, m) + Waiters(Step(s, e), m)
  {
    hide Inv, Step;
    var t := Step(s, e);
    StepSemMove(s, e, m);
    if e == SemPost(m) && s.sems[m].inUse {
      PostReadies(s, m);
      var q := Waiters(s, m);
      assert q != [] ==> q == [q[0]] + q[1..];
    }
  }

  /** Blocked waiters complete in arrival order, in every run. */
  lemma {:induction false} SemFifo(s: Kernel, es: seq<Event>, m: int)
    requires Shape(s) && Inv(s) && Legal(s, es) && InRange(m, SEM_MAX)
    ensures Waiters(s, m) + Blocked(s, es, m) == Released(s, es, m) + Waiters(Run(s, es), m)
    decreases |es|
  {
    hide Inv, Step;
    if es != [] {
      var t := Step(s, es[0]);
      StepKeeps(s, es[0]);
      StepReleases(s, es[0], m);
      SemFifo(t, es[1..], m);
      MutexRuns.FifoChain(Waiters(s, m), BlockedBy(s, es[0], m), ReleasedBy(s, t, es[0], m), Waiters(t, m),
                          Blocked(t, es[1..], m), Released(t, es[1..], m), Waiters(Run(t, es[1..]), m));
    }
  }

  lemma StepUnits(s: Kernel, e: Event, m: int)
    requires Shape(s) && Inv(s) && Enabled(s, e) && Guard(s, e) && InRange(m, SEM_MAX)
    requires s.sems[m].inUse && e != SemDestroy(m)
    ensures var t := Step(s, e);
            t.sems[m].inUse &&
            s.sems[m].count + (if e == SemPost(m) then 1 else 0) ==
            t.sems[m].count + (if e == SemWait(m) && s.sems[m].count > 0 then 1 else 0) + |ReleasedBy(s, t, e, m)|
  {
    hide Inv, Step;
    StepSemMove(s, e, m);
    if e == SemPost(m) {
      PostReadies(s, m);
    }
  }

  /** Conservation of units: while a semaphore is allocated, its count at the start plus the posts equals
      its count at the end plus the completed waits, whether taken at once or handed over by a post. */
  lemma {:induction false} SemConservation(s: Kernel, es: seq<Event>, m: int)
    requires Shape(s) && Inv(s) && Legal(s, es) && InRange(m, SEM_MAX)
    requires s.sems[m].inUse && SemDestroy(m) !in es
    ensures var t := Run(s, es);
            t.sems[m].inUse && t.sems[m].count >= 0 && (t.sems[m].count > 0 ==> Waiters(t, m) == []) &&
            s.sems[m].count + Calls(es, SemPost(m)) == t.sems[m].count + TakenAtOnce(s, es, m) + |Released(s, es, m)|
    decreases |es|
  {
    hide Inv, Step;
    if es == [] {
      SemState(s, m);
    } else {
      StepKeeps(s, es[0]);
      StepUnits(s, es[0], m);
      SemConservation(Step(s, es[0]), es[1..], m);
    }
  }

  /** Every wait call on an allocated semaphore either takes a unit at once or blocks. */
  lemma {:induction false} WaitsAccounted(s: Kernel, es: seq<Event>, m: int)
    requires Shape(s) && Inv(s) && Legal(s, es) && InRange(m, SEM_MAX)
    requires s.sems[m].inUse && SemDestroy(m) !in es
    ensures Calls(es, SemWait(m)) == TakenAtOnce(s, es, m) + |Blocked(s, es, m)|
    decreases |es|
  {
    hide Inv, Step;
    if es != [] {
      StepKeeps(s, es[0]);
      StepUnits(s, es[0], m);
      SemState(s, m);
      WaitsAccounted(Step(s, es[0]), es[1..], m);
    }
  }

  /** Since a semaphore was initialised: its initial value plus the posts are its count plus the
      completed waits, and those who had to block are, in order, those released, followed by those
      still waiting. */
  lemma HistorySinceInit(s: Kernel, value: int, es: seq<Event>)
    requires Shape(s) && Inv(s) && Enabled(s, SemInit(value)) && InRange(value, SEM_MAX + 1) && s.semPool != []
    requires Legal(Step(s, SemInit(value)), es) && SemDestroy(s.semPool[0]) !in es
    ensures var t, m := Step(s, SemInit(value)), s.semPool[0];
            InRange(m, SEM_MAX) && KsemInit(s, value).1 == m &&
            value + Calls(es, SemPost(m)) == Run(t, es).sems[m].count + TakenAtOnce(t, es, m) + |Released(t, es, m)| &&
            Blocked(t, es, m) == Released(t, es, m) + Waiters(Run(t, es), m)
  {
    hide Inv, Step;
    var t, m := Step(s, SemInit(value)), s.semPool[0];
    FreshSem(s, value);
    StepKeeps(s, SemInit(value));
    SemConservation(t, es, m);
    SemFifo(t, es, m);
    assert [] + Blocked(t, es, m) == Blocked(t, es, m);
  }

  lemma FreshSem(s: Kernel, value: int)
    requires Shape(s) && Inv(s) && Enabled(s, SemInit(value)) && InRange(value, SEM_MAX + 1) && s.semPool != []
    ensures var t, m := Step(s, SemInit(value)), s.semPool[0];
            InRange(m, SEM_MAX) && KsemInit(s, value).1 == m &&
            t.sems[m] == Semaphore(true, value) && Waiters(t, m) == []
  {
    hide Inv, SchedulerRun;
    SemInitKeeps(s, value);
    SemState(s, s.semPool[0]);
    RunFrame(Handle(s, SemInit(value)));
  }
}
