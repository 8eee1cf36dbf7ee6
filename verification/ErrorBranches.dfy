/** The error branches that no reachable state takes: what the routines do there all the same, for
    any contents of the tables. */
module ErrorBranches {
  import opened Types
  import opened KernelSpec
  import opened Placement
  import opened Invariant

  /** Making nobody ready, or one process too many, is a panic; the idle process is never queued. */
  lemma AddBranches(s: Kernel, proc: int)
    requires Shape(s) && -1 <= proc < 20
    ensures var t := SchedulerAdd(s, proc);
            if proc == -1 then t == s.(panicked := true)
            else if s.procs[proc].pid == 0 then t == s
            else if |s.queues[0]| >= 32 then t == s.(panicked := true)
            else t == s.(procs := s.procs[proc := s.procs[proc].(state := Idle, cpuTime := 0)],
                         queues := s.queues[0 := s.queues[0] + [s.procs[proc].pid]])
  {
  }

  /** Removing any process rotates it out of the run queue; only the active process loses the processor. */
  lemma RemoveBranches(s: Kernel, proc: int)
    requires Shape(s) && -1 <= proc < 20 && (proc != -1 ==> s.procs[proc].pid !in s.queues[0])
    ensures var t := SchedulerRemove(s, proc);
            if proc != -1 && s.active != -1 && s.procs[s.active].pid == s.procs[proc].pid
            then t == s.(active := -1) else t == s
  {
    if proc != -1 {
      RemoveAbsent(s.queues[RUN], s.procs[proc].pid);
      assert s.queues[RUN := s.queues[RUN]] == s.queues;
    }
  }

  /** Putting nobody to sleep is a panic; a process that is asleep already only has its time set; one that finds the
      sleep queue full is marked asleep and in no queue. */
  lemma SleepBranches(s: Kernel, proc: int, ticks: int)
    requires Shape(s) && -1 <= proc < 20
    ensures var t := SchedulerSleep(s, proc, ticks);
            (proc == -1 ==> t == s.(panicked := true)) &&
            (proc != -1 && s.procs[proc].state == Sleeping ==>
               t == s.(procs := s.procs[proc := s.procs[proc].(sleepTime := ticks)])) &&
            (proc != -1 && s.procs[proc].state != Sleeping && |s.queues[1]| >= 32 ==>
               t.queues[1] == s.queues[1] && t.procs[proc].state == Sleeping && t.procs[proc].sleepTime == ticks)
  {
  }

  /** A sleeper that no live process is, is dropped; a waking process that finds the run queue full is a panic; one
      that has time left and finds the sleep queue full is in no queue. */
  lemma WakeBranches(s: Kernel)
    requires Shape(s) && s.queues[1] != []
    ensures var t, q, e := WakeOne(s), s.queues[1], PidToProc(s, s.queues[1][0]);
            t.queues[1] == (if e == -1 || s.procs[e].sleepTime == 1 || |q| > 32 then q[1..] else q[1..] + [q[0]]) &&
            (e == -1 ==> t == s.(queues := s.queues[1 := q[1..]])) &&
            (e != -1 && s.procs[e].sleepTime == 1 && s.procs[e].pid != 0 && |s.queues[0]| >= 32 ==> t.panicked)
  {
  }

  /** A pid that has not been given out names nobody, whatever the table holds. */
  lemma UnassignedPid(s: Kernel, pid: int)
    requires Shape(s) && (pid < 0 || pid >= s.nextPid)
    ensures PidToProc(s, pid) == -1
  {
  }

  /** With nobody ready and no idle process, or with an unknown pid at the head of the run queue, the
      scheduler panics. */
  lemma NobodyToRun(s: Kernel)
    requires Shape(s) && s.active == -1
    requires PidToProc(s, if s.queues[0] == [] then 0 else s.queues[0][0]) == -1
    ensures SchedulerRun(s).panicked && SchedulerRun(s).active == -1
  {
  }

  /** A caller that would have to block but finds the wait queue full is refused, marked as waiting; so is a call that
      would have to block nobody. */
  lemma FullWaitQueue(s: Kernel, id: int)
    requires Shape(s) && 0 <= id < 16
    ensures s.mutexes[id].owner != -1 && s.active == -1 ==> KmutexLock(s, id) == (s, -1)
    ensures s.mutexes[id].owner != -1 && s.active != -1 && |s.queues[2 + id]| >= 32 ==>
              KmutexLock(s, id) == (s.(procs := s.procs[s.active := s.procs[s.active].(state := Waiting)]), -1)
    ensures s.sems[id].inUse && s.sems[id].count == 0 && s.active == -1 ==> KsemWait(s, id) == (s, -1)
    ensures s.sems[id].inUse && s.sems[id].count == 0 && s.active != -1 && |s.queues[18 + id]| >= 32 ==>
              KsemWait(s, id) == (s.(procs := s.procs[s.active := s.procs[s.active].(state := Waiting)]), -1)
    ensures s.sems[id].inUse && s.sems[id].count < 0 ==> KsemWait(s, id) == (s, -1)
  {
  }

  /** An owned mutex that is locked more than once but has no waiters loses a lock and keeps its owner. */
  lemma LostWaiter(s: Kernel, id: int)
    requires Shape(s) && 0 <= id < 16 && s.queues[2 + id] == []
    requires s.mutexes[id].owner != -1 && s.mutexes[id].locks != 1
    ensures var m := s.mutexes[id];
            KmutexUnlock(s, id) == (s.(mutexes := s.mutexes[id := m.(locks := m.locks - 1)]), -1)
  {
  }

  /** An id that finds its pool full is not given back, and a mutex or semaphore is then not cleared. */
  lemma FullPools(s: Kernel, id: int)
    requires Shape(s) && 0 <= id < 16
    ensures |s.mutexPool| >= 32 ==> KmutexDestroy(s, id) == (s, -1)
    ensures |s.semPool| >= 32 ==> KsemDestroy(s, id) == (s, -1)
  {
  }

  /** A process entry that finds the free list full is cleared all the same, and lost. */
  lemma FullFreeList(s: Kernel)
    requires Shape(s) && s.active != -1 && s.procs[s.active].pid > 0 && |s.freeEntries| >= 32
    ensures var (t, rc) := KprocDestroy(s, s.active);
            rc == -1 && t.freeEntries == s.freeEntries &&
            exists e :: 0 <= e < 20 && s.procs[e].pid == s.procs[s.active].pid &&
                        t.procs[e] == Pcb(-1, NoState, -1, -1, 0)
  {
    var e := EntryOf(s.procs, s.procs[s.active].pid);
    assert e != -1 && KprocDestroy(s, s.active).0.procs[e] == FREE_PCB;
  }
}
