/** Round-robin fairness: a process that is ready to run waits a bounded number of ticks. */
module Fairness {
  import opened Types
  import opened KernelSpec
  import opened Placement
  import opened Invariant
  import opened Runs

  /** Ticks until the process at position `k` of the run queue is certainly active. */
  function Wait(s: Kernel, k: int): int
    requires 0 <= s.active < |s.procs|
  {
    10 * k + (10 - s.procs[s.active].cpuTime)
  }

  lemma {:induction false} WakeLoopAppends(s: Kernel, i: nat)
    requires Shape(s) && Mid(s)
    ensures s.queues[RUN] <= WakeLoop(s, i).queues[RUN]
    ensures WakeLoop(s, i).active == s.active
    ensures s.active != NULL ==> WakeLoop(s, i).procs[s.active] == s.procs[s.active]
    decreases |s.queues[SLEEP]| - i
  {
    hide Mid, WakeOne;
    if i < |s.queues[SLEEP]| {
      var _ := WakeOneTurn(s);
      WakeLoopAppends(WakeOne(s), i + 1);
    }
  }

  /** What a handler does to the run queue and to the active process's time slice. */
  ghost predicate Advances(s: Kernel, h: Kernel, ticked: int)
    requires Shape(s) && Shape(h) && s.active != NULL
  {
    && s.queues[RUN] <= h.queues[RUN]
    && (h.active != NULL ==>
          h.active == s.active && h.procs[h.active].pid == s.procs[s.active].pid &&
          h.procs[h.active].cpuTime == s.procs[s.active].cpuTime + ticked)
  }

  lemma HandleAdvances(s: Kernel, e: Event)
    requires Inv(s) && s.active != NULL && Enabled(s, e) && Guard(s, e)
    ensures Advances(s, Handle(s, e), if e == Tick then 1 else 0)
  {
    if ProcessEvent(e) {
      ProcessAdvances(s, e);
    } else {
      LockAdvances(s, e);
    }
  }

  lemma ProcessAdvances(s: Kernel, e: Event)
    requires Inv(s) && s.active != NULL && Enabled(s, e) && ProcessEvent(e)
    ensures Advances(s, Handle(s, e), if e == Tick then 1 else 0)
  {
    match e
    case Tick =>
      TimerKeeps(s);
      WakeLoopAppends(ChargeActive(s), 0);
    case CtrlN => CreateKeeps(s);
    case CtrlQ => DestroyKeeps(s);
    case OtherEntry =>
    case ProcSleep(seconds) => if seconds >= 0 { SleepKeeps(s, seconds * TICKS_PER_SECOND); }
    case ProcExit => DestroyKeeps(s);
  }

  lemma LockAdvances(s: Kernel, e: Event)
    requires Inv(s) && s.active != NULL && Enabled(s, e) && Guard(s, e) && !ProcessEvent(e)
    ensures Advances(s, Handle(s, e), 0)
  {
    var f := LockEffect(s, e);
    hide Handle, Mid;
  }

  /** The scheduler run: the active process keeps the processor and the run queue is
      untouched, or the head of the extended run queue is dispatched with a fresh slice. */
  ghost predicate Chosen(h: Kernel, t: Kernel)
    requires Shape(h) && Shape(t)
  {
    t.active != NULL &&
    if h.active != NULL && h.procs[h.active].cpuTime < TIMESLICE then t == h
    else h.queues[RUN] != [] ==>
      (t.procs[t.active].pid == h.queues[RUN][0] && t.procs[t.active].cpuTime == 0 &&
       h.queues[RUN][1..] <= t.queues[RUN])
  }

  lemma RunAdvances(h: Kernel)
    requires Mid(h)
    ensures Chosen(h, SchedulerRun(h))
  {
    PreemptKeeps(h);
    PreemptAppends(h);
    DispatchKeeps(Preempt(h));
    hide Mid, Inv, Preempt, Dispatch;
  }

  lemma PreemptAppends(h: Kernel)
    requires Mid(h)
    ensures h.queues[RUN] <= Preempt(h).queues[RUN]
    ensures h.active != NULL && h.procs[h.active].cpuTime < TIMESLICE <==> Preempt(h).active != NULL
    ensures Preempt(h).active != NULL ==> Preempt(h) == h
  {
  }

  /** Where the process at position `k` ends up, given what handler and scheduler did. */
  lemma WaitAfter(s: Kernel, h: Kernel, t: Kernel, ticked: int, k: nat) returns (k': int)
    requires Shape(s) && Shape(h) && Shape(t) && s.active != NULL && k < |s.queues[RUN]|
    requires Advances(s, h, ticked) && Chosen(h, t) && 0 <= s.procs[s.active].cpuTime < TIMESLICE && ticked <= 1
    ensures t.active != NULL
    ensures if k' == NULL then ActivePid(t) == s.queues[RUN][k]
            else 0 <= k' < |t.queues[RUN]| && t.queues[RUN][k'] == s.queues[RUN][k] &&
                 Wait(t, k') + ticked <= Wait(s, k)
  {
    assert h.queues[RUN][k] == s.queues[RUN][k];
    if h.active != NULL && h.procs[h.active].cpuTime < TIMESLICE {
      k' := k;
    } else if k == 0 {
      k' := NULL;
    } else {
      k' := k - 1;
      assert h.queues[RUN][1..][k'] == s.queues[RUN][k];
    }
  }

  /** One kernel entry: the process at position `k` is dispatched, or its waiting time drops
      by at least one on a tick and never rises. */
  lemma WaitDrops(s: Kernel, e: Event, k: nat) returns (k': int)
    requires Inv(s) && s.active != NULL && Enabled(s, e) && Guard(s, e) && k < |s.queues[RUN]|
    ensures Inv(Step(s, e)) && Step(s, e).active != NULL
    ensures var t := Step(s, e);
            if k' == NULL then ActivePid(t) == s.queues[RUN][k]
            else 0 <= k' < |t.queues[RUN]| && t.queues[RUN][k'] == s.queues[RUN][k] &&
                 Wait(t, k') + (if e == Tick then 1 else 0) <= Wait(s, k)
  {
    StepKeeps(s, e);
    HandleAdvances(s, e);
    HandleMid(s, e);
    RunAdvances(Handle(s, e));
    SliceUsed(s);
    InvIsMid(s);
    hide Mid, Inv, Shape, Handle, SchedulerRun, Advances, Chosen;
    k' := WaitAfter(s, Handle(s, e), Step(s, e), if e == Tick then 1 else 0, k);
  }

  lemma HandleMid(s: Kernel, e: Event)
    requires Inv(s) && Enabled(s, e) && Guard(s, e)
    ensures Mid(Handle(s, e))
  {
    hide Handle;
    if ProcessEvent(e) {
      HandleProcessKeeps(s, e);
    } else {
      var _ := LockEffect(s, e);
    }
  }

  lemma SliceUsed(s: Kernel)
    requires Inv(s) && s.active != NULL
    ensures 0 <= s.procs[s.active].cpuTime < TIMESLICE
  {
  }

  /** No starvation: in every run with at least `Wait(s, k)` ticks, whatever else happens in
      between, the process at position `k` of the run queue is the active process after some
      entry. The result is the number of entries after which it is. */
  lemma {:induction false} NoStarvation(s: Kernel, es: seq<Event>, k: nat) returns (n: nat)
    requires Shape(s) && Inv(s) && s.active != NULL && k < |s.queues[RUN]| && Legal(s, es)
    requires Ticks(es) >= Wait(s, k)
    ensures 0 < n <= |es| && Legal(s, es[..n]) && ActivePid(Run(s, es[..n])) == s.queues[RUN][k]
    decreases |es|
  {
    hide Inv, Step;
    SliceUsed(s);
    var k' := WaitDrops(s, es[0], k);
    var t := Step(s, es[0]);
    if k' == NULL {
      n := 1;
      assert es[..1][1..] == [];
    } else {
      n := NoStarvation(t, es[1..], k');
      assert es[..n + 1][1..] == es[1..][..n];
      n := n + 1;
    }
  }
}
