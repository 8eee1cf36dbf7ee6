/** How long a sleeping process sleeps. The wake-up loop re-reads the size of a queue that it
    shrinks, so it can skip sleepers on a tick that wakes others. */
module SleepWindow {
  import opened Types
  import opened KernelSpec
  import opened Placement
  import opened Invariant
  import opened Runs
  import opened Fairness

  predicate Asleep(s: Kernel, e: int)
    requires 0 <= e < |s.procs|
  {
    s.procs[e].state == Sleeping
  }

  /** The process has been woken: it is the same one, ready to run or running. */
  predicate Awakened(p: Pcb, q: Pcb) {
    q.pid == p.pid && q.sleepTime == 0 && (q.state == Idle || q.state == Active)
  }

  function Sleepers(s: Kernel): nat
    requires |s.queues| == PID_QUEUES
  {
    |s.queues[SLEEP]|
  }

  /** A process that is not asleep is untouched by the wake-up loop. */
  lemma {:induction false} LoopSpares(s: Kernel, i: nat, e: int)
    requires Shape(s) && Mid(s) && 0 <= e < PROC_MAX && !Asleep(s, e)
    ensures WakeLoop(s, i).procs[e] == s.procs[e]
    decreases |s.queues[SLEEP]| - i
  {
    hide Mid, WakeOne;
    if i < |s.queues[SLEEP]| {
      var _ := WakeOneTurn(s);
      LoopSpares(WakeOne(s), i + 1, e);
    }
  }

  /** The wake-up loop seen from a sleeper at index `j`. The first `u` queued processes have not
      had their turn; the sleeper either has had it, gets it, or is skipped and the queue shrinks. */
  lemma {:induction false} LoopTurn(s: Kernel, i: nat, u: nat, n: nat, e: int, j: nat)
    requires Shape(s) && Mid(s) && 0 <= e < PROC_MAX
    requires u + i == n && u <= Sleepers(s) <= n
    requires j < Sleepers(s) && s.queues[SLEEP][j] == s.procs[e].pid && Asleep(s, e)
    ensures var t := WakeLoop(s, i);
            if j >= u then t.procs[e] == s.procs[e]
            else t.procs[e] == AfterTurn(s.procs[e]) || (t.procs[e] == s.procs[e] && Sleepers(t) < n)
    decreases |s.queues[SLEEP]| - i
  {
    hide Mid, WakeOne;
    if i < Sleepers(s) {
      var s1 := WakeOne(s);
      var head := WakeOneTurn(s);
      SleeperAt(s, e, head, j);
      if j > 0 {
        assert s1.queues[SLEEP][j - 1] == s.procs[e].pid;
        LoopTurn(s1, i + 1, u - 1, n, e, j - 1);
      } else if s.procs[e].sleepTime == 1 {
        LoopSpares(s1, i + 1, e);
      } else {
        LoopTurn(s1, i + 1, u - 1, n, e, Sleepers(s1) - 1);
      }
    }
  }

  /** Position `j` of the sleep queue belongs to entry `e`, and to no other. */
  lemma SleeperAt(s: Kernel, e: int, head: int, j: nat)
    requires Shape(s) && Mid(s) && 0 <= head < PROC_MAX && Sleepers(s) > 0 && s.procs[head].pid == s.queues[SLEEP][0]
    requires 0 <= e < PROC_MAX && j < Sleepers(s) && s.queues[SLEEP][j] == s.procs[e].pid
    requires Asleep(s, e)
    ensures j > 0 <==> head != e
  {
    if j > 0 {
      assert s.queues[SLEEP][0] != s.queues[SLEEP][j];
    }
  }

  // ---- who is passed over ----

  predicate IsDue(procs: seq<Pcb>, pid: int) {
    var e := EntryOf(procs, pid);
    e != NULL && procs[e].sleepTime == 1
  }

  /** How many of the queued processes are due on the next tick. */
  function Due(procs: seq<Pcb>, q: seq<int>): nat {
    if q == [] then 0 else (if IsDue(procs, q[0]) then 1 else 0) + Due(procs, q[1..])
  }

  function IndexOf(q: seq<int>, x: int): (j: nat)
    ensures if x in q then j < |q| && q[j] == x && x !in q[..j] else j == |q|
  {
    if q == [] || q[0] == x then 0 else
      assert q == [q[0]] + q[1..];
      var j := IndexOf(q[1..], x) + 1;
      assert q[..j] == [q[0]] + q[1..][..j - 1];
      j
  }

  /** The next tick's loop ends before the turn of entry `e`: every due process before it takes a place
      off the end of the loop. */
  predicate PassedOver(s: Kernel, e: int)
    requires |s.queues| == PID_QUEUES && 0 <= e < |s.procs|
  {
    var q := s.queues[SLEEP];
    var j := IndexOf(q, s.procs[e].pid);
    j + Due(s.procs, q[..j]) >= |q|
  }

  /** A process that is not in `q` does not count in `Due`. */
  lemma {:induction false} DueKept(procs: seq<Pcb>, e: int, p: Pcb, q: seq<int>)
    requires 0 <= e < |procs| && p.pid == procs[e].pid && p.pid !in q
    ensures Due(procs[e := p], q) == Due(procs, q)
  {
    if q != [] {
      EntryOfSamePids(procs, procs[e := p], q[0]);
      DueKept(procs, e, p, q[1..]);
    }
  }

  /** One turn of the loop leaves the others' count as it is, and the queue moves up by one. */
  lemma TurnDue(s: Kernel, t: Kernel, head: int, j: nat)
    requires Shape(s) && Mid(s) && Shape(t) && 0 < j <= Sleepers(s) && TurnTaken(s, t, head)
    ensures Sleepers(t) >= j - 1 && t.queues[SLEEP][..j - 1] == s.queues[SLEEP][1..j]
    ensures var due := if s.procs[head].sleepTime == 1 then 1 else 0;
            Sleepers(t) == Sleepers(s) - due &&
            Due(s.procs, s.queues[SLEEP][..j]) == due + Due(t.procs, t.queues[SLEEP][..j - 1])
  {
    var q := s.queues[SLEEP];
    HeadNotInTail(q);
    EntryOfLive(s.procs, head);
    hide Mid;
    DueKept(s.procs, head, AfterTurn(s.procs[head]), q[1..j]);
    assert q[..j][1..] == q[1..j];
  }

  /** The loop exactly: the sleeper at index `j` has its turn if `j` and the due processes before it leave
      room for it, and is otherwise untouched. */
  lemma {:induction false} LoopExact(s: Kernel, i: nat, u: nat, n: nat, e: int, j: nat)
    requires Shape(s) && Mid(s) && 0 <= e < PROC_MAX
    requires u + i == n && u <= Sleepers(s) <= n
    requires j < u && s.queues[SLEEP][j] == s.procs[e].pid && Asleep(s, e)
    ensures WakeLoop(s, i).procs[e] ==
            if i + j + Due(s.procs, s.queues[SLEEP][..j]) < Sleepers(s) then AfterTurn(s.procs[e]) else s.procs[e]
    decreases |s.queues[SLEEP]| - i
  {
    hide Mid, WakeOne, IsDue;
    if i < Sleepers(s) {
      var s1 := WakeOne(s);
      var head := WakeOneTurn(s);
      SleeperAt(s, e, head, j);
      if j > 0 {
        TurnDue(s, s1, head, j);
        assert s1.queues[SLEEP][j - 1] == s.procs[e].pid;
        LoopExact(s1, i + 1, u - 1, n, e, j - 1);
      } else if s.procs[e].sleepTime == 1 {
        LoopSpares(s1, i + 1, e);
      } else {
        LoopTurn(s1, i + 1, u - 1, n, e, Sleepers(s1) - 1);
      }
    }
  }

  /** A sleeper is served by the wake-up loop if and only if it is not passed over. */
  lemma ServedIff(s: Kernel, e: int)
    requires Shape(s) && Mid(s) && 0 <= e < PROC_MAX && Asleep(s, e) && s.procs[e].pid in s.queues[SLEEP]
    ensures var p := WakeLoop(s, 0).procs[e];
            p == (if PassedOver(s, e) then s.procs[e] else AfterTurn(s.procs[e])) &&
            (p == AfterTurn(s.procs[e]) <==> !PassedOver(s, e))
  {
    hide Mid, WakeLoop, Due;
    LoopExact(s, 0, Sleepers(s), Sleepers(s), e, IndexOf(s.queues[SLEEP], s.procs[e].pid));
  }

  /** The due processes of a queue, in order, and the others. */
  function DueOf(procs: seq<Pcb>, q: seq<int>): seq<int> {
    if q == [] then [] else (if IsDue(procs, q[0]) then [q[0]] else []) + DueOf(procs, q[1..])
  }

  function NotDueOf(procs: seq<Pcb>, q: seq<int>): seq<int> {
    if q == [] then [] else (if IsDue(procs, q[0]) then [] else [q[0]]) + NotDueOf(procs, q[1..])
  }

  lemma {:induction false} DueOfKept(procs: seq<Pcb>, e: int, p: Pcb, q: seq<int>)
    requires 0 <= e < |procs| && p.pid == procs[e].pid && p.pid !in q
    ensures DueOf(procs[e := p], q) == DueOf(procs, q) && NotDueOf(procs[e := p], q) == NotDueOf(procs, q)
  {
    if q != [] {
      EntryOfSamePids(procs, procs[e := p], q[0]);
      DueOfKept(procs, e, p, q[1..]);
    }
  }

  /** The first `m` sleepers, and no others, have their turn. */
  ghost predicate TurnsAre(procs: seq<Pcb>, q: seq<int>, i: nat, m: int) {
    && 0 <= m <= |q|
    && i + m + Due(procs, q[..m]) >= |q|
    && forall j :: 0 <= j < m ==> i + j + Due(procs, q[..j]) < |q|
  }

  lemma TurnsNext(s: Kernel, t: Kernel, head: int, i: nat, m: nat)
    requires Shape(s) && Mid(s) && Shape(t) && i < Sleepers(s) && TurnTaken(s, t, head)
    requires TurnsAre(t.procs, t.queues[SLEEP], i + 1, m)
    ensures m < Sleepers(s) && TurnsAre(s.procs, s.queues[SLEEP], i, m + 1)
  {
    hide Mid, IsDue;
    var q, r := s.queues[SLEEP], t.queues[SLEEP];
    TurnDue(s, t, head, 1);
    assert m > 0 ==> i + 1 + (m - 1) + Due(t.procs, r[..m - 1]) < |r|;
    TurnDue(s, t, head, m + 1);
    forall j | 0 <= j < m + 1 ensures i + j + Due(s.procs, q[..j]) < |q| {
      if j > 0 {
        TurnDue(s, t, head, j);
        assert i + 1 + (j - 1) + Due(t.procs, r[..j - 1]) < |r|;
      }
    }
  }

  /** The wake-up loop in full: the first `m` sleepers have their turn, in order; those of them that are due go to
      the tail of the run queue and the others to the tail of the sleep queue. */
  lemma {:induction false} LoopQueues(s: Kernel, i: nat) returns (m: nat)
    requires Shape(s) && Mid(s)
    ensures var q, t := s.queues[SLEEP], WakeLoop(s, i);
            (if i < |q| then TurnsAre(s.procs, q, i, m) else m == 0) && m <= |q| &&
            t.queues[SLEEP] == q[m..] + NotDueOf(s.procs, q[..m]) &&
            t.queues[RUN] == s.queues[RUN] + DueOf(s.procs, q[..m])
    ensures var turn, t := s.queues[SLEEP][..m], WakeLoop(s, i);
            forall e :: 0 <= e < PROC_MAX ==>
              t.procs[e] == if s.procs[e].pid in turn then AfterTurn(s.procs[e]) else s.procs[e]
    decreases |s.queues[SLEEP]| - i
  {
    hide Mid, WakeOne, IsDue, TurnsAre;
    m := 0;
    if i < Sleepers(s) {
      var q := s.queues[SLEEP];
      var s1 := WakeOne(s);
      var head := WakeOneTurn(s);
      var m1 := LoopQueues(s1, i + 1);
      NoTurns(s1, i + 1);
      TurnsNext(s, s1, head, i, m1);
      m := m1 + 1;
      TurnLists(s, s1, head, m);
      TurnPids(s, s1, head, m);
    }
  }

  /** Those with a turn are the head of the queue and those with a turn later on. */
  lemma TurnPids(s: Kernel, t: Kernel, head: int, m: nat)
    requires Shape(s) && Mid(s) && Shape(t) && 0 < m <= Sleepers(s) && m - 1 <= Sleepers(t) && TurnTaken(s, t, head)
    ensures var turn, later := s.queues[SLEEP][..m], t.queues[SLEEP][..m - 1];
            forall e :: 0 <= e < PROC_MAX ==>
              (s.procs[e].pid in turn <==> e == head || t.procs[e].pid in later) &&
              (e == head ==> t.procs[e].pid !in later)
  {
    var q := s.queues[SLEEP];
    HeadNotInTail(q);
    assert t.queues[SLEEP][..m - 1] == q[1..m];
    assert q[..m] == [q[0]] + q[1..m];
    forall e | 0 <= e < PROC_MAX && e != head ensures s.procs[e].pid != q[0] {
      assert Live(s.procs[head]);
    }
  }

  /** The loop changes process entries and the two queues, and nothing else. */
  lemma {:induction false} LoopFrame(s: Kernel, i: nat)
    requires Shape(s) && Mid(s)
    ensures var t := WakeLoop(s, i);
            t == s.(procs := t.procs, queues := s.queues[RUN := t.queues[RUN]][SLEEP := t.queues[SLEEP]])
    decreases |s.queues[SLEEP]| - i
  {
    hide Mid, WakeOne;
    if i < Sleepers(s) {
      WakeOneComputes(s);
      WakeOneKeeps(s);
      LoopFrame(WakeOne(s), i + 1);
    }
  }

  lemma NoTurns(s: Kernel, i: nat)
    requires Shape(s)
    ensures i >= Sleepers(s) ==> TurnsAre(s.procs, s.queues[SLEEP], i, 0)
  {
  }

  lemma TurnLists(s: Kernel, t: Kernel, head: int, m: nat)
    requires Shape(s) && Mid(s) && Shape(t) && 0 < m <= Sleepers(s) && m - 1 <= Sleepers(t) && TurnTaken(s, t, head)
    ensures var q, r := s.queues[SLEEP], t.queues[SLEEP];
            r[m - 1..] + NotDueOf(t.procs, r[..m - 1]) == q[m..] + NotDueOf(s.procs, q[..m]) &&
            t.queues[RUN] + DueOf(t.procs, r[..m - 1]) == s.queues[RUN] + DueOf(s.procs, q[..m])
  {
    hide NotDueOf, DueOf;
    HeadLists(s, t, head, m);
    var q, r := s.queues[SLEEP], t.queues[SLEEP];
    var turn := DueOf(t.procs, r[..m - 1]);
    hide Mid, Shape;
    if s.procs[head].sleepTime == 1 {
      assert r[m - 1..] == q[m..];
      assert (s.queues[RUN] + [q[0]]) + turn == s.queues[RUN] + ([q[0]] + turn);
    } else {
      assert r[m - 1..] == q[m..] + [q[0]];
    }
  }

  lemma HeadLists(s: Kernel, t: Kernel, head: int, m: nat)
    requires Shape(s) && Mid(s) && Shape(t) && 0 < m <= Sleepers(s) && m - 1 <= Sleepers(t) && TurnTaken(s, t, head)
    ensures var q, r := s.queues[SLEEP], t.queues[SLEEP];
            var due := s.procs[head].sleepTime == 1;
            NotDueOf(s.procs, q[..m]) == (if due then [] else [q[0]]) + NotDueOf(t.procs, r[..m - 1]) &&
            DueOf(s.procs, q[..m]) == (if due then [q[0]] else []) + DueOf(t.procs, r[..m - 1])
  {
    var q, r := s.queues[SLEEP], t.queues[SLEEP];
    HeadNotInTail(q);
    EntryOfLive(s.procs, head);
    hide Mid, Shape;
    DueOfKept(s.procs, head, AfterTurn(s.procs[head]), q[1..m]);
    assert q[..m][1..] == q[1..m] && r[..m - 1] == q[1..m];
  }

  lemma {:induction false} LoopShrinks(s: Kernel, i: nat)
    requires Shape(s)
    ensures Sleepers(WakeLoop(s, i)) <= Sleepers(s)
    decreases |s.queues[SLEEP]| - i
  {
    if i < Sleepers(s) {
      LoopShrinks(WakeOne(s), i + 1);
    }
  }

  // ---- one kernel entry, seen from a sleeper ----

  /** The scheduler run neither wakes a sleeper nor puts anyone to sleep. */
  lemma RunSparesSleeper(h: Kernel, e: int)
    requires Mid(h) && 0 <= e < PROC_MAX
    ensures var t := SchedulerRun(h);
            if Asleep(h, e) then t.procs[e] == h.procs[e] else !Asleep(t, e)
    ensures Sleepers(SchedulerRun(h)) == Sleepers(h)
  {
    PreemptKeeps(h);
    PreemptSparesSleeper(h, e);
    DispatchSparesSleeper(Preempt(h), e);
    RunFrame(h);
    hide Mid, Inv, Preempt, Dispatch;
  }

  lemma PreemptSparesSleeper(h: Kernel, e: int)
    requires Mid(h) && 0 <= e < PROC_MAX
    ensures if Asleep(h, e) then Preempt(h).procs[e] == h.procs[e] else !Asleep(Preempt(h), e)
  {
  }

  lemma DispatchSparesSleeper(h: Kernel, e: int)
    requires Inv(h) && 0 <= e < PROC_MAX
    ensures if Asleep(h, e) then Dispatch(h).procs[e] == h.procs[e] else !Asleep(Dispatch(h), e)
  {
    if h.active == NULL && h.queues[RUN] != [] {
      assert h.queues[RUN][0] in h.queues[RUN];
      assert Queued(h.procs, h.queues[RUN][0], RUN);
    }
  }

  /** The scheduler run may dispatch a process that is ready, and nothing worse. */
  lemma RunKeepsReady(h: Kernel, e: int)
    requires Shape(h) && 0 <= e < PROC_MAX && h.procs[e].state == Idle
    ensures var q := SchedulerRun(h).procs[e];
            q.pid == h.procs[e].pid && q.sleepTime == h.procs[e].sleepTime && (q.state == Idle || q.state == Active)
  {
    PreemptKeepsReady(h, e);
    hide Preempt;
  }

  lemma PreemptKeepsReady(h: Kernel, e: int)
    requires Shape(h) && 0 <= e < PROC_MAX && h.procs[e].state == Idle
    ensures Preempt(h).procs[e] == h.procs[e]
  {
  }

  /** Charging the active process changes nothing for the sleepers. */
  lemma ChargeSparesSleeper(s: Kernel, e: int)
    requires Inv(s) && 0 <= e < PROC_MAX && Asleep(s, e)
    ensures var s1 := ChargeActive(s);
            s1.procs[e] == s.procs[e] && s1.queues == s.queues && (PassedOver(s1, e) <==> PassedOver(s, e))
  {
    if s.active != NULL {
      ActiveUnqueued(s.procs, s.active, s.queues, SLEEP);
      var p := s.procs[s.active];
      hide Inv, IsDue;
      DueKept(s.procs, s.active, p.(runTime := p.runTime + 1, cpuTime := p.cpuTime + 1),
              s.queues[SLEEP][..IndexOf(s.queues[SLEEP], s.procs[e].pid)]);
    }
  }

  /** A tick passes a sleeper over, while the sleep queue shrinks, or gives it its turn. */
  lemma SleeperTick(s: Kernel, e: int)
    requires Inv(s) && 0 < e < PROC_MAX && Asleep(s, e)
    ensures var h := Handle(s, Tick);
            if PassedOver(s, e) then h.procs[e] == s.procs[e] && Sleepers(h) < Sleepers(s)
            else h.procs[e] == AfterTurn(s.procs[e]) && Sleepers(h) <= Sleepers(s)
  {
    TimerKeeps(s);
    var s1 := ChargeActive(s);
    var j := SleeperIndex(s, e);
    ChargeSparesSleeper(s, e);
    hide Inv, Mid, WakeLoop, PassedOver;
    LoopShrinks(s1, 0);
    LoopTurn(s1, 0, Sleepers(s1), Sleepers(s1), e, j);
    ServedIff(s1, e);
  }

  lemma SleeperIndex(s: Kernel, e: int) returns (j: nat)
    requires Inv(s) && 0 < e < PROC_MAX && Asleep(s, e)
    ensures j < Sleepers(s) && s.queues[SLEEP][j] == s.procs[e].pid && e != s.active
  {
    EntryOfLive(s.procs, e);
    assert Somewhere(s.queues, s.procs[e].pid);
    var k :| 0 <= k < PID_QUEUES && s.procs[e].pid in s.queues[k];
    assert Queued(s.procs, s.procs[e].pid, k);
    j :| 0 <= j < Sleepers(s) && s.queues[SLEEP][j] == s.procs[e].pid;
  }

  /** Nothing but a tick touches a sleeper, and only a sleep call adds one. */
  lemma SleeperUntouched(s: Kernel, e: int, ev: Event)
    requires Shape(s) && Inv(s) && 0 < e < PROC_MAX && Asleep(s, e) && Enabled(s, ev) && Guard(s, ev) && ev != Tick
    ensures var h := Handle(s, ev);
            h.procs[e] == s.procs[e] && Sleepers(h) <= Sleepers(s) + (if ev.ProcSleep? then 1 else 0)
  {
    hide Inv, Mid;
    var _ := SleeperIndex(s, e);
    if ProcessEvent(ev) {
      SleeperUntouchedByProcess(s, e, ev);
    } else {
      var f := LockEffect(s, ev);
      hide Handle, HasEffect;
      EffectSparesSleeper(s, Handle(s, ev), f, e);
    }
  }

  lemma EffectSparesSleeper(s: Kernel, h: Kernel, f: Effect, e: int)
    requires Shape(s) && Shape(h) && HasEffect(s, h, f) && 0 <= e < PROC_MAX && Asleep(s, e) && e != s.active
    ensures h.procs[e] == s.procs[e] && Sleepers(h) == Sleepers(s)
  {
  }

  lemma SleeperUntouchedByProcess(s: Kernel, e: int, ev: Event)
    requires Shape(s) && Inv(s) && 0 < e < PROC_MAX && Asleep(s, e) && e != s.active
    requires Enabled(s, ev) && ProcessEvent(ev) && ev != Tick
    ensures var h := Handle(s, ev);
            h.procs[e] == s.procs[e] && Sleepers(h) <= Sleepers(s) + (if ev.ProcSleep? then 1 else 0)
  {
    hide Inv, Mid, KprocCreate, KprocDestroy, SchedulerSleep;
    SleeperLive(s, e);
    match ev
    case CtrlN => CreateKeeps(s);
    case CtrlQ => DestroyKeeps(s);
    case OtherEntry =>
    case ProcSleep(seconds) => if seconds >= 0 { SleepKeeps(s, seconds * TICKS_PER_SECOND); }
    case ProcExit => DestroyKeeps(s);
  }

  lemma SleeperLive(s: Kernel, e: int)
    requires Inv(s) && 0 <= e < PROC_MAX && Asleep(s, e)
    ensures Live(s.procs[e]) && 0 < e
  {
  }

  /** What one kernel entry does to a sleeper. */
  ghost predicate SleeperStep(s: Kernel, t: Kernel, e: int, ev: Event)
    requires Shape(s) && Shape(t) && 0 <= e < PROC_MAX
  {
    if ev == Tick && PassedOver(s, e) then
      t.procs[e] == s.procs[e] && Sleepers(t) < Sleepers(s)
    else if ev == Tick then
      Sleepers(t) <= Sleepers(s) &&
      if s.procs[e].sleepTime == 1 then Awakened(s.procs[e], t.procs[e]) else t.procs[e] == AfterTurn(s.procs[e])
    else
      t.procs[e] == s.procs[e] && Sleepers(t) <= Sleepers(s) + (if ev.ProcSleep? then 1 else 0)
  }

  lemma StepSleeper(s: Kernel, e: int, ev: Event)
    requires Shape(s) && Inv(s) && 0 <= e < PROC_MAX && Asleep(s, e) && Enabled(s, ev) && Guard(s, ev)
    ensures SleeperStep(s, Step(s, ev), e, ev) && 0 < e && Sleepers(s) > 0
  {
    hide Inv, Mid, Handle, SchedulerRun, PassedOver;
    SleeperLive(s, e);
    var _ := SleeperIndex(s, e);
    HandleMid(s, ev);
    var h := Handle(s, ev);
    if ev == Tick {
      SleeperTick(s, e);
    } else {
      SleeperUntouched(s, e, ev);
    }
    RunSparesSleeper(h, e);
    if !Asleep(h, e) {
      RunKeepsReady(h, e);
    }
  }

  /** A tick leaves a sleeper untouched if and only if it passes it over, which the state before shows. */
  lemma PassedOverIff(s: Kernel, e: int)
    requires Shape(s) && Inv(s) && 0 <= e < PROC_MAX && Asleep(s, e)
    ensures Step(s, Tick).procs[e] == s.procs[e] <==> PassedOver(s, e)
  {
    hide Inv, Step, PassedOver;
    StepSleeper(s, e, Tick);
  }

  // ---- when everybody has a turn ----

  lemma {:induction false} DueZeroIff(procs: seq<Pcb>, q: seq<int>)
    ensures Due(procs, q) == 0 <==> forall k :: 0 <= k < |q| ==> !IsDue(procs, q[k])
  {
    if q != [] {
      DueZeroIff(procs, q[1..]);
      assert forall k :: 0 <= k < |q| - 1 ==> q[1..][k] == q[k + 1];
      assert forall k :: 0 < k < |q| ==> q[k] == q[1..][k - 1];
    }
  }

  /** On a tick nobody is passed over if and only if no sleeper is due except perhaps the last one queued. */
  lemma NobodyPassedOverIff(s: Kernel)
    requires Shape(s) && Inv(s)
    ensures (forall e :: 0 <= e < PROC_MAX && Asleep(s, e) ==> !PassedOver(s, e)) <==>
            (forall k :: 0 <= k < Sleepers(s) - 1 ==> !IsDue(s.procs, s.queues[SLEEP][k]))
  {
    hide Inv, IsDue, Due;
    var q, n := s.queues[SLEEP], Sleepers(s);
    if n > 0 {
      DueZeroIff(s.procs, q[..n - 1]);
      if Due(s.procs, q[..n - 1]) == 0 {
        forall e | 0 <= e < PROC_MAX && Asleep(s, e) ensures !PassedOver(s, e) {
          SleeperLive(s, e);
          var _ := SleeperIndex(s, e);
          DueZeroIff(s.procs, q[..IndexOf(q, s.procs[e].pid)]);
        }
      } else {
        LastSleeper(s);
        var e := EntryOf(s.procs, q[n - 1]);
        assert PassedOver(s, e);
      }
      assert forall k :: 0 <= k < n - 1 ==> q[..n - 1][k] == q[k];
    } else {
      forall e | 0 <= e < PROC_MAX ensures !Asleep(s, e) {
        if Asleep(s, e) {
          SleeperLive(s, e);
          var _ := SleeperIndex(s, e);
          assert false;
        }
      }
    }
  }

  lemma LastSleeper(s: Kernel)
    requires Shape(s) && Inv(s) && Sleepers(s) > 0
    ensures var q := s.queues[SLEEP];
            var e := EntryOf(s.procs, q[|q| - 1]);
            0 <= e < PROC_MAX && Asleep(s, e) && IndexOf(q, s.procs[e].pid) == |q| - 1
  {
    var q := s.queues[SLEEP];
    assert Queued(s.procs, q[|q| - 1], SLEEP);
  }

  // ---- the window, over runs ----

  function SleepCalls(es: seq<Event>): nat {
    if es == [] then 0 else (if es[0].ProcSleep? then 1 else 0) + SleepCalls(es[1..])
  }

  /** The ticks of a run on which the sleeper is passed over. */
  ghost function Skips(s: Kernel, es: seq<Event>, e: int): (n: nat)
    requires Shape(s) && Legal(s, es) && 0 <= e < PROC_MAX
    ensures n <= Ticks(es)
    decreases |es|
  {
    if es == [] then 0
    else (if es[0] == Tick && PassedOver(s, e) then 1 else 0) + Skips(Step(s, es[0]), es[1..], e)
  }

  /** The ticks of a run on which the sleeper has its turn. */
  ghost function Turns(s: Kernel, es: seq<Event>, e: int): nat
    requires Shape(s) && Legal(s, es) && 0 <= e < PROC_MAX
  {
    Ticks(es) - Skips(s, es, e)
  }

  /** The sleep time exactly: until a sleeper has had all its turns, it sleeps on, and its remaining time is
      what it was less the ticks on which it was not passed over. A time that is not positive, as
      `proc_sleep(0)` sets, is never over: the counter has already passed the value 1 that wakes a process. */
  lemma {:induction false} RemainingTime(s: Kernel, e: int, es: seq<Event>)
    requires Shape(s) && Inv(s) && 0 <= e < PROC_MAX && Asleep(s, e) && Legal(s, es)
    requires Turns(s, es, e) < s.procs[e].sleepTime || s.procs[e].sleepTime <= 0
    ensures Run(s, es).procs[e] == s.procs[e].(sleepTime := s.procs[e].sleepTime - Turns(s, es, e))
    decreases |es|
  {
    hide Inv, Step, PassedOver;
    if es != [] {
      StepSleeper(s, e, es[0]);
      StepKeeps(s, es[0]);
      RemainingTime(Step(s, es[0]), e, es[1..]);
    }
  }

  /** The entry that wakes a sleeper, exactly: the tick that gives it the last of its turns. */
  lemma AwakeIff(s: Kernel, e: int, es: seq<Event>, ev: Event)
    requires Shape(s) && Inv(s) && 0 <= e < PROC_MAX && Asleep(s, e) && Legal(s, es)
    requires Enabled(Run(s, es), ev) && Guard(Run(s, es), ev)
    requires Turns(s, es, e) < s.procs[e].sleepTime
    ensures var t := Run(s, es);
            var turn := if ev == Tick && !PassedOver(t, e) then 1 else 0;
            var p := Step(t, ev).procs[e];
            (Awakened(s.procs[e], p) <==> Turns(s, es, e) + turn == s.procs[e].sleepTime) &&
            (Awakened(s.procs[e], p) || p.state == Sleeping)
  {
    hide Inv, Step, PassedOver, Turns;
    RemainingTime(s, e, es);
    RunKeepsInv(s, es);
    StepSleeper(Run(s, es), e, ev);
  }

  /** A process that sleeps for t ticks wakes on exactly the t-th tick if and only if it is never
      passed over. */
  lemma OnTimeIff(s: Kernel, e: int, es: seq<Event>)
    requires Shape(s) && Inv(s) && 0 <= e < PROC_MAX && Asleep(s, e) && Legal(s, es)
    requires Ticks(es) == s.procs[e].sleepTime - 1
    ensures Awakened(s.procs[e], Step(Run(s, es), Tick).procs[e]) <==>
            Skips(s, es, e) == 0 && !PassedOver(Run(s, es), e)
  {
    hide Inv, Step, PassedOver;
    AwakeIff(s, e, es, Tick);
  }

  /** No process is woken before its time. */
  lemma SleepsLongEnough(s: Kernel, e: int, es: seq<Event>)
    requires Shape(s) && Inv(s) && 0 <= e < PROC_MAX && Asleep(s, e) && Legal(s, es)
    requires Ticks(es) < s.procs[e].sleepTime
    ensures var p := Run(s, es).procs[e];
            p.state == Sleeping && p.pid == s.procs[e].pid && p.sleepTime >= s.procs[e].sleepTime - Ticks(es)
  {
    hide Inv, Step, Skips;
    RemainingTime(s, e, es);
  }

  /** Every process with a positive sleep time wakes up: with n sleepers, within its time plus
      n - 1 ticks, and one more for every sleep call in between. */
  lemma {:induction false} WakesInTime(s: Kernel, e: int, es: seq<Event>) returns (n: nat)
    requires Shape(s) && Inv(s) && 0 <= e < PROC_MAX && Asleep(s, e) && Legal(s, es)
    requires s.procs[e].sleepTime >= 1
    requires Ticks(es) >= s.procs[e].sleepTime + Sleepers(s) - 1 + SleepCalls(es)
    ensures 0 < n <= |es| && Legal(s, es[..n]) && Awakened(s.procs[e], Run(s, es[..n]).procs[e])
    decreases |es|
  {
    hide Inv, Step, PassedOver;
    StepSleeper(s, e, if es == [] then OtherEntry else es[0]);
    var t := Step(s, es[0]);
    StepKeeps(s, es[0]);
    if !Asleep(t, e) {
      n := 1;
      assert es[..1][1..] == [];
    } else {
      StepSleeper(t, e, OtherEntry);
      n := WakesInTime(t, e, es[1..]);
      assert es[..n + 1][1..] == es[1..][..n];
      n := n + 1;
    }
  }

  function AllTicks(n: nat): (es: seq<Event>)
    ensures Ticks(es) == n && SleepCalls(es) == 0
  {
    if n == 0 then [] else [Tick] + AllTicks(n - 1)
  }

  lemma {:induction false} AllTicksLegal(s: Kernel, n: nat)
    requires Shape(s)
    ensures Legal(s, AllTicks(n))
    decreases n
  {
    hide Step;
    if n > 0 {
      assert AllTicks(n)[1..] == AllTicks(n - 1);
      AllTicksLegal(Step(s, Tick), n - 1);
    }
  }

  /** A sleeper can ever wake up exactly when its remaining time is positive. */
  lemma WakesIff(s: Kernel, e: int)
    requires Shape(s) && Inv(s) && 0 <= e < PROC_MAX && Asleep(s, e)
    ensures (exists es :: Legal(s, es) && Awakened(s.procs[e], Run(s, es).procs[e])) <==> s.procs[e].sleepTime >= 1
  {
    hide Inv, Step, Turns;
    if s.procs[e].sleepTime >= 1 {
      var es := AllTicks(s.procs[e].sleepTime + Sleepers(s));
      AllTicksLegal(s, s.procs[e].sleepTime + Sleepers(s));
      var n := WakesInTime(s, e, es);
      assert Legal(s, es[..n]) && Awakened(s.procs[e], Run(s, es[..n]).procs[e]);
    } else {
      forall es | Legal(s, es) ensures Asleep(Run(s, es), e) {
        RemainingTime(s, e, es);
      }
    }
  }

  /** The sleep call puts its caller to sleep for `100 * seconds` ticks, and the caller can wake up
      again exactly when `seconds` is at least 1. */
  lemma SleepCallWakesIff(s: Kernel, seconds: int)
    requires Shape(s) && Inv(s) && Enabled(s, ProcSleep(seconds)) && seconds >= 0
    ensures var t := Step(s, ProcSleep(seconds));
            var p := t.procs[s.active];
            && p.state == Sleeping && p.sleepTime == 100 * seconds && p.pid == ActivePid(s)
            && ((exists es :: Legal(t, es) && Awakened(p, Run(t, es).procs[s.active])) <==> seconds >= 1)
  {
    hide Inv, Mid, SchedulerSleep, SchedulerRun;
    SleepKeeps(s, seconds * TICKS_PER_SECOND);
    RunSparesSleeper(Handle(s, ProcSleep(seconds)), s.active);
    StepKeeps(s, ProcSleep(seconds));
    WakesIff(Step(s, ProcSleep(seconds)), s.active);
  }

  // ---- the wake-up loop does pass sleepers over ----

  /** Of two sleepers with one tick left, the second is passed over. */
  lemma SkippedSleeper(s: Kernel, e1: int, e2: int)
    requires Shape(s) && Mid(s) && 0 <= e1 < PROC_MAX && 0 <= e2 < PROC_MAX
    requires s.queues[SLEEP] == [s.procs[e1].pid, s.procs[e2].pid]
    requires Asleep(s, e1) && Asleep(s, e2) && s.procs[e1].sleepTime == 1 && s.procs[e2].sleepTime == 1
    ensures var t := WakeLoop(s, 0);
            !Asleep(t, e1) && t.procs[e2] == s.procs[e2] && t.queues[SLEEP] == [s.procs[e2].pid]
  {
    hide Mid, WakeOne;
    var head := WakeOneTurn(s);
    SleeperAt(s, e1, head, 0);
    SleeperAt(s, e2, head, 1);
    assert WakeLoop(WakeOne(s), 1) == WakeOne(s);
  }

  /** Two processes asleep, alone, with the same time to go. */
  ghost predicate TwoAsleep(s: Kernel, e1: int, e2: int, ticks: int)
    requires Shape(s)
  {
    && 0 <= e1 < PROC_MAX && 0 <= e2 < PROC_MAX && s.procs[e1].pid != s.procs[e2].pid && Sleepers(s) == 2
    && Asleep(s, e1) && Asleep(s, e2) && s.procs[e1].sleepTime == ticks && s.procs[e2].sleepTime == ticks
  }

  /** The two sleepers are the two queued processes, in either order. */
  lemma TwoQueued(s: Kernel, e1: int, e2: int, ticks: int)
    requires Shape(s) && Inv(s) && TwoAsleep(s, e1, e2, ticks)
    ensures forall x :: x in s.queues[SLEEP] ==> (IsDue(s.procs, x) <==> ticks == 1)
    ensures s.procs[e1].pid in s.queues[SLEEP] && s.procs[e2].pid in s.queues[SLEEP]
  {
    SleeperLive(s, e1);
    SleeperLive(s, e2);
    var j1 := SleeperIndex(s, e1);
    var j2 := SleeperIndex(s, e2);
    EntryOfLive(s.procs, e1);
    EntryOfLive(s.procs, e2);
  }

  lemma TwoTick(s: Kernel, e1: int, e2: int, ticks: int)
    requires Shape(s) && Inv(s) && TwoAsleep(s, e1, e2, ticks) && ticks > 1
    ensures Inv(Step(s, Tick)) && TwoAsleep(Step(s, Tick), e1, e2, ticks - 1)
  {
    hide Inv, Step, IsDue, PassedOver;
    TwoQueued(s, e1, e2, ticks);
    NobodyPassedOverIff(s);
    StepSleeper(s, e1, Tick);
    StepSleeper(s, e2, Tick);
    var t := Step(s, Tick);
    StepKeeps(s, Tick);
    SleeperLive(t, e1);
    SleeperLive(t, e2);
    var j1 := SleeperIndex(t, e1);
    var j2 := SleeperIndex(t, e2);
  }

  lemma {:induction false} TwoTicks(s: Kernel, e1: int, e2: int, n: nat)
    requires Shape(s) && Inv(s) && TwoAsleep(s, e1, e2, n + 1)
    ensures Legal(s, AllTicks(n)) && Inv(Run(s, AllTicks(n))) && TwoAsleep(Run(s, AllTicks(n)), e1, e2, 1)
    decreases n
  {
    hide Inv, Step, TwoAsleep;
    if n > 0 {
      assert AllTicks(n)[1..] == AllTicks(n - 1);
      TwoTick(s, e1, e2, n + 1);
      TwoTicks(Step(s, Tick), e1, e2, n - 1);
    }
  }

  /** One of them is passed over on the tick on which both are due. */
  lemma TwoDue(s: Kernel, e1: int, e2: int) returns (e: int)
    requires Shape(s) && Inv(s) && TwoAsleep(s, e1, e2, 1)
    ensures (e == e1 || e == e2) && PassedOver(s, e)
  {
    hide Inv;
    TwoQueued(s, e1, e2, 1);
    var q := s.queues[SLEEP];
    e := if q[1] == s.procs[e1].pid then e1 else e2;
    assert IsDue(s.procs, q[0]) && IndexOf(q, s.procs[e].pid) == 1;
    DueZeroIff(s.procs, q[..1]);
  }

  /** With somebody ready to run, a dispatch takes the head of the run queue and leaves the sleepers alone. */
  lemma NextDispatched(h: Kernel)
    requires Shape(h) && Mid(h) && h.active == NULL && h.queues[RUN] != []
    ensures var t := SchedulerRun(h);
            Inv(t) && t.active > 0 && t.queues == h.queues[RUN := h.queues[RUN][1..]]
  {
    PreemptKeeps(h);
    DispatchKeeps(h);
    assert Queued(h.procs, h.queues[RUN][0], RUN);
  }

  lemma SleepNext(s: Kernel)
    requires Shape(s) && Inv(s) && s.active > 0 && s.queues[RUN] != []
    ensures var t := Step(s, ProcSleep(1));
            Inv(t) && t.active > 0 && t.active != s.active && |t.queues[RUN]| == |s.queues[RUN]| - 1 &&
            Sleepers(t) == Sleepers(s) + 1 && t.procs[s.active].pid == s.procs[s.active].pid &&
            Asleep(t, s.active) && t.procs[s.active].sleepTime == TICKS_PER_SECOND
  {
    hide Inv, Mid, SchedulerSleep, SchedulerRun;
    var h := Handle(s, ProcSleep(1));
    SleepKeeps(s, TICKS_PER_SECOND);
    NextDispatched(h);
    RunSparesSleeper(h, s.active);
    StepKeeps(s, ProcSleep(1));
    ActiveAwake(Step(s, ProcSleep(1)));
  }

  lemma ActiveAwake(s: Kernel)
    requires Inv(s) && s.active != NULL
    ensures s.procs[s.active].state == Active
  {
  }

  /** Three entries after boot: the first process is dispatched, and it and the next one sleep for a second. */
  lemma TwoSleepFromBoot() returns (e1: int, e2: int)
    ensures var es := [OtherEntry, ProcSleep(1), ProcSleep(1)];
            Legal(Boot(), es) && Inv(Run(Boot(), es)) && TwoAsleep(Run(Boot(), es), e1, e2, TICKS_PER_SECOND)
  {
    BootQueues();
    hide Inv, Step, Boot;
    var s1 := Step(Boot(), OtherEntry);
    FirstDispatched();
    var s2 := Step(s1, ProcSleep(1));
    SleepNext(s1);
    var s3 := Step(s2, ProcSleep(1));
    SleepNext(s2);
    e1, e2 := s1.active, s2.active;
    StepSleeper(s2, e1, ProcSleep(1));
    PidsDiffer(s3, e1, e2);
    var es := [OtherEntry, ProcSleep(1), ProcSleep(1)];
    assert es[1..] == [ProcSleep(1), ProcSleep(1)] && es[1..][1..] == [ProcSleep(1)] && es[1..][1..][1..] == [];
  }

  lemma PidsDiffer(s: Kernel, e1: int, e2: int)
    requires Inv(s) && 0 <= e1 < PROC_MAX && 0 <= e2 < PROC_MAX && e1 != e2 && Asleep(s, e1) && Asleep(s, e2)
    ensures s.procs[e1].pid != s.procs[e2].pid
  {
  }

  lemma FirstDispatched()
    requires |Boot().queues| == PID_QUEUES && |Boot().queues[RUN]| == BOOT_PROCESSES - 1
    requires Shape(Boot()) && Inv(Boot()) && Boot().active == NULL
    ensures var t := Step(Boot(), OtherEntry);
            Inv(t) && t.active > 0 && t.queues == Boot().queues[RUN := Boot().queues[RUN][1..]]
  {
    hide Boot, Inv, SchedulerRun;
    InvIsMid(Boot());
    NextDispatched(Boot());
  }

  /** It happens: after these entries from boot and 99 ticks a process that has slept for 99 ticks of its
      second is passed over, and the hundredth tick leaves it asleep. */
  lemma PassedOverFromBoot() returns (es: seq<Event>, e: int)
    ensures Legal(Boot(), es) && 0 <= e < PROC_MAX
    ensures es == [OtherEntry, ProcSleep(1), ProcSleep(1)] + AllTicks(99)
    ensures var t := Run(Boot(), es);
            Asleep(t, e) && t.procs[e].sleepTime == 1 && PassedOver(t, e) && Step(t, Tick).procs[e] == t.procs[e]
  {
    var e1, e2 := TwoSleepFromBoot();
    hide Inv, Step, Boot, AllTicks, PassedOver;
    var start := [OtherEntry, ProcSleep(1), ProcSleep(1)];
    var s := Run(Boot(), start);
    TwoTicks(s, e1, e2, TICKS_PER_SECOND - 1);
    RunAppend(Boot(), start, AllTicks(TICKS_PER_SECOND - 1));
    es := start + AllTicks(TICKS_PER_SECOND - 1);
    e := TwoDue(Run(Boot(), es), e1, e2);
    StepSleeper(Run(Boot(), es), e, Tick);
  }
}
