/** Where each process is. A live process other than the idle process is either the active
    process or in exactly one of the 34 queues of process ids, and its state says in which. */
module Placement {
  import opened Types
  import opened KernelSpec

  ghost predicate NoDup(q: seq<int>) {
    forall i, j :: 0 <= i < j < |q| ==> q[i] != q[j]
  }

  function StateAt(k: int): ProcState {
    if k == RUN then Idle else if k == SLEEP then Sleeping else Waiting
  }

  predicate Live(p: Pcb) { p.pid >= 0 }

  /** Live pids are distinct, free entries are marked, and entry 0 is the idle process. */
  ghost predicate TableOk(procs: seq<Pcb>) {
    && |procs| == PROC_MAX
    && procs[0].pid == 0
    && (forall i :: 0 <= i < PROC_MAX ==> procs[i].pid >= -1)
    && (forall i :: 0 <= i < PROC_MAX ==> (Live(procs[i]) <==> procs[i].state != NoState))
    && (forall i, j :: 0 <= i < j < PROC_MAX && Live(procs[i]) ==> procs[i].pid != procs[j].pid)
  }

  /** The entry of a queued pid is live, is not the idle process, and has the queue's state. */
  ghost predicate Queued(procs: seq<Pcb>, pid: int, k: int) {
    var e := EntryOf(procs, pid);
    e > 0 && procs[e].state == StateAt(k)
  }

  ghost predicate QueuesOk(procs: seq<Pcb>, queues: seq<seq<int>>) {
    && |queues| == PID_QUEUES
    && (forall k, x :: 0 <= k < PID_QUEUES && x in queues[k] ==> Queued(procs, x, k))
    && (forall k :: 0 <= k < PID_QUEUES ==> NoDup(queues[k]))
    && (forall k, l, x :: 0 <= k < l < PID_QUEUES && x in queues[k] ==> x !in queues[l])
  }

  /** Some queue holds `pid`. */
  ghost predicate Somewhere(queues: seq<seq<int>>, pid: int) {
    exists k :: 0 <= k < |queues| && pid in queues[k]
  }

  ghost predicate ActiveOk(procs: seq<Pcb>, active: int)
    requires |procs| == PROC_MAX
  {
    && NULL <= active < PROC_MAX
    && (forall i :: 0 <= i < PROC_MAX ==> (procs[i].state == Active <==> i == active))
    && (active != 0 ==> procs[0].state == Idle)
  }

  ghost predicate Placed(procs: seq<Pcb>, active: int, queues: seq<seq<int>>) {
    && TableOk(procs)
    && ActiveOk(procs, active)
    && QueuesOk(procs, queues)
    && (forall i :: 0 < i < PROC_MAX && Live(procs[i]) && i != active ==> Somewhere(queues, procs[i].pid))
  }

  // ---- lookups ----

  /** With distinct pids, looking up a live process's pid finds that process. */
  lemma EntryOfLive(procs: seq<Pcb>, i: int)
    requires TableOk(procs) && 0 <= i < PROC_MAX && Live(procs[i])
    ensures EntryOf(procs, procs[i].pid) == i
  {
    var e := EntryOf(procs, procs[i].pid);
    assert e != NULL;
    if e < i {
      assert Live(procs[e]);
    }
  }

  /** A lookup depends on the pids only. */
  lemma EntryOfSamePids(procs: seq<Pcb>, procs': seq<Pcb>, pid: int)
    requires |procs| == |procs'| && forall i :: 0 <= i < |procs| ==> procs[i].pid == procs'[i].pid
    ensures EntryOf(procs, pid) == EntryOf(procs', pid)
  {
    var e, e' := EntryOf(procs, pid), EntryOf(procs', pid);
    if e != NULL && e' != NULL {
      assert procs[e].pid == procs'[e].pid && procs[e'].pid == procs'[e'].pid;
    }
  }

  // ---- the moves that kernel entries are made of ----

  /** Entry `e` keeps its pid; every pid but its own is queued as before. */
  lemma QueuedKept(procs: seq<Pcb>, e: int, p: Pcb, pid: int, k: int)
    requires TableOk(procs) && 0 <= e < PROC_MAX && p.pid == procs[e].pid
    requires Queued(procs, pid, k) && (pid != p.pid || p.state == StateAt(k))
    ensures Queued(procs[e := p], pid, k)
  {
    EntryOfSamePids(procs, procs[e := p], pid);
  }

  lemma TouchPlaced(procs: seq<Pcb>, a: int, qs: seq<seq<int>>, e: int, p: Pcb)
    requires Placed(procs, a, qs) && 0 <= e < PROC_MAX
    requires p.pid == procs[e].pid && p.state == procs[e].state
    ensures Placed(procs[e := p], a, qs)
  {
    hide Somewhere, NoDup;
    forall k, x | 0 <= k < PID_QUEUES && x in qs[k] ensures Queued(procs[e := p], x, k) {
      QueuedKept(procs, e, p, x, k);
    }
  }

  /** The active process is in no queue. */
  lemma ActiveUnqueued(procs: seq<Pcb>, a: int, qs: seq<seq<int>>, k: int)
    requires Placed(procs, a, qs) && a != NULL && 0 <= k < PID_QUEUES
    ensures procs[a].pid !in qs[k] && procs[a].pid >= 0
  {
    EntryOfLive(procs, a);
    assert procs[a].pid in qs[k] ==> Queued(procs, procs[a].pid, k);
  }

  /** Block, sleep, or end of time slice: the active process joins the tail of queue `k`. */
  lemma ParkPlaced(procs: seq<Pcb>, a: int, qs: seq<seq<int>>, k: int, p: Pcb)
    requires Placed(procs, a, qs) && a > 0 && 0 <= k < PID_QUEUES
    requires p.pid == procs[a].pid && p.state == StateAt(k)
    ensures Placed(procs[a := p], NULL, qs[k := qs[k] + [p.pid]])
  {
    var procs', qs' := procs[a := p], qs[k := qs[k] + [p.pid]];
    EntryOfLive(procs, a);
    EntryOfSamePids(procs, procs', p.pid);
    forall l | 0 <= l < PID_QUEUES ensures p.pid !in qs[l] {
      ActiveUnqueued(procs, a, qs, l);
    }
    forall l, x | 0 <= l < PID_QUEUES && x in qs'[l] ensures Queued(procs', x, l) {
      if x != p.pid {
        assert x in qs[l];
        QueuedKept(procs, a, p, x, l);
      }
    }
    forall i | 0 < i < PROC_MAX && Live(procs'[i]) ensures Somewhere(qs', procs'[i].pid) {
      if i == a {
        assert p.pid in qs'[k];
      } else {
        SomewherePushed(qs, k, p.pid, procs[i].pid);
      }
    }
  }

  lemma SomewherePushed(qs: seq<seq<int>>, k: int, x: int, pid: int)
    requires Somewhere(qs, pid) && 0 <= k < |qs|
    ensures Somewhere(qs[k := qs[k] + [x]], pid)
  {
    var l :| 0 <= l < |qs| && pid in qs[l];
    assert pid in qs[k := qs[k] + [x]][l];
  }

  /** Taking the head of queue `k` leaves every other pid where it was. */
  lemma HeadTaken(qs: seq<seq<int>>, k: int, pid: int)
    requires Somewhere(qs, pid) && 0 <= k < |qs| && qs[k] != [] && pid != qs[k][0]
    ensures Somewhere(qs[k := qs[k][1..]], pid)
  {
    var l :| 0 <= l < |qs| && pid in qs[l];
    assert pid in qs[k := qs[k][1..]][l] by {
      if l == k {
        assert qs[k] == [qs[k][0]] + qs[k][1..];
      }
    }
  }

  lemma HeadNotInTail(q: seq<int>)
    requires NoDup(q) && q != []
    ensures q[0] !in q[1..] && NoDup(q[1..])
  {
    forall j | 0 <= j < |q| - 1 ensures q[1..][j] != q[0] {
      assert q[1..][j] == q[j + 1];
    }
  }

  /** The head of queue `k` is missing from every queue once it is taken. */
  lemma HeadGone(procs: seq<Pcb>, qs: seq<seq<int>>, k: int, l: int)
    requires QueuesOk(procs, qs) && 0 <= k < PID_QUEUES && 0 <= l < PID_QUEUES && qs[k] != []
    ensures qs[k][0] !in qs[k := qs[k][1..]][l]
  {
    var h := qs[k][0];
    assert h in qs[k];
    HeadNotInTail(qs[k]);
    assert l < k || k < l ==> h !in qs[l];
  }

  /** The intermediate step of a wake-up or a dispatch: the head of queue `k` has been
      taken out and its entry is about to be given a new place. */
  lemma TakeHead(procs: seq<Pcb>, a: int, qs: seq<seq<int>>, k: int) returns (e: int)
    requires Placed(procs, a, qs) && 0 <= k < PID_QUEUES && qs[k] != []
    ensures 0 < e < PROC_MAX && e == EntryOf(procs, qs[k][0]) && e != a
    ensures procs[e].pid == qs[k][0] && procs[e].state == StateAt(k)
    ensures QueuesOk(procs, qs[k := qs[k][1..]])
    ensures forall i :: 0 < i < PROC_MAX && Live(procs[i]) && i != a && i != e ==>
              Somewhere(qs[k := qs[k][1..]], procs[i].pid)
  {
    var qs' := qs[k := qs[k][1..]];
    assert qs[k][0] in qs[k];
    assert Queued(procs, qs[k][0], k);
    e := EntryOf(procs, qs[k][0]);
    assert qs[k] == [qs[k][0]] + qs[k][1..];
    forall l, x | 0 <= l < PID_QUEUES && x in qs'[l] ensures x in qs[l] {}
    forall i | 0 < i < PROC_MAX && Live(procs[i]) && i != a && i != e
      ensures Somewhere(qs', procs[i].pid)
    {
      HeadTaken(qs, k, procs[i].pid);
    }
  }

  /** Queue facts survive moving a pid that is in no queue to the tail of queue `k`. */
  lemma PushQueuesOk(procs: seq<Pcb>, qs: seq<seq<int>>, e: int, p: Pcb, k: int)
    requires TableOk(procs) && QueuesOk(procs, qs) && 0 < e < PROC_MAX && 0 <= k < PID_QUEUES
    requires Live(procs[e]) && p.pid == procs[e].pid && p.state == StateAt(k)
    requires forall l :: 0 <= l < PID_QUEUES ==> p.pid !in qs[l]
    ensures QueuesOk(procs[e := p], qs[k := qs[k] + [p.pid]])
  {
    var procs', qs' := procs[e := p], qs[k := qs[k] + [p.pid]];
    EntryOfLive(procs, e);
    EntryOfSamePids(procs, procs', p.pid);
    forall l, x | 0 <= l < PID_QUEUES && x in qs'[l] ensures Queued(procs', x, l) {
      if x != p.pid {
        assert x in qs[l];
        QueuedKept(procs, e, p, x, l);
      }
    }
  }

  /** The head of queue `k` moves to the tail of queue `l` (which may be `k` itself). */
  lemma MovePlaced(procs: seq<Pcb>, a: int, qs: seq<seq<int>>, k: int, l: int, p: Pcb)
    requires Placed(procs, a, qs) && 0 <= k < PID_QUEUES && 0 <= l < PID_QUEUES && qs[k] != []
    requires p.pid == qs[k][0] && p.state == StateAt(l)
    ensures var e := EntryOf(procs, qs[k][0]);
            var qs' := qs[k := qs[k][1..]];
            0 < e < PROC_MAX && e != a && procs[e].pid == qs[k][0] &&
            Placed(procs[e := p], a, qs'[l := qs'[l] + [p.pid]])
  {
    var e := TakeHead(procs, a, qs, k);
    var qs' := qs[k := qs[k][1..]];
    var qs'' := qs'[l := qs'[l] + [p.pid]];
    forall m | 0 <= m < PID_QUEUES ensures p.pid !in qs'[m] {
      HeadGone(procs, qs, k, m);
    }
    PushQueuesOk(procs, qs', e, p, l);
    forall i | 0 < i < PROC_MAX && Live(procs[i]) && i != a ensures Somewhere(qs'', procs[i].pid) {
      if i == e {
        assert p.pid in qs''[l];
      } else {
        SomewherePushed(qs', l, p.pid, procs[i].pid);
      }
    }
  }

  /** Dispatch: the head of the run queue becomes the active process. */
  lemma DispatchPlaced(procs: seq<Pcb>, qs: seq<seq<int>>)
    requires Placed(procs, NULL, qs) && qs[RUN] != []
    ensures var e := EntryOf(procs, qs[RUN][0]);
            0 < e < PROC_MAX && procs[e].state == Idle && procs[e].pid == qs[RUN][0] &&
            Placed(procs[e := procs[e].(state := Active)], e, qs[RUN := qs[RUN][1..]])
  {
    var e := TakeHead(procs, NULL, qs, RUN);
    var qs' := qs[RUN := qs[RUN][1..]];
    var p := procs[e].(state := Active);
    forall l, x | 0 <= l < PID_QUEUES && x in qs'[l] ensures Queued(procs[e := p], x, l) {
      HeadGone(procs, qs, RUN, l);
      QueuedKept(procs, e, p, x, l);
    }
  }

  /** With nothing to run, the idle process becomes the active process. */
  lemma IdlePlaced(procs: seq<Pcb>, qs: seq<seq<int>>)
    requires Placed(procs, NULL, qs)
    ensures Placed(procs[0 := procs[0].(state := Active)], 0, qs)
  {
    IdleSwitched(procs, qs, procs[0].(state := Active));
  }

  /** The idle process gives up the processor without entering a queue. */
  lemma IdlePreempted(procs: seq<Pcb>, qs: seq<seq<int>>, p: Pcb)
    requires Placed(procs, 0, qs) && p.pid == 0 && p.state == Idle
    ensures Placed(procs[0 := p], NULL, qs)
  {
    IdleSwitched(procs, qs, p);
  }

  lemma IdleSwitched(procs: seq<Pcb>, qs: seq<seq<int>>, p: Pcb)
    requires TableOk(procs) && QueuesOk(procs, qs) && p.pid == 0
    ensures QueuesOk(procs[0 := p], qs)
  {
    EntryOfLive(procs, 0);
    forall l, x | 0 <= l < PID_QUEUES && x in qs[l] ensures Queued(procs[0 := p], x, l) {
      assert Queued(procs, x, l);
      QueuedKept(procs, 0, p, x, l);
    }
  }

  lemma CreateQueuesOk(procs: seq<Pcb>, a: int, qs: seq<seq<int>>, e: int, p: Pcb)
    requires Placed(procs, a, qs) && 0 < e < PROC_MAX && !Live(procs[e])
    requires p.state == Idle && p.pid > 0 && forall i :: 0 <= i < PROC_MAX ==> procs[i].pid != p.pid
    ensures TableOk(procs[e := p]) && QueuesOk(procs[e := p], qs[RUN := qs[RUN] + [p.pid]])
  {
    var procs' := procs[e := p];
    assert TableOk(procs');
    EntryOfLive(procs', e);
    forall l, x | 0 <= l < PID_QUEUES && x in qs[l] ensures Queued(procs', x, l) && x != p.pid {
      assert Queued(procs, x, l);
      EntryOfLive(procs', EntryOf(procs, x));
    }
    assert Queued(procs', p.pid, RUN);
  }

  /** A free entry becomes a new process with an unused pid at the tail of the run queue. */
  lemma CreatePlaced(procs: seq<Pcb>, a: int, qs: seq<seq<int>>, e: int, p: Pcb)
    requires Placed(procs, a, qs) && 0 < e < PROC_MAX && !Live(procs[e])
    requires p.state == Idle && p.pid > 0 && forall i :: 0 <= i < PROC_MAX ==> procs[i].pid != p.pid
    ensures Placed(procs[e := p], a, qs[RUN := qs[RUN] + [p.pid]])
  {
    var procs', qs' := procs[e := p], qs[RUN := qs[RUN] + [p.pid]];
    CreateQueuesOk(procs, a, qs, e, p);
    forall i | 0 < i < PROC_MAX && Live(procs'[i]) && i != a ensures Somewhere(qs', procs'[i].pid) {
      if i == e {
        assert p.pid in qs'[RUN];
      } else {
        SomewherePushed(qs, RUN, p.pid, procs[i].pid);
      }
    }
  }

  /** The active process's entry is freed. */
  lemma DestroyPlaced(procs: seq<Pcb>, a: int, qs: seq<seq<int>>)
    requires Placed(procs, a, qs) && a > 0
    ensures Placed(procs[a := FREE_PCB], NULL, qs)
  {
    var procs' := procs[a := FREE_PCB];
    assert TableOk(procs');
    forall l, x | 0 <= l < PID_QUEUES && x in qs[l] ensures Queued(procs', x, l) {
      assert Queued(procs, x, l);
      EntryOfLive(procs', EntryOf(procs, x));
    }
  }

  // ---- no queue can fill up ----

  ghost function PidsOf(procs: seq<Pcb>): set<int> {
    set i | 0 < i < |procs| && Live(procs[i]) :: procs[i].pid
  }

  lemma {:induction false} SetBound(procs: seq<Pcb>, n: nat)
    requires 0 < n <= |procs|
    ensures |PidsOf(procs[..n])| < n
  {
    if n == 1 {
      assert PidsOf(procs[..1]) == {};
    } else {
      SetBound(procs, n - 1);
      var small, big := PidsOf(procs[..n-1]), PidsOf(procs[..n]);
      assert big <= small + {procs[n-1].pid};
      SubsetSize(big, small + {procs[n-1].pid});
    }
  }

  lemma SubsetSize<T>(a: set<T>, b: set<T>)
    requires a <= b
    ensures |a| <= |b|
  {
    assert b == a + (b - a);
  }

  lemma {:induction false} NoDupSize(q: seq<int>, bound: set<int>)
    requires NoDup(q) && forall x :: x in q ==> x in bound
    ensures |q| <= |bound|
  {
    if q != [] {
      HeadNotInTail(q);
      var h := q[0];
      assert h in bound;
      NoDupSize(q[1..], bound - {h});
    }
  }

  /** At most 19 processes can ever share a queue of 32 slots. */
  lemma QueueNeverFull(procs: seq<Pcb>, qs: seq<seq<int>>, k: int)
    requires TableOk(procs) && QueuesOk(procs, qs) && 0 <= k < PID_QUEUES
    ensures |qs[k]| < 20
  {
    forall x | x in qs[k] ensures x in PidsOf(procs) {
      assert Queued(procs, x, k);
    }
    NoDupSize(qs[k], PidsOf(procs));
    SetBound(procs, PROC_MAX);
    assert procs[..PROC_MAX] == procs;
  }

  // ---- reading the invariant: one place per process ----

  ghost predicate InPlace(procs: seq<Pcb>, active: int, qs: seq<seq<int>>, i: int, k: int)
    requires 0 <= i < |procs|
  {
    if k == NULL then i == active && procs[i].state == Active
    else 0 <= k < |qs| && procs[i].pid in qs[k] && procs[i].state == StateAt(k)
  }

  /** Every live process but the idle one has exactly one place, occurs there once, and its
      state names the kind of place. */
  lemma OnePlace(procs: seq<Pcb>, active: int, qs: seq<seq<int>>, i: int) returns (k: int)
    requires Placed(procs, active, qs) && 0 < i < PROC_MAX && Live(procs[i])
    ensures InPlace(procs, active, qs, i, k)
    ensures forall l :: InPlace(procs, active, qs, i, l) ==> l == k
    ensures k != NULL ==> multiset(qs[k])[procs[i].pid] == 1
  {
    EntryOfLive(procs, i);
    if i == active {
      k := NULL;
    } else {
      k :| 0 <= k < PID_QUEUES && procs[i].pid in qs[k];
      assert Queued(procs, procs[i].pid, k);
      NoDupCountsOnce(qs[k], procs[i].pid);
    }
  }

  lemma {:induction false} NoDupCountsOnce(q: seq<int>, x: int)
    requires NoDup(q) && x in q
    ensures multiset(q)[x] == 1
  {
    HeadNotInTail(q);
    assert q == [q[0]] + q[1..];
    if q[0] != x {
      NoDupCountsOnce(q[1..], x);
    }
  }
}
