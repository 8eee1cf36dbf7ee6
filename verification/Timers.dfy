/** The timer table of src/timer.c as values: which callbacks run on which tick, over whole runs.
    A callback is a number standing for its function pointer, 0 for the null pointer. */
module Timers {
  import opened Types
  import opened Placement
  import opened Invariant

  const TIMERS_MAX: nat := 32
  const NO_CALLBACK: int := 0

  datatype Timer = Timer(callback: int, interval: int, repeat: int)
  datatype TimerTable = TimerTable(ticks: nat, timers: seq<Timer>, pool: seq<int>)

  const CLEAR_TIMER := Timer(NO_CALLBACK, 0, 0)

  predicate Registered(m: Timer) { m.callback != NO_CALLBACK }

  /** No registered timer would have the handler divide by zero. */
  ghost predicate Sane(t: TimerTable) {
    && |t.timers| == TIMERS_MAX
    && (forall x :: x in t.pool ==> 0 <= x < TIMERS_MAX)
    && (forall i :: 0 <= i < TIMERS_MAX && Registered(t.timers[i]) ==> t.timers[i].interval != 0)
  }

  // ---- the routines ----

  function Register(t: TimerTable, f: int, interval: int, repeat: int): (r: (TimerTable, int))
    requires Sane(t)
    ensures interval != 0 ==> Sane(r.0)
  {
    if f == NO_CALLBACK || t.pool == [] then (t, -1)
    else
      assert t.pool[0] in t.pool && forall x :: x in t.pool[1..] ==> x in t.pool;
      (t.(timers := t.timers[t.pool[0] := Timer(f, interval, repeat)], pool := t.pool[1..]), t.pool[0])
  }

  function Unregister(t: TimerTable, id: int): (r: (TimerTable, int))
    requires Sane(t)
    ensures Sane(r.0)
  {
    if id < 0 || id >= TIMERS_MAX then (t, -1)
    else
      var u := t.(timers := t.timers[id := CLEAR_TIMER]);
      if |t.pool| >= QUEUE_SIZE then (u, -1) else (u.(pool := u.pool + [id]), 0)
  }

  /** The interval is hit: a multiple of it, whatever its sign. */
  predicate Hit(m: Timer, ticks: nat)
    requires Registered(m) ==> m.interval != 0
  {
    Registered(m) && ticks % m.interval == 0
  }

  function AgeEntry(t: TimerTable, i: int): (r: TimerTable)
    requires Sane(t) && 0 <= i < TIMERS_MAX
    ensures Sane(r) && r.ticks == t.ticks
  {
    var m := t.timers[i];
    if !Registered(m) then t
    else if m.repeat > 0 then t.(timers := t.timers[i := m.(repeat := m.repeat - 1)])
    else if m.repeat == 0 then Unregister(t, i).0
    else t
  }

  /** The first `n` entries of the table handled; the ids whose callback was called, in order. */
  function IrqLoop(t: TimerTable, n: nat): (r: (TimerTable, seq<int>))
    requires Sane(t) && n <= TIMERS_MAX
    ensures Sane(r.0) && r.0.ticks == t.ticks
  {
    if n == 0 then (t, [])
    else
      var (u, called) := IrqLoop(t, n - 1);
      (AgeEntry(u, n - 1), if Hit(u.timers[n - 1], u.ticks) then called + [n - 1] else called)
  }

  function Irq(t: TimerTable): (r: (TimerTable, seq<int>))
    requires Sane(t)
    ensures Sane(r.0)
  {
    IrqLoop(t.(ticks := t.ticks + 1), TIMERS_MAX)
  }

  function Init(): (t: TimerTable)
    ensures Sane(t)
  {
    TimerTable(0, seq(TIMERS_MAX, _ => CLEAR_TIMER), seq(TIMERS_MAX, i => i))
  }

  // ---- ids are registered or in the pool ----

  ghost predicate PoolOk(t: TimerTable) {
    && Sane(t) && NoDup(t.pool)
    && (forall i :: 0 <= i < TIMERS_MAX ==> (i in t.pool <==> !Registered(t.timers[i])))
  }

  /** At the start no timer is registered, and the 32 ids are handed out in ascending order. */
  lemma InitPoolOk()
    ensures PoolOk(Init())
    ensures Init().ticks == 0 && |Init().timers| == |Init().pool| == 32
    ensures forall i :: 0 <= i < 32 ==> Init().timers[i].callback == 0 && Init().pool[i] == i
  {
    forall i | 0 <= i < TIMERS_MAX ensures i in Init().pool {
      assert Init().pool[i] == i;
    }
  }

  lemma RegisterKeeps(t: TimerTable, f: int, interval: int, repeat: int)
    requires PoolOk(t) && interval != 0
    ensures PoolOk(Register(t, f, interval, repeat).0)
  {
    if f != NO_CALLBACK && t.pool != [] {
      HeadNotInTail(t.pool);
      forall i | 0 <= i < TIMERS_MAX && i != t.pool[0] ensures i in t.pool[1..] <==> i in t.pool {
        assert t.pool == [t.pool[0]] + t.pool[1..];
      }
    }
  }

  /** A registration takes the oldest free id and stores just what was asked for there. It fails without a
      callback or without a free id, and then changes nothing. */
  lemma RegisterEffect(t: TimerTable, f: int, interval: int, repeat: int)
    requires PoolOk(t)
    ensures var (u, id) := Register(t, f, interval, repeat);
            if f == 0 || t.pool == [] then id == -1 && u == t
            else
              0 <= id < 32 && [id] + u.pool == t.pool && u.ticks == t.ticks && !Registered(t.timers[id]) &&
              u.timers[id].callback == f && u.timers[id].interval == interval && u.timers[id].repeat == repeat &&
              |u.timers| == 32 && forall i :: 0 <= i < 32 && i != id ==> u.timers[i] == t.timers[i]
  {
    if t.pool != [] {
      assert t.pool[0] in t.pool;
    }
  }

  /** A registered id leaves room for itself in the pool, so giving it back never fails. */
  lemma RoomInPool(t: TimerTable, id: int)
    requires PoolOk(t) && 0 <= id < TIMERS_MAX && Registered(t.timers[id])
    ensures |t.pool| < TIMERS_MAX
  {
    FreeListBound(t.pool + [id], TIMERS_MAX);
  }

  lemma UnregisterRegistered(t: TimerTable, id: int)
    requires PoolOk(t) && 0 <= id < TIMERS_MAX && Registered(t.timers[id])
    ensures var (u, rc) := Unregister(t, id);
            PoolOk(u) && rc == 0 && u.pool == t.pool + [id] && u.timers == t.timers[id := Timer(0, 0, 0)] &&
            u.ticks == t.ticks
  {
    RoomInPool(t, id);
    assert id !in t.pool;
  }

  /** An id in range always loses its callback; it joins the pool if the pool has room. */
  lemma UnregisterClears(t: TimerTable, id: int)
    requires Sane(t) && 0 <= id < 32
    ensures var (u, rc) := Unregister(t, id);
            u.timers == t.timers[id := Timer(0, 0, 0)] && u.ticks == t.ticks &&
            if |t.pool| >= 32 then rc == -1 && u.pool == t.pool else rc == 0 && u.pool == t.pool + [id]
  {
  }

  /** The call reports success exactly for an id in range while some timer is registered, and refuses
      an id out of range. */
  lemma UnregisterReturnsIff(t: TimerTable, id: int)
    requires PoolOk(t)
    ensures var (u, rc) := Unregister(t, id);
            (rc == 0 || rc == -1) && (!(0 <= id < 32) ==> u == t) &&
            (rc == 0 <==> 0 <= id < 32 && exists i :: 0 <= i < 32 && t.timers[i].callback != 0)
  {
    FreeListBound(t.pool, TIMERS_MAX);
    if i :| 0 <= i < 32 && t.timers[i].callback != 0 {
      RoomInPool(t, i);
    } else {
      PoolIsAll(t);
    }
  }

  /** Unregistering keeps the pool sound exactly if the id is out of range, is registered, or no
      timer is registered at all. */
  lemma UnregisterKeepsIff(t: TimerTable, id: int)
    requires PoolOk(t)
    ensures PoolOk(Unregister(t, id).0) <==>
              (!(0 <= id < TIMERS_MAX) || Registered(t.timers[id]) ||
               forall i :: 0 <= i < TIMERS_MAX ==> !Registered(t.timers[i]))
  {
    FreeListBound(t.pool, TIMERS_MAX);
    if 0 <= id < TIMERS_MAX {
      if Registered(t.timers[id]) {
        UnregisterRegistered(t, id);
      } else {
        var u := Unregister(t, id).0;
        if j :| 0 <= j < TIMERS_MAX && Registered(t.timers[j]) {
          RoomInPool(t, j);
          var k :| 0 <= k < |t.pool| && t.pool[k] == id;
          assert u.pool[k] == u.pool[|t.pool|];
        } else {
          PoolIsAll(t);
          assert forall i :: 0 <= i < TIMERS_MAX ==> (Registered(u.timers[i]) <==> Registered(t.timers[i]));
        }
      }
    }
  }

  lemma PoolIsAll(t: TimerTable)
    requires PoolOk(t) && forall i :: 0 <= i < TIMERS_MAX ==> !Registered(t.timers[i])
    ensures |t.pool| >= TIMERS_MAX
  {
    var all := set x | x in t.pool;
    assert UpTo(TIMERS_MAX) <= all;
    SubsetSize(UpTo(TIMERS_MAX), all);
    SeqSetSize(t.pool);
  }

  lemma {:induction false} SeqSetSize(q: seq<int>)
    ensures |set x | x in q| <= |q|
  {
    if q != [] {
      SeqSetSize(q[1..]);
      assert (set x | x in q) == {q[0]} + (set x | x in q[1..]) by {
        assert q == [q[0]] + q[1..];
      }
    }
  }

  // ---- one tick ----

  /** What a tick does to a timer: a repeat count drops on every tick, not on every interval. */
  function Aged(m: Timer): Timer {
    if !Registered(m) || m.repeat < 0 then m
    else if m.repeat > 0 then m.(repeat := m.repeat - 1)
    else CLEAR_TIMER
  }

  predicate Multiple(a: int, q: int, k: int) { a == q * k }

  /** A callback is due on the ticks that its interval divides, whatever the sign of the interval. */
  lemma HitIff(m: Timer, ticks: nat)
    requires Registered(m) ==> m.interval != 0
    ensures Hit(m, ticks) <==> m.callback != 0 && exists q :: Multiple(ticks, q, m.interval)
  {
    if Registered(m) {
      var k, d := m.interval, ticks / m.interval;
      assert ticks == d * k + ticks % k;
      if ticks % k == 0 {
        assert Multiple(ticks, d, k);
      } else if q :| Multiple(ticks, q, k) {
        assert q * k - d * k == (q - d) * k;
        if k > 0 {
          ProductBound(q - d, k);
        } else {
          assert (q - d) * k == (d - q) * -k;
          ProductBound(d - q, -k);
        }
        assert false;
      }
    }
  }

  ghost predicate Ascending(q: seq<int>) {
    forall i, j :: 0 <= i < j < |q| ==> q[i] < q[j]
  }

  lemma NoneAscending(q: seq<int>)
    ensures Ascending([]) && Ascending(q[|q|..])
  {
  }

  lemma AscendingAppend(q: seq<int>, x: int)
    requires Ascending(q) && forall y :: y in q ==> y < x
    ensures Ascending(q + [x])
  {
    var r := q + [x];
    forall i, j | 0 <= i < j < |r| ensures r[i] < r[j] {
      assert r[i] == q[i] && q[i] in q;
    }
  }

  lemma AgeEntryEffect(t: TimerTable, i: int)
    requires PoolOk(t) && 0 <= i < TIMERS_MAX
    ensures var u := AgeEntry(t, i);
            PoolOk(u) && u.timers == t.timers[i := Aged(t.timers[i])] &&
            (u.pool == t.pool || u.pool == t.pool + [i])
  {
    if Registered(t.timers[i]) {
      if t.timers[i].repeat == 0 {
        UnregisterRegistered(t, i);
      }
    }
  }

  lemma {:induction false} LoopEffect(t: TimerTable, n: nat, id: int)
    requires Sane(t) && PoolOk(t) && n <= TIMERS_MAX && 0 <= id < TIMERS_MAX
    ensures var (u, called) := IrqLoop(t, n);
            PoolOk(u) && u.timers[id] == (if id < n then Aged(t.timers[id]) else t.timers[id]) &&
            (forall x :: x in called ==> 0 <= x < n) &&
            multiset(called)[id] == if id < n && Hit(t.timers[id], t.ticks) then 1 else 0
  {
    hide PoolOk, AgeEntry, Aged;
    if n > 0 {
      LoopEffect(t, n - 1, id);
      LoopEffect(t, n - 1, n - 1);
      AgeEntryEffect(IrqLoop(t, n - 1).0, n - 1);
      assert n - 1 !in IrqLoop(t, n - 1).1;
    }
  }

  /** A tick calls each registered callback whose interval is hit exactly once, and no other. */
  lemma TickEffect(t: TimerTable, id: int)
    requires PoolOk(t) && 0 <= id < TIMERS_MAX
    ensures var (u, called) := Irq(t);
            PoolOk(u) && u.ticks == t.ticks + 1 && u.timers[id] == Aged(t.timers[id]) &&
            multiset(called)[id] == if Hit(t.timers[id], t.ticks + 1) then 1 else 0
  {
    LoopEffect(t.(ticks := t.ticks + 1), TIMERS_MAX, id);
  }

  /** The callbacks of a tick run in the order of their ids, and ids of ended timers join the pool in
      that order, behind the others. */
  lemma {:induction false} CallOrder(t: TimerTable, n: nat)
    requires Sane(t) && PoolOk(t) && n <= TIMERS_MAX
    ensures var called := IrqLoop(t, n).1;
            Ascending(called) && forall x :: x in called ==> 0 <= x < n
  {
    hide PoolOk, AgeEntry, Aged, Ascending;
    if n == 0 {
      NoneAscending([]);
    } else {
      CallOrder(t, n - 1);
      LoopEffect(t, n - 1, n - 1);
      AscendingAppend(IrqLoop(t, n - 1).1, n - 1);
    }
  }

  lemma {:induction false} PoolOrder(t: TimerTable, n: nat)
    requires Sane(t) && PoolOk(t) && n <= TIMERS_MAX
    ensures var u := IrqLoop(t, n).0;
            t.pool <= u.pool && Ascending(u.pool[|t.pool|..]) && forall x :: x in u.pool[|t.pool|..] ==> 0 <= x < n
  {
    hide PoolOk, AgeEntry, Aged, Ascending, Hit;
    if n == 0 {
      NoneAscending(t.pool);
    } else {
      PoolOrder(t, n - 1);
      LoopEffect(t, n - 1, n - 1);
      var u := IrqLoop(t, n - 1).0;
      AgeEntryEffect(u, n - 1);
      AscendingAppend(u.pool[|t.pool|..], n - 1);
      assert (u.pool + [n - 1])[|t.pool|..] == u.pool[|t.pool|..] + [n - 1];
    }
  }

  lemma TickOrder(t: TimerTable)
    requires PoolOk(t)
    ensures var (u, called) := Irq(t);
            Ascending(called) && t.pool <= u.pool && Ascending(u.pool[|t.pool|..])
  {
    CallOrder(t.(ticks := t.ticks + 1), TIMERS_MAX);
    PoolOrder(t.(ticks := t.ticks + 1), TIMERS_MAX);
  }

  // ---- runs ----

  datatype TimerEvent = DoRegister(callback: int, interval: int, repeat: int) | DoUnregister(id: int) | DoTick

  /** The event keeps the table sound: no zero interval, and only registered ids are given back. */
  ghost predicate Allowed(t: TimerTable, e: TimerEvent) {
    match e
    case DoRegister(_, interval, _) => interval != 0
    case DoUnregister(id) => 0 <= id < |t.timers| ==> Registered(t.timers[id])
    case DoTick => true
  }

  function Step(t: TimerTable, e: TimerEvent): (r: (TimerTable, seq<int>))
    requires Sane(t) && (e.DoRegister? ==> e.interval != 0)
    ensures Sane(r.0)
  {
    match e
    case DoRegister(f, interval, repeat) => (Register(t, f, interval, repeat).0, [])
    case DoUnregister(id) => (Unregister(t, id).0, [])
    case DoTick => Irq(t)
  }

  ghost predicate LegalRun(t: TimerTable, es: seq<TimerEvent>)
    requires Sane(t)
    decreases |es|
  {
    es == [] || (Allowed(t, es[0]) && LegalRun(Step(t, es[0]).0, es[1..]))
  }

  /** The table after a run, and every callback called, in order. */
  ghost function Run(t: TimerTable, es: seq<TimerEvent>): (r: (TimerTable, seq<int>))
    requires Sane(t) && LegalRun(t, es)
    ensures Sane(r.0)
    decreases |es|
  {
    if es == [] then (t, [])
    else
      var (u, called) := Step(t, es[0]);
      var (v, more) := Run(u, es[1..]);
      (v, called + more)
  }

  lemma StepKeepsPool(t: TimerTable, e: TimerEvent)
    requires PoolOk(t) && Allowed(t, e)
    ensures PoolOk(Step(t, e).0)
  {
    match e
    case DoRegister(f, interval, repeat) => RegisterKeeps(t, f, interval, repeat);
    case DoUnregister(id) => if 0 <= id < TIMERS_MAX { UnregisterRegistered(t, id); }
    case DoTick => TickEffect(t, 0);
  }

  /** In every run the registered ids and the pool partition 0..31. */
  lemma {:induction false} RunKeepsPool(t: TimerTable, es: seq<TimerEvent>)
    requires PoolOk(t) && LegalRun(t, es)
    ensures PoolOk(Run(t, es).0)
    decreases |es|
  {
    if es != [] {
      StepKeepsPool(t, es[0]);
      RunKeepsPool(Step(t, es[0]).0, es[1..]);
    }
  }

  /** So it is in every run from `timer_init` on. */
  lemma InitRunKeepsPool(es: seq<TimerEvent>)
    requires LegalRun(Init(), es)
    ensures PoolOk(Run(Init(), es).0)
  {
    InitPoolOk();
    RunKeepsPool(Init(), es);
  }

  // ---- counting calls ----

  lemma ProductBound(x: int, k: int)
    requires k > 0
    ensures x >= 1 ==> x * k >= k
    ensures x <= -1 ==> x * k <= -k
  {
    if x >= 1 {
      assert x * k == k + (x - 1) * k;
    } else if x <= -1 {
      assert x * k == -k + (x + 1) * k;
    }
  }

  lemma QuotientUnique(a: int, k: int, q: int, m: int)
    requires k > 0 && a == q * k + m && 0 <= m < k
    ensures a / k == q && a % k == m
  {
    var d, r := a / k, a % k;
    assert a == d * k + r;
    assert q * k - d * k == (q - d) * k;
    ProductBound(q - d, k);
  }

  /** The quotient grows by one exactly at the multiples. */
  lemma NextQuotient(a: nat, k: int)
    requires k > 0
    ensures (a + 1) / k == a / k + if (a + 1) % k == 0 then 1 else 0
  {
    var q, m := a / k, a % k;
    assert a == q * k + m;
    if m + 1 == k {
      assert a + 1 == (q + 1) * k + 0;
      QuotientUnique(a + 1, k, q + 1, 0);
    } else {
      QuotientUnique(a + 1, k, q, m + 1);
    }
  }

  /** Timer `id` is live for the whole run: nobody unregisters it, and its count does not run out. */
  ghost predicate Undisturbed(t: TimerTable, id: int, es: seq<TimerEvent>)
    requires Sane(t) && 0 <= id < TIMERS_MAX && LegalRun(t, es)
  {
    && Registered(t.timers[id]) && t.timers[id].interval > 0
    && DoUnregister(id) !in es
    && (t.timers[id].repeat >= 0 ==> Run(t, es).0.ticks <= t.ticks + t.timers[id].repeat + 1)
  }

  lemma {:induction false} TicksGrow(t: TimerTable, es: seq<TimerEvent>)
    requires PoolOk(t) && LegalRun(t, es)
    ensures Run(t, es).0.ticks >= t.ticks
    decreases |es|
  {
    if es != [] {
      StepKeepsPool(t, es[0]);
      if es[0].DoTick? {
        TickEffect(t, 0);
      }
      TicksGrow(Step(t, es[0]).0, es[1..]);
    }
  }

  lemma {:induction false} NoTickNoCall(t: TimerTable, es: seq<TimerEvent>)
    requires PoolOk(t) && LegalRun(t, es) && Run(t, es).0.ticks == t.ticks
    ensures Run(t, es).1 == []
    decreases |es|
  {
    if es != [] {
      StepKeepsPool(t, es[0]);
      TicksGrow(Step(t, es[0]).0, es[1..]);
      if es[0].DoTick? {
        TickEffect(t, 0);
        assert false;
      }
      NoTickNoCall(Step(t, es[0]).0, es[1..]);
    }
  }

  /** Registering another timer and unregistering another id leave a live timer as it is. */
  lemma OthersUntouched(t: TimerTable, id: int, e: TimerEvent)
    requires PoolOk(t) && 0 <= id < TIMERS_MAX && Allowed(t, e)
    requires Registered(t.timers[id]) && !e.DoTick? && e != DoUnregister(id)
    ensures var (u, called) := Step(t, e);
            u.timers[id] == t.timers[id] && u.ticks == t.ticks && called == []
  {
    if e.DoRegister? && t.pool != [] {
      assert t.pool[0] != id;
    }
  }

  /** A callback with interval `k` is called exactly T / k - T0 / k times between ticks T0 and T.
      With a repeat count `r` that is so for the r + 1 ticks of its life. */
  lemma {:induction false} CallCount(t: TimerTable, id: int, es: seq<TimerEvent>)
    requires Sane(t) && PoolOk(t) && 0 <= id < TIMERS_MAX && LegalRun(t, es) && Undisturbed(t, id, es)
    ensures var (u, called) := Run(t, es);
            var k := t.timers[id].interval;
            multiset(called)[id] == u.ticks / k - t.ticks / k
    decreases |es|
  {
    hide PoolOk, Irq;
    if es != [] {
      var (u, called) := Step(t, es[0]);
      var m := t.timers[id];
      StepKeepsPool(t, es[0]);
      TicksGrow(u, es[1..]);
      if es[0] != DoTick {
        OthersUntouched(t, id, es[0]);
        CallCount(u, id, es[1..]);
        assert called + Run(u, es[1..]).1 == Run(u, es[1..]).1;
      } else {
        TickEffect(t, id);
        NextQuotient(t.ticks, m.interval);
        if m.repeat == 0 {
          NoTickNoCall(u, es[1..]);
        } else {
          CallCount(u, id, es[1..]);
        }
      }
    }
  }

  /** So it is from the registration on: registered at tick T0 with interval `k` and a negative repeat, a callback
      is called exactly T / k - T0 / k times by tick T, for as long as nobody unregisters it; with interval 1,
      as the scheduler's, on every tick. */
  lemma CallsSinceRegister(t: TimerTable, f: int, k: int, repeat: int, es: seq<TimerEvent>)
    requires Sane(t) && PoolOk(t) && f != 0 && t.pool != [] && k > 0
    requires LegalRun(Register(t, f, k, repeat).0, es) && DoUnregister(t.pool[0]) !in es
    requires repeat >= 0 ==> Run(Register(t, f, k, repeat).0, es).0.ticks <= t.ticks + repeat + 1
    ensures var (u, called) := Run(Register(t, f, k, repeat).0, es);
            multiset(called)[t.pool[0]] == u.ticks / k - t.ticks / k &&
            (k == 1 ==> multiset(called)[t.pool[0]] == u.ticks - t.ticks)
  {
    hide Register, PoolOk, LegalRun, Run;
    RegisterEffect(t, f, k, repeat);
    RegisterKeeps(t, f, k, repeat);
    var u := Register(t, f, k, repeat).0;
    CallCount(u, t.pool[0], es);
    var ticks := Run(u, es).0.ticks;
    assert k == 1 ==> ticks / k == ticks && t.ticks / k == t.ticks;
  }

  /** When a repeat count is the number of calls: with the interval at least 3, only counts 0 and 1 can be. */
  predicate CountsCalls(ticks: nat, interval: int, repeat: int)
    requires interval > 0
  {
    || (repeat == 0 && (ticks + 1) % interval != 0)
    || (repeat == 1 && interval >= 2 && ticks % interval >= interval - 2)
    || (repeat == 2 && interval == 2 && ticks % 2 == 1)
  }

  lemma QuotientIff(b: nat, k: int, q: nat)
    requires k > 0
    ensures b / k == q <==> q * k <= b < q * k + k
  {
    if q * k <= b < q * k + k {
      QuotientUnique(b, k, q, b - q * k);
    } else {
      assert b == b / k * k + b % k;
    }
  }

  lemma RepeatQuotient(t0: nat, k: int, r: nat)
    requires k > 0
    ensures (t0 + r + 1) / k - t0 / k == r <==> CountsCalls(t0, k, r)
  {
    var a, b := t0 % k, t0 % k + r + 1;
    assert t0 == t0 / k * k + a;
    assert (t0 / k + b / k) * k == t0 / k * k + b / k * k;
    QuotientUnique(t0 + r + 1, k, t0 / k + b / k, b % k);
    QuotientIff(b, k, r);
    if r == 0 {
      NextQuotient(t0, k);
    } else if r >= 3 {
      assert k == 1 || r * k >= 2 * r + (k - 2) * 3 by { assert r * k == 2 * r + r * (k - 2); RepeatLarge(r, k); }
    }
  }

  lemma RepeatLarge(r: nat, k: int)
    requires r >= 3 && k > 0
    ensures k == 1 || r * (k - 2) >= 3 * (k - 2)
  {
    if k > 1 {
      assert r * (k - 2) == 3 * (k - 2) + (r - 3) * (k - 2);
      assert (r - 3) * (k - 2) >= 0;
    }
  }

  /** The number of calls a finite repeat count leads to over the whole life of the timer: when it
      is the count itself. */
  lemma RepeatIsCallsIff(t: TimerTable, id: int, es: seq<TimerEvent>)
    requires PoolOk(t) && 0 <= id < TIMERS_MAX && LegalRun(t, es) && Undisturbed(t, id, es)
    requires t.timers[id].repeat >= 0 && Run(t, es).0.ticks == t.ticks + t.timers[id].repeat + 1
    ensures var m := t.timers[id];
            multiset(Run(t, es).1)[id] == m.repeat <==> CountsCalls(t.ticks, m.interval, m.repeat)
  {
    CallCount(t, id, es);
    RepeatQuotient(t.ticks, t.timers[id].interval, t.timers[id].repeat);
  }

  /** The life of a timer: while it lasts it stays in the table, its repeat count going down with
      every tick; it ends r + 1 ticks after the registration, and never if r is negative. */
  lemma {:induction false} Lifetime(t: TimerTable, id: int, es: seq<TimerEvent>)
    requires PoolOk(t) && 0 <= id < TIMERS_MAX && LegalRun(t, es) && Undisturbed(t, id, es)
    requires es != [] && es[|es| - 1] == DoTick
    ensures var u, m := Run(t, es).0, t.timers[id];
            var age := u.ticks - t.ticks;
            u.timers[id] == if m.repeat < 0 then m
                            else if age <= m.repeat then m.(repeat := m.repeat - age)
                            else CLEAR_TIMER
    decreases |es|
  {
    var u := Step(t, es[0]).0;
    StepKeepsPool(t, es[0]);
    if es[0] != DoTick {
      OthersUntouched(t, id, es[0]);
      Lifetime(u, id, es[1..]);
    } else {
      TickEffect(t, id);
      if |es| == 1 {
        assert Run(u, es[1..]).0 == u;
      } else if t.timers[id].repeat == 0 {
        LastTickGrows(u, es[1..]);
        assert false;
      } else {
        Lifetime(u, id, es[1..]);
      }
    }
  }

  lemma {:induction false} LastTickGrows(t: TimerTable, es: seq<TimerEvent>)
    requires PoolOk(t) && LegalRun(t, es) && es != [] && es[|es| - 1] == DoTick
    ensures Run(t, es).0.ticks > t.ticks
    decreases |es|
  {
    var u := Step(t, es[0]).0;
    StepKeepsPool(t, es[0]);
    if es[0].DoTick? {
      TickEffect(t, 0);
      TicksGrow(u, es[1..]);
    } else {
      LastTickGrows(u, es[1..]);
    }
  }
}
