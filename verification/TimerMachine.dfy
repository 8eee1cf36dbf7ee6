/** The timer table of src/timer.c as it is in memory: an array of timers and a circular queue of
    free ids. Every method is proved against module Timers. */
module TimerMachine {
  import opened Types
  import opened CircularQueue
  import opened Placement
  import opened Timers

  class TimerDriver {
    const timers: array<Timer>
    const allocator: Queue
    var ticks: nat

    /** The ids whose callback has been called, in order. */
    ghost var called: seq<int>

    ghost predicate Valid()
      reads this, timers, allocator, allocator.items
    {
      && timers.Length == TIMERS_MAX
      && allocator.Valid()
    }

    ghost function Table(): TimerTable
      reads this, timers, allocator
    {
      TimerTable(ticks, timers[..], allocator.contents)
    }

    /** `timer_init`. */
    constructor ()
      ensures Valid() && Table() == Timers.Init() && called == []
      ensures fresh(timers) && fresh(allocator) && fresh(allocator.items)
    {
      timers := new Timer[TIMERS_MAX](_ => CLEAR_TIMER);
      allocator := new Queue();
      ticks := 0;
      called := [];
      new;
      ghost var ids := Timers.Init().pool;
      for i := 0 to TIMERS_MAX
        invariant Valid() && fresh(timers) && fresh(allocator) && fresh(allocator.items)
        invariant timers[..] == Timers.Init().timers && ticks == 0 && called == []
        invariant allocator.contents == ids[..i]
      {
        var rc := allocator.In(i);
      }
      assert ids[..TIMERS_MAX] == ids;
    }

    method Register(f: int, interval: int, repeat: int) returns (id: int)
      requires Valid() && Sane(Table())
      modifies timers, allocator, allocator.items
      ensures Valid() && (Table(), id) == Timers.Register(old(Table()), f, interval, repeat)
    {
      id := -1;
      if f == NO_CALLBACK {
        return -1;
      }
      var rc;
      rc, id := allocator.Out(id);
      if rc != 0 {
        return -1;
      }
      assert id in old(allocator.contents);
      timers[id] := Timer(f, interval, repeat);
    }

    method Unregister(id: int) returns (rc: int)
      requires Valid() && Sane(Table())
      modifies timers, allocator, allocator.items
      ensures Valid() && (Table(), rc) == Timers.Unregister(old(Table()), id)
    {
      if id < 0 || id >= TIMERS_MAX {
        return -1;
      }
      timers[id] := CLEAR_TIMER;
      rc := allocator.In(id);
      if rc != 0 {
        return -1;
      }
      return 0;
    }

    /** One timer interrupt. */
    method IrqHandler()
      requires Valid() && Sane(Table())
      modifies this`ticks, this`called, timers, allocator, allocator.items
      ensures Valid()
      ensures Table() == Irq(old(Table())).0 && called == old(called) + Irq(old(Table())).1
    {
      ghost var was := called;
      ticks := ticks + 1;
      ghost var start := Table();
      for i := 0 to TIMERS_MAX
        invariant Valid() && Table() == IrqLoop(start, i).0
        invariant called == was + IrqLoop(start, i).1
      {
        HandleTimer(i);
        assert IrqLoop(start, i + 1).0 == AgeEntry(IrqLoop(start, i).0, i);
      }
    }

    method HandleTimer(i: nat)
      requires Valid() && Sane(Table()) && i < TIMERS_MAX
      modifies this`called, timers, allocator, allocator.items
      ensures Valid() && Table() == AgeEntry(old(Table()), i)
      ensures called == if Hit(old(timers[i]), ticks) then old(called) + [i] else old(called)
    {
      if timers[i].callback != NO_CALLBACK {
        if ticks % timers[i].interval == 0 {
          called := called + [i];
        }
        if timers[i].repeat > 0 {
          timers[i] := timers[i].(repeat := timers[i].repeat - 1);
        } else if timers[i].repeat == 0 {
          var rc := Unregister(i);
        }
      }
    }
  }

  /** Any sequence of registrations, releases and ticks takes the table through `Run` and calls the
      callbacks that `Run` says, in that order. */
  method RunTimers(d: TimerDriver, es: seq<TimerEvent>)
    requires d.Valid() && Sane(d.Table()) && LegalRun(d.Table(), es)
    modifies d`ticks, d`called, d.timers, d.allocator, d.allocator.items
    ensures d.Valid() && d.Table() == Run(old(d.Table()), es).0
    ensures d.called == old(d.called) + Run(old(d.Table()), es).1
  {
    ghost var all := Run(d.Table(), es);
    assert es[0..] == es;
    for i := 0 to |es|
      invariant d.Valid() && Sane(d.Table()) && LegalRun(d.Table(), es[i..])
      invariant Run(d.Table(), es[i..]).0 == all.0
      invariant d.called + Run(d.Table(), es[i..]).1 == old(d.called) + all.1
    {
      assert es[i..][1..] == es[i + 1..];
      match es[i]
      case DoRegister(f, interval, repeat) => var id := d.Register(f, interval, repeat);
      case DoUnregister(id) => var rc := d.Unregister(id);
      case DoTick => d.IrqHandler();
    }
  }
}
