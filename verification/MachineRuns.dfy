/** Runs of the kernel on its tables and queues. */
module MachineRuns {
  import opened Types
  import opened KernelSpec
  import opened Invariant
  import opened Runs
  import opened KernelMachine

  /** Boots the machine and runs it: every entry after boot goes as in `Run`, without a panic. */
  method BootAndRun(es: seq<Event>) returns (m: Machine)
    requires Legal(KernelSpec.Boot(), es)
    ensures m.Valid() && m.st == Run(KernelSpec.Boot(), es) && Inv(m.st) && !m.panicked
  {
    hide KernelSpec.Boot, Inv, Legal, Run, Shape, Machine.Valid, Machine.Separate;
    BootQueues();
    m := new Machine();
    m.Boot();
    RunEntries(m, es);
  }

  /** Whatever entries follow, the tables go through the states of `Run`, keep the global
      invariant, and no entry panics. */
  method RunEntries(m: Machine, es: seq<Event>)
    requires m.Valid() && Inv(m.st) && Legal(m.st, es)
    modifies m.Repr()
    ensures m.Valid() && m.st == Run(old(m.st), es) && Inv(m.st) && !m.panicked
  {
    ghost var was := m.st;
    assert es[0..] == es;
    for n := 0 to |es|
      invariant m.Valid() && Inv(m.st) && Legal(m.st, es[n..])
      invariant Run(m.st, es[n..]) == Run(was, es)
    {
      hide *;
      assert es[n..][1..] == es[n + 1..];
      StepKeeps(m.st, es[n]);
      m.ContextEnter(es[n]);
    }
  }
}
