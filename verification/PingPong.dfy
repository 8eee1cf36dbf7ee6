/** The ping and pong programs as clients of two semaphores: their turns are tokens that no
    interleaving creates or destroys. */
module PingPong {
  import opened Types
  import opened KernelSpec
  import opened Placement
  import opened Invariant
  import opened Runs
  import opened Records
  import SemRuns
  import Entries

  /** Where a client is in its program: before ping's extra startup post, about to wait,
      or between its wait call and its next post. */
  datatype Phase = Startup | Ready(ping: bool) | Turn(ping: bool)

  /** The two semaphore ids that the programs share. */
  datatype Pair = Pair(ping: int, pong: int) {
    ghost predicate Valid() { InRange(ping, SEM_MAX) && InRange(pong, SEM_MAX) && ping != pong }

    function WaitId(isPing: bool): int { if isPing then ping else pong }
    function PostId(isPing: bool): int { if isPing then pong else ping }
  }

  type Clients = map<int, Phase>

  predicate Touches(e: Event, id: int) { e == SemWait(id) || e == SemPost(id) || e == SemDestroy(id) }

  /** What the active process may do: a client makes its next semaphore call or something unrelated
      and is not killed; other processes leave the pair alone. */
  ghost predicate Follows(s: Kernel, e: Event, ids: Pair, clients: Clients)
    requires Shape(s)
  {
    var p := ActivePid(s);
    var related := Touches(e, ids.ping) || Touches(e, ids.pong);
    if p !in clients then !related
    else
      !Kills(e) && (related ==>
        match clients[p]
        case Startup => e == SemPost(ids.pong)
        case Ready(ping) => e == SemWait(ids.WaitId(ping))
        case Turn(ping) => e == SemPost(ids.PostId(ping)))
  }

  ghost function Advance(s: Kernel, e: Event, ids: Pair, clients: Clients): Clients
    requires Shape(s)
  {
    var p := ActivePid(s);
    if p !in clients || !(Touches(e, ids.ping) || Touches(e, ids.pong)) then clients
    else
      match clients[p]
      case Startup => clients[p := Ready(true)]
      case Ready(ping) => clients[p := Turn(ping)]
      case Turn(ping) => clients[p := Ready(ping)]
  }

  // ---- the pair of semaphores, without the rest of the kernel ----

  datatype Sem = Sem(count: int, waiters: seq<int>)

  datatype View = View(ping: Sem, pong: Sem) {
    function At(isPing: bool): Sem { if isPing then ping else pong }

    function With(isPing: bool, m: Sem): View {
      if isPing then this.(ping := m) else this.(pong := m)
    }
  }

  function ViewOf(s: Kernel, ids: Pair): View
    requires |s.queues| == PID_QUEUES && |s.sems| == SEM_MAX && InRange(ids.ping, SEM_MAX) && InRange(ids.pong, SEM_MAX)
  {
    View(Sem(s.sems[ids.ping].count, SemRuns.Waiters(s, ids.ping)),
         Sem(s.sems[ids.pong].count, SemRuns.Waiters(s, ids.pong)))
  }

  function Waited(m: Sem, p: int): Sem {
    if m.count == 0 then m.(waiters := m.waiters + [p]) else m.(count := m.count - 1)
  }

  function Posted(m: Sem): Sem {
    if m.waiters == [] then m.(count := m.count + 1) else m.(waiters := m.waiters[1..])
  }

  /** A client whose wait has completed and who has not posted yet. */
  predicate Holds(v: View, clients: Clients, p: int) {
    p in clients && clients[p].Turn? && p !in v.At(clients[p].ping).waiters
  }

  ghost function Holders(v: View, clients: Clients): set<int> {
    set p | p in clients && Holds(v, clients, p)
  }

  /** Only clients in the middle of a wait call are queued, each on its own semaphore. */
  ghost predicate Consistent(v: View, clients: Clients) {
    && (forall p :: p in v.ping.waiters ==> p in clients && clients[p] == Turn(true))
    && (forall p :: p in v.pong.waiters ==> p in clients && clients[p] == Turn(false))
    && NoDup(v.ping.waiters) && NoDup(v.pong.waiters)
  }

  ghost function Tokens(v: View, clients: Clients): int {
    v.ping.count + v.pong.count + |Holders(v, clients)|
  }

  ghost function AfterWait(v: View, p: int, b: bool): View { v.With(b, Waited(v.At(b), p)) }

  ghost function AfterPost(v: View, b: bool): View { v.With(!b, Posted(v.At(!b))) }

  lemma WaitConsistent(v: View, clients: Clients, p: int, b: bool)
    requires Consistent(v, clients) && p in clients && clients[p] == Ready(b)
    ensures Consistent(AfterWait(v, p, b), clients[p := Turn(b)])
  {
  }

  lemma WaitHolders(v: View, clients: Clients, p: int, b: bool)
    requires Consistent(v, clients) && p in clients && clients[p] == Ready(b)
    ensures p !in Holders(v, clients)
    ensures Holders(AfterWait(v, p, b), clients[p := Turn(b)]) ==
            Holders(v, clients) + (if v.At(b).count == 0 then {} else {p})
  {
    var w, next := AfterWait(v, p, b), clients[p := Turn(b)];
    forall x | x != p ensures Holds(w, next, x) == Holds(v, clients, x) {}
    assert v.At(b).count == 0 ==> p in w.At(b).waiters;
    assert Holds(w, next, p) == (v.At(b).count != 0);
  }

  /** A wait call takes a unit of its semaphore into a client's turn, or changes nothing. */
  lemma WaitToken(v: View, clients: Clients, p: int, b: bool)
    requires Consistent(v, clients) && p in clients && clients[p] == Ready(b)
    ensures Consistent(AfterWait(v, p, b), clients[p := Turn(b)])
    ensures Tokens(AfterWait(v, p, b), clients[p := Turn(b)]) == Tokens(v, clients)
  {
    WaitConsistent(v, clients, p, b);
    WaitHolders(v, clients, p, b);
    hide Consistent, Holders, Holds;
  }

  lemma PostConsistent(v: View, clients: Clients, p: int, b: bool)
    requires Consistent(v, clients) && p in clients
    requires (clients[p] == Turn(b) && p in Holders(v, clients)) || (b && clients[p] == Startup)
    ensures Consistent(AfterPost(v, b), clients[p := Ready(b)])
  {
    var q := v.At(!b).waiters;
    if q != [] {
      HeadNotInTail(q);
      assert q == [q[0]] + q[1..];
    }
  }

  lemma PostHolders(v: View, clients: Clients, p: int, b: bool)
    requires Consistent(v, clients) && p in clients
    requires (clients[p] == Turn(b) && p in Holders(v, clients)) || (b && clients[p] == Startup)
    ensures var q := v.At(!b).waiters;
            (q != [] ==> q[0] !in Holders(v, clients) && q[0] != p) &&
            Holders(AfterPost(v, b), clients[p := Ready(b)]) ==
            Holders(v, clients) - {p} + (if q == [] then {} else {q[0]})
  {
    var w, next := AfterPost(v, b), clients[p := Ready(b)];
    var q := v.At(!b).waiters;
    assert !Holds(w, next, p);
    if q == [] {
      forall x | x != p ensures Holds(w, next, x) == Holds(v, clients, x) {}
    } else {
      var r := q[0];
      HeadNotInTail(q);
      assert r in q && q == [r] + q[1..];
      forall x | x != p && x != r ensures Holds(w, next, x) == Holds(v, clients, x) {}
      assert !Holds(v, clients, r) && Holds(w, next, r);
    }
  }

  /** A post by `p`, which moves on to `Ready(b)`: the token it held, or the one its startup post
      creates, ends up in the count or with the longest waiting client of the other kind. */
  lemma PostToken(v: View, clients: Clients, p: int, b: bool)
    requires Consistent(v, clients) && p in clients
    requires (clients[p] == Turn(b) && p in Holders(v, clients)) || (b && clients[p] == Startup)
    ensures Consistent(AfterPost(v, b), clients[p := Ready(b)])
    ensures Tokens(AfterPost(v, b), clients[p := Ready(b)]) ==
            Tokens(v, clients) + (if clients[p].Startup? then 1 else 0)
  {
    PostConsistent(v, clients, p, b);
    PostHolders(v, clients, p, b);
    assert clients[p].Startup? ==> p !in Holders(v, clients);
    hide Consistent, Holders, Holds;
  }

  // ---- kernel entries of the programs ----

  ghost predicate Ready2(s: Kernel, ids: Pair)
    requires Shape(s)
  {
    ids.Valid() && s.sems[ids.ping].inUse && s.sems[ids.pong].inUse
  }

  /** What one kernel entry does to the pair. */
  ghost function NextView(v: View, s: Kernel, e: Event, ids: Pair): View
    requires Shape(s)
  {
    if e == SemWait(ids.ping) then v.With(true, Waited(v.ping, ActivePid(s)))
    else if e == SemWait(ids.pong) then v.With(false, Waited(v.pong, ActivePid(s)))
    else if e == SemPost(ids.ping) then v.With(true, Posted(v.ping))
    else if e == SemPost(ids.pong) then v.With(false, Posted(v.pong))
    else v
  }

  lemma StepView(s: Kernel, e: Event, ids: Pair)
    requires Shape(s) && Inv(s) && Enabled(s, e) && Guard(s, e) && Ready2(s, ids)
    requires e != SemDestroy(ids.ping) && e != SemDestroy(ids.pong)
    ensures Ready2(Step(s, e), ids) && ViewOf(Step(s, e), ids) == NextView(ViewOf(s, ids), s, e, ids)
  {
    hide Inv, Step;
    SemRuns.StepSemMove(s, e, ids.ping);
    SemRuns.StepSemMove(s, e, ids.pong);
  }

  lemma ActiveNotWaiting(s: Kernel, ids: Pair)
    requires Shape(s) && Inv(s) && s.active != NULL && ids.Valid()
    ensures forall b: bool :: ActivePid(s) !in ViewOf(s, ids).At(b).waiters
  {
    ActiveUnqueued(s.procs, s.active, s.queues, SemQ(ids.ping));
    ActiveUnqueued(s.procs, s.active, s.queues, SemQ(ids.pong));
  }

  ghost function StartupOf(s: Kernel, e: Event, ids: Pair, clients: Clients): int
    requires Shape(s)
  {
    if e == SemPost(ids.pong) && ActivePid(s) in clients && clients[ActivePid(s)].Startup? then 1 else 0
  }

  lemma StepTokens(s: Kernel, e: Event, ids: Pair, clients: Clients)
    requires Shape(s) && Inv(s) && Enabled(s, e) && Guard(s, e) && Ready2(s, ids)
    requires Consistent(ViewOf(s, ids), clients) && Follows(s, e, ids, clients)
    ensures var w, next := ViewOf(Step(s, e), ids), Advance(s, e, ids, clients);
            Ready2(Step(s, e), ids) && Consistent(w, next) &&
            Tokens(w, next) == Tokens(ViewOf(s, ids), clients) + StartupOf(s, e, ids, clients)
  {
    hide Inv, Step, Tokens, Consistent, Guard;
    var v, p := ViewOf(s, ids), ActivePid(s);
    StepView(s, e, ids);
    if p in clients && (Touches(e, ids.ping) || Touches(e, ids.pong)) {
      ActiveNotWaiting(s, ids);
      match clients[p]
      case Startup => PostToken(v, clients, p, true);
      case Ready(b) => WaitToken(v, clients, p, b);
      case Turn(b) => PostToken(v, clients, p, b);
    }
  }

  ghost predicate FollowsAll(s: Kernel, es: seq<Event>, ids: Pair, clients: Clients)
    requires Shape(s) && Legal(s, es)
    decreases |es|
  {
    es == [] || (Follows(s, es[0], ids, clients) &&
                 FollowsAll(Step(s, es[0]), es[1..], ids, Advance(s, es[0], ids, clients)))
  }

  ghost function AdvanceAll(s: Kernel, es: seq<Event>, ids: Pair, clients: Clients): Clients
    requires Shape(s) && Legal(s, es)
    decreases |es|
  {
    if es == [] then clients else AdvanceAll(Step(s, es[0]), es[1..], ids, Advance(s, es[0], ids, clients))
  }

  ghost function Startups(s: Kernel, es: seq<Event>, ids: Pair, clients: Clients): int
    requires Shape(s) && Legal(s, es)
    decreases |es|
  {
    if es == [] then 0
    else StartupOf(s, es[0], ids, clients) + Startups(Step(s, es[0]), es[1..], ids, Advance(s, es[0], ids, clients))
  }

  /** Token conservation: in every interleaving in which no client is killed, the two counts and the
      clients between a completed wait and their next post add up to what they added up to at the
      start, plus the startup posts made since. */
  lemma {:induction false} TokenConservation(s: Kernel, es: seq<Event>, ids: Pair, clients: Clients)
    requires Shape(s) && Inv(s) && Legal(s, es) && Ready2(s, ids)
    requires Consistent(ViewOf(s, ids), clients) && FollowsAll(s, es, ids, clients)
    ensures var w, next := ViewOf(Run(s, es), ids), AdvanceAll(s, es, ids, clients);
            Ready2(Run(s, es), ids) && Consistent(w, next) &&
            Tokens(w, next) == Tokens(ViewOf(s, ids), clients) + Startups(s, es, ids, clients)
    decreases |es|
  {
    hide Inv, Step, Tokens, Consistent, Follows, Advance, StartupOf, Guard;
    if es != [] {
      StepKeeps(s, es[0]);
      StepTokens(s, es[0], ids, clients);
      TokenConservation(Step(s, es[0]), es[1..], ids, Advance(s, es[0], ids, clients));
    }
  }

  /** From a state with empty queues and nobody in its turn, the tokens are the counts plus the startup
      posts made since, and no more clients than that have their turn. */
  lemma TurnsBounded(s: Kernel, es: seq<Event>, ids: Pair, clients: Clients)
    requires Shape(s) && Inv(s) && Legal(s, es) && Ready2(s, ids) && FollowsAll(s, es, ids, clients)
    requires ViewOf(s, ids).ping.waiters == [] && ViewOf(s, ids).pong.waiters == []
    requires forall p :: p in clients ==> !clients[p].Turn?
    ensures var w, next := ViewOf(Run(s, es), ids), AdvanceAll(s, es, ids, clients);
            Tokens(w, next) == s.sems[ids.ping].count + s.sems[ids.pong].count + Startups(s, es, ids, clients) &&
            |Holders(w, next)| <= Tokens(w, next)
  {
    assert Holders(ViewOf(s, ids), clients) == {};
    TokenConservation(s, es, ids, clients);
    RunKeepsInv(s, es);
    hide Inv;
    SemRuns.SemState(Run(s, es), ids.ping);
    SemRuns.SemState(Run(s, es), ids.pong);
  }

  // ---- from the initialisation on ----

  /** The initial count that a ping (or pong) process gives to the ping (or pong) semaphore. */
  function InitialCount(pingSem: bool, byPing: bool): int {
    if pingSem == byPing then 1 else 0
  }

  /** Entries that do not touch a semaphore leave it alone. */
  lemma {:induction false} Untouched(s: Kernel, es: seq<Event>, m: int)
    requires Shape(s) && Inv(s) && Legal(s, es) && InRange(m, SEM_MAX) && s.sems[m].inUse
    requires forall e :: e in es ==> !Touches(e, m)
    ensures Run(s, es).sems[m] == s.sems[m] && SemRuns.Waiters(Run(s, es), m) == SemRuns.Waiters(s, m)
    decreases |es|
  {
    hide Inv, Step;
    if es != [] {
      assert es[0] in es;
      StepKeeps(s, es[0]);
      SemRuns.StepSemMove(s, es[0], m);
      Untouched(Step(s, es[0]), es[1..], m);
    }
  }

  /** The two initialisations, by a process of kind `first` and one of kind `second`, which may be the same
      process; nobody knows the first semaphore before the second one exists. */
  ghost predicate Initialises(s: Kernel, first: bool, between: seq<Event>, second: bool)
    requires Shape(s)
  {
    && Enabled(s, SemInit(InitialCount(true, first))) && s.semPool != []
    && var t := Step(s, SemInit(InitialCount(true, first)));
       Legal(t, between) && (forall e :: e in between ==> !Touches(e, s.semPool[0]))
       && Enabled(Run(t, between), SemInit(InitialCount(false, second))) && Run(t, between).semPool != []
  }

  ghost function BeforeSecond(s: Kernel, first: bool, between: seq<Event>, second: bool): (t: Kernel)
    requires Shape(s) && Initialises(s, first, between, second)
    ensures Shape(t)
  {
    Run(Step(s, SemInit(InitialCount(true, first))), between)
  }

  ghost function AfterInit(s: Kernel, first: bool, between: seq<Event>, second: bool): (t: Kernel)
    requires Shape(s) && Initialises(s, first, between, second)
    ensures Shape(t)
  {
    Step(BeforeSecond(s, first, between, second), SemInit(InitialCount(false, second)))
  }

  ghost function InitIds(s: Kernel, first: bool, between: seq<Event>, second: bool): Pair
    requires Shape(s) && Initialises(s, first, between, second)
  {
    Pair(s.semPool[0], BeforeSecond(s, first, between, second).semPool[0])
  }

  lemma PairInitialised(s: Kernel, first: bool, between: seq<Event>, second: bool)
    requires Shape(s) && Inv(s) && Initialises(s, first, between, second)
    ensures var t, ids := AfterInit(s, first, between, second), InitIds(s, first, between, second);
            Inv(t) && Ready2(t, ids) &&
            ViewOf(t, ids) == View(Sem(InitialCount(true, first), []), Sem(InitialCount(false, second), [])) &&
            t.sems[ids.ping].count == (if first then 1 else 0) && t.sems[ids.pong].count == (if second then 0 else 1)
  {
    hide Inv, Step;
    var e1, e2 := SemInit(InitialCount(true, first)), SemInit(InitialCount(false, second));
    var t := Step(s, e1);
    var u := Run(t, between);
    SemRuns.FreshSem(s, InitialCount(true, first));
    StepKeeps(s, e1);
    Untouched(t, between, s.semPool[0]);
    RunKeepsInv(t, between);
    SemRuns.FreshSem(u, InitialCount(false, second));
    StepKeeps(u, e2);
    SemRuns.StepSemMove(u, e2, s.semPool[0]);
    FreshIsFree(u);
  }

  lemma FreshIsFree(s: Kernel)
    requires Shape(s) && Inv(s) && s.semPool != []
    ensures InRange(s.semPool[0], SEM_MAX) && !s.sems[s.semPool[0]].inUse
  {
    assert s.semPool[0] in s.semPool;
  }

  /** Since the initialisation: the tokens are 1 plus the startup posts, in every interleaving, if and only
      if both semaphores were initialised by the same program. A ping and a pong process that each find one
      of them missing create two tokens, or none at all. */
  lemma TurnsSinceInit(s: Kernel, first: bool, between: seq<Event>, second: bool, es: seq<Event>, clients: Clients)
    requires Shape(s) && Inv(s) && Initialises(s, first, between, second)
    requires var t, ids := AfterInit(s, first, between, second), InitIds(s, first, between, second);
             Legal(t, es) && FollowsAll(t, es, ids, clients)
    requires forall p :: p in clients ==> !clients[p].Turn?
    ensures var t, ids := AfterInit(s, first, between, second), InitIds(s, first, between, second);
            var w, next := ViewOf(Run(t, es), ids), AdvanceAll(t, es, ids, clients);
            |Holders(w, next)| <= Tokens(w, next) &&
            (Tokens(w, next) == 1 + Startups(t, es, ids, clients) <==> first == second)
  {
    hide Inv, Step, Initialises, AfterInit, InitIds, FollowsAll, Tokens;
    PairInitialised(s, first, between, second);
    TurnsBounded(AfterInit(s, first, between, second), es, InitIds(s, first, between, second), clients);
  }

  // ---- whose turn is first ----

  /** Without a post, a semaphore without units keeps having none. */
  lemma {:induction false} NoUnits(s: Kernel, es: seq<Event>, m: int)
    requires Shape(s) && Inv(s) && Legal(s, es) && InRange(m, SEM_MAX) && s.sems[m] == Semaphore(true, 0)
    requires SemPost(m) !in es && SemDestroy(m) !in es
    ensures Run(s, es).sems[m] == Semaphore(true, 0)
    decreases |es|
  {
    hide Inv, Step;
    if es != [] {
      assert es[0] in es;
      StepKeeps(s, es[0]);
      SemRuns.StepSemMove(s, es[0], m);
      NoUnits(Step(s, es[0]), es[1..], m);
    }
  }

  lemma WaitBlocks(u: Kernel, id: int)
    requires Shape(u) && Inv(u) && u.active > 0 && InRange(id, SEM_MAX) && u.sems[id] == Semaphore(true, 0)
    ensures var v := Step(u, SemWait(id));
            v.procs[u.active].state == Waiting && v.procs[u.active].pid == ActivePid(u) &&
            ActivePid(v) != ActivePid(u) && SemRuns.Waiters(v, id) == SemRuns.Waiters(u, id) + [ActivePid(u)]
  {
    Entries.WaitEntry(u, id);
    Entries.WaitChanges(u, id);
    hide Inv, Step;
  }

  /** After one program has initialised both semaphores, the first of its processes to come to its wait call goes on
      at once, holding the only unit; a process of the other program blocks there, until there is a post. In its turn
      a client posts the other program's semaphore and keeps the processor. */
  lemma FirstTurn(s: Kernel, byPing: bool, between: seq<Event>, es: seq<Event>, e: Event, clients: Clients)
    requires Shape(s) && Inv(s) && Initialises(s, byPing, between, byPing)
    requires Legal(AfterInit(s, byPing, between, byPing), es)
    requires var u, ids := Run(AfterInit(s, byPing, between, byPing), es), InitIds(s, byPing, between, byPing);
             u.active > 0 && ActivePid(u) in clients && Follows(u, e, ids, clients) &&
             (Touches(e, ids.ping) || Touches(e, ids.pong))
    ensures var u, ids := Run(AfterInit(s, byPing, between, byPing), es), InitIds(s, byPing, between, byPing);
            var own, other := if byPing then ids.ping else ids.pong, if byPing then ids.pong else ids.ping;
            var p, v := ActivePid(u), Step(u, e);
            InRange(own, SEM_MAX) && InRange(other, SEM_MAX) && own != other &&
            (clients[p] == Ready(byPing) && (forall f :: f in es ==> !Touches(f, own)) ==>
               v == u.(sems := u.sems[own := Semaphore(true, 0)])) &&
            (clients[p] == Ready(!byPing) && SemPost(other) !in es && SemDestroy(other) !in es ==>
               v.procs[u.active].state == Waiting && ActivePid(v) != p && p in SemRuns.Waiters(v, other)) &&
            (clients[p] == Turn(byPing) ==> e == SemPost(other)) &&
            (clients[p] == Turn(!byPing) ==> e == SemPost(own)) &&
            (clients[p] == Startup ==> e == SemPost(ids.pong))
  {
    hide Inv, Step, Initialises, AfterInit, InitIds;
    var t, ids := AfterInit(s, byPing, between, byPing), InitIds(s, byPing, between, byPing);
    var own, other := if byPing then ids.ping else ids.pong, if byPing then ids.pong else ids.ping;
    var u := Run(t, es);
    PairInitialised(s, byPing, between, byPing);
    RunKeepsInv(t, es);
    if clients[ActivePid(u)] == Ready(byPing) && forall f :: f in es ==> !Touches(f, own) {
      Untouched(t, es, own);
      Entries.WaitEntry(u, own);
    } else if clients[ActivePid(u)] == Ready(!byPing) && SemPost(other) !in es && SemDestroy(other) !in es {
      NoUnits(t, es, other);
      WaitBlocks(u, other);
    }
  }
}
