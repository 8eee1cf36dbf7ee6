/** Runs of the terminal pipeline: keys, output system calls and redraws in any order. */
module TtyRuns {
  import opened RingBuffer
  import opened Terminal
  import opened TtyMachine

  /** A key, the three I/O calls on the output ring, and the redraw callback. */
  datatype TtyEvent = Key(c: char) | Output(bytes: seq<char>) | Flush | ReadBack(size: int) | Redraw

  /** What has been drawn, and what is waiting in the output ring. */
  datatype Pipeline = Pipeline(drawn: seq<char>, pending: seq<char>)

  /** The bytes an event sends towards the screen. */
  function Sent(e: TtyEvent, echo: bool): seq<char> {
    match e
    case Key(c) => if echo then [c] else []
    case Output(bytes) => bytes
    case _ => []
  }

  /** Flushing the output ring, or reading from it, empties it: what was pending never gets to the screen. */
  predicate Discards(e: TtyEvent) {
    e.Flush? || (e.ReadBack? && e.size >= 0)
  }

  function Advance(l: Pipeline, e: TtyEvent, echo: bool): Pipeline
    requires |l.pending| <= RINGBUF_SIZE
  {
    if e.Redraw? then Pipeline(l.drawn + l.pending, [])
    else if Discards(e) then l.(pending := [])
    else l.(pending := l.pending + Sent(e, echo)[..Min(|Sent(e, echo)|, RINGBUF_SIZE - |l.pending|)])
  }

  function Flow(events: seq<TtyEvent>, echo: bool): (l: Pipeline)
    ensures |l.pending| <= RINGBUF_SIZE
  {
    if events == [] then Pipeline([], [])
    else Advance(Flow(events[..|events| - 1], echo), events[|events| - 1], echo)
  }

  function AllSent(events: seq<TtyEvent>, echo: bool): seq<char> {
    if events == [] then []
    else AllSent(events[..|events| - 1], echo) + Sent(events[|events| - 1], echo)
  }

  /** The output ring has room for what the event sends, or is empty if the event discards its contents. */
  predicate Spares(l: Pipeline, e: TtyEvent, echo: bool) {
    if Discards(e) then l.pending == [] else |l.pending| + |Sent(e, echo)| <= RINGBUF_SIZE
  }

  ghost predicate Fits(events: seq<TtyEvent>, echo: bool) {
    forall i :: 0 <= i < |events| ==> Spares(Flow(events[..i], echo), events[i], echo)
  }

  lemma FitsPrefix(events: seq<TtyEvent>, echo: bool)
    requires events != []
    ensures var before := events[..|events| - 1];
            Fits(events, echo) <==>
            (Fits(before, echo) && Spares(Flow(before, echo), events[|events| - 1], echo))
  {
    hide Flow, Sent, Spares;
    var before := events[..|events| - 1];
    assert forall i :: 0 <= i < |before| ==> before[..i] == events[..i] && before[i] == events[i];
  }

  lemma AdvanceLossless(l: Pipeline, e: TtyEvent, echo: bool, sent: seq<char>)
    requires |l.pending| <= RINGBUF_SIZE && |l.drawn + l.pending| <= |sent|
    ensures var m, more := Advance(l, e, echo), Sent(e, echo);
            |m.drawn + m.pending| <= |sent + more| &&
            (m.drawn + m.pending == sent + more <==>
             (l.drawn + l.pending == sent && Spares(l, e, echo)))
  {
    var m, more := Advance(l, e, echo), Sent(e, echo);
    if Discards(e) {
      assert m.drawn + m.pending == l.drawn && sent + more == sent;
      assert l.pending == [] ==> l.drawn + l.pending == l.drawn;
      return;
    }
    var kept := more[..Min(|more|, RINGBUF_SIZE - |l.pending|)];
    assert m.drawn + m.pending == (l.drawn + l.pending) + kept;
    if m.drawn + m.pending == sent + more {
      assert |kept| == |more| && |l.drawn + l.pending| == |sent|;
      assert (sent + more)[..|sent|] == sent;
      assert ((l.drawn + l.pending) + kept)[..|sent|] == l.drawn + l.pending;
    }
  }

  /** Nothing sent to the screen is lost, reordered or doubled exactly if the ring never overflows
      and is never emptied unseen; whatever happens, no more arrives than was sent. */
  lemma {:induction false} LosslessIff(events: seq<TtyEvent>, echo: bool)
    ensures var l := Flow(events, echo);
            |l.drawn + l.pending| <= |AllSent(events, echo)| &&
            (l.drawn + l.pending == AllSent(events, echo) <==> Fits(events, echo))
  {
    if events != [] {
      var before := events[..|events| - 1];
      LosslessIff(before, echo);
      FitsPrefix(events, echo);
      AdvanceLossless(Flow(before, echo), events[|events| - 1], echo, AllSent(before, echo));
    }
  }

  lemma FlowStep(events: seq<TtyEvent>, i: nat, echo: bool)
    requires i < |events|
    ensures Flow(events[..i + 1], echo) == Advance(Flow(events[..i], echo), events[i], echo)
  {
    assert events[..i + 1][..i] == events[..i];
  }

  lemma {:induction false} DisplayAppend(s: Screen, a: seq<char>, b: seq<char>)
    requires OnScreen(s)
    ensures Display(s, a + b) == Display(Display(s, a), b)
  {
    if b == [] {
      assert a + b == a;
    } else {
      DisplayAppend(s, a, b[..|b| - 1]);
      assert (a + b)[..|a + b| - 1] == a + b[..|b| - 1];
    }
  }

  lemma DrawnAfter(l: Pipeline, e: TtyEvent, echo: bool)
    requires |l.pending| <= RINGBUF_SIZE
    ensures Display(BLANK_SCREEN, Advance(l, e, echo).drawn) ==
              if e.Redraw? then Display(Display(BLANK_SCREEN, l.drawn), l.pending) else Display(BLANK_SCREEN, l.drawn)
  {
    DisplayAppend(BLANK_SCREEN, l.drawn, l.pending);
  }

  lemma BlankStart(echo: bool)
    ensures Flow([], echo) == Pipeline([], []) && Display(BLANK_SCREEN, []) == BLANK_SCREEN
  {
  }

  /** A process writes to its terminal. */
  method WriteOutput(tty: Tty, bytes: seq<char>)
    requires tty.Valid()
    modifies tty.ioOutput, tty.ioOutput.data
    ensures tty.Valid() && tty.View() == old(tty.View())
    ensures var was := old(tty.ioOutput.contents);
            tty.ioOutput.contents == was + bytes[..Min(|bytes|, RINGBUF_SIZE - |was|)]
  {
    var buf := new char[|bytes|](i requires 0 <= i < |bytes| => bytes[i]);
    assert buf[..] == bytes;
    var rc := IoWrite([tty.ioInput, tty.ioOutput], 1, buf, |bytes|);
  }

  /** A process reads from its output ring. */
  method DiscardOutput(tty: Tty, size: int)
    requires tty.Valid()
    modifies tty.ioOutput, tty.ioOutput.data
    ensures tty.Valid() && tty.View() == old(tty.View())
    ensures tty.ioOutput.contents == if size >= 0 then [] else old(tty.ioOutput.contents)
  {
    if size >= 0 {
      var buf := new char[size](_ => BLANK);
      var rc := IoRead([tty.ioInput, tty.ioOutput], 1, buf, size);
    }
  }

  /** One event of a run. */
  method RunEvent(tty: Tty, e: TtyEvent, echo: bool, frame: array<char>, ghost l: Pipeline)
    requires tty.Valid() && tty.echo == (if echo then 1 else 0)
    requires frame.Length == CELLS && frame != tty.buf && frame != tty.ioInput.data && frame != tty.ioOutput.data
    requires tty.ioOutput.contents == l.pending && |l.pending| <= RINGBUF_SIZE
    modifies tty`refresh, tty`posX, tty`posY, tty.buf, frame
    modifies tty.ioInput, tty.ioInput.data, tty.ioOutput, tty.ioOutput.data
    ensures tty.Valid() && tty.ioOutput.contents == Advance(l, e, echo).pending
    ensures tty.View() == if e.Redraw? then Display(old(tty.View()), l.pending) else old(tty.View())
    ensures !e.Redraw? ==> frame[..] == old(frame[..]) && tty.refresh == old(tty.refresh)
    ensures e.Redraw? && (old(tty.refresh) != 0 || old(frame[..] == tty.View().buf)) ==> frame[..] == tty.View().buf
  {
    match e
    case Key(c) =>
      tty.Input(c);
    case Output(bytes) =>
      WriteOutput(tty, bytes);
    case Flush =>
      var rc, strayed := IoFlush([tty.ioInput, tty.ioOutput, null, null], 1);
    case ReadBack(size) =>
      DiscardOutput(tty, size);
    case Redraw =>
      tty.Refresh(frame);
  }

  /** Runs the pipeline from `tty_init` and `tty_select` on. What is on the screen is the window on
      the page of all bytes drawn, and from the first redraw on the frame is that screen. */
  method RunTerminal(events: seq<TtyEvent>, echo: bool, frame: array<char>) returns (tty: Tty)
    requires frame.Length == CELLS
    modifies frame
    ensures tty.Valid() && tty.ioOutput.contents == Flow(events, echo).pending
    ensures tty.View() == Display(BLANK_SCREEN, Flow(events, echo).drawn)
    ensures IsWindow(TypeAll(BLANK_PAGE, Flow(events, echo).drawn), tty.View())
    ensures Redraw in events ==> frame[..] == tty.View().buf
  {
    hide Display, TypeAll, IsWindow, Flow, Advance;
    BlankStart(echo);
    tty := new Tty();
    tty.echo := if echo then 1 else 0;
    tty.refresh := 1;
    for i := 0 to |events|
      invariant tty.Valid() && fresh(tty) && fresh(tty.buf)
      invariant fresh(tty.ioInput) && fresh(tty.ioInput.data) && fresh(tty.ioOutput) && fresh(tty.ioOutput.data)
      invariant tty.echo == if echo then 1 else 0
      invariant tty.ioOutput.contents == Flow(events[..i], echo).pending
      invariant tty.View() == Display(BLANK_SCREEN, Flow(events[..i], echo).drawn)
      invariant if Redraw in events[..i] then frame[..] == tty.View().buf else tty.refresh == 1
    {
      FlowStep(events, i, echo);
      ghost var l := Flow(events[..i], echo);
      RunEvent(tty, events[i], echo, frame, l);
      DrawnAfter(l, events[i], echo);
      assert events[..i + 1] == events[..i] + [events[i]];
    }
    assert events[..|events|] == events;
    ScreenIsWindow(Flow(events, echo).drawn);
  }
}
