/** The scrolling 80 by 25 screen of src/tty.c as a function of the bytes sent to it, and the page
    it is a window on: a page of unbounded length that never scrolls. */
module Terminal {

  const WIDTH: nat := 80
  const HEIGHT: nat := 25
  const CELLS: nat := WIDTH * HEIGHT
  const BACKSPACE: char := '\U{8}'
  const BLANK: char := '\0'

  // ---- the screen ----

  datatype Screen = Screen(buf: seq<char>, x: int, y: int)

  ghost predicate OnScreen(s: Screen) {
    |s.buf| == CELLS && 0 <= s.x < WIDTH && 0 <= s.y < HEIGHT
  }

  function Blanks(n: nat): seq<char> {
    seq(n, _ => BLANK)
  }

  const BLANK_SCREEN := Screen(Blanks(CELLS), 0, 0)

  predicate IsControl(c: char) {
    c == '\t' || c == BACKSPACE || c == '\r' || c == '\n'
  }

  function ScrollUp(buf: seq<char>): seq<char>
    requires |buf| == CELLS
  {
    buf[WIDTH..] + Blanks(WIDTH)
  }

  function At(s: Screen, row: int, column: int): char
    requires |s.buf| == CELLS && 0 <= row < HEIGHT && 0 <= column < WIDTH
  {
    s.buf[WIDTH * row + column]
  }

  /** The cursor goes to the start of the next line; below the last line, the lines move up. */
  function NextLine(s: Screen): Screen
    requires OnScreen(s)
  {
    if s.y == HEIGHT - 1 then Screen(ScrollUp(s.buf), 0, s.y) else s.(x := 0, y := s.y + 1)
  }

  function Erase(s: Screen): Screen
    requires OnScreen(s)
  {
    var here := WIDTH * s.y + s.x;
    if here == 0 then s else
      var buf := s.buf[here - 1 := s.buf[here]][here := BLANK];
      if s.x == 0 then Screen(buf, WIDTH - 1, s.y - 1) else Screen(buf, s.x - 1, s.y)
  }

  function Put(s: Screen, c: char): Screen
    requires OnScreen(s)
  {
    var written := s.(buf := s.buf[WIDTH * s.y + s.x := c]);
    if s.x + 1 == WIDTH then NextLine(written) else written.(x := s.x + 1)
  }

  function Update(s: Screen, c: char): (r: Screen)
    requires OnScreen(s)
    ensures OnScreen(r)
  {
    if c == '\t' then if s.x >= 75 then NextLine(s) else Put(Put(Put(Put(s, ' '), ' '), ' '), ' ')
    else if c == BACKSPACE then Erase(s)
    else if c == '\r' then s.(x := 0)
    else if c == '\n' then NextLine(s)
    else Put(s, c)
  }

  /** The screen after all of `text`, one byte after the other. */
  function Display(s: Screen, text: seq<char>): (r: Screen)
    requires OnScreen(s)
    ensures OnScreen(r)
  {
    if text == [] then s else Update(Display(s, text[..|text| - 1]), text[|text| - 1])
  }

  // ---- what each byte does to the cells ----

  lemma ReturnCells(s: Screen)
    requires OnScreen(s)
    ensures Update(s, '\r') == s.(x := 0)
  {
  }

  /** A line feed goes to the start of the next line; on the last of the 25 lines all lines move up by one and a blank
      one follows. */
  lemma LineFeedCells(s: Screen)
    requires OnScreen(s)
    ensures var t := Update(s, '\n');
            |t.buf| == 2000 && t.x == 0 && t.y == (if s.y == 24 then 24 else s.y + 1) &&
            forall k :: 0 <= k < 2000 ==>
              t.buf[k] == if s.y < 24 then s.buf[k] else if k < 1920 then s.buf[k + 80] else '\0'
  {
  }

  /** Backspace (code 8) pulls the cell under the cursor back by one and blanks it; at the top left it does nothing. */
  lemma BackspaceCells(s: Screen)
    requires OnScreen(s)
    ensures var t, here := Update(s, '\U{8}'), 80 * s.y + s.x;
            if here == 0 then t == s
            else 0 <= t.x < 80 && 80 * t.y + t.x == here - 1 && t.buf == s.buf[here - 1 := s.buf[here]][here := '\0']
  {
  }

  /** A tab types four spaces in the first 75 columns, and is a line feed in the last five. */
  lemma TabCells(s: Screen)
    requires OnScreen(s)
    ensures var t, here := Update(s, '\t'), 80 * s.y + s.x;
            if s.x >= 75 then t == Update(s, '\n')
            else t.x == s.x + 4 && t.y == s.y && |t.buf| == 2000 &&
                 forall k :: 0 <= k < 2000 ==> t.buf[k] == if here <= k < here + 4 then ' ' else s.buf[k]
  {
  }

  /** Any other byte is written under the cursor, which moves on, to the next line after the 80th column. */
  lemma TypedCells(s: Screen, c: char)
    requires OnScreen(s) && c != '\t' && c != '\U{8}' && c != '\r' && c != '\n'
    ensures var t, written := Update(s, c), s.(buf := s.buf[80 * s.y + s.x := c]);
            if s.x < 79 then t == written.(x := s.x + 1) else t == Update(written, '\n')
  {
  }

  // ---- the page ----

  /** A page is what has been typed at each position, the position of the cursor, and the first row
      that is still on view. A row, once passed, stays where it is. */
  datatype Page = Page(cells: map<int, char>, pos: int, base: int)

  const BLANK_PAGE := Page(map[], 0, 0)

  function Cell(p: Page, k: int): char {
    if k in p.cells then p.cells[k] else BLANK
  }

  function CellAt(p: Page, row: int, column: int): char {
    Cell(p, WIDTH * row + column)
  }

  /** Moves the cursor, and the view only as far down as the cursor's row requires. */
  function MoveTo(p: Page, pos: int): Page {
    var row := pos / WIDTH;
    Page(p.cells, pos, if row - (HEIGHT - 1) > p.base then row - (HEIGHT - 1) else p.base)
  }

  function Type(p: Page, c: char): Page {
    if c == '\t' then
      if p.pos % WIDTH >= 75 then MoveTo(p, (p.pos / WIDTH + 1) * WIDTH)
      else MoveTo(p.(cells := p.cells[p.pos := ' '][p.pos + 1 := ' '][p.pos + 2 := ' '][p.pos + 3 := ' ']), p.pos + 4)
    else if c == BACKSPACE then
      if p.pos == WIDTH * p.base then p
      else MoveTo(p.(cells := p.cells[p.pos - 1 := Cell(p, p.pos)][p.pos := BLANK]), p.pos - 1)
    else if c == '\r' then MoveTo(p, p.pos - p.pos % WIDTH)
    else if c == '\n' then MoveTo(p, (p.pos / WIDTH + 1) * WIDTH)
    else MoveTo(p.(cells := p.cells[p.pos := c]), p.pos + 1)
  }

  function TypeAll(p: Page, text: seq<char>): Page {
    if text == [] then p else Type(TypeAll(p, text[..|text| - 1]), text[|text| - 1])
  }

  // ---- the screen is a window on the page ----

  /** The screen shows 25 rows of the page from row `base`, and nothing is written further down. */
  ghost predicate Shows(p: Page, s: Screen) {
    && OnScreen(s)
    && p.base >= 0
    && p.pos == WIDTH * (p.base + s.y) + s.x
    && (forall k :: 0 <= k < CELLS ==> s.buf[k] == Cell(p, WIDTH * p.base + k))
    && (forall k :: k >= WIDTH * p.base + CELLS ==> Cell(p, k) == BLANK)
  }

  lemma CursorRow(p: Page, s: Screen)
    requires OnScreen(s) && p.pos == WIDTH * (p.base + s.y) + s.x
    ensures p.pos / WIDTH == p.base + s.y && p.pos % WIDTH == s.x
  {
    assert p.pos / WIDTH == p.base + s.y;
  }

  /** Moving the cursor inside the window. */
  lemma MoveShows(p: Page, s: Screen, x: int, y: int)
    requires Shows(p, s) && 0 <= x < WIDTH && 0 <= y < HEIGHT
    ensures Shows(MoveTo(p, WIDTH * (p.base + y) + x), s.(x := x, y := y))
  {
    var q := MoveTo(p, WIDTH * (p.base + y) + x);
    assert q.pos / WIDTH == p.base + y;
    assert q.cells == p.cells && q.base == p.base;
    assert forall k :: Cell(q, k) == Cell(p, k);
  }

  lemma NextLineShows(p: Page, s: Screen)
    requires Shows(p, s)
    ensures Shows(MoveTo(p, (p.pos / WIDTH + 1) * WIDTH), NextLine(s))
  {
    CursorRow(p, s);
    var q, t := MoveTo(p, (p.pos / WIDTH + 1) * WIDTH), NextLine(s);
    assert q.cells == p.cells && q.pos == WIDTH * (p.base + s.y + 1);
    assert q.pos / WIDTH == p.base + s.y + 1;
    assert forall k :: Cell(q, k) == Cell(p, k);
    if s.y == HEIGHT - 1 {
      assert q.base == p.base + 1;
      forall k | 0 <= k < CELLS ensures t.buf[k] == Cell(q, WIDTH * q.base + k) {
        assert WIDTH * q.base + k == WIDTH * p.base + (k + WIDTH);
        if k >= CELLS - WIDTH {
          assert Cell(p, WIDTH * p.base + (k + WIDTH)) == BLANK;
        } else {
          assert t.buf[k] == s.buf[k + WIDTH];
        }
      }
    }
  }

  lemma EraseShows(p: Page, s: Screen)
    requires Shows(p, s)
    ensures Shows(Type(p, BACKSPACE), Erase(s))
  {
    if p.pos != WIDTH * p.base {
      var here := WIDTH * s.y + s.x;
      var q, t := Type(p, BACKSPACE), Erase(s);
      assert q.base == p.base;
      assert p.pos == WIDTH * p.base + here;
      assert forall k ::
        Cell(q, k) == if k == p.pos - 1 then Cell(p, p.pos) else if k == p.pos then BLANK else Cell(p, k);
    }
  }

  /** Writing a cell: the cursor has not moved yet. */
  lemma WriteShows(p: Page, s: Screen, c: char)
    requires Shows(p, s)
    ensures Shows(p.(cells := p.cells[p.pos := c]), s.(buf := s.buf[WIDTH * s.y + s.x := c]))
  {
    var q := p.(cells := p.cells[p.pos := c]);
    assert p.pos == WIDTH * p.base + (WIDTH * s.y + s.x);
    assert forall k :: Cell(q, k) == if k == p.pos then c else Cell(p, k);
  }

  lemma PutShows(p: Page, s: Screen, c: char)
    requires Shows(p, s) && !IsControl(c)
    ensures Shows(Type(p, c), Put(s, c))
  {
    var q, t := p.(cells := p.cells[p.pos := c]), s.(buf := s.buf[WIDTH * s.y + s.x := c]);
    WriteShows(p, s, c);
    CursorRow(q, t);
    if s.x + 1 == WIDTH {
      NextLineShows(q, t);
      assert (q.pos / WIDTH + 1) * WIDTH == q.pos + 1;
    } else {
      MoveShows(q, t, s.x + 1, s.y);
    }
  }

  /** A tab in the first 75 columns types four spaces. */
  lemma TabIsFourSpaces(p: Page, s: Screen)
    requires Shows(p, s) && s.x < 75
    ensures Type(p, '\t') == Type(Type(Type(Type(p, ' '), ' '), ' '), ' ')
  {
    CursorRow(p, s);
    var row := p.pos / WIDTH;
    assert forall i {:trigger p.pos + i} :: 0 <= i <= 4 ==> (p.pos + i) / WIDTH == row;
  }

  lemma TabShows(p: Page, s: Screen)
    requires OnScreen(s) && Shows(p, s) && s.x < 75
    ensures Shows(Type(p, '\t'), Update(s, '\t'))
  {
    hide Shows;
    var p1, s1 := Type(p, ' '), Put(s, ' ');
    var p2, s2 := Type(p1, ' '), Put(s1, ' ');
    var p3, s3 := Type(p2, ' '), Put(s2, ' ');
    PutShows(p, s, ' ');
    PutShows(p1, s1, ' ');
    PutShows(p2, s2, ' ');
    PutShows(p3, s3, ' ');
    TabIsFourSpaces(p, s);
  }

  /** Every byte keeps the screen a window on the page. */
  lemma UpdateShows(p: Page, s: Screen, c: char)
    requires Shows(p, s)
    ensures Shows(Type(p, c), Update(s, c))
  {
    CursorRow(p, s);
    if c == '\t' && s.x < 75 {
      TabShows(p, s);
    } else if c == '\t' || c == '\n' {
      NextLineShows(p, s);
    } else if c == BACKSPACE {
      EraseShows(p, s);
    } else if c == '\r' {
      MoveShows(p, s, 0, s.y);
    } else {
      PutShows(p, s, c);
    }
  }

  lemma {:induction false} DisplayShows(p: Page, s: Screen, text: seq<char>)
    requires Shows(p, s)
    ensures Shows(TypeAll(p, text), Display(s, text))
  {
    if text != [] {
      DisplayShows(p, s, text[..|text| - 1]);
      UpdateShows(TypeAll(p, text[..|text| - 1]), Display(s, text[..|text| - 1]), text[|text| - 1]);
    }
  }

  /** Cell by cell: row `r` of the screen is row `base + r` of the page, and the cursors agree. */
  ghost predicate IsWindow(p: Page, s: Screen) {
    && OnScreen(s)
    && p.pos / WIDTH == p.base + s.y && p.pos % WIDTH == s.x
    && forall r, c :: 0 <= r < HEIGHT && 0 <= c < WIDTH ==> At(s, r, c) == CellAt(p, p.base + r, c)
  }

  lemma ShowsIsWindow(p: Page, s: Screen)
    requires Shows(p, s)
    ensures IsWindow(p, s)
  {
    CursorRow(p, s);
    forall r, c | 0 <= r < HEIGHT && 0 <= c < WIDTH
      ensures At(s, r, c) == CellAt(p, p.base + r, c)
    {
      assert WIDTH * (p.base + r) + c == WIDTH * p.base + (WIDTH * r + c);
    }
  }

  /** After any text, the screen is a window on the page of the same text. */
  lemma ScreenIsWindow(text: seq<char>)
    ensures IsWindow(TypeAll(BLANK_PAGE, text), Display(BLANK_SCREEN, text))
  {
    hide TypeAll, Display, IsWindow;
    DisplayShows(BLANK_PAGE, BLANK_SCREEN, text);
    ShowsIsWindow(TypeAll(BLANK_PAGE, text), Display(BLANK_SCREEN, text));
  }

  // ---- what the page says about the screen ----

  /** The bytes on which the screen scrolls. */
  predicate Scrolls(s: Screen, c: char) {
    s.y == HEIGHT - 1 && (c == '\n' || (c == '\t' && s.x >= 75) || (!IsControl(c) && s.x == WIDTH - 1))
  }

  function ScrollCount(text: seq<char>): nat {
    if text == [] then 0
    else ScrollCount(text[..|text| - 1]) +
         if Scrolls(Display(BLANK_SCREEN, text[..|text| - 1]), text[|text| - 1]) then 1 else 0
  }

  lemma TypeBase(p: Page, s: Screen, c: char)
    requires Shows(p, s)
    ensures Type(p, c).base == p.base + if Scrolls(s, c) then 1 else 0
  {
    CursorRow(p, s);
    if !IsControl(c) {
      assert (p.pos + 1) / WIDTH == p.base + s.y + if s.x == WIDTH - 1 then 1 else 0;
    } else if c == '\t' && s.x < 75 {
      assert (p.pos + 4) / WIDTH == p.base + s.y;
    } else if c == BACKSPACE {
      if p.pos != WIDTH * p.base {
        assert (p.pos - 1) / WIDTH <= p.base + s.y;
      }
    } else if c == '\r' {
      assert (p.pos - s.x) / WIDTH == p.base + s.y;
    } else {
      assert (p.pos / WIDTH + 1) * WIDTH / WIDTH == p.base + s.y + 1;
    }
  }

  /** The first row on view is the number of times the screen has scrolled. */
  lemma {:induction false} BaseCountsScrolls(text: seq<char>)
    ensures TypeAll(BLANK_PAGE, text).base == ScrollCount(text)
  {
    if text != [] {
      var before := text[..|text| - 1];
      BaseCountsScrolls(before);
      DisplayShows(BLANK_PAGE, BLANK_SCREEN, before);
      TypeBase(TypeAll(BLANK_PAGE, before), Display(BLANK_SCREEN, before), text[|text| - 1]);
    }
  }

  /** The rows that have left the view once `n` plain bytes are typed. */
  function RowsGone(n: nat): nat {
    if n / 80 > 24 then n / 80 - 24 else 0
  }

  ghost predicate IsPlain(p: Page, text: seq<char>) {
    && p.pos == |text| && p.base == RowsGone(|text|)
    && forall k :: Cell(p, k) == if 0 <= k < |text| then text[k] else BLANK
  }

  lemma PlainType(p: Page, text: seq<char>, c: char)
    requires IsPlain(p, text) && !IsControl(c)
    ensures IsPlain(Type(p, c), text + [c])
  {
    assert |text + [c]| / WIDTH <= |text| / WIDTH + 1;
    assert forall k :: Cell(Type(p, c), k) == if k == |text| then c else Cell(p, k);
  }

  lemma {:induction false} PlainPage(text: seq<char>)
    requires forall c :: c in text ==> !IsControl(c)
    ensures IsPlain(TypeAll(BLANK_PAGE, text), text)
  {
    if text != [] {
      PlainPage(text[..|text| - 1]);
      PlainType(TypeAll(BLANK_PAGE, text[..|text| - 1]), text[..|text| - 1], text[|text| - 1]);
      assert text == text[..|text| - 1] + [text[|text| - 1]];
    }
  }

  /** Text without control bytes: the screen holds its last lines, in order, then blanks, and the
      cursor is behind the last byte. */
  lemma PlainText(text: seq<char>)
    requires forall c :: c in text ==> c != '\t' && c != '\U{8}' && c != '\r' && c != '\n'
    ensures var s, gone := Display(BLANK_SCREEN, text), 80 * RowsGone(|text|);
            |s.buf| == 2000 && 0 <= s.x < 80 && 0 <= s.y < 25 && 80 * s.y + s.x == |text| - gone &&
            forall k :: 0 <= k < 2000 ==> s.buf[k] == if gone + k < |text| then text[gone + k] else '\0'
  {
    hide TypeAll, Display;
    DisplayShows(BLANK_PAGE, BLANK_SCREEN, text);
    PlainPage(text);
  }

  /** Backspace undoes a typed byte if nothing lies at or after the cursor; the view has moved
      exactly if the byte went into the last cell on view. */
  lemma BackspaceUndoes(p: Page, s: Screen, c: char)
    requires Shows(p, s) && !IsControl(c)
    requires forall k :: k >= p.pos ==> Cell(p, k) == BLANK
    ensures var q := Type(Type(p, c), BACKSPACE);
            q.pos == p.pos && (forall k :: Cell(q, k) == Cell(p, k)) &&
            (q.base == p.base <==> !(s.x == WIDTH - 1 && s.y == HEIGHT - 1))
  {
    CursorRow(p, s);
    TypeBase(p, s, c);
    UpdateShows(p, s, c);
    TypeBase(Type(p, c), Update(s, c), BACKSPACE);
    assert Cell(p, p.pos + 1) == BLANK;
  }
}
