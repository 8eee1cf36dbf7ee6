/** The active terminal of src/tty.c as it is in memory: a buffer of cells updated in place, a
    cursor, and the two byte rings. Every method is proved against module Terminal. */
module TtyMachine {
  import opened RingBuffer
  import opened Terminal

  class Tty {
    const buf: array<char>
    const ioInput: RingBuf
    const ioOutput: RingBuf
    var refresh: int
    var posX: int
    var posY: int
    var echo: int

    ghost predicate Valid()
      reads this, buf, ioInput, ioInput.data, ioOutput, ioOutput.data
    {
      && buf.Length == CELLS && 0 <= posX < WIDTH && 0 <= posY < HEIGHT
      && ioInput != ioOutput && ioInput.data != ioOutput.data
      && buf != ioInput.data && buf != ioOutput.data
      && ioInput.Valid() && ioOutput.Valid()
    }

    ghost function View(): (s: Screen)
      requires Valid()
      reads this, buf, ioInput, ioInput.data, ioOutput, ioOutput.data
      ensures OnScreen(s)
    {
      Screen(buf[..], posX, posY)
    }

    /** `tty_init`, for one terminal. */
    constructor ()
      ensures Valid() && View() == BLANK_SCREEN && refresh == 0 && echo == 0
      ensures ioInput.contents == [] && ioOutput.contents == []
      ensures fresh(buf) && fresh(ioInput) && fresh(ioInput.data) && fresh(ioOutput) && fresh(ioOutput.data)
    {
      buf := new char[CELLS](_ => BLANK);
      ioInput := new RingBuf();
      ioOutput := new RingBuf();
      refresh, posX, posY, echo := 0, 0, 0, 0;
      new;
      assert buf[..] == Blanks(CELLS);
    }

    /** A key typed at the keyboard; a byte that finds its ring full is lost. */
    method Input(c: char)
      requires Valid()
      modifies ioInput, ioInput.data, ioOutput, ioOutput.data
      ensures Valid() && View() == old(View())
      ensures ioInput.contents ==
                if |old(ioInput.contents)| < 1024 then old(ioInput.contents) + [c] else old(ioInput.contents)
      ensures ioOutput.contents ==
                if echo == 1 && |old(ioOutput.contents)| < 1024 then old(ioOutput.contents) + [c]
                else old(ioOutput.contents)
    {
      var rc := ioInput.Write(c);
      if echo == 1 {
        rc := ioOutput.Write(c);
      }
    }

    method ScrollUp()
      requires Valid()
      modifies buf
      ensures Valid() && buf[..] == Terminal.ScrollUp(old(buf[..]))
    {
      ghost var was := buf[..];
      for i := 0 to WIDTH
        invariant forall k :: 0 <= k < i ==> buf[k] == BLANK
        invariant forall k :: i <= k < CELLS ==> buf[k] == was[k]
      {
        buf[i] := BLANK;
      }
      for i := WIDTH to WIDTH * HEIGHT
        invariant forall k :: 0 <= k < i - WIDTH ==> buf[k] == was[k + WIDTH]
        invariant forall k :: i - WIDTH <= k < i ==> buf[k] == BLANK
        invariant forall k :: i <= k < CELLS ==> buf[k] == was[k]
      {
        buf[i - WIDTH] := buf[i];
        buf[i] := BLANK;
      }
      assert buf[..] == Terminal.ScrollUp(was);
    }

    method NextLine()
      requires Valid()
      modifies this`posX, this`posY, buf
      ensures Valid() && View() == Terminal.NextLine(old(View()))
    {
      if posY == HEIGHT - 1 {
        ScrollUp();
      } else {
        posY := posY + 1;
      }
      posX := 0;
    }

    method Erase()
      requires Valid()
      modifies this`posX, this`posY, buf
      ensures Valid() && View() == Terminal.Erase(old(View()))
    {
      var here := WIDTH * posY + posX;
      if posY == 0 && posX == 0 {
        return;
      }
      buf[here - 1] := buf[here];
      buf[here] := BLANK;
      if posX == 0 {
        posY := posY - 1;
        posX := WIDTH - 1;
      } else {
        posX := posX - 1;
      }
    }

    method Put(c: char)
      requires Valid()
      modifies this`posX, this`posY, buf
      ensures Valid() && View() == Terminal.Put(old(View()), c)
    {
      ghost var was := View();
      buf[WIDTH * posY + posX] := c;
      assert View() == was.(buf := was.buf[WIDTH * was.y + was.x := c]);
      posX := posX + 1;
      if posX == WIDTH {
        posX := 0;
        NextLine();
      }
    }

    method Tab()
      requires Valid()
      modifies this`refresh, this`posX, this`posY, buf
      ensures Valid() && View() == Terminal.Update(old(View()), '\t')
      ensures refresh == 1
      decreases 1
    {
      if posX >= 75 {
        Update('\n');
      } else {
        ghost var s0 := View();
        ghost var s1 := Terminal.Update(s0, ' ');
        ghost var s2 := Terminal.Update(s1, ' ');
        ghost var s3 := Terminal.Update(s2, ' ');
        ghost var steps := [s0, s1, s2, s3, Terminal.Update(s3, ' ')];
        for i := 0 to 4
          invariant Valid() && View() == steps[i] && (i > 0 ==> refresh == 1)
        {
          Update(' ');
        }
      }
    }

    method Update(c: char)
      requires Valid()
      modifies this`refresh, this`posX, this`posY, buf
      ensures Valid() && View() == Terminal.Update(old(View()), c) && refresh == 1
      decreases if c == '\t' then 2 else 0
    {
      refresh := 1;
      if c == '\t' {
        Tab();
      } else if c == BACKSPACE {
        Erase();
      } else if c == '\r' {
        posX := 0;
      } else if c == '\n' {
        NextLine();
      } else {
        Put(c);
      }
    }

    /** One pass of `vga_putc_at` over the whole frame. */
    method Render(frame: array<char>)
      requires Valid() && frame.Length == CELLS && frame != buf
      requires frame != ioInput.data && frame != ioOutput.data
      modifies frame
      ensures Valid() && frame[..] == buf[..]
    {
      var x, y := 0, 0;
      for i := 0 to CELLS
        invariant 0 <= x < WIDTH && 0 <= y < HEIGHT
        invariant i < CELLS ==> WIDTH * y + x == i
        invariant forall k :: 0 <= k < i ==> frame[k] == buf[k]
      {
        frame[WIDTH * y + x] := buf[WIDTH * y + x];
        x := x + 1;
        if x >= WIDTH {
          x := 0;
          if y != HEIGHT - 1 {
            y := y + 1;
          }
        }
      }
    }

    /** The first loop of `tty_refresh`: everything in the output ring goes to the buffer. */
    method Drain()
      requires Valid()
      modifies this`refresh, this`posX, this`posY, buf, ioOutput, ioOutput.data
      ensures Valid() && ioOutput.contents == []
      ensures View() == Display(old(View()), old(ioOutput.contents))
      ensures refresh == if old(ioOutput.contents) == [] then old(refresh) else 1
    {
      hide Terminal.Update, Display;
      ghost var was, start := ioOutput.contents, View();
      ghost var n := 0;
      var outputC := BLANK;
      DisplayNothing(start);
      while !ioOutput.IsEmpty()
        invariant Valid() && n <= |was| && ioOutput.contents == was[n..]
        invariant View() == Display(start, was[..n])
        invariant refresh == if n == 0 then old(refresh) else 1
        decreases |was| - n
      {
        var rc;
        rc, outputC := ioOutput.Read(outputC);
        Update(outputC);
        n := n + 1;
        DisplayLast(start, was, n);
      }
      assert was[..n] == was;
    }

    /** Takes everything out of the output ring, in order, onto the screen, and draws the screen
        if anything came or a drawing was asked for. */
    method Refresh(frame: array<char>)
      requires Valid() && frame.Length == CELLS && frame != buf
      requires frame != ioInput.data && frame != ioOutput.data
      modifies this`refresh, this`posX, this`posY, buf, ioOutput, ioOutput.data, frame
      ensures Valid() && ioOutput.contents == [] && refresh == 0
      ensures View() == Display(old(View()), old(ioOutput.contents))
      ensures frame[..] == if old(refresh) != 0 || old(ioOutput.contents) != [] then View().buf else old(frame[..])
    {
      Drain();
      ioOutput.Flush();
      if refresh != 0 {
        Render(frame);
      }
      refresh := 0;
    }
  }

  lemma DisplayNothing(s: Screen)
    requires OnScreen(s)
    ensures Display(s, []) == s
  {
  }

  lemma DisplayLast(s: Screen, text: seq<char>, n: nat)
    requires OnScreen(s) && 0 < n <= |text|
    ensures Display(s, text[..n]) == Terminal.Update(Display(s, text[..n - 1]), text[n - 1])
  {
    assert text[..n][..n - 1] == text[..n - 1];
  }
}
