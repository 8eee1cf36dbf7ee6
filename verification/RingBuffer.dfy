/** The byte ring of src/ringbuf.c and the I/O system calls over it. The ring refines a bounded
    FIFO sequence of bytes. */
module RingBuffer {

  const RINGBUF_SIZE: nat := 1024

  class RingBuf {
    const data: array<char>
    var head: int
    var tail: int
    var size: int

    /** The buffered bytes, oldest first. */
    ghost var contents: seq<char>

    function Slot(i: int): int
      reads this
    {
      if head + i < RINGBUF_SIZE then head + i else head + i - RINGBUF_SIZE
    }

    ghost predicate Valid()
      reads this, data
    {
      && data.Length == RINGBUF_SIZE
      && 0 <= size <= RINGBUF_SIZE && size == |contents|
      && (size == 0 ==> head == -1 && tail == -1)
      && (size > 0 ==> 0 <= head < RINGBUF_SIZE && tail == Slot(size - 1))
      && (forall i :: 0 <= i < size ==> data[Slot(i)] == contents[i])
    }

    constructor ()
      ensures Valid() && contents == [] && fresh(data)
    {
      data := new char[RINGBUF_SIZE](i => '\0');
      head, tail, size := -1, -1, 0;
      contents := [];
    }

    method Init()
      requires data.Length == RINGBUF_SIZE
      modifies this, data
      ensures Valid() && contents == []
    {
      head, tail, size := -1, -1, 0;
      contents := [];
      for i := 0 to RINGBUF_SIZE
        invariant head == -1 && tail == -1 && size == 0 && contents == []
      {
        data[i] := '\0';
      }
    }

    predicate IsEmpty()
      reads this
    {
      head == -1
    }

    predicate IsFull()
      reads this
    {
      size == RINGBUF_SIZE
    }

    method Write(byte: char) returns (rc: int)
      requires Valid()
      modifies this, data
      ensures Valid()
      ensures rc == if |old(contents)| < 1024 then 0 else -1
      ensures contents == if rc == 0 then old(contents) + [byte] else old(contents)
    {
      if IsFull() {
        return -1;
      }
      if IsEmpty() {
        head := 0;
      }
      tail := (tail + 1) % RINGBUF_SIZE;
      data[tail] := byte;
      size := size + 1;
      contents := contents + [byte];
      return 0;
    }

    /** `*byte` keeps its previous value when there is nothing to read. */
    method Read(previous: char) returns (rc: int, byte: char)
      requires Valid()
      modifies this, data
      ensures Valid()
      ensures if |old(contents)| > 0 then rc == 0 && [byte] + contents == old(contents)
              else rc == -1 && byte == previous && contents == []
    {
      if IsEmpty() {
        return -1, previous;
      }
      byte := data[head];
      contents := contents[1..];
      if head == tail {
        Init();
      } else {
        head := (head + 1) % RINGBUF_SIZE;
        size := size - 1;
      }
      rc := 0;
    }

    method Flush()
      requires Valid()
      modifies this, data
      ensures Valid() && contents == []
    {
      Init();
    }
  }

  // ---- src/ksyscall.c: the I/O calls of the active process ----

  function Min(a: int, b: int): int { if a < b then a else b }

  /** The calls that the kernel refuses. */
  predicate BadCall(io: seq<RingBuf?>, n: int, buf: array?<char>, size: int)
    requires |io| >= 2
  {
    n < 0 || n > 1 || buf == null || size < 0 || io[n] == null
  }

  /** The loop of a write call; a full ring refuses the byte, and the loop goes on. */
  method WriteLoop(ring: RingBuf, buf: array<char>, size: nat)
    requires ring.Valid() && size <= buf.Length && buf != ring.data
    modifies ring, ring.data
    ensures ring.Valid()
    ensures var was := old(ring.contents); ring.contents == was + buf[..Min(size, RINGBUF_SIZE - |was|)]
  {
    ghost var was := ring.contents;
    for i := 0 to size
      invariant ring.Valid() && ring.contents == was + buf[..Min(i, RINGBUF_SIZE - |was|)]
    {
      var err := ring.Write(buf[i]);
    }
  }

  /** Writes as many of the first `size` bytes as fit, and drops the rest without saying so: the value
      returned is the number of bytes written exactly if they all fit. */
  method IoWrite(io: seq<RingBuf?>, n: int, buf: array?<char>, size: int) returns (rc: int)
    requires |io| >= 2 && (!BadCall(io, n, buf, size) ==> io[n].Valid() && size <= buf.Length && buf != io[n].data)
    modifies if BadCall(io, n, buf, size) then {} else {io[n], io[n].data}
    ensures rc >= 0 <==> (n == 0 || n == 1) && buf != null && size >= 0 && io[n] != null
    ensures rc == -1 || rc == size
    ensures (n == 0 || n == 1) && buf != null && size >= 0 && io[n] != null ==>
              var was := old(io[n].contents);
              io[n].Valid() && io[n].contents == was + buf[..Min(size, 1024 - |was|)] &&
              (rc == |io[n].contents| - |was| <==> size <= 1024 - |was|)
  {
    if n < 0 || n > 1 || buf == null || size < 0 || io[n] == null {
      return -1;
    }
    WriteLoop(io[n], buf, size);
    return size;
  }

  /** What a read call leaves at position `i` of its buffer: byte `i` of the ring or, if there are
      fewer, the last of them again. */
  function ReadByte(was: seq<char>, i: nat): char {
    if i < |was| then was[i] else if was == [] then '\0' else was[|was| - 1]
  }

  /** The loop of a read call: `size` reads, the last byte repeating once the ring is empty. */
  method ReadLoop(ring: RingBuf, buf: array<char>, size: nat)
    requires ring.Valid() && size <= buf.Length && buf != ring.data
    modifies ring, ring.data, buf
    ensures ring.Valid() && ring.contents == old(ring.contents)[Min(size, |old(ring.contents)|)..]
    ensures forall k :: 0 <= k < size ==> buf[k] == ReadByte(old(ring.contents), k)
    ensures forall k :: size <= k < buf.Length ==> buf[k] == old(buf[k])
  {
    ghost var was := ring.contents;
    var c := '\0';
    for i := 0 to size
      invariant ring.Valid() && ring.contents == was[Min(i, |was|)..]
      invariant c == if i == 0 then '\0' else ReadByte(was, i - 1)
      invariant forall k :: 0 <= k < i ==> buf[k] == ReadByte(was, k)
      invariant forall k :: i <= k < buf.Length ==> buf[k] == old(buf[k])
    {
      var err, byte := ring.Read(c);
      c := byte;
      assert c == ReadByte(was, i);
      buf[i] := c;
    }
  }

  /** Reads, then empties the ring: bytes beyond `size` are lost. */
  method IoRead(io: seq<RingBuf?>, n: int, buf: array?<char>, size: int) returns (rc: int)
    requires |io| >= 2 && (!BadCall(io, n, buf, size) ==> io[n].Valid() && size <= buf.Length && buf != io[n].data)
    modifies if BadCall(io, n, buf, size) then {} else {io[n], io[n].data, buf}
    ensures if (n == 0 || n == 1) && buf != null && size >= 0 && io[n] != null
            then rc == Min(|old(io[n].contents)|, size) else rc == -1
    ensures (n == 0 || n == 1) && buf != null && size >= 0 && io[n] != null ==>
              var was := old(io[n].contents);
              io[n].Valid() && io[n].contents == [] && buf[..rc] == was[..rc] &&
              (forall k :: rc <= k < size ==> buf[k] == if was == [] then '\0' else was[|was| - 1]) &&
              (forall k :: size <= k < buf.Length ==> buf[k] == old(buf[k]))
  {
    if n < 0 || n > 1 || buf == null || size < 0 || io[n] == null {
      return -1;
    }
    var ring := io[n];
    var s := ring.size;
    if s > size {
      s := size;
    }
    ReadLoop(ring, buf, size);
    ring.Flush();
    return s;
  }

  const PROC_IO_MAX: nat := 4

  /** Empties a ring. The check lets the id PROC_IO_MAX through, for which the code reads past the
      process's pointers; `strayed` says so. */
  method IoFlush(io: seq<RingBuf?>, n: int) returns (rc: int, strayed: bool)
    requires |io| == PROC_IO_MAX && (0 <= n < PROC_IO_MAX && io[n] != null ==> io[n].Valid())
    modifies if 0 <= n < PROC_IO_MAX && io[n] != null then {io[n], io[n].data} else {}
    ensures strayed <==> n == 4
    ensures rc == if 0 <= n < 4 && io[n] != null then 0 else -1
    ensures rc == 0 ==> io[n].Valid() && io[n].contents == []
  {
    if n < 0 || n > PROC_IO_MAX {
      return -1, false;
    }
    if n == PROC_IO_MAX {
      return -1, true;
    }
    if io[n] == null {
      return -1, false;
    }
    io[n].Flush();
    return 0, false;
  }
}
