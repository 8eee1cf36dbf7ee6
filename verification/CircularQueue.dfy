/** The circular queue of src/queue.c: a fixed array with head, tail and size, whose indices are
    reset whenever it becomes empty. It refines a bounded FIFO sequence. */
module CircularQueue {
  import opened Types

  class Queue {
    const items: array<int>
    var head: int
    var tail: int
    var size: int

    /** The queued items, oldest first. */
    ghost var contents: seq<int>

    /** The array slot of the i-th queued item. */
    function Slot(i: int): int
      reads this
    {
      if head + i < QUEUE_SIZE then head + i else head + i - QUEUE_SIZE
    }

    ghost predicate Valid()
      reads this, items
    {
      && items.Length == QUEUE_SIZE
      && 0 <= size <= QUEUE_SIZE && size == |contents|
      && (size == 0 ==> head == -1 && tail == -1)
      && (size > 0 ==> 0 <= head < QUEUE_SIZE && tail == Slot(size - 1))
      && (forall i :: 0 <= i < size ==> items[Slot(i)] == contents[i])
    }

    constructor ()
      ensures Valid() && contents == [] && fresh(items)
    {
      items := new int[QUEUE_SIZE](i => -1);
      head, tail, size := -1, -1, 0;
      contents := [];
    }

    method Init()
      requires items.Length == QUEUE_SIZE
      modifies this, items
      ensures Valid() && contents == []
    {
      head, tail, size := -1, -1, 0;
      contents := [];
      for i := 0 to QUEUE_SIZE
        invariant head == -1 && tail == -1 && size == 0 && contents == []
      {
        items[i] := -1;
      }
    }

    predicate IsEmpty()
      reads this
    {
      size == 0
    }

    predicate IsFull()
      reads this
    {
      size == QUEUE_SIZE
    }

    method In(item: int) returns (rc: int)
      requires Valid()
      modifies this, items
      ensures Valid()
      ensures rc == if |old(contents)| < 32 then 0 else -1
      ensures contents == if rc == 0 then old(contents) + [item] else old(contents)
    {
      if IsFull() {
        return -1;
      }
      if IsEmpty() {
        head := 0;
      }
      tail := (tail + 1) % QUEUE_SIZE;
      items[tail] := item;
      size := size + 1;
      contents := contents + [item];
      return 0;
    }

    /** `*item` keeps its previous value when there is nothing to take. */
    method Out(previous: int) returns (rc: int, item: int)
      requires Valid()
      modifies this, items
      ensures Valid()
      ensures if |old(contents)| > 0 then rc == 0 && [item] + contents == old(contents)
              else rc == -1 && item == previous && contents == []
    {
      if IsEmpty() {
        return -1, previous;
      }
      item := items[head];
      items[head] := 0;
      contents := contents[1..];
      if head == tail {
        Init();
      } else {
        head := (head + 1) % QUEUE_SIZE;
        size := size - 1;
      }
      rc := 0;
    }
  }
}
