/**
 The sequential ring of src/ringbuffer.c: elements of any size, kept in one flat array of bytes.
 The object refines a bounded queue of elements that, when full, replaces its newest element.
 */
module ByteRing {
  import opened Arithmetic

  type Byte = b: int | 0 <= b < 256 witness 0
  type Element = seq<Byte>

  /** What enqueue does to a queue of the given capacity. */
  function Pushed(queue: seq<Element>, capacity: nat, e: Element): seq<Element> {
    if |queue| < capacity then queue + [e]
    else if queue == [] then queue
    else queue[..|queue| - 1] + [e]
  }

  function PushedAll(queue: seq<Element>, capacity: nat, es: seq<Element>): seq<Element> {
    if es == [] then queue else Pushed(PushedAll(queue, capacity, es[..|es| - 1]), capacity, es[|es| - 1])
  }

  /** However many elements arrive, the oldest capacity - 1 of them stay, followed by the last one. */
  lemma {:induction false} OverflowKeepsOldest(capacity: nat, es: seq<Element>)
    requires capacity >= 1
    ensures PushedAll([], capacity, es) ==
      if |es| <= capacity then es else es[..capacity - 1] + [es[|es| - 1]]
  {
    if es != [] {
      var n := |es| - 1;
      OverflowKeepsOldest(capacity, es[..n]);
      if n < capacity {
        assert es == es[..n] + [es[n]];
      } else if n > capacity {
        assert es[..n][..capacity - 1] == es[..capacity - 1];
      } else {
        assert es[..n][..n - 1] == es[..capacity - 1];
      }
    }
  }

  /** The element at slot i of the flat array. */
  function Slot(bytes: seq<Byte>, i: nat, size: nat): Element
    requires i * size + size <= |bytes|
  {
    bytes[i * size..i * size + size]
  }

  /** Slot i of an array of n elements lies inside it, and different slots do not overlap. */
  lemma SlotBounds(i: nat, j: nat, n: nat, size: nat)
    requires i < n && j < n
    ensures 0 <= i * size && i * size + size <= n * size
    ensures i < j ==> i * size + size <= j * size
  {
    assert (i + 1) * size == i * size + size;
    MulOrder(i + 1, n, size);
    if i < j {
      MulOrder(i + 1, j, size);
    }
    MulOrder(0, i, size);
  }

  lemma MulOrder(a: nat, b: nat, c: nat)
    requires a <= b
    ensures a * c <= b * c
  {
    assert b * c == a * c + (b - a) * c;
  }

  /** The slot of the k-th element when the oldest is in slot head. */
  function Index(head: nat, k: nat, n: nat): (i: nat)
    requires n > 0
    ensures i < n
  {
    (head + k) % n
  }

  /** The elements held by a ring whose oldest element is in slot head. */
  function Window(slots: seq<Element>, head: nat, count: nat): (queue: seq<Element>)
    requires slots != []
    ensures |queue| == count
  {
    seq(count, k requires 0 <= k < count => slots[Index(head, k, |slots|)])
  }

  /** Elements less than a capacity apart are in different slots. */
  lemma IndexDiffers(head: nat, j: nat, k: nat, n: nat)
    requires j < k < j + n
    ensures Index(head, j, n) != Index(head, k, n)
  {
    if Index(head, j, n) == Index(head, k, n) {
      SameRemainder(head + j, head + k, n);
      assert false;
    }
  }

  /** Reducing head before adding k makes no difference. */
  lemma IndexWraps(head: nat, k: nat, n: nat)
    requires n > 0
    ensures Index(head % n, k, n) == Index(head, k, n)
  {
    assert head + k == head % n + k + head / n * n;
    AddMultiple(head % n + k, head / n, n);
  }

  /** Writing the slot of element k leaves the elements before it and puts e behind them. */
  lemma WriteLast(slots: seq<Element>, head: nat, k: nat, e: Element)
    requires k < |slots|
    ensures Window(slots[Index(head, k, |slots|) := e], head, k + 1) == Window(slots, head, k) + [e]
  {
    forall j | 0 <= j < k ensures Index(head, j, |slots|) != Index(head, k, |slots|) {
      IndexDiffers(head, j, k, |slots|);
    }
  }

  lemma WindowPrefix(slots: seq<Element>, head: nat, k: nat, count: nat)
    requires slots != [] && k <= count
    ensures Window(slots, head, k) == Window(slots, head, count)[..k]
  {
  }

  lemma DropFirst(slots: seq<Element>, head: nat, count: nat)
    requires slots != [] && count > 0
    ensures Window(slots, Index(head, 1, |slots|), count - 1) == Window(slots, head, count)[1..]
  {
    forall j | 0 <= j < count - 1
      ensures Index(Index(head, 1, |slots|), j, |slots|) == Index(head, j + 1, |slots|)
    {
      IndexWraps(head + 1, j, |slots|);
    }
  }

  /** Where tail goes next, and when it meets head. */
  lemma NextTail(head: nat, count: nat, n: nat)
    requires head < n && count < n
    ensures (Index(head, count, n) + 1) % n == Index(head, count + 1, n)
    ensures Index(head, count + 1, n) == head <==> count + 1 == n
  {
    IndexWraps(head + count, 1, n);
    DivModUnique(head, 0, head, n);
    if count + 1 == n {
      AddMultiple(head, 1, n);
    } else {
      IndexDiffers(head, 0, count + 1, n);
    }
  }

  /** The slot before tail, with the wrap of the code, is the slot of the newest element. */
  lemma BeforeTail(head: nat, count: nat, n: nat, idx: int)
    requires head < n && 0 < count <= n
    requires idx == if Index(head, count, n) == 0 then n - 1 else Index(head, count, n) - 1
    ensures idx == Index(head, count - 1, n)
  {
    NextTail(head, count - 1, n);
    var i := Index(head, count - 1, n);
    if i == n - 1 {
      DivModUnique(i + 1, 1, 0, n);
    } else {
      DivModUnique(i + 1, 0, i + 1, n);
    }
  }

  class RingBuffer {
    const buffer: array<Byte>
    var head: nat
    var tail: nat
    const maxElements: nat
    const elementSize: nat
    var count: nat
    var full: bool

    ghost predicate Valid()
      reads this
    {
      && maxElements >= 1 && buffer.Length == maxElements * elementSize
      && head < maxElements && count <= maxElements
      && tail == Index(head, count, maxElements) && (full <==> count == maxElements)
    }

    ghost function Slots(): (slots: seq<Element>)
      requires buffer.Length == maxElements * elementSize
      reads buffer
      ensures |slots| == maxElements
    {
      SlotsInside();
      seq(maxElements, i requires 0 <= i < maxElements && buffer.Length == maxElements * elementSize reads buffer =>
        (SlotBounds(i, i, maxElements, elementSize); Slot(buffer[..], i, elementSize)))
    }

    lemma SlotsInside()
      requires buffer.Length == maxElements * elementSize
      ensures forall i | 0 <= i < maxElements :: 0 <= i * elementSize && i * elementSize + elementSize <= buffer.Length
    {
      forall i | 0 <= i < maxElements ensures 0 <= i * elementSize && i * elementSize + elementSize <= buffer.Length {
        SlotBounds(i, i, maxElements, elementSize);
      }
    }

    /** The elements held, oldest first. */
    ghost function Contents(): (queue: seq<Element>)
      requires Valid()
      reads this, buffer
      ensures |queue| == count
    {
      Window(Slots(), head, count)
    }

    constructor (maxElements: nat, elementSize: nat)
      requires maxElements >= 1
      ensures Valid() && Contents() == [] && fresh(buffer)
      ensures this.maxElements == maxElements && this.elementSize == elementSize
    {
      SlotBounds(0, 0, maxElements, elementSize);
      this.maxElements, this.elementSize := maxElements, elementSize;
      buffer := new Byte[maxElements * elementSize](_ => 0);
      head, tail, count, full := 0, 0, 0, false;
    }

    method IsEmpty() returns (empty: bool)
      requires Valid()
      ensures empty <==> Contents() == []
    {
      empty := count == 0;
    }

    /** memcpy of one element to getBufferLoc(ring, i). */
    method Store(i: nat, e: array<Byte>)
      requires Valid() && i < maxElements && e.Length == elementSize && e != buffer
      modifies buffer
      ensures Valid() && Slots() == old(Slots())[i := e[..]]
    {
      SlotBounds(i, i, maxElements, elementSize);
      var at := i * elementSize;
      for k := 0 to elementSize
        invariant buffer[..] == old(buffer[..at]) + e[..k] + old(buffer[at + k..])
      {
        buffer[at + k] := e[k];
      }
      forall j | 0 <= j < maxElements ensures Slots()[j] == if j == i then e[..] else old(Slots())[j] {
        SlotBounds(i, j, maxElements, elementSize);
        SlotBounds(j, i, maxElements, elementSize);
      }
    }

    /** memcpy of one element from getBufferLoc(ring, i). */
    method Load(i: nat, e: array<Byte>)
      requires Valid() && i < maxElements && e.Length == elementSize && e != buffer
      modifies e
      ensures e[..] == Slots()[i]
    {
      SlotBounds(i, i, maxElements, elementSize);
      var at := i * elementSize;
      for k := 0 to elementSize
        invariant e[..k] == buffer[at..at + k]
      {
        e[k] := buffer[at + k];
        assert e[..k + 1] == e[..k] + [e[k]];
      }
    }

    /** Appends the element, or puts it in the place of the newest when the ring is full. */
    method Enqueue(e: array<Byte>)
      requires Valid() && e.Length == elementSize && e != buffer
      modifies this`tail, this`full, this`count, buffer
      ensures Valid() && Contents() == Pushed(old(Contents()), maxElements, e[..])
    {
      hide Index, Window, Slot;
      if full {
        var idx: int := tail - 1;
        if idx < 0 {
          idx := idx + maxElements;
        }
        BeforeTail(head, count, maxElements, idx);
        WriteLast(Slots(), head, count - 1, e[..]);
        WindowPrefix(Slots(), head, count - 1, count);
        Store(idx, e);
      } else {
        WriteLast(Slots(), head, count, e[..]);
        NextTail(head, count, maxElements);
        Store(tail, e);
        tail := (tail + 1) % maxElements;
        full := tail == head;
        count := count + 1;
      }
    }

    /** Removes the oldest element and copies it out unless the caller passed NULL. */
    method Dequeue(e: array?<Byte>) returns (removed: int)
      requires Valid() && (e != null ==> e.Length == elementSize && e != buffer)
      modifies this`head, this`full, this`count, e
      ensures Valid()
      ensures if old(Contents()) == [] then removed == 0 && Contents() == [] && (e != null ==> e[..] == old(e[..]))
              else removed == 1 && Contents() == old(Contents())[1..] && (e != null ==> e[..] == old(Contents())[0])
    {
      if count == 0 {
        return 0;
      }
      DivModUnique(head, 0, head, maxElements);
      assert Contents()[0] == Slots()[Index(head, 0, maxElements)] == Slots()[head];
      DropFirst(Slots(), head, count);
      IndexWraps(head + 1, count - 1, maxElements);
      if e != null {
        Load(head, e);
      }
      head := (head + 1) % maxElements;
      full := false;
      count := count - 1;
      return 1;
    }
  }
}
