/**
 Calls of src/lfringbuffer.c that nothing interrupts: the ring as an object used by one thread, and one
 thread of a machine whose other threads are paused anywhere.

 While none of them holds the slot that the call needs, the call is exact (0 if and only if full, NULL if and
 only if empty).  Otherwise an enqueue never ends and a dequeue answers NULL.  Each call is proved to be a run
 of LfRingMachine from the state before the call to the state after it.
 */
module LfRing {
  import opened LfRingMachine
  import opened Memory

  /** The values in the slots of indices read, ..., write - 1. */
  function Window(slots: seq<nat>, read: nat, write: nat): (items: seq<nat>)
    requires read <= write && (read < write ==> slots != [])
  {
    seq(write - read, k requires 0 <= k < write - read => slots[(read + k) % |slots|])
  }

  /** Thread t is outside the ring; the others may be paused inside calls. */
  ghost predicate Outside(s: State, t: nat) {
    Inv(s) && t < |s.threads| && s.threads[t].Idle?
  }

  /** And no thread holds a slot. */
  ghost predicate Resting(s: State, t: nat) {
    Outside(s, t) && forall u | 0 <= u < |s.threads| :: !Owns(s.threads[u])
  }

  /** Some thread holds the slot of index i. */
  ghost predicate SlotHeld(s: State, i: int) {
    s.size == |s.slots| > 0 && s.slots[i % s.size] == NULL
  }

  /** With no slot held no slot is NULL, and the slots hold the queue. */
  lemma RestingSlots(s: State, t: nat)
    requires Resting(s, t)
    ensures NULL !in s.slots && Window(s.slots, s.read, s.write) == Items(s)
  {
    forall j | 0 <= j < s.size ensures s.slots[j] != NULL {
      assert forall u | 0 <= u < |s.threads| :: !OwnsSlot(s, s.threads[u], j);
    }
    forall i | 0 <= i < |Items(s)| ensures Window(s.slots, s.read, s.write)[i] == Items(s)[i] {
      assert Recent(s, s.read + i);
    }
  }

  /** What is known of the pointers. */
  lemma OutsidePointers(s: State, t: nat)
    requires Outside(s, t)
    ensures |s.slots| == s.size && 0 <= s.read <= s.write == |s.enq| && |Items(s)| == s.write - s.read <= s.size
    ensures s.write <= INT_MAX && Unsigned(s.write - s.read) == s.write - s.read
  {
  }

  // ---------- one call as a run of the machine ----------

  /** Consecutive states of the machine in which only thread t moves. */
  ghost predicate IsSolo(trace: seq<State>, t: nat) {
    && trace != [] && Inv(trace[|trace| - 1]) && t < |trace[|trace| - 1].threads|
    && forall j, k | 0 <= j < k < |trace| && k == j + 1 :: Moves(trace[j], trace[k], t)
  }

  function End(trace: seq<State>): State
    requires trace != []
  {
    trace[|trace| - 1]
  }

  lemma Start(s: State, t: nat, pc: Pc) returns (trace: seq<State>)
    requires Outside(s, t) && ((pc.EnqLoadRead? && pc.v != NULL) || pc.DeqLoadWrite?)
    ensures IsSolo(trace, t) && trace == [s, At(s, t, pc)] && Inv(End(trace))
  {
    trace := [s, At(s, t, pc)];
    LocalStepInv(s, t, pc);
  }

  lemma Extend(trace: seq<State>, t: nat) returns (longer: seq<State>)
    requires IsSolo(trace, t) && t < |End(trace).threads| && !End(trace).threads[t].Idle?
    requires Defined(End(trace), End(trace).threads[t])
    ensures longer == trace + [Step(End(trace), t)] && IsSolo(longer, t) && Inv(End(longer))
  {
    StepInv(End(trace), t);
    longer := trace + [Step(End(trace), t)];
  }

  /** The first half of an enqueue on a ring with room: the slot of the next index is locked. */
  lemma SoloLock(s: State, t: nat, v: nat) returns (trace: seq<State>)
    requires Outside(s, t) && v != NULL && s.write < INT_MAX && |Items(s)| < s.size && !SlotHeld(s, s.write)
    ensures s.size == |s.slots| && IsSolo(trace, t) && trace != [] && trace[0] == s
    ensures var j := s.write % s.size;
      End(trace) == At(s, t, EnqClaim(v, s.write, s.slots[j])).(slots := s.slots[j := NULL])
  {
    OutsidePointers(s, t);
    hide Inv, IsSolo, Window, Items, Unsigned;
    trace := Start(s, t, EnqLoadRead(v));
    trace := Extend(trace, t);
    trace := Extend(trace, t);
    trace := Extend(trace, t);
    trace := Extend(trace, t);
  }

  /**
   An uninterrupted enqueue: full rings answer 0 and stay, others gain the value unless another thread holds the
   slot of the next index.
   */
  lemma SoloEnqueue(s: State, t: nat, v: nat) returns (trace: seq<State>)
    requires Outside(s, t) && v != NULL
    requires |Items(s)| >= s.size || (s.write < INT_MAX && !SlotHeld(s, s.write))
    ensures IsSolo(trace, t) && trace != [] && trace[0] == s
    ensures Outside(End(trace), t) && (Resting(s, t) ==> Resting(End(trace), t))
    ensures End(trace) ==
      if |Items(s)| >= s.size then At(s, t, Idle(0))
      else At(s, t, Idle(1)).(write := s.write + 1, slots := s.slots[s.write % s.size := v], enq := s.enq + [v])
  {
    OutsidePointers(s, t);
    hide Inv, IsSolo, Items, Unsigned, SlotHeld;
    if |Items(s)| < s.size {
      trace := SoloLock(s, t, v);
      trace := Extend(trace, t);
      trace := Extend(trace, t);
    } else {
      trace := Start(s, t, EnqLoadRead(v));
      trace := Extend(trace, t);
      trace := Extend(trace, t);
    }
  }

  /**
   While another thread holds that slot of a ring with room, an enqueuer on its own comes round to the same state
   again.
   */
  lemma EnqueueWaits(s: State, t: nat, v: nat)
    requires Inv(s) && t < |s.threads| && s.threads[t] == EnqLoadRead(v)
    requires |Items(s)| < s.size && SlotHeld(s, s.write)
    ensures exists trace :: IsSolo(trace, t) && |trace| == 4 && trace[0] == trace[3] == s
  {
    var s1 := At(s, t, EnqLoadWrite(v, s.read));
    var s2 := At(s, t, EnqLoadSlot(v, s.write));
    assert Step(s1, t) == s2;
    assert Step(s2, t) == s;
    var trace := [s, s1, s2, s];
    assert IsSolo(trace, t) && trace[0] == trace[3];
  }

  /**
   "Lock-free" is false: in the last state of this run thread 0 holds the only slot of an empty ring, and thread 1
   can go on for ever in enqueue(7) while thread 0 does not move.
   */
  lemma BlockedEnqueuer() returns (run: Run)
    ensures var s := Last(run);
      && s.size == 1 && s.enq == [] && |s.threads| == 3 && s.threads[1] == EnqLoadRead(7) && s.threads[0].EnqClaim?
      && exists trace :: IsSolo(trace, 1) && |trace| == 4 && trace[0] == trace[3] == s
  {
    run := TwoEnqueuers();
    run := Continue(run, 0, [EnqLockSlot(5, 0, FRESH), EnqLoadSlot(7, 0), Idle(0)]);
    run := Continue(run, 0, [EnqClaim(5, 0, FRESH), EnqLoadSlot(7, 0), Idle(0)]);
    run := Continue(run, 1, [EnqClaim(5, 0, FRESH), EnqLoadRead(7), Idle(0)]);
    hide IsRun, IsSolo;
    RunInv(run, |run| - 1);
    EnqueueWaits(Last(run), 1, 7);
  }

  /** The oldest value is in its slot unless another thread holds it. */
  lemma OldestSlot(s: State, t: nat)
    requires Outside(s, t) && Items(s) != []
    ensures s.size == |s.slots| > 0 && (!SlotHeld(s, s.read) ==> s.slots[s.read % s.size] == Items(s)[0])
  {
    assert Recent(s, s.read);
  }

  /** The first half of a dequeue on a ring that is not empty: the slot of readPointer is loaded. */
  lemma SoloLoad(s: State, t: nat) returns (trace: seq<State>)
    requires Outside(s, t) && Items(s) != []
    ensures IsSolo(trace, t) && trace != [] && trace[0] == s && Inv(End(trace))
    ensures End(trace) == At(s, t, if SlotHeld(s, s.read) then Idle(NULL) else DeqClaim(s.read, Items(s)[0]))
  {
    OutsidePointers(s, t);
    OldestSlot(s, t);
    hide Inv, IsSolo, Items, Window;
    trace := Start(s, t, DeqLoadWrite);
    trace := Extend(trace, t);
    trace := Extend(trace, t);
    trace := Extend(trace, t);
  }

  /**
   An uninterrupted dequeue: empty rings answer NULL and stay, and so do rings of whose oldest value another thread
   holds the slot; others lose and return the oldest value.
   */
  lemma SoloDequeue(s: State, t: nat) returns (trace: seq<State>)
    requires Outside(s, t)
    ensures IsSolo(trace, t) && trace != [] && trace[0] == s
    ensures Outside(End(trace), t) && (Resting(s, t) ==> Resting(End(trace), t))
    ensures End(trace) ==
      if Items(s) == [] || SlotHeld(s, s.read) then At(s, t, Idle(NULL))
      else At(s, t, Idle(Items(s)[0])).(read := s.read + 1, deq := s.deq + [Items(s)[0]])
  {
    OutsidePointers(s, t);
    hide Inv, IsSolo, Items, SlotHeld;
    if Items(s) == [] {
      trace := Start(s, t, DeqLoadWrite);
      trace := Extend(trace, t);
      trace := Extend(trace, t);
    } else {
      trace := SoloLoad(s, t);
      if !SlotHeld(s, s.read) {
        trace := Extend(trace, t);
      }
    }
  }

  /** The queue after an enqueue, by what it did to the histories. */
  lemma ItemsAfter(s: State, s': State, v: nat)
    requires 0 <= s.read <= |s.enq| && s'.read == s.read
    ensures s'.enq == s.enq ==> Items(s') == Items(s)
    ensures s'.enq == s.enq + [v] ==> Items(s') == Items(s) + [v]
  {
  }

  // ---------- the object ----------

  class RingBuffer {
    var readPointer: int
    var writePointer: int
    const size: nat
    var count: int
    const buffer: array<nat>
    ghost var enqueued: seq<nat>
    ghost var dequeued: seq<nat>
    ghost var lastReturn: nat

    /** This ring as a machine state with one thread, outside the ring after its last call. */
    ghost function Snapshot(): State
      reads this, buffer
    {
      State(size, readPointer, writePointer, buffer[..], [Idle(lastReturn)], enqueued, dequeued)
    }

    ghost predicate Valid()
      reads this, buffer
    {
      Resting(Snapshot(), 0) && count == writePointer - readPointer
    }

    /** What the ring holds, oldest first. */
    ghost function Contents(): (items: seq<nat>)
      requires Valid()
      reads this, buffer
      ensures |items| <= size
    {
      Window(buffer[..], readPointer, writePointer)
    }

    constructor (size: nat)
      ensures Valid() && this.size == size && fresh(buffer) && Contents() == [] && Init(Snapshot())
    {
      this.size := size;
      buffer := new nat[size](_ => FRESH);
      readPointer, writePointer, count := 0, 0, 0;
      enqueued, dequeued, lastReturn := [], [], 0;
    }

    /** With nobody else moving a pointer or holding a slot, no compare-and-swap fails and no retry happens. */
    method Enqueue(value: nat) returns (ok: nat, ghost trace: seq<State>)
      requires Valid() && value != NULL
      requires writePointer < INT_MAX || |Contents()| == size  // the increment of writePointer does not overflow
      modifies this, buffer
      ensures Valid()
      ensures ok == if |old(Contents())| < size then 1 else 0
      ensures Contents() == if ok == 1 then old(Contents()) + [value] else old(Contents())
      ensures IsSolo(trace, 0) && trace[0] == old(Snapshot()) && End(trace) == Snapshot() && lastReturn == ok
    {
      RestingSlots(Snapshot(), 0);
      OutsidePointers(Snapshot(), 0);
      hide Inv, IsSolo, Items, Window;
      ghost var before := Snapshot();
      trace := SoloEnqueue(before, 0, value);
      var r := readPointer;
      var w := writePointer;
      if Unsigned(w - r) >= size {
        ok := 0;
      } else {
        var slot := w % size;
        var was := buffer[slot];
        assert was == before.slots[slot] != NULL;
        buffer[slot] := NULL;
        writePointer := w + 1;
        buffer[slot] := value;
        count := count + 1;
        ok := 1;
        enqueued := enqueued + [value];
      }
      lastReturn := ok;
      assert Snapshot() == End(trace);
      RestingSlots(Snapshot(), 0);
      ItemsAfter(before, Snapshot(), value);
    }

    method Dequeue() returns (result: nat, ghost trace: seq<State>)
      requires Valid()
      modifies this
      ensures Valid()
      ensures if old(Contents()) == [] then result == NULL && Contents() == []
              else result != NULL && old(Contents()) == [result] + Contents()
      ensures IsSolo(trace, 0) && trace[0] == old(Snapshot()) && End(trace) == Snapshot() && lastReturn == result
    {
      RestingSlots(Snapshot(), 0);
      trace := SoloDequeue(Snapshot(), 0);
      var w := writePointer;
      var r := readPointer;
      if r >= w {
        result := NULL;
      } else {
        result := buffer[r % size];
        assert result == Contents()[0] == Snapshot().slots[r % size];
        readPointer := r + 1;
        count := count - 1;
        dequeued := dequeued + [result];
      }
      lastReturn := result;
      assert Snapshot() == End(trace);
      RestingSlots(Snapshot(), 0);
    }

    /** For sequential use the debugging count is the number of values held. */
    method Count() returns (n: int)
      requires Valid()
      ensures n == |Contents()|
    {
      n := count;
    }
  }
}
