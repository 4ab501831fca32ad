/**
 The lock-free bounded ring of src/lfringbuffer.c as a step machine.

 Any number of threads run RingBuffer_enqueue and RingBuffer_dequeue at the same time.
 Every load, compare-and-swap and store of the shared ring is one step, and steps of
 different threads interleave freely under sequential consistency.  `enq` and `deq` record
 the values in the order of the successful compare-and-swaps of writePointer and readPointer.
 */
module LfRingMachine {
  import opened Arithmetic
  import opened Memory

  const INT_MAX: nat := 0x7fff_ffff
  /** What memset(buffer, 1, ...) leaves in every slot of a new ring. */
  const FRESH: nat := 0x0101_0101

  /** Conversion of an int to the 32-bit type unsigned. */
  function Unsigned(x: int): nat { x % WORD }

  /** Where a thread is; the comments name the line that its next step executes. */
  datatype Pc =
    | Idle(ret: nat)                               // outside; ret is what the last call returned
    | EnqLoadRead(v: nat)                          // 33
    | EnqLoadWrite(v: nat, r: int)                 // 34-37
    | EnqLoadSlot(v: nat, w: int)                  // 39-41
    | EnqLockSlot(v: nat, w: int, was: nat)        // 41
    | EnqClaim(v: nat, w: int, was: nat)           // 45
    | EnqStore(v: nat, w: int)                     // 53
    | EnqRestore(v: nat, w: int, was: nat)         // 50
    | DeqLoadWrite                                 // 72
    | DeqLoadRead(w: int)                          // 73-76
    | DeqLoadSlot(r: int)                          // 78-82
    | DeqClaim(r: int, res: nat)                   // 84

  datatype State = State(
    size: nat, read: int, write: int, slots: seq<nat>,
    threads: seq<Pc>, enq: seq<nat>, deq: seq<nat>)

  /** RingBuffer_init: both pointers zero, every slot a non-NULL byte pattern. */
  ghost predicate Init(s: State) {
    && s.read == 0 && s.write == 0
    && |s.slots| == s.size && (forall j | 0 <= j < s.size :: s.slots[j] == FRESH)
    && (forall t | 0 <= t < |s.threads| :: s.threads[t].Idle?)
    && s.enq == [] && s.deq == []
  }

  function At(s: State, t: nat, pc: Pc): State
    requires t < |s.threads|
  {
    s.(threads := s.threads[t := pc])
  }

  /** A thread outside the ring calls enqueue, with a value that is not NULL, or dequeue. */
  ghost predicate Begins(s: State, s': State, t: nat)
    requires t < |s.threads|
  {
    && s.threads[t].Idle?
    && ((exists v: nat :: v != NULL && s' == At(s, t, EnqLoadRead(v))) || s' == At(s, t, DeqLoadWrite))
  }

  /** The index `i % size` of the slot, in range while size > 0 and the slots have that length. */
  ghost predicate InRing(s: State, i: int) {
    s.size > 0 && |s.slots| == s.size && 0 <= i
  }

  /** A step has a defined outcome: the slot index is in range and `writePointer + 1` does not overflow. */
  ghost predicate Defined(s: State, pc: Pc) {
    match pc
    case EnqLoadSlot(_, w) => InRing(s, w)
    case EnqLockSlot(_, w, _) => InRing(s, w)
    case EnqClaim(_, w, _) => w < INT_MAX
    case EnqStore(_, w) => InRing(s, w)
    case EnqRestore(_, w, _) => InRing(s, w)
    case DeqLoadSlot(r) => InRing(s, r)
    case DeqClaim(r, _) => r < INT_MAX
    case _ => true
  }

  /** One step of a thread that is inside a call. */
  ghost function Step(s: State, t: nat): State
    requires t < |s.threads| && Defined(s, s.threads[t])
  {
    match s.threads[t]
    case Idle(_) => s
    case EnqLoadRead(v) => At(s, t, EnqLoadWrite(v, s.read))
    case EnqLoadWrite(v, r) =>
      if Unsigned(s.write - r) >= s.size then At(s, t, Idle(0)) else At(s, t, EnqLoadSlot(v, s.write))
    case EnqLoadSlot(v, w) =>
      var was := s.slots[w % s.size];
      if was == NULL then At(s, t, EnqLoadRead(v)) else At(s, t, EnqLockSlot(v, w, was))
    case EnqLockSlot(v, w, was) =>
      if s.slots[w % s.size] == was
      then At(s, t, EnqClaim(v, w, was)).(slots := s.slots[w % s.size := NULL])
      else At(s, t, EnqLoadRead(v))
    case EnqClaim(v, w, was) =>
      if s.write == w
      then At(s, t, EnqStore(v, w)).(write := w + 1, enq := s.enq + [v])
      else At(s, t, EnqRestore(v, w, was))
    case EnqStore(v, w) => At(s, t, Idle(1)).(slots := s.slots[w % s.size := v])
    case EnqRestore(v, w, was) =>
      if s.slots[w % s.size] == NULL
      then At(s, t, EnqLoadRead(v)).(slots := s.slots[w % s.size := was])
      else At(s, t, EnqLoadRead(v))
    case DeqLoadWrite => At(s, t, DeqLoadRead(s.write))
    case DeqLoadRead(w) => if s.read >= w then At(s, t, Idle(NULL)) else At(s, t, DeqLoadSlot(s.read))
    case DeqLoadSlot(r) =>
      var res := s.slots[r % s.size];
      if res == NULL then At(s, t, Idle(NULL)) else At(s, t, DeqClaim(r, res))
    case DeqClaim(r, res) =>
      if s.read == r
      then At(s, t, Idle(res)).(read := r + 1, deq := s.deq + [res])
      else At(s, t, DeqLoadWrite)
  }

  ghost predicate Moves(s: State, s': State, t: nat) {
    && t < |s.threads|
    && (Begins(s, s', t) || (!s.threads[t].Idle? && Defined(s, s.threads[t]) && s' == Step(s, t)))
  }

  ghost predicate Next(s: State, s': State) {
    exists t: nat :: Moves(s, s', t)
  }

  ghost predicate IsRun(run: seq<State>) {
    && run != [] && Init(run[0])
    && forall j, k | 0 <= j < k < |run| && k == j + 1 :: Next(run[j], run[k])
  }

  type Run = run: seq<State> | IsRun(run) witness [State(0, 0, 0, [], [], [], [])]

  // ---------- the invariant ----------

  /** The thread has set the slot of index i to NULL and not yet given it a value back. */
  ghost predicate Owns(pc: Pc) { pc.EnqClaim? || pc.EnqStore? || pc.EnqRestore? }

  ghost predicate OwnsSlot(s: State, pc: Pc, j: nat) {
    Owns(pc) && s.size > 0 && pc.w % s.size == j
  }

  /** i is one of the last `size` indices handed out. */
  ghost predicate Recent(s: State, i: int) {
    0 <= i < s.write && s.write - s.size <= i
  }

  ghost predicate Counters(s: State) {
    && 0 <= s.read <= s.write <= s.read + s.size
    && s.write <= INT_MAX
    && s.write == |s.enq| && s.read == |s.deq| && |s.slots| == s.size
    && s.deq == s.enq[..s.read]
    && NULL !in s.enq
  }

  /** A slot that is not locked holds the newest value whose index maps to it. */
  ghost predicate SlotsHold(s: State)
    requires s.write == |s.enq| && |s.slots| == s.size
  {
    forall i | Recent(s, i) :: s.slots[i % s.size] == NULL || s.slots[i % s.size] == s.enq[i]
  }

  ghost predicate Local(s: State, pc: Pc)
    requires s.write == |s.enq| && |s.slots| == s.size && s.read <= s.write
  {
    match pc
    case Idle(_) => true
    case EnqLoadRead(v) => v != NULL
    case EnqLoadWrite(v, r) => v != NULL && 0 <= r <= s.read
    case EnqLoadSlot(v, w) => v != NULL && s.size > 0 && 0 <= w <= s.write && w < s.read + s.size
    case EnqLockSlot(v, w, was) =>
      v != NULL && was != NULL && s.size > 0 && 0 <= w <= s.write && w < s.read + s.size
    case EnqClaim(v, w, was) =>
      && v != NULL && was != NULL && s.size > 0 && 0 <= w <= s.write && w < s.read + s.size
      && s.slots[w % s.size] == NULL
      && forall i | Recent(s, i) && i % s.size == w % s.size :: s.enq[i] == was
    case EnqStore(v, w) =>
      v != NULL && s.size > 0 && Recent(s, w) && s.slots[w % s.size] == NULL && s.enq[w] == v
    case EnqRestore(v, w, was) =>
      && v != NULL && was != NULL && 0 <= w && s.size > 0 && s.slots[w % s.size] == NULL
      && forall i | Recent(s, i) && i % s.size == w % s.size :: s.enq[i] == was
    case DeqLoadWrite => true
    case DeqLoadRead(w) => w <= s.write
    case DeqLoadSlot(r) => 0 <= r <= s.read && r < s.write && s.size > 0
    case DeqClaim(r, res) =>
      0 <= r <= s.read && r < s.write && s.size > 0 && res != NULL && (r == s.read ==> res == s.enq[r])
  }

  ghost predicate Locals(s: State)
    requires s.write == |s.enq| && |s.slots| == s.size && s.read <= s.write
  {
    forall t | 0 <= t < |s.threads| :: Local(s, s.threads[t])
  }

  /** A NULL slot has an owner, and no slot has two. */
  ghost predicate Locks(s: State)
    requires |s.slots| == s.size
  {
    && (forall j | 0 <= j < s.size && s.slots[j] == NULL ::
          exists t :: 0 <= t < |s.threads| && OwnsSlot(s, s.threads[t], j))
    && (forall t, u | 0 <= t < u < |s.threads| && Owns(s.threads[t]) && Owns(s.threads[u]) && s.size > 0 ::
          s.threads[t].w % s.size != s.threads[u].w % s.size)
  }

  ghost predicate Inv(s: State) {
    Counters(s) && SlotsHold(s) && Locals(s) && Locks(s)
  }

  lemma InitInv(s: State)
    requires Init(s)
    ensures Inv(s)
  {
  }

  lemma OwnersStay(s: State, s': State)
    requires Inv(s) && s'.size == s.size && |s'.threads| == |s.threads| && |s'.slots| == s.size
    requires forall j | 0 <= j < s.size && s'.slots[j] == NULL :: s.slots[j] == NULL
    requires forall u | 0 <= u < |s.threads| && Owns(s.threads[u]) ::
               if Owns(s'.threads[u]) then s'.threads[u].w == s.threads[u].w
               else s.size > 0 ==> s'.slots[s.threads[u].w % s.size] != NULL
    requires forall u | 0 <= u < |s.threads| && Owns(s'.threads[u]) :: Owns(s.threads[u])
    ensures Locks(s')
  {
    forall j | 0 <= j < s.size && s'.slots[j] == NULL
      ensures exists u :: 0 <= u < |s'.threads| && OwnsSlot(s', s'.threads[u], j)
    {
      var u :| 0 <= u < |s.threads| && OwnsSlot(s, s.threads[u], j);
      assert OwnsSlot(s', s'.threads[u], j);
    }
  }

  /** Steps that only move one thread between places where it owns no slot. */
  lemma LocalStepInv(s: State, t: nat, pc: Pc)
    requires Inv(s) && t < |s.threads| && !Owns(s.threads[t]) && !Owns(pc) && Local(s, pc)
    ensures Inv(At(s, t, pc))
  {
    var s' := At(s, t, pc);
    assert s'.threads[t] == pc;
    forall u | 0 <= u < |s'.threads| ensures Local(s', s'.threads[u]) {
      assert Local(s, if u == t then pc else s.threads[u]);
    }
    OwnersStay(s, s');
  }

  lemma LockInv(s: State, t: nat)
    requires Inv(s) && t < |s.threads| && s.threads[t].EnqLockSlot? && Defined(s, s.threads[t])
    ensures Inv(Step(s, t))
  {
    var EnqLockSlot(v, w, was) := s.threads[t];
    var j := w % s.size;
    var s' := Step(s, t);
    if s.slots[j] != was {
      LocalStepInv(s, t, EnqLoadRead(v));
    } else {
      forall u | 0 <= u < |s.threads| ensures Local(s', s'.threads[u]) {
        assert Local(s, s.threads[u]);
      }
      forall i | 0 <= i < s.size && s'.slots[i] == NULL
        ensures exists u :: 0 <= u < |s'.threads| && OwnsSlot(s', s'.threads[u], i)
      {
        if i == j {
          assert OwnsSlot(s', s'.threads[t], i);
        } else {
          var u :| 0 <= u < |s.threads| && OwnsSlot(s, s.threads[u], i);
          assert s'.threads[u] == s.threads[u];
        }
      }
      forall u | 0 <= u < |s.threads| && u != t && Owns(s.threads[u])
        ensures s.threads[u].w % s.size != j
      {
        assert Local(s, s.threads[u]);
      }
    }
  }

  /** Only the owner of a slot can hand it an index, so the previous index of the slot is not still being stored. */
  lemma ClaimLocals(s: State, t: nat, u: nat)
    requires Inv(s) && t < |s.threads| && u < |s.threads| && s.threads[t].EnqClaim? && Defined(s, s.threads[t])
    requires s.write == s.threads[t].w
    ensures Local(Step(s, t), Step(s, t).threads[u])
  {
    var w := s.threads[t].w;
    assert Local(s, s.threads[t]) && Local(s, s.threads[u]);
    if u != t && s.threads[u].EnqStore? && s.threads[u].w == w - s.size {
      AddMultiple(w - s.size, 1, s.size);
      assert false;
    }
  }

  lemma ClaimInv(s: State, t: nat)
    requires Inv(s) && t < |s.threads| && s.threads[t].EnqClaim? && Defined(s, s.threads[t])
    ensures Inv(Step(s, t))
  {
    var EnqClaim(v, w, was) := s.threads[t];
    var s' := Step(s, t);
    assert Local(s, s.threads[t]);
    OwnersStay(s, s');
    if s.write == w {
      assert SlotsHold(s');
      forall u | 0 <= u < |s.threads| ensures Local(s', s'.threads[u]) {
        ClaimLocals(s, t, u);
      }
    } else {
      forall u | 0 <= u < |s.threads| ensures Local(s', s'.threads[u]) {
        assert Local(s, s.threads[u]);
      }
    }
  }

  /** The state after thread t gives its locked slot a value back: the new value, or the one it found. */
  ghost function Unlocked(s: State, t: nat, pc: Pc): State
    requires t < |s.threads| && (s.threads[t].EnqStore? || s.threads[t].EnqRestore?) && InRing(s, s.threads[t].w)
  {
    var value := if s.threads[t].EnqStore? then s.threads[t].v else s.threads[t].was;
    At(s, t, pc).(slots := s.slots[s.threads[t].w % s.size := value])
  }

  lemma UnlockedSlots(s: State, t: nat, pc: Pc)
    requires Inv(s) && t < |s.threads| && (s.threads[t].EnqStore? || s.threads[t].EnqRestore?)
    requires InRing(s, s.threads[t].w)
    ensures SlotsHold(Unlocked(s, t, pc))
  {
    assert Local(s, s.threads[t]);
    var s' := Unlocked(s, t, pc);
    var w := s.threads[t].w;
    forall i | Recent(s', i) ensures s'.slots[i % s.size] == NULL || s'.slots[i % s.size] == s'.enq[i] {
      if i % s.size == w % s.size && s.threads[t].EnqStore? {
        SameRemainder(i, w, s.size);
      }
    }
  }

  lemma UnlockInv(s: State, t: nat, pc: Pc)
    requires Inv(s) && t < |s.threads| && (s.threads[t].EnqStore? || s.threads[t].EnqRestore?)
    requires InRing(s, s.threads[t].w) && Local(s, pc) && (pc.Idle? || pc.EnqLoadRead?)
    ensures Inv(Unlocked(s, t, pc))
  {
    var s' := Unlocked(s, t, pc);
    assert Local(s, s.threads[t]);
    UnlockedSlots(s, t, pc);
    OwnersStay(s, s');
    forall u | 0 <= u < |s.threads| ensures Local(s', s'.threads[u]) {
      assert Local(s, s.threads[u]);
    }
  }

  lemma DeqLoadSlotInv(s: State, t: nat)
    requires Inv(s) && t < |s.threads| && s.threads[t].DeqLoadSlot? && Defined(s, s.threads[t])
    ensures Inv(Step(s, t))
  {
    var r := s.threads[t].r;
    assert Local(s, s.threads[t]);
    var res := s.slots[r % s.size];
    if res == NULL {
      LocalStepInv(s, t, Idle(NULL));
    } else {
      assert r == s.read ==> Recent(s, r);
      LocalStepInv(s, t, DeqClaim(r, res));
    }
  }

  lemma DeqClaimLocals(s: State, t: nat, u: nat)
    requires Inv(s) && t < |s.threads| && u < |s.threads| && s.threads[t].DeqClaim? && Defined(s, s.threads[t])
    requires s.read == s.threads[t].r
    ensures Counters(Step(s, t)) && Local(Step(s, t), Step(s, t).threads[u])
  {
    assert Local(s, s.threads[t]) && Local(s, s.threads[u]);
  }

  lemma DeqClaimInv(s: State, t: nat)
    requires Inv(s) && t < |s.threads| && s.threads[t].DeqClaim? && Defined(s, s.threads[t])
    ensures Inv(Step(s, t))
  {
    var s' := Step(s, t);
    if s.read != s.threads[t].r {
      LocalStepInv(s, t, DeqLoadWrite);
    } else {
      DeqClaimLocals(s, t, t);
      assert SlotsHold(s') by {
        assert forall i | Recent(s', i) :: Recent(s, i);
      }
      forall u | 0 <= u < |s.threads| ensures Local(s', s'.threads[u]) {
        DeqClaimLocals(s, t, u);
      }
      OwnersStay(s, s');
    }
  }

  lemma EnqStepInv(s: State, t: nat)
    requires Inv(s) && t < |s.threads| && Defined(s, s.threads[t])
    requires var pc := s.threads[t]; pc.EnqLoadRead? || pc.EnqLoadWrite? || pc.EnqLoadSlot?
    ensures Inv(Step(s, t))
  {
    assert Local(s, s.threads[t]);
    LocalStepInv(s, t, Step(s, t).threads[t]);
  }

  lemma DeqStepInv(s: State, t: nat)
    requires Inv(s) && t < |s.threads| && (s.threads[t].DeqLoadWrite? || s.threads[t].DeqLoadRead?)
    ensures Inv(Step(s, t))
  {
    assert Local(s, s.threads[t]);
    LocalStepInv(s, t, Step(s, t).threads[t]);
  }

  lemma GiveBackInv(s: State, t: nat)
    requires Inv(s) && t < |s.threads| && (s.threads[t].EnqStore? || s.threads[t].EnqRestore?)
    requires Defined(s, s.threads[t])
    ensures Inv(Step(s, t))
  {
    assert Local(s, s.threads[t]);
    match s.threads[t]
    case EnqStore(v, w) => UnlockInv(s, t, Idle(1));
    case EnqRestore(v, w, was) => UnlockInv(s, t, EnqLoadRead(v));
  }

  lemma StepInv(s: State, t: nat)
    requires Inv(s) && t < |s.threads| && Defined(s, s.threads[t])
    ensures Inv(Step(s, t))
  {
    match s.threads[t]
    case Idle(_) =>
    case EnqLockSlot(_, _, _) => LockInv(s, t);
    case EnqClaim(_, _, _) => ClaimInv(s, t);
    case EnqStore(_, _) => GiveBackInv(s, t);
    case EnqRestore(_, _, _) => GiveBackInv(s, t);
    case DeqLoadSlot(_) => DeqLoadSlotInv(s, t);
    case DeqClaim(_, _) => DeqClaimInv(s, t);
    case DeqLoadWrite => DeqStepInv(s, t);
    case DeqLoadRead(_) => DeqStepInv(s, t);
    case _ => EnqStepInv(s, t);
  }

  lemma NextInv(s: State, s': State)
    requires Inv(s) && Next(s, s')
    ensures Inv(s')
  {
    var t: nat :| Moves(s, s', t);
    if Begins(s, s', t) {
      LocalStepInv(s, t, s'.threads[t]);
    } else {
      StepInv(s, t);
    }
  }

  lemma RunStart(run: Run)
    ensures Inv(run[0])
  {
    InitInv(run[0]);
  }

  lemma RunNext(run: Run, k: nat)
    requires 0 < k < |run| && Inv(run[k - 1])
    ensures Inv(run[k])
  {
    NextInv(run[k - 1], run[k]);
  }

  /** Every state of every run satisfies the invariant. */
  lemma {:induction false} RunInv(run: Run, k: nat)
    requires k < |run|
    ensures Inv(run[k])
  {
    hide *;
    if k == 0 {
      RunStart(run);
    } else {
      RunInv(run, k - 1);
      RunNext(run, k);
    }
  }

  // ---------- what the ring promises ----------

  /** The values handed in and not yet handed out, oldest first. */
  function Items(s: State): seq<nat>
    requires 0 <= s.read <= |s.enq|
  {
    s.enq[s.read..]
  }

  /** In every run the i-th successful dequeue got the value of the i-th successful enqueue. */
  lemma FifoOrder(run: Run, k: nat)
    requires k < |run|
    ensures var s := run[k];
      && |s.deq| <= |s.enq| <= |s.deq| + s.size
      && forall i | 0 <= i < |s.deq| :: s.deq[i] == s.enq[i]
  {
    RunInv(run, k);
  }

  /**
   Each step is a step of a bounded queue: a successful claim by an enqueuer appends the value that it
   carries (LfRingCalls: the argument of its call) to a queue that is not full, a successful claim by a
   dequeuer removes the oldest value and returns that value, and no other step changes the queue.
   */
  lemma MoveRefinesQueue(run: Run, k: nat, s: State, s': State, t: nat)
    requires k + 1 < |run| && s == run[k] && s' == run[k + 1] && Moves(s, s', t)
    ensures 0 <= s.read <= |s.enq| && 0 <= s'.read <= |s'.enq|
    ensures match s.threads[t]
      case EnqClaim(v, w, _) =>
        if s.write == w then |Items(s)| < s.size && Items(s') == Items(s) + [v] && s'.threads[t] == EnqStore(v, w)
        else Items(s') == Items(s) && !s'.threads[t].Idle?
      case DeqClaim(r, res) =>
        if s.read == r then Items(s) == [res] + Items(s') && s'.threads[t] == Idle(res)
        else Items(s') == Items(s) && !s'.threads[t].Idle?
      case _ => Items(s') == Items(s)
  {
    RunInv(run, k);
    assert Local(s, s.threads[t]);
  }

  /** A slot is NULL exactly while one thread holds it, and no two threads hold the same slot. */
  lemma NullIffOwned(run: Run, k: nat, j: nat)
    requires k < |run| && j < run[k].size
    ensures var s := run[k];
      && |s.slots| == s.size
      && (s.slots[j] == NULL <==> exists t :: 0 <= t < |s.threads| && OwnsSlot(s, s.threads[t], j))
      && (forall t, u | 0 <= t < |s.threads| && 0 <= u < |s.threads| ::
            OwnsSlot(s, s.threads[t], j) && OwnsSlot(s, s.threads[u], j) ==> t == u)
  {
    RunInv(run, k);
    var s := run[k];
    forall t | 0 <= t < |s.threads| && OwnsSlot(s, s.threads[t], j) ensures s.slots[j] == NULL {
      assert Local(s, s.threads[t]);
    }
  }

  /** The compare-and-swap that gives a slot back after a lost race always succeeds. */
  lemma RestoreSucceeds(run: Run, k: nat, t: nat)
    requires k < |run| && t < |run[k].threads| && run[k].threads[t].EnqRestore?
    ensures Defined(run[k], run[k].threads[t])
    ensures run[k].slots[run[k].threads[t].w % run[k].size] == NULL
  {
    RunInv(run, k);
    assert Local(run[k], run[k].threads[t]);
  }

  /** The plain store fills the slot of its own index, whose previous value has been handed out. */
  lemma StoreIsSafe(run: Run, k: nat, t: nat)
    requires k < |run| && t < |run[k].threads| && run[k].threads[t].EnqStore?
    ensures Defined(run[k], run[k].threads[t])
    ensures var s, w := run[k], run[k].threads[t].w;
      s.slots[w % s.size] == NULL && w - s.size < |s.deq| && w < |s.enq| && s.enq[w] == s.threads[t].v
  {
    RunInv(run, k);
    assert Local(run[k], run[k].threads[t]);
  }

  /** Every thread inside a call can always take its next step until a pointer reaches the largest int. */
  lemma StepsAreDefined(run: Run, k: nat, t: nat)
    requires k < |run| && t < |run[k].threads|
    ensures Defined(run[k], run[k].threads[t]) <==> !(run[k].threads[t].EnqClaim? && run[k].threads[t].w == INT_MAX)
  {
    RunInv(run, k);
    assert Local(run[k], run[k].threads[t]);
  }

  /** When no thread is inside a call, the slots hold exactly the queue. */
  lemma QuietSlots(run: Run, k: nat)
    requires k < |run|
    requires forall t | 0 <= t < |run[k].threads| :: run[k].threads[t].Idle?
    ensures var s := run[k];
      && 0 <= s.read <= |s.enq| && |Items(s)| <= s.size == |s.slots|
      && forall i | 0 <= i < |Items(s)| :: s.slots[(s.read + i) % s.size] == Items(s)[i]
  {
    RunInv(run, k);
    var s := run[k];
    forall i | 0 <= i < |Items(s)| ensures s.slots[(s.read + i) % s.size] == Items(s)[i] {
      assert Recent(s, s.read + i);
    }
  }

  /**
   The answer 0 of enqueue.  A full ring always gets it; it is exact when readPointer has not moved
   since it was loaded, and otherwise it can also come for a ring that is not full.
   */
  lemma FullAnswer(run: Run, k: nat, s: State, t: nat)
    requires k < |run| && s == run[k] && t < |s.threads| && s.threads[t].EnqLoadWrite?
    ensures 0 <= s.read <= |s.enq|
    ensures |Items(s)| == s.size ==> Step(s, t).threads[t] == Idle(0)
    ensures s.threads[t].r == s.read ==> (Step(s, t).threads[t] == Idle(0) <==> |Items(s)| == s.size)
    ensures Step(s, t).threads[t] == Idle(0) <==> s.write - s.threads[t].r >= s.size
    ensures Step(s, t).threads[t] == Idle(0) <==> |Items(s)| + (s.read - s.threads[t].r) >= s.size
  {
    RunInv(run, k);
    assert Local(s, s.threads[t]);
  }

  /** NULL from the pointer test: an empty ring always gets it; exact while writePointer stays as loaded. */
  lemma EmptyAnswer(run: Run, k: nat, s: State, t: nat)
    requires k < |run| && s == run[k] && t < |s.threads| && s.threads[t].DeqLoadRead?
    ensures 0 <= s.read <= |s.enq|
    ensures Items(s) == [] ==> Step(s, t).threads[t] == Idle(NULL)
    ensures s.threads[t].w == s.write ==> (Step(s, t).threads[t] == Idle(NULL) <==> Items(s) == [])
    ensures Step(s, t).threads[t] == Idle(NULL) <==> s.read >= s.threads[t].w
  {
    RunInv(run, k);
    assert Local(s, s.threads[t]);
  }

  /** NULL from the slot test comes exactly while some enqueuer holds the slot. */
  lemma SlotAnswer(run: Run, k: nat, s: State, t: nat)
    requires k < |run| && s == run[k] && t < |s.threads| && s.threads[t].DeqLoadSlot?
    ensures s.size > 0 && Defined(s, s.threads[t])
    ensures Step(s, t).threads[t] == Idle(NULL) <==>
      exists u :: 0 <= u < |s.threads| && OwnsSlot(s, s.threads[u], s.threads[t].r % s.size)
  {
    RunInv(run, k);
    assert Local(s, s.threads[t]);
    var j := s.threads[t].r % s.size;
    forall u | 0 <= u < |s.threads| && OwnsSlot(s, s.threads[u], j) ensures s.slots[j] == NULL {
      assert Local(s, s.threads[u]);
    }
  }

  function Last(run: Run): State { run[|run| - 1] }

  /** Lets thread t take its next step at the end of a run. */
  lemma Continue(run: Run, t: nat, threads: seq<Pc>) returns (run': Run)
    requires t < |Last(run).threads| && !Last(run).threads[t].Idle? && Defined(Last(run), Last(run).threads[t])
    requires Step(Last(run), t).threads == threads
    ensures run' == run + [Step(Last(run), t)] && Moves(Last(run), Last(run'), t) && Last(run').threads == threads
  {
    var s' := Step(Last(run), t);
    assert Moves(Last(run), s', t);
    run' := run + [s'];
  }

  /** Lets thread t begin a call at the end of a run. */
  lemma Call(run: Run, t: nat, pc: Pc) returns (run': Run)
    requires t < |Last(run).threads| && Begins(Last(run), At(Last(run), t, pc), t)
    ensures run' == run + [At(Last(run), t, pc)] && Moves(Last(run), Last(run'), t)
  {
    var s' := At(Last(run), t, pc);
    assert Moves(Last(run), s', t);
    run' := run + [s'];
  }

  /** Two threads load writePointer 0 of a ring of size 1. */
  lemma TwoEnqueuers() returns (run: Run)
    ensures var s := Last(run);
      && s.size == 1 && s.read == 0 && s.write == 0 && s.slots == [FRESH] && s.enq == [] && s.deq == []
      && s.threads == [EnqLoadSlot(5, 0), EnqLoadSlot(7, 0), Idle(0)]
  {
    run := [State(1, 0, 0, [FRESH], [Idle(0), Idle(0), Idle(0)], [], [])];
    run := Call(run, 0, EnqLoadRead(5));
    run := Continue(run, 0, [EnqLoadWrite(5, 0), Idle(0), Idle(0)]);
    run := Continue(run, 0, [EnqLoadSlot(5, 0), Idle(0), Idle(0)]);
    run := Call(run, 1, EnqLoadRead(7));
    run := Continue(run, 1, [EnqLoadSlot(5, 0), EnqLoadWrite(7, 0), Idle(0)]);
    run := Continue(run, 1, [EnqLoadSlot(5, 0), EnqLoadSlot(7, 0), Idle(0)]);
  }

  /** Thread 0 stays late while thread 1 completes enqueue(7). */
  lemma LateEnqueuer() returns (run: Run)
    ensures var s := Last(run);
      && s.size == 1 && s.read == 0 && s.write == 1 && s.slots == [7] && s.enq == [7] && s.deq == []
      && s.threads == [EnqLoadSlot(5, 0), Idle(1), Idle(0)]
  {
    run := TwoEnqueuers();
    run := Continue(run, 1, [EnqLoadSlot(5, 0), EnqLockSlot(7, 0, FRESH), Idle(0)]);
    run := Continue(run, 1, [EnqLoadSlot(5, 0), EnqClaim(7, 0, FRESH), Idle(0)]);
    run := Continue(run, 1, [EnqLoadSlot(5, 0), EnqStore(7, 0), Idle(0)]);
    run := Continue(run, 1, [EnqLoadSlot(5, 0), Idle(1), Idle(0)]);
  }

  /**
   "NULL means empty" is false of concurrent calls.  At step n of this run thread 1 has already
   returned 1 from enqueue(7) and thread 2 begins dequeue; nobody else dequeues, the queue is [7]
   throughout, and thread 2 gets NULL because the late enqueuer 0 holds the slot of the 7.
   */
  lemma SpuriousEmpty() returns (run: Run, n: nat)
    ensures |run| == n + 5 && forall k | n <= k <= n + 4 :: |run[k].threads| == 3
    ensures run[n].threads[1] == Idle(1) && Moves(run[n], run[n + 1], 2)
    ensures run[n + 1].threads[2] == DeqLoadWrite && run[n + 4].threads[2] == Idle(NULL)
    ensures forall k | n <= k <= n + 4 :: run[k].read == 0 && run[k].enq == [7]
  {
    run := LateEnqueuer();
    run := Continue(run, 0, [EnqLockSlot(5, 0, 7), Idle(1), Idle(0)]);
    run := Continue(run, 0, [EnqClaim(5, 0, 7), Idle(1), Idle(0)]);
    n := |run| - 1;
    run := Call(run, 2, DeqLoadWrite);
    run := Continue(run, 2, [EnqClaim(5, 0, 7), Idle(1), DeqLoadRead(1)]);
    run := Continue(run, 2, [EnqClaim(5, 0, 7), Idle(1), DeqLoadSlot(0)]);
    run := Continue(run, 2, [EnqClaim(5, 0, 7), Idle(1), Idle(NULL)]);
  }

  /** In a ring of size n, thread 0 has loaded readPointer 0; thread 1 is outside and has dequeued i values. */
  ghost predicate Late(s: State, n: nat, i: nat) {
    && s.size == |s.slots| == n && s.read == |s.deq| == i && s.write == |s.enq| && i <= n < INT_MAX
    && NULL !in s.slots && |s.threads| == 2 && s.threads[0] == EnqLoadWrite(5, 0) && s.threads[1].Idle?
  }

  /** Thread 0 is in its call, and the ring of size n holds at most one value. */
  ghost predicate AlmostEmpty(s: State, n: nat) {
    && |s.threads| == 2 && (s.threads[0] == EnqLoadRead(5) || s.threads[0] == EnqLoadWrite(5, 0))
    && s.size == n && |s.enq| <= |s.deq| + 1
  }

  lemma LateIndex(run: Run, n: nat, i: nat) returns (run': Run)
    requires Late(Last(run), n, i) && Last(run).write == i < n
    ensures run <= run' && forall k | |run| <= k < |run'| :: AlmostEmpty(run'[k], n)
    ensures Last(run') == Last(run).(threads := [EnqLoadWrite(5, 0), EnqLoadSlot(7, i)])
  {
    hide IsRun;
    var late := EnqLoadWrite(5, 0);
    run' := Call(run, 1, EnqLoadRead(7));
    run' := Continue(run', 1, [late, EnqLoadWrite(7, i)]);
    run' := Continue(run', 1, [late, EnqLoadSlot(7, i)]);
  }

  lemma LateLock(run: Run, n: nat, i: nat) returns (run': Run)
    requires Late(Last(run), n, i) && Last(run).write == i < n
    ensures run <= run' && forall k | |run| <= k < |run'| :: AlmostEmpty(run'[k], n)
    ensures var s, was := Last(run), Last(run).slots[i];
      Last(run') == s.(threads := [EnqLoadWrite(5, 0), EnqClaim(7, i, was)], slots := s.slots[i := NULL])
  {
    hide IsRun;
    var late, was := EnqLoadWrite(5, 0), Last(run).slots[i];
    assert i % n == i;
    run' := LateIndex(run, n, i);
    run' := Continue(run', 1, [late, EnqLockSlot(7, i, was)]);
    run' := Continue(run', 1, [late, EnqClaim(7, i, was)]);
  }

  lemma LateEnqueue(run: Run, n: nat, i: nat) returns (run': Run)
    requires Late(Last(run), n, i) && Last(run).write == i < n
    ensures run <= run' && forall k | |run| <= k < |run'| :: AlmostEmpty(run'[k], n)
    ensures Late(Last(run'), n, i) && Last(run').write == i + 1
  {
    hide IsRun;
    var late, s := EnqLoadWrite(5, 0), Last(run);
    assert i % n == i;
    run' := LateLock(run, n, i);
    var claimed := Last(run').(threads := [late, EnqStore(7, i)], write := i + 1, enq := s.enq + [7]);
    run' := Continue(run', 1, [late, EnqStore(7, i)]);
    assert Last(run') == claimed;
    run' := Continue(run', 1, [late, Idle(1)]);
    assert Last(run') == claimed.(threads := [late, Idle(1)], slots := s.slots[i := 7]);
  }

  lemma LateLoad(run: Run, n: nat, i: nat) returns (run': Run)
    requires Late(Last(run), n, i) && Last(run).write == i + 1 && i < n
    ensures run <= run' && forall k | |run| <= k < |run'| :: AlmostEmpty(run'[k], n)
    ensures Last(run') == Last(run).(threads := [EnqLoadWrite(5, 0), DeqClaim(i, Last(run).slots[i])])
  {
    hide IsRun;
    var late, res := EnqLoadWrite(5, 0), Last(run).slots[i];
    assert i % n == i;
    run' := Call(run, 1, DeqLoadWrite);
    run' := Continue(run', 1, [late, DeqLoadRead(i + 1)]);
    run' := Continue(run', 1, [late, DeqLoadSlot(i)]);
    run' := Continue(run', 1, [late, DeqClaim(i, res)]);
  }

  lemma LateDequeue(run: Run, n: nat, i: nat) returns (run': Run)
    requires Late(Last(run), n, i) && Last(run).write == i + 1 && i < n
    ensures run <= run' && forall k | |run| <= k < |run'| :: AlmostEmpty(run'[k], n)
    ensures Late(Last(run'), n, i + 1) && Last(run').write == i + 1
  {
    hide IsRun;
    run' := LateLoad(run, n, i);
    run' := Continue(run', 1, [EnqLoadWrite(5, 0), Idle(Last(run).slots[i])]);
  }

  /** Thread 1 enqueues and dequeues i values, one at a time. */
  lemma {:induction false} LateRounds(n: nat, i: nat) returns (run: Run)
    requires i <= n < INT_MAX
    ensures |run| >= 3 && run[0].size == n && run[0].threads == [Idle(0), Idle(0)]
    ensures forall k | 1 <= k < |run| :: AlmostEmpty(run[k], n)
    ensures Late(Last(run), n, i) && Last(run).write == i
  {
    if i == 0 {
      run := [State(n, 0, 0, seq(n, _ => FRESH), [Idle(0), Idle(0)], [], [])];
      run := Call(run, 0, EnqLoadRead(5));
      run := Continue(run, 0, [EnqLoadWrite(5, 0), Idle(0)]);
    } else {
      hide Late, AlmostEmpty;
      var before := LateRounds(n, i - 1);
      var middle := LateEnqueue(before, n, i - 1);
      run := LateDequeue(middle, n, i - 1);
    }
  }

  /**
   "0 means full" is false of concurrent calls, for rings of every size from 2 on.  Thread 0 begins
   enqueue(5) in the first step of this run and gets 0 in the last, and at no moment between does the
   ring hold more than one value.
   */
  lemma SpuriousFull(n: nat) returns (run: Run)
    requires 2 <= n < INT_MAX
    ensures |run| > 3 && run[0].size == n && run[0].threads == [Idle(0), Idle(0)]
    ensures forall k | 1 <= k < |run| - 1 :: AlmostEmpty(run[k], n)
    ensures var s := run[|run| - 2];
      Moves(s, Last(run), 0) && |s.enq| == |s.deq| && Last(run).threads[0] == Idle(0)
  {
    run := LateRounds(n, n);
    run := Continue(run, 0, [Idle(0), Last(run).threads[1]]);
  }
}
