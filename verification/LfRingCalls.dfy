/**
 Whole calls of src/lfringbuffer.c in the runs of LfRingMachine, with any number of other threads in
 between: what a call does to the queue, what it answers, and why.
 */
module LfRingCalls {
  import opened Calls
  import opened LfRingMachine
  import opened Memory

  function PcAt(run: Run, k: nat, t: nat): Pc {
    if k < |run| && t < |run[k].threads| then run[k].threads[t] else Idle(0)
  }

  function ReadAt(run: Run, k: nat): int { if k < |run| then run[k].read else 0 }

  function WriteAt(run: Run, k: nat): int { if k < |run| then run[k].write else 0 }

  function Pcs(run: Run, t: nat): seq<Pc> {
    Each(run, (s: State) => if t < |s.threads| then s.threads[t] else Idle(0))
  }

  function Enqs(run: Run): seq<seq<nat>> { Each(run, (s: State) => s.enq) }

  function Deqs(run: Run): seq<seq<nat>> { Each(run, (s: State) => s.deq) }

  /** What the steps of thread t from state j to state k appended to enq, and to deq. */
  function EnqBy(run: Run, t: nat, j: nat, k: nat): seq<nat>
    requires j <= k < |run|
  {
    AddedBy(Pcs(run, t), Enqs(run), j, k)
  }

  function DeqBy(run: Run, t: nat, j: nat, k: nat): seq<nat>
    requires j <= k < |run|
  {
    AddedBy(Pcs(run, t), Deqs(run), j, k)
  }

  predicate Outside(pc: Pc) { pc.Idle? }

  /** Within a call readPointer, or writePointer, had this value. */
  ghost predicate SawRead(run: Run, j: nat, k: nat, r: int) {
    exists m :: j < m < k && ReadAt(run, m) == r
  }

  ghost predicate SawWrite(run: Run, j: nat, k: nat, w: int) {
    exists m :: j < m < k && WriteAt(run, m) == w
  }

  /** How far an enqueue of v has come when its thread is at pc and it has appended `added`. */
  ghost predicate EnqueueSoFar(pc: Pc, v: nat, added: seq<nat>) {
    match pc
    case Idle(ret) => (ret == 0 && added == []) || (ret == 1 && added == [v])
    case EnqLoadRead(x) => x == v && added == []
    case EnqLoadWrite(x, _) => x == v && added == []
    case EnqLoadSlot(x, _) => x == v && added == []
    case EnqLockSlot(x, _, _) => x == v && added == []
    case EnqClaim(x, _, _) => x == v && added == []
    case EnqRestore(x, _, _) => x == v && added == []
    case EnqStore(x, _) => x == v && added == [v]
    case _ => false
  }

  /** How far a dequeue has come when its thread is at pc and it has taken `added`. */
  ghost predicate DequeueSoFar(pc: Pc, added: seq<nat>) {
    match pc
    case Idle(ret) => added == if ret == NULL then [] else [ret]
    case DeqLoadWrite => added == []
    case DeqLoadRead(_) => added == []
    case DeqLoadSlot(_) => added == []
    case DeqClaim(_, res) => res != NULL && added == []
    case _ => false
  }

  lemma OthersStay(s: State, s': State, u: nat)
    requires Moves(s, s', u)
    ensures |s'.threads| == |s.threads| && forall t | 0 <= t < |s.threads| && t != u :: s'.threads[t] == s.threads[t]
  {
  }

  /** A step of the run moves thread t, or leaves it where it is. */
  lemma Turn(run: Run, k: nat, t: nat)
    requires k + 1 < |run|
    ensures PcAt(run, k + 1, t) == PcAt(run, k, t) || Moves(run[k], run[k + 1], t)
    ensures |run[k + 1].threads| == |run[k].threads|
  {
    hide Moves;
    assert Next(run[k], run[k + 1]);
    var u: nat :| Moves(run[k], run[k + 1], u);
    OthersStay(run[k], run[k + 1], u);
  }

  lemma EnqueueStep(s: State, s': State, t: nat, v: nat, added: seq<nat>)
    requires Moves(s, s', t) && !s.threads[t].Idle? && EnqueueSoFar(s.threads[t], v, added)
    ensures t < |s'.threads| && EnqueueSoFar(s'.threads[t], v, added + Added(s.enq, s'.enq))
    ensures Added(s.deq, s'.deq) == []
  {
    AddedNothing(s.enq);
    AddedOne(s.enq, v);
  }

  lemma DequeueStep(s: State, s': State, t: nat, added: seq<nat>)
    requires Inv(s) && Moves(s, s', t) && !s.threads[t].Idle? && DequeueSoFar(s.threads[t], added)
    ensures t < |s'.threads| && DequeueSoFar(s'.threads[t], added + Added(s.deq, s'.deq))
    ensures Added(s.enq, s'.enq) == []
  {
    assert Local(s, s.threads[t]);
    AddedNothing(s.deq);
    if s.threads[t].DeqClaim? {
      AddedOne(s.deq, s.threads[t].res);
    }
  }

  lemma Entering(run: Run, t: nat, pc: Pc, j: nat)
    requires Within(Pcs(run, t), Outside, pc, j, j + 1)
    ensures EnqBy(run, t, j, j + 1) == DeqBy(run, t, j, j + 1) == []
    ensures pc.EnqLoadRead? || pc.DeqLoadWrite?
  {
    Turn(run, j, t);
    FirstStep(Pcs(run, t), Enqs(run), j);
    FirstStep(Pcs(run, t), Deqs(run), j);
  }

  lemma {:induction false} EnqueueWithin(run: Run, t: nat, v: nat, j: nat, k: nat)
    requires Within(Pcs(run, t), Outside, EnqLoadRead(v), j, k)
    ensures EnqueueSoFar(PcAt(run, k, t), v, EnqBy(run, t, j, k)) && DeqBy(run, t, j, k) == []
  {
    hide Moves, Added, Inv, IsRun, EnqueueSoFar, AddedBy;
    if k == j + 1 {
      Entering(run, t, EnqLoadRead(v), j);
      CallsStart(v);
    } else {
      EnqueueWithin(run, t, v, j, k - 1);
      OneMore(Pcs(run, t), Enqs(run), j, k);
      OneMore(Pcs(run, t), Deqs(run), j, k);
      Turn(run, k - 1, t);
      if PcAt(run, k - 1, t) != PcAt(run, k, t) {
        EnqueueStep(run[k - 1], run[k], t, v, EnqBy(run, t, j, k - 1));
      }
    }
  }

  lemma CallsStart(v: nat)
    ensures EnqueueSoFar(EnqLoadRead(v), v, []) && DequeueSoFar(DeqLoadWrite, [])
  {
  }

  lemma {:induction false} DequeueWithin(run: Run, t: nat, j: nat, k: nat)
    requires Within(Pcs(run, t), Outside, DeqLoadWrite, j, k)
    ensures DequeueSoFar(PcAt(run, k, t), DeqBy(run, t, j, k)) && EnqBy(run, t, j, k) == []
  {
    hide Moves, Added, Inv, IsRun, DequeueSoFar, AddedBy;
    if k == j + 1 {
      Entering(run, t, DeqLoadWrite, j);
      CallsStart(NULL);
    } else {
      DequeueWithin(run, t, j, k - 1);
      OneMore(Pcs(run, t), Enqs(run), j, k);
      OneMore(Pcs(run, t), Deqs(run), j, k);
      Turn(run, k - 1, t);
      if PcAt(run, k - 1, t) != PcAt(run, k, t) {
        RunInv(run, k - 1);
        DequeueStep(run[k - 1], run[k], t, DeqBy(run, t, j, k - 1));
      }
    }
  }

  // ---------- the pointers that a call goes by ----------

  /** What a thread remembers of the pointers was loaded in this call. */
  ghost predicate Fresh(run: Run, j: nat, k: nat, pc: Pc) {
    match pc
    case EnqLoadWrite(_, r) => SawRead(run, j, k, r)
    case EnqLoadSlot(_, w) => SawWrite(run, j, k, w)
    case EnqLockSlot(_, w, _) => SawWrite(run, j, k, w)
    case EnqClaim(_, w, _) => SawWrite(run, j, k, w)
    case EnqStore(_, w) => SawWrite(run, j, k, w)
    case EnqRestore(_, w, _) => SawWrite(run, j, k, w)
    case DeqLoadRead(w) => SawWrite(run, j, k, w)
    case DeqLoadSlot(r) => SawRead(run, j, k, r)
    case DeqClaim(r, _) => SawRead(run, j, k, r)
    case _ => true
  }

  lemma Later(run: Run, j: nat, k: nat, pc: Pc)
    requires j < k && Fresh(run, j, k - 1, pc)
    ensures Fresh(run, j, k, pc)
  {
  }

  lemma FreshStep(run: Run, t: nat, j: nat, k: nat)
    requires j < k && k + 1 < |run| && Moves(run[k], run[k + 1], t) && !PcAt(run, k, t).Idle?
    requires Fresh(run, j, k, PcAt(run, k, t))
    ensures Fresh(run, j, k + 1, PcAt(run, k + 1, t))
  {
    assert ReadAt(run, k) == run[k].read && WriteAt(run, k) == run[k].write;
    var pc, pc' := PcAt(run, k, t), PcAt(run, k + 1, t);
    Later(run, j, k + 1, pc);
    assert Defined(run[k], pc) && run[k + 1] == Step(run[k], t);
  }

  /** In every state of a call the pointers that its thread goes by were loaded in this call. */
  lemma {:induction false} FreshLoads(run: Run, t: nat, pc: Pc, j: nat, k: nat)
    requires Within(Pcs(run, t), Outside, pc, j, k)
    ensures Fresh(run, j, k, PcAt(run, k, t))
  {
    hide Moves, IsRun;
    if k == j + 1 {
      Entering(run, t, pc, j);
    } else {
      FreshLoads(run, t, pc, j, k - 1);
      Turn(run, k - 1, t);
      Later(run, j, k, PcAt(run, k - 1, t));
      if PcAt(run, k - 1, t) != PcAt(run, k, t) {
        FreshStep(run, t, j, k - 1);
      }
    }
  }

  // ---------- whole calls ----------

  /**
   A call of enqueue answers 1 exactly when its thread appended its argument, and then once, and otherwise 0
   without appending anything.
   */
  lemma EnqueueCall(run: Run, t: nat, v: nat, j: nat, k: nat)
    requires IsCall(Pcs(run, t), Outside, EnqLoadRead(v), j, k)
    ensures PcAt(run, k, t) == Idle(0) || PcAt(run, k, t) == Idle(1)
    ensures EnqBy(run, t, j, k) == if PcAt(run, k, t) == Idle(1) then [v] else []
    ensures DeqBy(run, t, j, k) == []
  {
    EnqueueWithin(run, t, v, j, k);
  }

  /** A call of dequeue answers the one value that its thread took, and NULL exactly when it took none. */
  lemma DequeueCall(run: Run, t: nat, j: nat, k: nat)
    requires IsCall(Pcs(run, t), Outside, DeqLoadWrite, j, k)
    ensures DeqBy(run, t, j, k) == if PcAt(run, k, t) == Idle(NULL) then [] else [PcAt(run, k, t).ret]
    ensures EnqBy(run, t, j, k) == []
  {
    DequeueWithin(run, t, j, k);
  }

  /** How a call ends. */
  lemma LastStep(run: Run, t: nat, pc: Pc, j: nat, k: nat)
    requires IsCall(Pcs(run, t), Outside, pc, j, k)
    ensures k - 1 > j && Moves(run[k - 1], run[k], t) && !PcAt(run, k - 1, t).Idle?
    ensures |run[k].threads| == |run[k - 1].threads|
    ensures Fresh(run, j, k - 1, PcAt(run, k - 1, t)) && Inv(run[k - 1])
  {
    hide Moves, IsRun, Inv, Fresh;
    Turn(run, k - 1, t);
    FreshLoads(run, t, pc, j, k - 1);
    RunInv(run, k - 1);
  }

  lemma AnswersZero(s: State, s': State, t: nat, v: nat, added: seq<nat>)
    requires Inv(s) && Moves(s, s', t) && EnqueueSoFar(s.threads[t], v, added) && !s.threads[t].Idle?
    requires s'.threads[t] == Idle(0)
    ensures s.threads[t].EnqLoadWrite? && s.write - s.threads[t].r >= s.size
  {
    assert Local(s, s.threads[t]);
  }

  lemma AnswersNull(s: State, s': State, t: nat, added: seq<nat>)
    requires Inv(s) && Moves(s, s', t) && DequeueSoFar(s.threads[t], added) && !s.threads[t].Idle?
    requires s'.threads[t] == Idle(NULL)
    ensures s.threads[t].DeqLoadRead? || s.threads[t].DeqLoadSlot?
    ensures s.threads[t].DeqLoadRead? ==> s.read >= s.threads[t].w
    ensures s.threads[t].DeqLoadSlot? ==> HeldSlot(s, s.threads[t].r)
  {
    assert Local(s, s.threads[t]);
  }

  /** An enqueuer holds the slot of index r. */
  ghost predicate HeldSlot(s: State, r: int) {
    s.size > 0 && exists u :: 0 <= u < |s.threads| && OwnsSlot(s, s.threads[u], r % s.size)
  }

  /**
   An enqueue that answers 0 loaded a readPointer during the call that the last writePointer was ahead of by
   the size: the values ever put in, less those taken out at that moment, fill the ring.
   */
  lemma WhyFull(run: Run, t: nat, v: nat, j: nat, k: nat)
    requires IsCall(Pcs(run, t), Outside, EnqLoadRead(v), j, k) && PcAt(run, k, t) == Idle(0)
    ensures PcAt(run, k - 1, t).EnqLoadWrite? && SawRead(run, j, k - 1, PcAt(run, k - 1, t).r)
    ensures WriteAt(run, k - 1) - PcAt(run, k - 1, t).r >= run[k - 1].size
  {
    hide Moves, IsRun, Inv, EnqueueSoFar;
    LastStep(run, t, EnqLoadRead(v), j, k);
    EnqueueWithin(run, t, v, j, k - 1);
    AnswersZero(run[k - 1], run[k], t, v, EnqBy(run, t, j, k - 1));
  }

  /**
   A dequeue that answers NULL loaded a writePointer during the call that readPointer had reached, or a
   readPointer whose slot an enqueuer held.
   */
  lemma WhyEmpty(run: Run, t: nat, j: nat, k: nat)
    requires IsCall(Pcs(run, t), Outside, DeqLoadWrite, j, k) && PcAt(run, k, t) == Idle(NULL)
    ensures match PcAt(run, k - 1, t)
      case DeqLoadRead(w) => SawWrite(run, j, k - 1, w) && ReadAt(run, k - 1) >= w
      case DeqLoadSlot(r) => SawRead(run, j, k - 1, r) && HeldSlot(run[k - 1], r)
      case _ => false
  {
    hide Moves, IsRun, Inv, DequeueSoFar, HeldSlot;
    LastStep(run, t, DeqLoadWrite, j, k);
    DequeueWithin(run, t, j, k - 1);
    AnswersNull(run[k - 1], run[k], t, DeqBy(run, t, j, k - 1));
  }
}
