/**
 Whole calls of src/lfqueue.c in the runs of LfQueueMachine, with any number of other threads in between: what
 a call does to the queue and what it answers; and calls that nothing interrupts, which end unless some
 enqueuer has linked a node and not yet swung the tail.
 */
module LfQueueCalls {
  import opened Calls
  import opened LfQueueMachine
  import opened Memory

  function PcAt(run: Run, k: nat, t: nat): Pc {
    if k < |run| && t < |run[k].threads| then run[k].threads[t] else Idle(0)
  }

  function Pcs(run: Run, t: nat): seq<Pc> {
    Each(run, (s: State) => if t < |s.threads| then s.threads[t] else Idle(0))
  }

  function Enqs(run: Run): seq<seq<nat>> { Each(run, (s: State) => s.enq) }

  function Deqs(run: Run): seq<seq<nat>> { Each(run, (s: State) => s.deq) }

  /** What the steps of thread t from state j to state k appended to enq, and to deq. */
  function EnqBy(run: Run, t: nat, j: nat, k: nat): seq<nat>
    requires j <= k < |run|
  {
    AddedBy(Pcs(run, t), Enqs(run), j, k)
  }

  function DeqBy(run: Run, t: nat, j: nat, k: nat): seq<nat>
    requires j <= k < |run|
  {
    AddedBy(Pcs(run, t), Deqs(run), j, k)
  }

  predicate Outside(pc: Pc) { pc.Idle? }

  /** How far an enqueue of v has come when its thread is at pc and it has appended `added`. */
  ghost predicate EnqueueSoFar(pc: Pc, v: nat, added: seq<nat>) {
    match pc
    case Idle(ret) => ret == 0 && added == [v]
    case EnqAlloc(x) => x == v && added == []
    case EnqLoadTail(x, _) => x == v && added == []
    case EnqLink(x, _, _) => x == v && added == []
    case EnqSwing(_, _) => added == [v]
    case EnqCount => added == [v]
    case _ => false
  }

  /** How far a dequeue has come when its thread is at pc and it has taken `added`. */
  ghost predicate DequeueSoFar(pc: Pc, added: seq<nat>) {
    match pc
    case Idle(ret) => added == if ret == NULL then [] else [ret]
    case DeqLoadHead => added == []
    case DeqCheckHead(_) => added == []
    case DeqLoadNext(_) => added == []
    case DeqCheckTail(_, _) => added == []
    case DeqLoadValue(_, _) => added == []
    case DeqSwing(_, _, _) => added == []
    case DeqCount(val) => val != NULL && added == [val]
    case _ => false
  }

  lemma OthersStay(s: State, s': State, u: nat)
    requires Moves(s, s', u)
    ensures |s'.threads| == |s.threads| && forall t | 0 <= t < |s.threads| && t != u :: s'.threads[t] == s.threads[t]
  {
  }

  /** A step of the run moves thread t, or leaves it where it is. */
  lemma Turn(run: Run, k: nat, t: nat)
    requires k + 1 < |run|
    ensures PcAt(run, k + 1, t) == PcAt(run, k, t) || Moves(run[k], run[k + 1], t)
    ensures |run[k + 1].threads| == |run[k].threads|
  {
    hide Moves;
    assert Next(run[k], run[k + 1]);
    var u: nat :| Moves(run[k], run[k + 1], u);
    OthersStay(run[k], run[k + 1], u);
  }

  lemma EnqueueStep(s: State, s': State, t: nat, v: nat, added: seq<nat>)
    requires Moves(s, s', t) && !s.threads[t].Idle? && EnqueueSoFar(s.threads[t], v, added)
    ensures t < |s'.threads| && EnqueueSoFar(s'.threads[t], v, added + Added(s.enq, s'.enq))
    ensures Added(s.deq, s'.deq) == []
  {
    AddedNothing(s.enq);
    AddedOne(s.enq, v);
  }

  lemma DequeueStep(s: State, s': State, t: nat, added: seq<nat>)
    requires Moves(s, s', t) && !s.threads[t].Idle? && DequeueSoFar(s.threads[t], added)
    requires Inv(s) && Inv(s')
    ensures t < |s'.threads| && DequeueSoFar(s'.threads[t], added + Added(s.deq, s'.deq))
    ensures Added(s.enq, s'.enq) == []
  {
    hide Chain, History, Apart, Lag, Counted;
    assert Local(s', s'.threads[t]);
    AddedNothing(s.deq);
    if s.threads[t].DeqSwing? {
      AddedOne(s.deq, s.threads[t].val);
    }
  }

  lemma Entering(run: Run, t: nat, pc: Pc, j: nat)
    requires Within(Pcs(run, t), Outside, pc, j, j + 1)
    ensures EnqBy(run, t, j, j + 1) == DeqBy(run, t, j, j + 1) == []
    ensures pc.EnqAlloc? || pc.DeqLoadHead?
  {
    Turn(run, j, t);
    FirstStep(Pcs(run, t), Enqs(run), j);
    FirstStep(Pcs(run, t), Deqs(run), j);
  }

  lemma CallsStart(v: nat)
    ensures EnqueueSoFar(EnqAlloc(v), v, []) && DequeueSoFar(DeqLoadHead, [])
  {
  }

  lemma {:induction false} EnqueueWithin(run: Run, t: nat, v: nat, j: nat, k: nat)
    requires Within(Pcs(run, t), Outside, EnqAlloc(v), j, k)
    ensures EnqueueSoFar(PcAt(run, k, t), v, EnqBy(run, t, j, k)) && DeqBy(run, t, j, k) == []
  {
    hide Moves, Added, Inv, IsRun, EnqueueSoFar, AddedBy;
    if k == j + 1 {
      Entering(run, t, EnqAlloc(v), j);
      CallsStart(v);
    } else {
      EnqueueWithin(run, t, v, j, k - 1);
      OneMore(Pcs(run, t), Enqs(run), j, k);
      OneMore(Pcs(run, t), Deqs(run), j, k);
      Turn(run, k - 1, t);
      if PcAt(run, k - 1, t) != PcAt(run, k, t) {
        EnqueueStep(run[k - 1], run[k], t, v, EnqBy(run, t, j, k - 1));
      }
    }
  }

  lemma {:induction false} DequeueWithin(run: Run, t: nat, j: nat, k: nat)
    requires Within(Pcs(run, t), Outside, DeqLoadHead, j, k)
    ensures DequeueSoFar(PcAt(run, k, t), DeqBy(run, t, j, k)) && EnqBy(run, t, j, k) == []
  {
    hide Moves, Added, Inv, IsRun, DequeueSoFar, AddedBy;
    if k == j + 1 {
      Entering(run, t, DeqLoadHead, j);
      CallsStart(NULL);
    } else {
      DequeueWithin(run, t, j, k - 1);
      OneMore(Pcs(run, t), Enqs(run), j, k);
      OneMore(Pcs(run, t), Deqs(run), j, k);
      Turn(run, k - 1, t);
      if PcAt(run, k - 1, t) != PcAt(run, k, t) {
        RunInv(run, k - 1);
        RunInv(run, k);
        DequeueStep(run[k - 1], run[k], t, DeqBy(run, t, j, k - 1));
      }
    }
  }

  // ---------- whole calls ----------

  /** A call of lfqueue_enq that is over has appended its argument, once, and answers 0. */
  lemma EnqueueCall(run: Run, t: nat, v: nat, j: nat, k: nat)
    requires IsCall(Pcs(run, t), Outside, EnqAlloc(v), j, k)
    ensures PcAt(run, k, t) == Idle(0) && EnqBy(run, t, j, k) == [v] && DeqBy(run, t, j, k) == []
  {
    EnqueueWithin(run, t, v, j, k);
  }

  /** A call of lfqueue_deq answers the one value that its thread took, and NULL exactly when it took none. */
  lemma DequeueCall(run: Run, t: nat, j: nat, k: nat)
    requires IsCall(Pcs(run, t), Outside, DeqLoadHead, j, k)
    ensures DeqBy(run, t, j, k) == if PcAt(run, k, t) == Idle(NULL) then [] else [PcAt(run, k, t).ret]
    ensures EnqBy(run, t, j, k) == []
  {
    DequeueWithin(run, t, j, k);
  }

  ghost predicate EmptyAt(run: Run, k: nat) {
    k < |run| && run[k].popped <= |run[k].enq| && Items(run[k]) == []
  }

  lemma DequeuersStay(s: State, s': State, t: nat, added: seq<nat>)
    requires Moves(s, s', t) && DequeueSoFar(s.threads[t], added) && !s.threads[t].Idle?
    ensures InDequeue(s.threads[t])
  {
  }

  lemma LastStep(run: Run, t: nat, j: nat, k: nat)
    requires IsCall(Pcs(run, t), Outside, DeqLoadHead, j, k)
    ensures k - 1 > j && t < |run[k].threads| == |run[k - 1].threads|
    ensures Moves(run[k - 1], run[k], t) && InDequeue(run[k - 1].threads[t])
  {
    hide Moves, IsRun, DequeueSoFar;
    DequeueWithin(run, t, j, k - 1);
    Turn(run, k - 1, t);
    DequeuersStay(run[k - 1], run[k], t, DeqBy(run, t, j, k - 1));
  }

  /** A call of lfqueue_deq that answers NULL has a moment at which the queue was empty. */
  lemma WhyEmpty(run: Run, t: nat, j: nat, k: nat) returns (m: nat)
    requires IsCall(Pcs(run, t), Outside, DeqLoadHead, j, k) && PcAt(run, k, t) == Idle(NULL)
    ensures j < m < k && EmptyAt(run, m)
  {
    hide Moves, IsRun;
    LastStep(run, t, j, k);
    m := NullMeansEmpty(run, k - 1, t);
    assert !InDequeue(PcAt(run, j, t));
  }

  // ---------- calls that nothing interrupts ----------

  /** Consecutive states of the machine in which only thread t moves. */
  ghost predicate IsSolo(trace: seq<State>, t: nat) {
    && trace != [] && t < |trace[|trace| - 1].threads|
    && forall j, k | 0 <= j < k < |trace| && k == j + 1 :: Moves(trace[j], trace[k], t)
  }

  function End(trace: seq<State>): State
    requires trace != []
  {
    trace[|trace| - 1]
  }

  /** Lets thread t take its next step. */
  lemma Extend(trace: seq<State>, t: nat) returns (longer: seq<State>)
    requires IsSolo(trace, t) && !End(trace).threads[t].Idle? && Defined(End(trace), End(trace).threads[t])
    ensures longer == trace + [Step(End(trace), t)] && IsSolo(longer, t)
  {
    longer := trace + [Step(End(trace), t)];
  }

  /** Some enqueuer has linked a node and not yet swung the tail to it. */
  ghost predicate Lagging(s: State) {
    exists u :: 0 <= u < |s.threads| && s.threads[u].EnqSwing?
  }

  lemma TailIsLast(s: State)
    requires Inv(s)
    ensures |s.value| == |s.next| && s.tail < |s.next| && s.head < |s.next|
    ensures s.next[s.tail] == Nil <==> !Lagging(s)
    ensures s.head == s.tail <==> s.popped == s.swung
  {
    forall u | 0 <= u < |s.threads| && s.threads[u].EnqSwing? ensures |s.linked| == s.swung + 2 {
      assert Local(s, s.threads[u]);
    }
    if |s.linked| == s.swung + 2 {
      assert s.next[s.linked[s.swung]] == To(s.linked[s.swung + 1]);
    }
  }

  /** The oldest value, in the node after head. */
  lemma OldestIsNext(s: State)
    requires Inv(s) && s.popped < s.swung
    ensures s.head < |s.next| && s.next[s.head].To? && s.head != s.tail && s.popped < |s.enq|
    ensures var n := s.next[s.head].node; n < |s.value| && s.value[n] == s.enq[s.popped] != NULL
  {
    assert s.next[s.linked[s.popped]] == To(s.linked[s.popped + 1]);
    assert s.enq[s.popped + 1 - 1] == s.value[s.linked[s.popped + 1]];
  }

  /** An uninterrupted lfqueue_enq appends the value, unless the tail lags; then it would wait for the other. */
  lemma SoloEnqueue(s: State, t: nat, v: nat) returns (trace: seq<State>)
    requires Inv(s) && t < |s.threads| && s.threads[t].Idle? && v != NULL && !Lagging(s)
    ensures IsSolo(trace, t) && trace != [] && trace[0] == s && s.tail < |s.next|
    ensures var n := |s.next|;
      End(trace) == At(s, t, Idle(0)).(
        tail := n, size := (s.size + 1) % WORD, value := s.value + [v], next := s.next[s.tail := To(n)] + [Nil],
        linked := s.linked + [n], swung := s.swung + 1, enq := s.enq + [v])
  {
    TailIsLast(s);
    hide Inv, Lagging, IsSolo;
    var first := At(s, t, EnqAlloc(v));
    assert Moves(s, first, t);
    trace := [s, first];
    assert IsSolo(trace, t) by { SoloStart(s, first, t); }
    trace := Extend(trace, t);
    trace := Extend(trace, t);
    trace := Extend(trace, t);
    trace := Extend(trace, t);
    trace := Extend(trace, t);
  }

  lemma SoloStart(s: State, s': State, t: nat)
    requires Moves(s, s', t)
    ensures IsSolo([s, s'], t)
  {
  }

  /** The first half of an uninterrupted lfqueue_deq: head and its link are loaded. */
  lemma SoloLoads(s: State, t: nat) returns (trace: seq<State>)
    requires t < |s.threads| && s.threads[t].Idle? && s.head < |s.next|
    ensures IsSolo(trace, t) && trace != [] && trace[0] == s
    ensures End(trace) == At(s, t, DeqCheckTail(s.head, s.next[s.head]))
  {
    hide IsSolo;
    SoloStart(s, At(s, t, DeqLoadHead), t);
    trace := [s, At(s, t, DeqLoadHead)];
    trace := Extend(trace, t);
    trace := Extend(trace, t);
    trace := Extend(trace, t);
  }

  /**
   An uninterrupted lfqueue_deq takes the oldest value, or answers NULL for an empty queue, unless the tail lags
   at head.
   */
  lemma SoloDequeue(s: State, t: nat) returns (trace: seq<State>)
    requires Inv(s) && t < |s.threads| && s.threads[t].Idle? && !(Lagging(s) && s.head == s.tail)
    ensures IsSolo(trace, t) && trace != [] && trace[0] == s && s.popped <= |s.enq| && s.head < |s.next|
    ensures End(trace) ==
      if Items(s) == [] then At(s, t, Idle(NULL))
      else At(s, t, Idle(Items(s)[0])).(
        head := End(trace).head, size := (s.size + WORD - 1) % WORD, popped := s.popped + 1,
        deq := s.deq + [Items(s)[0]])
    ensures Items(s) != [] ==> s.next[s.head] == To(End(trace).head)
  {
    TailIsLast(s);
    trace := SoloLoads(s, t);
    if s.popped < s.swung {
      OldestIsNext(s);
      hide Inv, Lagging, IsSolo;
      trace := Extend(trace, t);
      trace := Extend(trace, t);
      trace := Extend(trace, t);
      trace := Extend(trace, t);
    } else {
      hide Lagging, IsSolo;
      trace := Extend(trace, t);
    }
  }

  /** While the tail lags, an enqueuer on its own comes round to the same state again. */
  lemma EnqueueWaits(s: State, t: nat, v: nat, n: nat)
    requires Inv(s) && t < |s.threads| && s.threads[t] == EnqLoadTail(v, n) && Lagging(s)
    ensures exists loaded :: Moves(s, loaded, t) && Moves(loaded, s, t)
  {
    TailIsLast(s);
    var loaded := At(s, t, EnqLink(v, n, s.tail));
    assert At(loaded, t, EnqLoadTail(v, n)) == s;
    assert Moves(s, loaded, t) && Moves(loaded, s, t);
  }

  /** While the tail lags at head, so does a dequeuer. */
  lemma DequeueWaits(s: State, t: nat)
    requires Inv(s) && t < |s.threads| && s.threads[t] == DeqLoadHead && Lagging(s) && s.head == s.tail
    ensures exists trace :: IsSolo(trace, t) && |trace| == 5 && trace[0] == trace[4] == s
  {
    TailIsLast(s);
    var s1 := Step(s, t);
    var s2 := Step(s1, t);
    var s3 := Step(s2, t);
    assert Step(s3, t).threads == s.threads;
    assert Step(s3, t) == s;
    var trace := [s, s1, s2, s3, s];
    assert IsSolo(trace, t) && trace[0] == trace[4];
  }
}
