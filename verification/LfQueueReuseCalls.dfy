/**
 Whole calls of src/lfqueue.c in the runs of LfQueueReuse: what a producer's call and a consumer's call do to
 their queue and what they answer, with all other producers and consumers in between; and calls that nothing
 interrupts.
 */
module LfQueueReuseCalls {
  import opened Calls
  import opened LfQueueReuse
  import opened Memory

  function ProducerAt(run: Run, k: nat, q: nat): Producer {
    if k < |run| && q < |run[k].queues| then run[k].queues[q].producer else PutIdle
  }

  function ConsumerAt(run: Run, k: nat, q: nat): Consumer {
    if k < |run| && q < |run[k].queues| then run[k].queues[q].consumer else GetIdle(NULL)
  }

  function EnqAt(run: Run, k: nat, q: nat): seq<nat> {
    if k < |run| && q < |run[k].queues| then run[k].queues[q].enq else []
  }

  function DeqAt(run: Run, k: nat, q: nat): seq<nat> {
    if k < |run| && q < |run[k].queues| then run[k].queues[q].deq else []
  }

  function Producers(run: Run, q: nat): seq<Producer> {
    Each(run, (s: State) => if q < |s.queues| then s.queues[q].producer else PutIdle)
  }

  function Consumers(run: Run, q: nat): seq<Consumer> {
    Each(run, (s: State) => if q < |s.queues| then s.queues[q].consumer else GetIdle(NULL))
  }

  predicate NotPutting(p: Producer) { p.PutIdle? }

  predicate NotGetting(c: Consumer) { c.GetIdle? }

  /** How far the producer's call with v has come when it is at p and enq, which was `before`, is `now`. */
  ghost predicate PutSoFar(p: Producer, v: nat, before: seq<nat>, now: seq<nat>) {
    match p
    case PutIdle => now == before + [v]
    case PutAlloc(x) => x == v && now == before
    case PutValue(x, _) => x == v && now == before
    case PutNext(x, _) => x == v && now == before
    case PutLoadTail(x, _) => x == v && now == before
    case PutLink(x, _, _) => x == v && now == before
    case PutSwing(_, _) => now == before + [v]
    case PutCount => now == before + [v]
  }

  /** How far the consumer's call has come when it is at c and deq, which was `before`, is `now`. */
  ghost predicate GetSoFar(c: Consumer, before: seq<nat>, now: seq<nat>) {
    match c
    case GetIdle(ret) => if ret == NULL then now == before else now == before + [ret]
    case GetFree(_, val) => val != NULL && now == before + [val]
    case GetCount(val) => val != NULL && now == before + [val]
    case _ => now == before
  }

  lemma PutStep(s: State, s': State, q: nat, v: nat, before: seq<nat>)
    requires q < |s.queues| && ProducerMoves(s, s', q) && !s.queues[q].producer.PutIdle?
    requires PutSoFar(s.queues[q].producer, v, before, s.queues[q].enq)
    ensures q < |s'.queues| && PutSoFar(s'.queues[q].producer, v, before, s'.queues[q].enq)
  {
  }

  lemma GetStep(s: State, s': State, q: nat, before: seq<nat>)
    requires Inv(s') && q < |s.queues| && ConsumerMoves(s, s', q) && !s.queues[q].consumer.GetIdle?
    requires GetSoFar(s.queues[q].consumer, before, s.queues[q].deq)
    ensures q < |s'.queues| && GetSoFar(s'.queues[q].consumer, before, s'.queues[q].deq)
  {
    hide Lies, Chain, History, ProducerOk, Counted;
    assert q < |s'.queues| && QueueOk(s', s'.queues[q]);
  }

  lemma GetStarted(s: State, s': State, q: nat)
    requires q < |s.queues| && ConsumerMoves(s, s', q) && s.queues[q].consumer.GetIdle?
    ensures q < |s'.queues| && s'.queues[q].deq == s.queues[q].deq
  {
  }

  lemma PutStarted(s: State, s': State, q: nat)
    requires q < |s.queues| && ProducerMoves(s, s', q) && s.queues[q].producer.PutIdle?
    ensures q < |s'.queues| && s'.queues[q].enq == s.queues[q].enq
  {
  }

  ghost predicate ProducerKept(s: State, s': State, q: nat)
    requires q < |s.queues| == |s'.queues|
  {
    s'.queues[q].producer == s.queues[q].producer && s'.queues[q].enq == s.queues[q].enq
  }

  ghost predicate ConsumerKept(s: State, s': State, q: nat)
    requires q < |s.queues| == |s'.queues|
  {
    s'.queues[q].consumer == s.queues[q].consumer && s'.queues[q].deq == s.queues[q].deq
  }

  /** The other side of the queue, and every other queue, leaves what a call goes by. */
  lemma OneSideMoves(s: State, s': State, p: nat, q: nat)
    requires Moves(s, s', p)
    ensures |s'.queues| == |s.queues|
    ensures q < |s.queues| ==> ProducerKept(s, s', q) || (q == p && ProducerMoves(s, s', q))
    ensures q < |s.queues| ==> ConsumerKept(s, s', q) || (q == p && ConsumerMoves(s, s', q))
  {
  }

  /** A step of the run moves the producer of q, or leaves it and its history as they are. */
  lemma ProducerTurn(run: Run, k: nat, q: nat)
    requires k + 1 < |run|
    ensures |run[k + 1].queues| == |run[k].queues|
    ensures (ProducerAt(run, k + 1, q) == ProducerAt(run, k, q) && EnqAt(run, k + 1, q) == EnqAt(run, k, q))
      || (q < |run[k].queues| && ProducerMoves(run[k], run[k + 1], q))
  {
    hide Moves, ProducerMoves;
    assert Next(run[k], run[k + 1]);
    var p: nat :| Moves(run[k], run[k + 1], p);
    OneSideMoves(run[k], run[k + 1], p, q);
  }

  lemma ConsumerTurn(run: Run, k: nat, q: nat)
    requires k + 1 < |run|
    ensures |run[k + 1].queues| == |run[k].queues|
    ensures (ConsumerAt(run, k + 1, q) == ConsumerAt(run, k, q) && DeqAt(run, k + 1, q) == DeqAt(run, k, q))
      || (q < |run[k].queues| && ConsumerMoves(run[k], run[k + 1], q))
  {
    hide Moves, ConsumerMoves;
    assert Next(run[k], run[k + 1]);
    var p: nat :| Moves(run[k], run[k + 1], p);
    OneSideMoves(run[k], run[k + 1], p, q);
  }

  lemma {:induction false} PutWithin(run: Run, q: nat, v: nat, j: nat, k: nat)
    requires Within(Producers(run, q), NotPutting, PutAlloc(v), j, k)
    ensures PutSoFar(ProducerAt(run, k, q), v, EnqAt(run, j, q), EnqAt(run, k, q))
  {
    hide ProducerMoves, IsRun;
    ProducerTurn(run, k - 1, q);
    if k == j + 1 {
      if q < |run[j].queues| && ProducerMoves(run[j], run[k], q) {
        PutStarted(run[j], run[k], q);
      }
    } else {
      PutWithin(run, q, v, j, k - 1);
      if q < |run[k - 1].queues| && ProducerMoves(run[k - 1], run[k], q) {
        PutStep(run[k - 1], run[k], q, v, EnqAt(run, j, q));
      }
    }
  }

  lemma {:induction false} GetWithin(run: Run, q: nat, j: nat, k: nat)
    requires Within(Consumers(run, q), NotGetting, GetLoadHead, j, k)
    ensures GetSoFar(ConsumerAt(run, k, q), DeqAt(run, j, q), DeqAt(run, k, q))
  {
    hide ConsumerMoves, IsRun, Inv;
    ConsumerTurn(run, k - 1, q);
    if k == j + 1 {
      if q < |run[j].queues| && ConsumerMoves(run[j], run[k], q) {
        GetStarted(run[j], run[k], q);
      }
    } else {
      GetWithin(run, q, j, k - 1);
      if q < |run[k - 1].queues| && ConsumerMoves(run[k - 1], run[k], q) {
        RunInv(run, k);
        GetStep(run[k - 1], run[k], q, DeqAt(run, j, q));
      }
    }
  }

  // ---------- whole calls ----------

  /** A call of the producer that is over has put its argument into the queue, and nothing else. */
  lemma PutCall(run: Run, q: nat, v: nat, j: nat, k: nat)
    requires IsCall(Producers(run, q), NotPutting, PutAlloc(v), j, k)
    ensures EnqAt(run, k, q) == EnqAt(run, j, q) + [v]
  {
    PutWithin(run, q, v, j, k);
  }

  /** A call of the consumer answers the one value that it took, and NULL exactly when it took none. */
  lemma GetCall(run: Run, q: nat, j: nat, k: nat)
    requires IsCall(Consumers(run, q), NotGetting, GetLoadHead, j, k)
    ensures var ret := ConsumerAt(run, k, q).ret;
      DeqAt(run, k, q) == DeqAt(run, j, q) + if ret == NULL then [] else [ret]
  {
    GetWithin(run, q, j, k);
  }

  lemma AnswersNull(s: State, s': State, q: nat, before: seq<nat>)
    requires q < |s.queues| && ConsumerMoves(s, s', q) && GetSoFar(s.queues[q].consumer, before, s.queues[q].deq)
    requires !s.queues[q].consumer.GetIdle? && s'.queues[q].consumer == GetIdle(NULL)
    ensures ReadNull(s, q)
  {
  }

  /** A call of the consumer that answers NULL has a moment at which the queue was empty. */
  lemma WhyEmpty(run: Run, q: nat, j: nat, k: nat) returns (m: nat)
    requires IsCall(Consumers(run, q), NotGetting, GetLoadHead, j, k) && ConsumerAt(run, k, q) == GetIdle(NULL)
    ensures j < m < k && |EnqAt(run, m, q)| == |DeqAt(run, m, q)|
  {
    hide ConsumerMoves, IsRun;
    GetWithin(run, q, j, k - 1);
    ConsumerTurn(run, k - 1, q);
    AnswersNull(run[k - 1], run[k], q, DeqAt(run, j, q));
    m := NullMeansEmpty(run, k - 1, q);
    assert !ReadNull(run[j], q) && !ConsumerAt(run, j, q).GetLoadNext?;
  }

  // ---------- calls that nothing interrupts ----------

  /** Consecutive states in which only the producer of q moves; and only its consumer. */
  ghost predicate OnlyPuts(trace: seq<State>, q: nat) {
    && trace != [] && (forall k | 0 <= k < |trace| :: q < |trace[k].queues|)
    && forall j, k | 0 <= j < k < |trace| && k == j + 1 :: ProducerMoves(trace[j], trace[k], q)
  }

  ghost predicate OnlyGets(trace: seq<State>, q: nat) {
    && trace != [] && (forall k | 0 <= k < |trace| :: q < |trace[k].queues|)
    && forall j, k | 0 <= j < k < |trace| && k == j + 1 :: ConsumerMoves(trace[j], trace[k], q)
  }

  function End(trace: seq<State>): State
    requires trace != []
  {
    trace[|trace| - 1]
  }

  lemma PutsOn(trace: seq<State>, q: nat, s: State) returns (longer: seq<State>)
    requires OnlyPuts(trace, q) && ProducerMoves(End(trace), s, q) && |s.queues| == |End(trace).queues|
    ensures longer == trace + [s] && OnlyPuts(longer, q)
  {
    longer := trace + [s];
  }

  lemma GetsOn(trace: seq<State>, q: nat, s: State) returns (longer: seq<State>)
    requires OnlyGets(trace, q) && ConsumerMoves(End(trace), s, q) && |s.queues| == |End(trace).queues|
    ensures longer == trace + [s] && OnlyGets(longer, q)
  {
    longer := trace + [s];
  }

  /** The node that a producer is about to link. */
  lemma SoloNode(s: State, q: nat, v: nat, n: nat) returns (trace: seq<State>)
    requires q < |s.queues| && s.queues[q].producer.PutIdle? && v != NULL && n in s.pool
    requires n < |s.loc| == |s.value| == |s.next|
    ensures OnlyPuts(trace, q) && trace != [] && trace[0] == s
    ensures End(trace) == Put(s, q, PutLink(v, n, s.queues[q].tail)).(
      pool := s.pool - {n}, loc := s.loc[n := ProducerHand(q)], value := s.value[n := v], next := s.next[n := Nil])
  {
    hide OnlyPuts;
    SoloStarts(s, q);
    trace := PutsOn([s], q, Put(s, q, PutAlloc(v)));
    var s1 := Put(s, q, PutValue(v, n)).(pool := s.pool - {n}, loc := s.loc[n := ProducerHand(q)]);
    trace := PutsOn(trace, q, s1);
    var s2 := Put(s1, q, PutNext(v, n)).(value := s.value[n := v]);
    trace := PutsOn(trace, q, s2);
    var s3 := Put(s2, q, PutLoadTail(v, n)).(next := s.next[n := Nil]);
    trace := PutsOn(trace, q, s3);
    trace := PutsOn(trace, q, Put(s3, q, PutLink(v, n, s.queues[q].tail)));
  }

  /** An uninterrupted call of the producer puts its argument into the queue, in a node of the pool. */
  lemma SoloPut(s: State, q: nat, v: nat, n: nat) returns (trace: seq<State>)
    requires Inv(s) && q < |s.queues| && s.queues[q].producer.PutIdle? && v != NULL && n in s.pool
    ensures OnlyPuts(trace, q) && trace != [] && trace[0] == s
    ensures n < |s.loc| == |s.value| == |s.next| && s.queues[q].tail < |s.next|
    ensures var queue := s.queues[q];
      End(trace) == s.(
        queues := s.queues[q := queue.(tail := n, size := (queue.size + 1) % WORD, list := queue.list + [n],
                                       enq := queue.enq + [v])],
        pool := s.pool - {n}, loc := s.loc[n := InList(q)], value := s.value[n := v],
        next := s.next[n := Nil][queue.tail := To(n)])
  {
    PoolNode(s, q, n);
    hide Inv, OnlyPuts;
    var tl := s.queues[q].tail;
    trace := SoloNode(s, q, v, n);
    var queue := End(trace).queues[q];
    var linked := queue.(producer := PutSwing(n, tl), list := queue.list + [n], enq := queue.enq + [v]);
    var s1 := End(trace).(queues := s.queues[q := linked], next := s.next[n := Nil][tl := To(n)],
                          loc := s.loc[n := InList(q)]);
    trace := PutsOn(trace, q, s1);
    var s2 := s1.(queues := s.queues[q := linked.(producer := PutCount, tail := n)]);
    trace := PutsOn(trace, q, s2);
    var counted := s2.queues[q].(producer := PutIdle, size := (queue.size + 1) % WORD);
    trace := PutsOn(trace, q, s2.(queues := s.queues[q := counted]));
  }

  /** A node of the pool is not the last node of a list. */
  lemma PoolNode(s: State, q: nat, n: nat)
    requires Inv(s) && q < |s.queues| && s.queues[q].producer.PutIdle? && n in s.pool
    ensures n < |s.loc| == |s.value| == |s.next| && s.queues[q].tail < |s.next| && s.queues[q].tail != n
    ensures s.next[s.queues[q].tail] == Nil
  {
    assert QueueOk(s, s.queues[q]) && Lies(s, n, Pool) && Lies(s, s.queues[q].tail, InList(q));
  }

  lemma SoloStarts(s: State, q: nat)
    requires q < |s.queues|
    ensures OnlyPuts([s], q) && OnlyGets([s], q)
  {
  }

  /** Head and its link are loaded. */
  lemma SoloLoads(s: State, q: nat) returns (trace: seq<State>)
    requires q < |s.queues| && s.queues[q].consumer.GetIdle? && s.queues[q].head < |s.next|
    ensures OnlyGets(trace, q) && trace != [] && trace[0] == s
    ensures End(trace) == Get(s, q, GetCheckTail(s.queues[q].head, s.next[s.queues[q].head]))
  {
    hide OnlyGets;
    var hd := s.queues[q].head;
    SoloStarts(s, q);
    trace := GetsOn([s], q, Get(s, q, GetLoadHead));
    trace := GetsOn(trace, q, Get(s, q, GetCheckHead(hd)));
    trace := GetsOn(trace, q, Get(s, q, GetLoadNext(hd)));
    trace := GetsOn(trace, q, Get(s, q, GetCheckTail(hd, s.next[hd])));
  }

  /** The producer has linked a node behind head and not yet swung the tail to it. */
  ghost predicate Lagging(queue: Queue) { queue.producer.PutSwing? && queue.head == queue.tail }

  lemma SecondNode(s: State, q: nat)
    requires Inv(s) && q < |s.queues|
    ensures var queue := s.queues[q];
      && queue.list != [] && queue.head < |s.loc| == |s.value| == |s.next| && |queue.deq| <= |queue.enq|
      && (Items(queue) == [] <==> s.next[queue.head] == Nil)
      && (Items(queue) == [] ==> queue.head == queue.tail)
      && (Items(queue) != [] ==>
            && s.next[queue.head] == To(queue.list[1]) && queue.list[1] < |s.value|
            && s.value[queue.list[1]] == Items(queue)[0] != NULL && (queue.head == queue.tail ==> Lagging(queue)))
  {
    var queue := s.queues[q];
    assert QueueOk(s, queue) && Lies(s, queue.head, InList(q));
    if Items(queue) != [] {
      assert s.value[queue.list[1]] == queue.enq[|queue.deq| + 1 - 1];
    }
  }

  /**
   An uninterrupted call of the consumer takes the oldest value and gives its node back, or answers NULL for an
   empty queue, unless the tail lags at head.
   */
  lemma SoloGet(s: State, q: nat) returns (trace: seq<State>)
    requires Inv(s) && q < |s.queues| && s.queues[q].consumer.GetIdle? && !Lagging(s.queues[q])
    ensures OnlyGets(trace, q) && trace != [] && trace[0] == s
    ensures var queue := s.queues[q];
      && queue.head < |s.loc| && |queue.deq| <= |queue.enq| && (Items(queue) != [] ==> |queue.list| > 1)
      && End(trace) ==
        if Items(queue) == [] then Get(s, q, GetIdle(NULL))
        else s.(
          queues := s.queues[q := queue.(consumer := GetIdle(Items(queue)[0]), head := queue.list[1],
                                         list := queue.list[1..], deq := queue.deq + [Items(queue)[0]],
                                         size := (queue.size + WORD - 1) % WORD)],
          pool := s.pool + {queue.head}, loc := s.loc[queue.head := Pool])
  {
    SecondNode(s, q);
    hide Inv, OnlyGets;
    var queue := s.queues[q];
    var hd := queue.head;
    trace := SoloLoads(s, q);
    if Items(queue) == [] {
      trace := GetsOn(trace, q, Get(s, q, GetIdle(NULL)));
    } else {
      var n, val := queue.list[1], Items(queue)[0];
      trace := GetsOn(trace, q, Get(s, q, GetLoadValue(hd, n)));
      trace := GetsOn(trace, q, Get(s, q, GetSwing(hd, n, val)));
      var taken := queue.(consumer := GetFree(hd, val), head := n, list := queue.list[1..], deq := queue.deq + [val]);
      var s1 := s.(queues := s.queues[q := taken], loc := s.loc[hd := ConsumerHand(q)]);
      trace := GetsOn(trace, q, s1);
      var s2 := Get(s1, q, GetCount(val)).(pool := s.pool + {hd}, loc := s1.loc[hd := Pool]);
      trace := GetsOn(trace, q, s2);
      var counted := s2.queues[q].(consumer := GetIdle(val), size := (queue.size + WORD - 1) % WORD);
      trace := GetsOn(trace, q, s2.(queues := s2.queues[q := counted]));
    }
  }

  /** While the tail lags at head, a consumer on its own comes round to the same state again. */
  lemma GetWaits(s: State, q: nat)
    requires Inv(s) && q < |s.queues| && s.queues[q].consumer == GetLoadHead && Lagging(s.queues[q])
    ensures exists trace :: OnlyGets(trace, q) && |trace| == 5 && trace[0] == trace[4] == s
  {
    SecondNode(s, q);
    assert QueueOk(s, s.queues[q]);
    var hd := s.queues[q].head;
    var s1, s2 := Get(s, q, GetCheckHead(hd)), Get(s, q, GetLoadNext(hd));
    var s3 := Get(s, q, GetCheckTail(hd, s.next[hd]));
    assert Get(s3, q, GetLoadHead) == s;
    var trace := [s, s1, s2, s3, s];
    assert OnlyGets(trace, q) && trace[0] == trace[4];
  }
}
