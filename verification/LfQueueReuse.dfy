/**
 Linked queues of src/lfqueue.c whose nodes come from one shared pool and go back to it at once, as
 src/audio.c uses them: every queue has one producer running lfqueue_enq and one consumer running
 lfqueue_single_deq, all of them interleaved step by step.  There may be any number of queues; the
 phone has two.  Taking a node from the pool and giving one back are single steps.

 `list` is the chain of a queue from head on, and `loc` records where each node is.
 */
module LfQueueReuse {
  import opened Memory

  datatype Loc = Pool | InList(q: nat) | Base(q: nat) | ProducerHand(q: nat) | ConsumerHand(q: nat)

  datatype Producer =
    | PutIdle
    | PutAlloc(v: nat)                         // 154
    | PutValue(v: nat, n: nat)                 // 159
    | PutNext(v: nat, n: nat)                  // 160
    | PutLoadTail(v: nat, n: nat)              // 164
    | PutLink(v: nat, n: nat, tl: nat)         // 165
    | PutSwing(n: nat, tl: nat)                // 167
    | PutCount                                 // 273

  datatype Consumer =
    | GetIdle(ret: nat)
    | GetLoadHead                              // 127
    | GetCheckHead(hd: nat)                    // 128
    | GetLoadNext(hd: nat)                     // 129
    | GetCheckTail(hd: nat, nx: Link)          // 130-144
    | GetLoadValue(hd: nat, n: nat)            // 137
    | GetSwing(hd: nat, n: nat, val: nat)      // 138
    | GetFree(hd: nat, val: nat)               // 139
    | GetCount(val: nat)                       // 309

  datatype Queue = Queue(
    head: nat, tail: nat, base: nat, size: nat, producer: Producer, consumer: Consumer,
    list: seq<nat>, enq: seq<nat>, deq: seq<nat>)

  datatype State = State(queues: seq<Queue>, pool: set<nat>, next: seq<Link>, value: seq<nat>, loc: seq<Loc>)

  function Put(s: State, q: nat, p: Producer): State
    requires q < |s.queues|
  {
    s.(queues := s.queues[q := s.queues[q].(producer := p)])
  }

  function Get(s: State, q: nat, c: Consumer): State
    requires q < |s.queues|
  {
    s.(queues := s.queues[q := s.queues[q].(consumer := c)])
  }

  /** One step of the producer of queue q. */
  ghost predicate ProducerMoves(s: State, s': State, q: nat)
    requires q < |s.queues|
  {
    var queue := s.queues[q];
    match queue.producer
    case PutIdle => exists v: nat :: v != NULL && s' == Put(s, q, PutAlloc(v))
    case PutAlloc(v) =>
      exists n: nat :: n in s.pool && n < |s.loc|
        && s' == Put(s, q, PutValue(v, n)).(pool := s.pool - {n}, loc := s.loc[n := ProducerHand(q)])
    case PutValue(v, n) => n < |s.value| && s' == Put(s, q, PutNext(v, n)).(value := s.value[n := v])
    case PutNext(v, n) => n < |s.next| && s' == Put(s, q, PutLoadTail(v, n)).(next := s.next[n := Nil])
    case PutLoadTail(v, n) => s' == Put(s, q, PutLink(v, n, queue.tail))
    case PutLink(v, n, tl) =>
      && tl < |s.next| && n < |s.loc|
      && s' == if s.next[tl] != Nil then Put(s, q, PutLoadTail(v, n))
               else s.(queues := s.queues[q := queue.(producer := PutSwing(n, tl),
                                                        list := queue.list + [n], enq := queue.enq + [v])],
                       next := s.next[tl := To(n)], loc := s.loc[n := InList(q)])
    case PutSwing(n, tl) =>
      s' == s.(queues := s.queues[q := queue.(producer := PutCount, tail := if queue.tail == tl then n
        else queue.tail)])
    case PutCount => s' == s.(queues := s.queues[q := queue.(producer := PutIdle, size := (queue.size + 1) % WORD)])
  }

  /** One step of the consumer of queue q. */
  ghost predicate ConsumerMoves(s: State, s': State, q: nat)
    requires q < |s.queues|
  {
    var queue := s.queues[q];
    match queue.consumer
    case GetIdle(_) => s' == Get(s, q, GetLoadHead)
    case GetLoadHead => s' == Get(s, q, GetCheckHead(queue.head))
    case GetCheckHead(hd) => s' == Get(s, q, if queue.head == hd then GetLoadNext(hd) else GetLoadHead)
    case GetLoadNext(hd) => hd < |s.next| && s' == Get(s, q, GetCheckTail(hd, s.next[hd]))
    case GetCheckTail(hd, nx) =>
      s' == Get(s, q, if nx == Nil then GetIdle(NULL)
                      else if queue.tail == hd then GetLoadHead else GetLoadValue(hd, nx.node))
    case GetLoadValue(hd, n) => n < |s.value| && s' == Get(s, q, GetSwing(hd, n, s.value[n]))
    case GetSwing(hd, n, val) =>
      && hd < |s.loc| && queue.list != []
      && s' == if queue.head != hd then Get(s, q, GetLoadHead)
               else s.(queues := s.queues[q := queue.(consumer := GetFree(hd, val), head := n,
                                                        list := queue.list[1..], deq := queue.deq + [val])],
                       loc := s.loc[hd := ConsumerHand(q)])
    case GetFree(hd, val) =>
      hd < |s.loc| && s' == Get(s, q, GetCount(val)).(pool := s.pool + {hd}, loc := s.loc[hd := Pool])
    case GetCount(val) =>
      s' == s.(queues := s.queues[q := queue.(consumer := GetIdle(val), size := (queue.size + WORD - 1) % WORD)])
  }

  ghost predicate Moves(s: State, s': State, q: nat) {
    q < |s.queues| && (ProducerMoves(s, s', q) || ConsumerMoves(s, s', q))
  }

  ghost predicate Next(s: State, s': State) {
    exists q: nat :: Moves(s, s', q)
  }

  /** Queues as lfqueue_init_mf leaves them, each with a base node and a node kept for its free chain. */
  ghost predicate Init(s: State) {
    && Located(s)
    && forall q | 0 <= q < |s.queues| ::
         var queue := s.queues[q];
         && queue.list == [queue.head] && queue.tail == queue.head && queue.producer == PutIdle
           && queue.consumer == GetIdle(NULL)
         && queue.enq == [] && queue.deq == [] && queue.size == 0 && queue.head < |s.next| && s.next[queue.head] == Nil
  }

  ghost predicate IsRun(run: seq<State>) {
    && run != [] && Init(run[0])
    && forall j, k | 0 <= j < k < |run| && k == j + 1 :: Next(run[j], run[k])
  }

  type Run = run: seq<State> | IsRun(run) witness [State([], {}, [], [], [])]

  // ---------- where the nodes are ----------

  ghost predicate HandOf(p: Producer, n: nat) {
    (p.PutValue? || p.PutNext? || p.PutLoadTail? || p.PutLink?) && p.n == n
  }

  ghost predicate Frees(c: Consumer, n: nat) {
    c.GetFree? && c.hd == n
  }

  /** Node n really is at place l. */
  ghost predicate Lies(s: State, n: nat, l: Loc) {
    match l
    case Pool => n in s.pool
    case InList(q) => q < |s.queues| && n in s.queues[q].list
    case Base(q) => q < |s.queues| && n == s.queues[q].base
    case ProducerHand(q) => q < |s.queues| && HandOf(s.queues[q].producer, n)
    case ConsumerHand(q) => q < |s.queues| && Frees(s.queues[q].consumer, n)
  }

  /** loc says for every node where it is, and nothing else is anywhere. */
  ghost predicate Located(s: State) {
    && |s.next| == |s.value| == |s.loc|
    && (forall n: nat, l | Lies(s, n, l) :: n < |s.loc| && s.loc[n] == l)
    && (forall n | 0 <= n < |s.loc| :: Lies(s, n, s.loc[n]))
  }

  // ---------- the invariant ----------

  ghost predicate Chain(s: State, queue: Queue) {
    && queue.list != [] && queue.head == queue.list[0]
    && (forall i | 0 <= i < |queue.list| :: queue.list[i] < |s.next|)
    && (forall i, j | 0 <= i < j < |queue.list| :: queue.list[i] != queue.list[j])
    && (forall i, j | 0 <= i < j < |queue.list| && j == i + 1 :: s.next[queue.list[i]] == To(queue.list[j]))
    && s.next[queue.list[|queue.list| - 1]] == Nil
    && if queue.producer.PutSwing?
       then |queue.list| >= 2 && queue.tail == queue.producer.tl == queue.list[|queue.list| - 2]
         && queue.producer.n == queue.list[|queue.list| - 1]
       else queue.tail == queue.list[|queue.list| - 1]
  }

  ghost predicate History(s: State, queue: Queue)
    requires |s.next| == |s.value| && Chain(s, queue)
  {
    && |queue.enq| == |queue.deq| + |queue.list| - 1 && queue.deq == queue.enq[..|queue.deq|] && NULL !in queue.enq
    && forall i | 0 < i < |queue.list| :: s.value[queue.list[i]] == queue.enq[|queue.deq| + i - 1]
  }

  ghost predicate ProducerOk(s: State, queue: Queue)
    requires |s.next| == |s.value|
  {
    match queue.producer
    case PutIdle => true
    case PutAlloc(v) => v != NULL
    case PutValue(v, n) => v != NULL && n < |s.next|
    case PutNext(v, n) => v != NULL && n < |s.next| && s.value[n] == v
    case PutLoadTail(v, n) => v != NULL && n < |s.next| && s.value[n] == v && s.next[n] == Nil
    case PutLink(v, n, tl) => v != NULL && n < |s.next| && s.value[n] == v && s.next[n] == Nil && tl == queue.tail
    case PutSwing(n, tl) => true
    case PutCount => true
  }

  ghost predicate ConsumerOk(s: State, queue: Queue)
    requires |s.next| == |s.value| && Chain(s, queue)
  {
    match queue.consumer
    case GetIdle(_) => true
    case GetLoadHead => true
    case GetCheckHead(hd) => hd == queue.head
    case GetLoadNext(hd) => hd == queue.head
    case GetCheckTail(hd, nx) => hd == queue.head && (nx.To? ==> |queue.list| > 1 && nx.node == queue.list[1])
    case GetLoadValue(hd, n) => hd == queue.head != queue.tail && |queue.list| > 1 && n == queue.list[1]
    case GetSwing(hd, n, val) =>
      hd == queue.head != queue.tail && |queue.list| > 1 && n == queue.list[1] && val == s.value[n]
    case GetFree(hd, val) => hd < |s.next| && val != NULL
    case GetCount(val) => val != NULL
  }

  /** What the producer and the consumer still owe the size counter. */
  function Owed(queue: Queue): int {
    (if queue.producer.PutSwing? || queue.producer.PutCount? then 1 else 0)
    - (if queue.consumer.GetFree? || queue.consumer.GetCount? then 1 else 0)
  }

  ghost predicate Counted(queue: Queue) {
    queue.size == (|queue.enq| - |queue.deq| - Owed(queue)) % WORD
  }

  ghost predicate QueueOk(s: State, queue: Queue)
    requires |s.next| == |s.value|
  {
    Chain(s, queue) && History(s, queue) && ProducerOk(s, queue) && ConsumerOk(s, queue) && Counted(queue)
  }

  ghost predicate Inv(s: State) {
    Located(s) && forall q | 0 <= q < |s.queues| :: QueueOk(s, s.queues[q])
  }

  lemma InitInv(s: State)
    requires Init(s)
    ensures Inv(s)
  {
  }

  /** The nodes that queue q uses are unchanged. */
  ghost predicate SameNodes(s: State, s': State, q: nat)
    requires q < |s.queues| && |s.next| == |s.value| == |s.loc|
  {
    && |s'.next| == |s'.value| == |s'.loc| == |s.loc|
    && forall n | 0 <= n < |s.loc| && (s.loc[n] == InList(q) || s.loc[n] == ProducerHand(q)) ::
         s'.next[n] == s.next[n] && s'.value[n] == s.value[n]
  }

  lemma QueueFrame(s: State, s': State, q: nat)
    requires Inv(s) && q < |s.queues| && SameNodes(s, s', q)
    ensures QueueOk(s', s.queues[q])
  {
    var queue := s.queues[q];
    forall i | 0 <= i < |queue.list| ensures s.loc[queue.list[i]] == InList(q) {
      assert Lies(s, queue.list[i], InList(q));
    }
    if queue.producer.PutNext? || queue.producer.PutLoadTail? || queue.producer.PutLink? {
      assert Lies(s, queue.producer.n, ProducerHand(q));
    }
  }

  lemma Reassemble(s: State, s': State, q: nat)
    requires Inv(s) && Located(s') && q < |s.queues| == |s'.queues| && QueueOk(s', s'.queues[q])
    requires forall p | 0 <= p < |s.queues| && p != q :: s'.queues[p] == s.queues[p] && SameNodes(s, s', p)
    ensures Inv(s')
  {
    forall p | 0 <= p < |s.queues| ensures QueueOk(s', s'.queues[p]) {
      if p != q {
        QueueFrame(s, s', p);
      }
    }
  }

  /** Only the program counters of queue q change, and no node changes its place. */
  lemma NoNodeMoves(s: State, queue: Queue, q: nat)
    requires Inv(s) && q < |s.queues| && QueueOk(s, queue)
    requires queue.list == s.queues[q].list && queue.base == s.queues[q].base
    requires forall n: nat :: HandOf(queue.producer, n) <==> HandOf(s.queues[q].producer, n)
    requires forall n: nat :: Frees(queue.consumer, n) <==> Frees(s.queues[q].consumer, n)
    ensures Inv(s.(queues := s.queues[q := queue]))
  {
    var s' := s.(queues := s.queues[q := queue]);
    SamePlaces(s, queue, q);
    hide Lies, QueueOk;
    assert QueueOk(s', queue) by { QueueElsewhere(s, s', queue); }
    Reassemble(s, s', q);
  }

  lemma SamePlaces(s: State, queue: Queue, q: nat)
    requires Located(s) && q < |s.queues|
    requires queue.list == s.queues[q].list && queue.base == s.queues[q].base
    requires forall n: nat :: HandOf(queue.producer, n) <==> HandOf(s.queues[q].producer, n)
    requires forall n: nat :: Frees(queue.consumer, n) <==> Frees(s.queues[q].consumer, n)
    ensures Located(s.(queues := s.queues[q := queue]))
  {
    var s' := s.(queues := s.queues[q := queue]);
    hide HandOf, Frees;
    forall n: nat, l ensures Lies(s', n, l) <==> Lies(s, n, l) {
      assert l.ProducerHand? && l.q == q ==> (HandOf(queue.producer, n) <==> HandOf(s.queues[q].producer, n));
    }
    hide Lies;
  }

  /** What a queue needs of a state is what its nodes hold. */
  lemma QueueElsewhere(s: State, s': State, queue: Queue)
    requires |s.next| == |s.value| && QueueOk(s, queue) && s'.next == s.next && s'.value == s.value
    ensures QueueOk(s', queue)
  {
  }

  /** Node n moves to place l and every other node stays. */
  lemma OneNodeMoves(s: State, s': State, n: nat, l: Loc)
    requires Located(s) && n < |s.loc| && |s'.next| == |s'.value| == |s.loc| && s'.loc == s.loc[n := l]
    requires forall m: nat, k | m != n :: Lies(s', m, k) <==> Lies(s, m, k)
    requires forall k :: Lies(s', n, k) <==> k == l
    ensures Located(s')
  {
  }

  // ---------- the producer ----------

  lemma AllocPlaces(s: State, s': State, q: nat, n: nat)
    requires Inv(s) && q < |s.queues| && s.queues[q].producer.PutAlloc? && n in s.pool && n < |s.loc|
    requires s' == Put(s, q, PutValue(s.queues[q].producer.v, n))
                     .(pool := s.pool - {n}, loc := s.loc[n := ProducerHand(q)])
    ensures Located(s')
  {
    assert Lies(s, n, Pool);
    forall m: nat, k | m != n ensures Lies(s', m, k) <==> Lies(s, m, k) {
    }
    forall k ensures Lies(s', n, k) <==> k == ProducerHand(q) {
      assert Lies(s, n, k) <==> k == s.loc[n];
    }
    OneNodeMoves(s, s', n, ProducerHand(q));
  }

  lemma AllocKeepsQueue(s: State, queue: Queue, v: nat, n: nat)
    requires |s.next| == |s.value| && QueueOk(s, queue) && queue.producer == PutAlloc(v) && n < |s.next|
    ensures QueueOk(s, queue.(producer := PutValue(v, n)))
  {
  }

  lemma AllocInv(s: State, s': State, q: nat)
    requires Inv(s) && q < |s.queues| && s.queues[q].producer.PutAlloc? && ProducerMoves(s, s', q)
    ensures Inv(s')
  {
    hide Lies, QueueOk;
    var v := s.queues[q].producer.v;
    var n: nat :| n in s.pool && n < |s.loc|
      && s' == Put(s, q, PutValue(v, n)).(pool := s.pool - {n}, loc := s.loc[n := ProducerHand(q)]);
    AllocPlaces(s, s', q, n);
    QueueFrame(s, s', q);
    AllocKeepsQueue(s', s.queues[q], v, n);
    Reassemble(s, s', q);
  }

  /** Plain stores to the node in the producer's hand move no node. */
  lemma StorePlaces(s: State, s': State, q: nat)
    requires Inv(s) && q < |s.queues| && ProducerMoves(s, s', q)
    requires s.queues[q].producer.PutValue? || s.queues[q].producer.PutNext?
    ensures Located(s')
  {
    hide QueueOk;
    forall m: nat, l ensures Lies(s', m, l) <==> Lies(s, m, l) {
    }
  }

  /** They touch no list either. */
  lemma StoreKeepsChain(s: State, s': State, queue: Queue, queue': Queue, n: nat)
    requires |s.next| == |s'.next| && Chain(s, queue) && n !in queue.list
    requires forall m | 0 <= m < |s.next| && m != n :: s'.next[m] == s.next[m]
    requires queue' == queue.(producer := queue'.producer) && !queue.producer.PutSwing? && !queue'.producer.PutSwing?
    ensures Chain(s', queue')
  {
    assert forall i | 0 <= i < |queue.list| :: queue.list[i] != n;
  }

  lemma StoreKeepsQueue(s: State, s': State, queue: Queue, p: Producer, n: nat)
    requires |s.next| == |s.value| == |s'.next| == |s'.value| && QueueOk(s, queue) && n !in queue.list
    requires forall m | 0 <= m < |s.next| && m != n :: s'.next[m] == s.next[m] && s'.value[m] == s.value[m]
    requires (queue.producer.PutValue? || queue.producer.PutNext?) && (p.PutNext? || p.PutLoadTail?)
    requires ProducerOk(s', queue.(producer := p))
    ensures QueueOk(s', queue.(producer := p))
  {
    hide ProducerOk;
    StoreKeepsChain(s, s', queue, queue.(producer := p), n);
    assert forall i | 0 <= i < |queue.list| :: queue.list[i] != n && queue.list[i] < |s.next|;
    hide Chain;
  }

  lemma StoreFrame(s: State, s': State, q: nat)
    requires Inv(s) && q < |s.queues| && ProducerMoves(s, s', q)
    requires s.queues[q].producer.PutValue? || s.queues[q].producer.PutNext?
    requires s.queues[q].producer.n !in s.queues[q].list
    ensures QueueOk(s', s'.queues[q])
  {
    hide Lies, Chain, History, ConsumerOk;
    assert QueueOk(s, s.queues[q]);
    StoreKeepsQueue(s, s', s.queues[q], s'.queues[q].producer, s.queues[q].producer.n);
  }

  lemma StoreInv(s: State, s': State, q: nat)
    requires Inv(s) && q < |s.queues| && ProducerMoves(s, s', q)
    requires s.queues[q].producer.PutValue? || s.queues[q].producer.PutNext?
    ensures Inv(s')
  {
    var n := s.queues[q].producer.n;
    assert Lies(s, n, ProducerHand(q));
    assert Lies(s, n, InList(q)) <==> n in s.queues[q].list;
    StorePlaces(s, s', q);
    StoreFrame(s, s', q);
    Reassemble(s, s', q);
  }

  lemma LinkPlaces(s: State, s': State, q: nat)
    requires Inv(s) && q < |s.queues| && s.queues[q].producer.PutLink? && ProducerMoves(s, s', q)
    requires s.next[s.queues[q].producer.tl] == Nil
    ensures Located(s')
  {
    var n := s.queues[q].producer.n;
    assert Lies(s, n, ProducerHand(q));
    forall m: nat, k | m != n ensures Lies(s', m, k) <==> Lies(s, m, k) {
    }
    forall k ensures Lies(s', n, k) <==> k == InList(q) {
      assert Lies(s, n, k) <==> k == s.loc[n];
    }
    OneNodeMoves(s, s', n, InList(q));
  }

  lemma LinkChain(s: State, s': State, q: nat)
    requires Inv(s) && q < |s.queues| && s.queues[q].producer.PutLink? && ProducerMoves(s, s', q)
    requires s.next[s.queues[q].producer.tl] == Nil
    ensures |s'.next| == |s'.value| && Chain(s', s'.queues[q])
  {
    var queue := s.queues[q];
    assert Lies(s, queue.producer.n, ProducerHand(q));
    forall i | 0 <= i < |queue.list| ensures queue.list[i] != queue.producer.n {
      assert Lies(s, queue.list[i], InList(q));
    }
  }

  lemma LinkHistory(s: State, s': State, q: nat)
    requires Inv(s) && q < |s.queues| && s.queues[q].producer.PutLink? && ProducerMoves(s, s', q)
    requires s.next[s.queues[q].producer.tl] == Nil && |s'.next| == |s'.value| && Chain(s', s'.queues[q])
    ensures QueueOk(s', s'.queues[q])
  {
    assert ConsumerOk(s, s.queues[q]) && ProducerOk(s, s.queues[q]);
  }

  /** The only producer of a queue loaded the current tail, which is the end of the list: the link succeeds. */
  lemma LinkInv(s: State, s': State, q: nat)
    requires Inv(s) && q < |s.queues| && s.queues[q].producer.PutLink? && ProducerMoves(s, s', q)
    ensures Inv(s')
  {
    var tl := s.queues[q].producer.tl;
    assert Lies(s, tl, InList(q)) && Lies(s, s.queues[q].producer.n, ProducerHand(q));
    LinkPlaces(s, s', q);
    LinkChain(s, s', q);
    LinkHistory(s, s', q);
    Reassemble(s, s', q);
  }

  lemma CountKeepsCount(queue: Queue, queue': Queue)
    requires Counted(queue)
    requires || (queue.producer.PutCount? && queue' == queue.(producer := PutIdle, size := (queue.size + 1) % WORD))
             || (queue.consumer.GetCount?
                 && queue' == queue.(consumer := GetIdle(queue.consumer.val), size := (queue.size + WORD - 1) % WORD))
    ensures Counted(queue')
  {
    WordCount(|queue.enq| - |queue.deq| - Owed(queue));
  }

  lemma CountKeepsQueue(s: State, queue: Queue, queue': Queue)
    requires |s.next| == |s.value| && QueueOk(s, queue)
    requires || (queue.producer.PutCount? && queue' == queue.(producer := PutIdle, size := (queue.size + 1) % WORD))
             || (queue.consumer.GetCount?
                 && queue' == queue.(consumer := GetIdle(queue.consumer.val), size := (queue.size + WORD - 1) % WORD))
    ensures QueueOk(s, queue')
  {
    CountKeepsCount(queue, queue');
    hide Counted;
  }

  /** Counting changes no list. */
  lemma CountInv(s: State, s': State, q: nat)
    requires Inv(s) && q < |s.queues|
    requires || (s.queues[q].producer.PutCount? && ProducerMoves(s, s', q))
             || (s.queues[q].consumer.GetCount? && ConsumerMoves(s, s', q))
    ensures Inv(s')
  {
    hide Lies, QueueOk;
    assert s' == s.(queues := s.queues[q := s'.queues[q]]);
    CountKeepsQueue(s, s.queues[q], s'.queues[q]);
    NoNodeMoves(s, s'.queues[q], q);
  }

  /** The producer begins a call, or loads the tail. */
  lemma LoadKeepsQueue(s: State, queue: Queue, p: Producer)
    requires |s.next| == |s.value| && QueueOk(s, queue)
    requires match queue.producer
      case PutIdle => p.PutAlloc? && p.v != NULL
      case PutLoadTail(v, n) => p == PutLink(v, n, queue.tail)
      case _ => false
    ensures QueueOk(s, queue.(producer := p))
  {
  }

  lemma SwingKeepsQueue(s: State, queue: Queue)
    requires |s.next| == |s.value| && QueueOk(s, queue) && queue.producer.PutSwing?
    ensures QueueOk(s, queue.(producer := PutCount, tail := if queue.tail == queue.producer.tl then queue.producer.n
      else queue.tail))
  {
  }

  lemma PassInv(s: State, s': State, q: nat)
    requires Inv(s) && q < |s.queues| && ProducerMoves(s, s', q)
    requires var p := s.queues[q].producer; p.PutIdle? || p.PutLoadTail? || p.PutSwing?
    ensures Inv(s')
  {
    hide Lies, QueueOk;
    assert s' == s.(queues := s.queues[q := s'.queues[q]]);
    if s.queues[q].producer.PutSwing? {
      SwingKeepsQueue(s, s.queues[q]);
    } else {
      LoadKeepsQueue(s, s.queues[q], s'.queues[q].producer);
    }
    NoNodeMoves(s, s'.queues[q], q);
  }

  lemma ProducerInv(s: State, s': State, q: nat)
    requires Inv(s) && q < |s.queues| && ProducerMoves(s, s', q)
    ensures Inv(s')
  {
    match s.queues[q].producer
    case PutAlloc(_) => AllocInv(s, s', q);
    case PutValue(_, _) => StoreInv(s, s', q);
    case PutNext(_, _) => StoreInv(s, s', q);
    case PutLink(_, _, _) => LinkInv(s, s', q);
    case PutCount => CountInv(s, s', q);
    case _ => PassInv(s, s', q);
  }

  // ---------- the consumer ----------

  lemma TakePlaces(s: State, s': State, q: nat)
    requires Inv(s) && q < |s.queues| && s.queues[q].consumer.GetSwing? && ConsumerMoves(s, s', q)
    ensures Located(s')
  {
    hide History, ProducerOk;
    var hd, queue, queue' := s.queues[q].consumer.hd, s.queues[q], s'.queues[q];
    assert Lies(s, hd, InList(q));
    assert queue.list == [hd] + queue'.list;
    forall m: nat, k | m != hd ensures Lies(s', m, k) <==> Lies(s, m, k) {
    }
    forall k ensures Lies(s', hd, k) <==> k == ConsumerHand(q) {
      assert Lies(s, hd, k) <==> k == s.loc[hd];
    }
    OneNodeMoves(s, s', hd, ConsumerHand(q));
  }

  lemma TakeInv(s: State, s': State, q: nat)
    requires Inv(s) && q < |s.queues| && s.queues[q].consumer.GetSwing? && ConsumerMoves(s, s', q)
    ensures Inv(s')
  {
    hide Lies;
    TakePlaces(s, s', q);
    assert Chain(s', s'.queues[q]) && History(s', s'.queues[q]);
    Reassemble(s, s', q);
  }

  lemma FreePlaces(s: State, s': State, q: nat)
    requires Inv(s) && q < |s.queues| && s.queues[q].consumer.GetFree? && ConsumerMoves(s, s', q)
    ensures Located(s')
  {
    hide QueueOk;
    var hd := s.queues[q].consumer.hd;
    assert Lies(s, hd, ConsumerHand(q));
    forall m: nat, k | m != hd ensures Lies(s', m, k) <==> Lies(s, m, k) {
    }
    forall k ensures Lies(s', hd, k) <==> k == Pool {
      assert Lies(s, hd, k) <==> k == s.loc[hd];
    }
    OneNodeMoves(s, s', hd, Pool);
  }

  lemma FreeInv(s: State, s': State, q: nat)
    requires Inv(s) && q < |s.queues| && s.queues[q].consumer.GetFree? && ConsumerMoves(s, s', q)
    ensures Inv(s')
  {
    hide Lies;
    FreePlaces(s, s', q);
    assert QueueOk(s, s.queues[q]);
    assert QueueOk(s', s'.queues[q]);
    Reassemble(s, s', q);
  }

  /** What the consumer loads is the head, its link, and the value of the second node. */
  lemma LoadOk(s: State, s': State, q: nat)
    requires Inv(s) && q < |s.queues| && ConsumerMoves(s, s', q)
    requires var c := s.queues[q].consumer; !c.GetSwing? && !c.GetFree? && !c.GetCount?
    ensures s' == Get(s, q, s'.queues[q].consumer) && !s'.queues[q].consumer.GetFree?
    ensures Chain(s, s'.queues[q]) && ConsumerOk(s, s'.queues[q]) && Counted(s'.queues[q])
  {
    hide Lies, ProducerOk;
    var queue := s.queues[q];
    assert ConsumerOk(s, queue) && |queue.list| > 1 ==> s.next[queue.list[0]] == To(queue.list[1]);
  }

  lemma LoadInv(s: State, s': State, q: nat)
    requires Inv(s) && q < |s.queues| && ConsumerMoves(s, s', q)
    requires var c := s.queues[q].consumer; !c.GetSwing? && !c.GetFree? && !c.GetCount?
    ensures Inv(s')
  {
    LoadOk(s, s', q);
    NoNodeMoves(s, s'.queues[q], q);
  }

  lemma ConsumerInv(s: State, s': State, q: nat)
    requires Inv(s) && q < |s.queues| && ConsumerMoves(s, s', q)
    ensures Inv(s')
  {
    match s.queues[q].consumer
    case GetSwing(_, _, _) => TakeInv(s, s', q);
    case GetFree(_, _) => FreeInv(s, s', q);
    case GetCount(_) => CountInv(s, s', q);
    case _ => LoadInv(s, s', q);
  }

  lemma NextInv(s: State, s': State)
    requires Inv(s) && Next(s, s')
    ensures Inv(s')
  {
    var q: nat :| Moves(s, s', q);
    if ProducerMoves(s, s', q) {
      ProducerInv(s, s', q);
    } else {
      ConsumerInv(s, s', q);
    }
  }

  lemma RunStart(run: Run)
    ensures Inv(run[0])
  {
    InitInv(run[0]);
  }

  lemma RunNext(run: Run, k: nat)
    requires 0 < k < |run| && Inv(run[k - 1])
    ensures Inv(run[k])
  {
    NextInv(run[k - 1], run[k]);
  }

  /** Every state of every run satisfies the invariant. */
  lemma {:induction false} RunInv(run: Run, k: nat)
    requires k < |run|
    ensures Inv(run[k])
  {
    hide *;
    if k == 0 {
      RunStart(run);
    } else {
      RunInv(run, k - 1);
      RunNext(run, k);
    }
  }

  // ---------- what the queues promise ----------

  /** The values of a queue, oldest first. */
  function Items(queue: Queue): seq<nat>
    requires |queue.deq| <= |queue.enq|
  {
    queue.enq[|queue.deq|..]
  }

  /** Every queue is first-in first-out in every interleaving, and its nodes hold exactly its values. */
  lemma FifoOrder(run: Run, k: nat, q: nat)
    requires k < |run| && q < |run[k].queues|
    ensures var s, queue := run[k], run[k].queues[q];
      && |queue.deq| <= |queue.enq| && (forall i | 0 <= i < |queue.deq| :: queue.deq[i] == queue.enq[i])
      && |queue.list| == |Items(queue)| + 1
      && forall i | 0 < i < |queue.list| :: queue.list[i] < |s.value| && s.value[queue.list[i]] == Items(queue)[i - 1]
  {
    RunInv(run, k);
  }

  /** A step of queue q changes no other queue, and each side keeps the other side's program counter. */
  lemma OnlyOneSide(s: State, s': State, q: nat)
    requires q < |s.queues|
    ensures ProducerMoves(s, s', q) ==> |s'.queues| == |s.queues| && s'.queues[q].consumer == s.queues[q].consumer
    ensures ConsumerMoves(s, s', q) ==> |s'.queues| == |s.queues| && s'.queues[q].producer == s.queues[q].producer
    ensures ProducerMoves(s, s', q) || ConsumerMoves(s, s', q) ==>
      forall p | 0 <= p < |s.queues| && p != q :: s'.queues[p] == s.queues[p]
  {
  }

  lemma ProducerRefines(s: State, s': State, q: nat)
    requires Inv(s) && q < |s.queues| && ProducerMoves(s, s', q)
    ensures |s'.queues| == |s.queues| && |s'.queues[q].deq| <= |s'.queues[q].enq|
      && |s.queues[q].deq| <= |s.queues[q].enq|
    ensures Items(s'.queues[q]) ==
      Items(s.queues[q]) + if s.queues[q].producer.PutLink? then [s.queues[q].producer.v] else []
  {
    assert QueueOk(s, s.queues[q]);
  }

  lemma ConsumerRefines(s: State, s': State, q: nat)
    requires Inv(s) && q < |s.queues| && ConsumerMoves(s, s', q)
    ensures |s'.queues| == |s.queues| && |s'.queues[q].deq| <= |s'.queues[q].enq|
      && |s.queues[q].deq| <= |s.queues[q].enq|
    ensures Items(s.queues[q]) ==
      (if s.queues[q].consumer.GetSwing? then [s.queues[q].consumer.val] else []) + Items(s'.queues[q])
    ensures match s.queues[q].consumer
      case GetSwing(hd, _, val) => s'.queues[q].consumer == GetFree(hd, val)
      case GetFree(_, val) => s'.queues[q].consumer == GetCount(val)
      case GetCount(val) => val != NULL && s'.queues[q].consumer == GetIdle(val)
      case _ => true
  {
    var queue := s.queues[q];
    assert QueueOk(s, queue);
    if queue.consumer.GetSwing? {
      assert s.value[queue.list[1]] == queue.enq[|queue.deq| + 1 - 1];
    }
  }

  /**
   A link always succeeds and appends the value that the producer carries (LfQueueReuseCalls: the argument of
   its call); a swing of head always succeeds, removes the oldest value, and that call returns it; no other
   step changes any queue.
   */
  lemma MoveRefinesQueues(run: Run, k: nat, s: State, s': State, q: nat)
    requires k + 1 < |run| && s == run[k] && s' == run[k + 1] && q < |s.queues|
    ensures forall p | 0 <= p < |s.queues| :: |s.queues[p].deq| <= |s.queues[p].enq|
    ensures ProducerMoves(s, s', q) || ConsumerMoves(s, s', q) ==>
      |s'.queues| == |s.queues| && |s'.queues[q].deq| <= |s'.queues[q].enq|
      && forall p | 0 <= p < |s.queues| && p != q :: s'.queues[p] == s.queues[p]
    ensures ProducerMoves(s, s', q) ==>
      Items(s'.queues[q]) == Items(s.queues[q]) + if s.queues[q].producer.PutLink? then [s.queues[q].producer.v] else []
    ensures ConsumerMoves(s, s', q) ==>
      Items(s.queues[q]) ==
        (if s.queues[q].consumer.GetSwing? then [s.queues[q].consumer.val] else []) + Items(s'.queues[q])
    ensures ConsumerMoves(s, s', q) && s.queues[q].consumer.GetSwing? ==>
      s'.queues[q].consumer == GetFree(s.queues[q].consumer.hd, s.queues[q].consumer.val)
    ensures ConsumerMoves(s, s', q) && s.queues[q].consumer.GetFree? ==>
      s'.queues[q].consumer == GetCount(s.queues[q].consumer.val)
    ensures ConsumerMoves(s, s', q) && s.queues[q].consumer.GetCount? ==>
      s.queues[q].consumer.val != NULL && s'.queues[q].consumer == GetIdle(s.queues[q].consumer.val)
  {
    hide ProducerMoves, ConsumerMoves;
    RunInv(run, k);
    assert forall p | 0 <= p < |s.queues| :: QueueOk(s, s.queues[p]);
    OnlyOneSide(s, s', q);
    if ProducerMoves(s, s', q) {
      ProducerRefines(s, s', q);
    }
    if ConsumerMoves(s, s', q) {
      ConsumerRefines(s, s', q);
    }
  }

  /** The producer can take its next step, an allocation when the pool has a node. */
  lemma ProducerCanMove(s: State, q: nat) returns (s': State)
    requires Inv(s) && q < |s.queues| && (s.queues[q].producer.PutAlloc? ==> s.pool != {})
    ensures ProducerMoves(s, s', q)
  {
    var queue := s.queues[q];
    assert QueueOk(s, queue);
    match queue.producer
    case PutIdle =>
      var v: nat := 1;
      assert v != NULL;
      s' := Put(s, q, PutAlloc(v));
    case PutAlloc(v) =>
      var n :| n in s.pool;
      assert Lies(s, n, Pool);
      s' := Put(s, q, PutValue(v, n)).(pool := s.pool - {n}, loc := s.loc[n := ProducerHand(q)]);
    case PutValue(v, n) => s' := Put(s, q, PutNext(v, n)).(value := s.value[n := v]);
    case PutNext(v, n) => s' := Put(s, q, PutLoadTail(v, n)).(next := s.next[n := Nil]);
    case PutLoadTail(v, n) => s' := Put(s, q, PutLink(v, n, queue.tail));
    case PutLink(v, n, tl) =>
      var linked := queue.(producer := PutSwing(n, tl), list := queue.list + [n], enq := queue.enq + [v]);
      s' := s.(queues := s.queues[q := linked], next := s.next[tl := To(n)], loc := s.loc[n := InList(q)]);
    case PutSwing(n, tl) =>
      var tail := if queue.tail == tl then n else queue.tail;
      s' := s.(queues := s.queues[q := queue.(producer := PutCount, tail := tail)]);
    case PutCount =>
      s' := s.(queues := s.queues[q := queue.(producer := PutIdle, size := (queue.size + 1) % WORD)]);
  }

  /** The consumer can always take its next step. */
  lemma ConsumerCanMove(s: State, q: nat) returns (s': State)
    requires Inv(s) && q < |s.queues|
    ensures ConsumerMoves(s, s', q)
  {
    var queue := s.queues[q];
    assert QueueOk(s, queue);
    match queue.consumer
    case GetIdle(_) => s' := Get(s, q, GetLoadHead);
    case GetLoadHead => s' := Get(s, q, GetCheckHead(queue.head));
    case GetCheckHead(hd) => s' := Get(s, q, if queue.head == hd then GetLoadNext(hd) else GetLoadHead);
    case GetLoadNext(hd) => s' := Get(s, q, GetCheckTail(hd, s.next[hd]));
    case GetCheckTail(hd, nx) =>
      s' := Get(s, q, if nx == Nil then GetIdle(NULL)
                      else if queue.tail == hd then GetLoadHead else GetLoadValue(hd, nx.node));
    case GetLoadValue(hd, n) => s' := Get(s, q, GetSwing(hd, n, s.value[n]));
    case GetSwing(hd, n, val) =>
      assert Lies(s, hd, InList(q));
      var taken := queue.(consumer := GetFree(hd, val), head := n, list := queue.list[1..], deq := queue.deq + [val]);
      s' := s.(queues := s.queues[q := taken], loc := s.loc[hd := ConsumerHand(q)]);
    case GetFree(hd, val) =>
      s' := Get(s, q, GetCount(val)).(pool := s.pool + {hd}, loc := s.loc[hd := Pool]);
    case GetCount(val) =>
      s' := s.(queues := s.queues[q := queue.(consumer := GetIdle(val), size := (queue.size + WORD - 1) % WORD)]);
  }

  /** No step uses a node that does not exist: consumers can always move, and producers unless the pool is empty. */
  lemma StepsAreDefined(run: Run, k: nat, q: nat)
    requires k < |run| && q < |run[k].queues|
    ensures (exists s' :: ProducerMoves(run[k], s', q)) <==> (run[k].queues[q].producer.PutAlloc? ==> run[k].pool != {})
    ensures exists s' :: ConsumerMoves(run[k], s', q)
  {
    hide Inv;
    RunInv(run, k);
    var s' := ConsumerCanMove(run[k], q);
    if run[k].queues[q].producer.PutAlloc? ==> run[k].pool != {} {
      var s'' := ProducerCanMove(run[k], q);
    }
  }

  /** Each node is in exactly one place: the pool, one list, a base, a producer's hand or a consumer's hand. */
  lemma NodeInOnePlace(run: Run, k: nat, n: nat)
    requires k < |run| && n < |run[k].loc|
    ensures exists l :: Lies(run[k], n, l) && forall l' :: Lies(run[k], n, l') ==> l' == l
    ensures forall q, i, j | 0 <= q < |run[k].queues| && 0 <= i < j < |run[k].queues[q].list| ::
              run[k].queues[q].list[i] != run[k].queues[q].list[j]
  {
    RunInv(run, k);
    assert Lies(run[k], n, run[k].loc[n]);
  }

  /**
   A producer links to the last node of its own list, which is nowhere else, so never to a node that
   was given back, and the compare-and-swap succeeds at once.
   */
  lemma LinkSucceeds(run: Run, k: nat, q: nat)
    requires k < |run| && q < |run[k].queues| && run[k].queues[q].producer.PutLink?
    ensures var s, queue := run[k], run[k].queues[q];
      && queue.list != [] && queue.producer.tl == queue.tail == queue.list[|queue.list| - 1]
      && queue.tail < |s.next| && s.next[queue.tail] == Nil
      && forall l | Lies(s, queue.tail, l) :: l == InList(q)
  {
    RunInv(run, k);
    var queue := run[k].queues[q];
    assert QueueOk(run[k], queue);
    assert Lies(run[k], queue.tail, InList(q));
  }

  /**
   Modulo the word, the size counter of each queue is its length, less the link that its producer has not
   counted yet, plus the removal that its consumer has not counted yet.
   */
  lemma SizeCounter(run: Run, k: nat, q: nat)
    requires k < |run| && q < |run[k].queues|
    ensures var queue := run[k].queues[q];
      && |queue.deq| <= |queue.enq| && queue.size == (|Items(queue)| - Owed(queue)) % WORD
      && (queue.producer.PutIdle? && queue.consumer.GetIdle? ==> queue.size == |Items(queue)| % WORD)
  {
    RunInv(run, k);
    assert QueueOk(run[k], run[k].queues[q]);
  }

  /** After a link the compare-and-swap of tail always succeeds. */
  lemma SwingSucceeds(run: Run, k: nat, q: nat)
    requires k < |run| && q < |run[k].queues| && run[k].queues[q].producer.PutSwing?
    ensures run[k].queues[q].tail == run[k].queues[q].producer.tl
  {
    RunInv(run, k);
    assert QueueOk(run[k], run[k].queues[q]);
  }

  /** The nodes that a consumer reads are in its own list, and the node it frees is in nobody else's hands. */
  lemma ConsumerReadsOwnNodes(run: Run, k: nat, q: nat)
    requires k < |run| && q < |run[k].queues|
    ensures var s, c := run[k], run[k].queues[q].consumer;
      && (c.GetLoadNext? ==> c.hd in s.queues[q].list)
      && (c.GetLoadValue? || c.GetSwing? ==> c.n in s.queues[q].list && c.hd == s.queues[q].head)
      && (c.GetFree? ==> forall l | Lies(s, c.hd, l) :: l == ConsumerHand(q))
  {
    RunInv(run, k);
    var s, c := run[k], run[k].queues[q].consumer;
    assert QueueOk(s, s.queues[q]);
    if c.GetFree? {
      assert Lies(s, c.hd, ConsumerHand(q));
    }
  }

  ghost predicate ReadNull(s: State, q: nat) {
    q < |s.queues| && s.queues[q].consumer.GetCheckTail? && s.queues[q].consumer.nx == Nil
  }

  /** The consumer of q is about to read the link of head, and the queue is empty. */
  ghost predicate ReadsEmpty(s: State, q: nat) {
    q < |s.queues| && s.queues[q].consumer.GetLoadNext? && |s.queues[q].enq| == |s.queues[q].deq|
  }

  lemma ReadNullBefore(s: State, s': State, p: nat, q: nat)
    requires Inv(s) && Moves(s, s', p) && ReadNull(s', q)
    ensures ReadNull(s, q) || ReadsEmpty(s, q)
  {
    OnlyOneSide(s, s', p);
    assert q < |s.queues|;
    if p == q && ConsumerMoves(s, s', q) {
      var queue := s.queues[q];
      assert QueueOk(s, queue);
      assert |queue.list| > 1 ==> s.next[queue.list[0]] == To(queue.list[1]);
    }
  }

  lemma NothingReadFirst(run: Run, q: nat)
    ensures !ReadNull(run[0], q)
  {
    assert Init(run[0]);
  }

  lemma ReadNullEarlier(run: Run, k: nat, q: nat)
    requires k < |run| && ReadNull(run[k], q)
    ensures k > 0 && (ReadNull(run[k - 1], q) || ReadsEmpty(run[k - 1], q))
  {
    hide Inv, Moves, ReadNull, ReadsEmpty, Init;
    if k == 0 {
      NothingReadFirst(run, q);
    } else {
      RunInv(run, k - 1);
      assert Next(run[k - 1], run[k]);
      var p: nat :| Moves(run[k - 1], run[k], p);
      ReadNullBefore(run[k - 1], run[k], p, q);
    }
  }

  /**
   A consumer that has read a NULL link read it, in the same call, at a moment j when the queue was empty.  What
   the call then answers is said by LfQueueReuseCalls.
   */
  lemma {:induction false} NullMeansEmpty(run: Run, k: nat, q: nat) returns (j: nat)
    requires k < |run| && ReadNull(run[k], q)
    ensures j < k && ReadsEmpty(run[j], q)
    ensures forall m | j < m <= k :: ReadNull(run[m], q)
  {
    hide *;
    ReadNullEarlier(run, k, q);
    if ReadNull(run[k - 1], q) {
      j := NullMeansEmpty(run, k - 1, q);
    } else {
      j := k - 1;
    }
  }

  /** The nodes that two calls of lfqueue_init_mf leave in the pool. */
  ghost predicate Spare(n: nat) { 4 <= n < 600 }

  /** The configuration of the phone: a pool of 600 nodes, of which two queues take two each. */
  ghost function Phone(): (s: State)
    ensures Init(s) && |s.queues| == 2 && |s.loc| == 600
  {
    var place := (n: nat) =>
      if n == 0 then InList(0) else if n == 1 then Base(0)
      else if n == 2 then InList(1) else if n == 3 then Base(1) else Pool;
    State(
      [Queue(0, 0, 1, 0, PutIdle, GetIdle(NULL), [0], [], []), Queue(2, 2, 3, 0, PutIdle, GetIdle(NULL), [2], [], [])],
      set n: nat | 4 <= n < 600 && Spare(n), seq(600, _ => Nil), seq(600, _ => NULL), seq(600, place))
  }
}
