/**
 The parts of src/audio.c that one thread runs alone: Audio_init, the clearing of the queues at the end
 of Audio_stop, and Audio_teardown.  Nothing interrupts their calls of the pools, which LfRing proves exact.
 */
module Audio {
  import opened AudioMachine
  import opened AudioPromises
  import opened AudioSound
  import opened Counting

  /** RingBuffer_enqueue on a pool of the given size, called alone: a full pool drops the entry. */
  function Offer(pool: seq<nat>, size: nat, x: nat): seq<nat> {
    if |pool| < size then pool + [x] else pool
  }

  /** Offers the entries of q to a pool one after the other. */
  function OfferAll(pool: seq<nat>, size: nat, q: seq<nat>): seq<nat>
    decreases |q|
  {
    if q == [] then pool else OfferAll(Offer(pool, size, q[0]), size, q[1..])
  }

  /** No real buffer comes after an entry of totalSilence. */
  ghost predicate SilenceLast(q: seq<nat>) {
    forall i, j | 0 <= i < j < |q| && q[i] == SILENT :: q[j] == SILENT
  }

  /** The pool holds each of the 300 buffers once and nothing else. */
  ghost predicate Complete(pool: seq<nat>) {
    forall b: nat :: Copies(pool, b) == One(b < FREE_BUFFERS)
  }

  /** All threads have ended: nothing is in a hand. */
  ghost predicate Ended(b: Buffers) {
    b.fill == FillDone && b.cb == CbIdle && b.flush == FlDone
  }

  lemma {:induction false} OfferAllKeeps(pool: seq<nat>, size: nat, q: seq<nat>, b: nat)
    ensures Copies(OfferAll(pool, size, q), b) >= Copies(pool, b)
    decreases |q|
  {
    if q != [] {
      Append(pool, q[0], b);
      OfferAllKeeps(Offer(pool, size, q[0]), size, q[1..], b);
    }
  }

  /** Distinct real buffers all find room. */
  lemma {:induction false} OfferReal(pool: seq<nat>, q: seq<nat>)
    requires Copies(pool, SILENT) == 0 && Copies(q, SILENT) == 0
    requires forall b: nat :: b != SILENT ==> Copies(pool, b) + Copies(q, b) <= One(b < FREE_BUFFERS)
    ensures OfferAll(pool, FREE_BUFFERS, q) == pool + q
    decreases |q|
  {
    if q == [] {
      assert pool + q == pool;
    } else {
      var x := q[0];
      assert x != SILENT ==> Copies(pool, x) + Copies(q, x) <= One(x < FREE_BUFFERS);
      Missing(pool, x, FREE_BUFFERS);
      forall b: nat
        ensures Copies(pool + [x], b) == Copies(pool, b) + One(x == b)
        ensures b != SILENT ==> Copies(pool + [x], b) + Copies(q[1..], b) <= One(b < FREE_BUFFERS)
      {
        Append(pool, x, b);
        assert b != SILENT ==> Copies(pool, b) + Copies(q, b) <= One(b < FREE_BUFFERS);
      }
      OfferReal(pool + [x], q[1..]);
      assert pool + [x] + q[1..] == pool + q;
    }
  }

  /** A pool with all real buffers is full. */
  lemma FullPool(pool: seq<nat>)
    requires Complete(pool)
    ensures |pool| == FREE_BUFFERS
  {
    LengthFromCopies(pool, FREE_BUFFERS, SILENT);
  }

  /**
   Emptying the record queue into a pool that holds the other buffers leaves a complete pool if and
   only if no real buffer waits behind an entry of totalSilence.
   */
  lemma {:induction false} RecordIntoPool(pool: seq<nat>, q: seq<nat>)
    requires Copies(pool, SILENT) == 0
    requires forall b: nat :: b != SILENT ==> Copies(pool, b) + Copies(q, b) == One(b < FREE_BUFFERS)
    ensures Complete(OfferAll(pool, FREE_BUFFERS, q)) <==> SilenceLast(q)
    decreases |q|, 1
  {
    if q == [] {
      forall b: nat ensures Copies(pool, b) == One(b < FREE_BUFFERS) {
        assert b != SILENT ==> Copies(pool, b) + Copies(q, b) == One(b < FREE_BUFFERS);
      }
    } else if q[0] != SILENT {
      RealFirst(pool, q);
    } else {
      SilenceFirst(pool, q);
    }
  }

  lemma {:induction false} RealFirst(pool: seq<nat>, q: seq<nat>)
    requires q != [] && q[0] != SILENT && Copies(pool, SILENT) == 0
    requires forall b: nat :: b != SILENT ==> Copies(pool, b) + Copies(q, b) == One(b < FREE_BUFFERS)
    ensures Complete(OfferAll(pool, FREE_BUFFERS, q)) <==> SilenceLast(q)
    decreases |q|, 0
  {
    var x := q[0];
    assert Copies(pool, x) + Copies(q, x) == One(x < FREE_BUFFERS);
    forall b: nat ensures Copies(pool, b) <= One(b < FREE_BUFFERS) {
      assert b != SILENT ==> Copies(pool, b) + Copies(q, b) == One(b < FREE_BUFFERS);
    }
    Missing(pool, x, FREE_BUFFERS);
    forall b: nat
      ensures Copies(pool + [x], b) == Copies(pool, b) + One(x == b)
      ensures b != SILENT ==> Copies(pool + [x], b) + Copies(q[1..], b) == One(b < FREE_BUFFERS)
    {
      Append(pool, x, b);
      assert b != SILENT ==> Copies(pool, b) + Copies(q, b) == One(b < FREE_BUFFERS);
    }
    RecordIntoPool(pool + [x], q[1..]);
    assert SilenceLast(q) <==> SilenceLast(q[1..]) by {
      assert forall j | 0 <= j < |q[1..]| :: q[1..][j] == q[j + 1];
      assert forall j | 0 < j < |q| :: q[j] == q[1..][j - 1];
    }
  }

  lemma {:induction false} SilenceFirst(pool: seq<nat>, q: seq<nat>)
    requires q != [] && q[0] == SILENT && Copies(pool, SILENT) == 0
    requires forall b: nat :: b != SILENT ==> Copies(pool, b) + Copies(q, b) == One(b < FREE_BUFFERS)
    ensures Complete(OfferAll(pool, FREE_BUFFERS, q)) <==> SilenceLast(q)
    decreases |q|, 0
  {
    forall b: nat ensures Copies(pool, b) <= One(b < FREE_BUFFERS) {
      assert b != SILENT ==> Copies(pool, b) + Copies(q, b) == One(b < FREE_BUFFERS);
    }
    if SilenceLast(q) {
      forall b: nat | b != SILENT ensures Copies(q, b) == 0 {
        CopiesIn(q, b);
      }
      forall b: nat ensures Copies(pool, b) == One(b < FREE_BUFFERS) {
        assert b != SILENT ==> Copies(pool, b) + Copies(q, b) == One(b < FREE_BUFFERS);
      }
      FullPool(pool);
      OfferSilence(pool, q);
    } else {
      var i, j :| 0 <= i < j < |q| && q[i] == SILENT && q[j] != SILENT;
      CopiesIn(q, q[j]);
      assert Copies(pool, q[j]) + Copies(q, q[j]) == One(q[j] < FREE_BUFFERS);
      Missing(pool, q[j], FREE_BUFFERS);
      Append(pool, SILENT, SILENT);
      OfferAllKeeps(pool + [SILENT], FREE_BUFFERS, q[1..], SILENT);
    }
  }

  /** A full pool refuses everything. */
  lemma {:induction false} OfferSilence(pool: seq<nat>, q: seq<nat>)
    requires |pool| >= FREE_BUFFERS
    ensures OfferAll(pool, FREE_BUFFERS, q) == pool
  {
    if q != [] {
      OfferSilence(pool, q[1..]);
    }
  }

  /** What clearAllQueues makes of the free pool. */
  function Cleared(b: Buffers): seq<nat> {
    OfferAll(OfferAll(b.free, FREE_BUFFERS, b.playback), FREE_BUFFERS, b.record)
  }

  lemma {:induction false} OfferAllAtMost(pool: seq<nat>, size: nat, q: seq<nat>, b: nat)
    ensures Copies(OfferAll(pool, size, q), b) <= Copies(pool, b) + Copies(q, b)
    decreases |q|
  {
    if q != [] {
      Append(pool, q[0], b);
      OfferAllAtMost(Offer(pool, size, q[0]), size, q[1..], b);
    }
  }

  /** A buffer that the pool refused earlier does not come back by clearing. */
  lemma LostStaysLost(b: Buffers)
    requires Owned(b) && b.lost != []
    ensures !Complete(Cleared(b))
  {
    var x := b.lost[0];
    assert Held(b, x) == One(x < FREE_BUFFERS);
    var first := OfferAll(b.free, FREE_BUFFERS, b.playback);
    OfferAllAtMost(b.free, FREE_BUFFERS, b.playback, x);
    OfferAllAtMost(first, FREE_BUFFERS, b.record, x);
  }

  lemma NothingLost(b: Buffers)
    requires Owned(b) && Ended(b) && b.lost == []
    ensures Complete(Cleared(b)) <==> SilenceLast(b.record)
  {
    forall x: nat
      ensures x != SILENT ==>
        Copies(b.free, x) + Copies(b.playback, x) + Copies(b.record, x) == One(x < FREE_BUFFERS)
    {
      assert x != SILENT ==> Held(b, x) == One(x < FREE_BUFFERS);
    }
    OfferReal(b.free, b.playback);
    forall x: nat ensures Copies(b.free + b.playback, x) == Copies(b.free, x) + Copies(b.playback, x) {
      CopiesConcat(b.free, b.playback, x);
    }
    RecordIntoPool(b.free + b.playback, b.record);
  }

  /**
   clearAllQueues gets every buffer back if and only if no real buffer waits behind totalSilence in the
   record queue and the pool never refused one.
   */
  lemma ClearedComplete(b: Buffers)
    requires Owned(b) && Ended(b)
    ensures Complete(Cleared(b)) <==> SilenceLast(b.record) && b.lost == []
  {
    if b.lost == [] {
      NothingLost(b);
    } else {
      LostStaysLost(b);
    }
  }

  /** A dequeued entry gives the node in front of it back. */
  function PlaybackNodeBack(n: Nodes): Nodes
    requires n.playback != []
  {
    n.(playback := n.playback[1..], free := Offer(n.free, FREE_NODES, n.playback[0]), write := n.write + 1)
  }

  function RecordNodeBack(n: Nodes): Nodes
    requires n.record != []
  {
    n.(record := n.record[1..], free := Offer(n.free, FREE_NODES, n.record[0]), write := n.write + 1)
  }

  /** What clearAllQueues does to the nodes. */
  function ClearedNodes(n: Nodes): Nodes
    decreases |n.playback| + |n.record|
  {
    if |n.playback| > 1 then
      ClearedNodes(PlaybackNodeBack(n))
    else if |n.record| > 1 then
      ClearedNodes(RecordNodeBack(n))
    else n
  }

  /** No thread is inside a call: no node is in a hand or lost, and the pointers bound the pool. */
  ghost predicate AtRest(n: Nodes) {
    && NodesOwned(n) && n.playback != [] && n.record != []
    && n.playHand == n.recHand == n.lost == [] && n.write == n.read + |n.free|
  }

  lemma NodeBack(n: Nodes, n': Nodes, x: nat)
    requires AtRest(n)
    requires || (|n.playback| > 1 && x == n.playback[0] && n' == PlaybackNodeBack(n))
             || (|n.record| > 1 && x == n.record[0] && n' == RecordNodeBack(n))
    ensures |n.free| < FREE_NODES && AtRest(n')
  {
    assert NodeHeld(n, x) == One(x < FREE_NODES) && Copies(n.free, x) == 0;
    forall y: nat ensures Copies(n.free, y) <= One(y < FREE_NODES) {
      assert NodeHeld(n, y) == One(y < FREE_NODES);
    }
    Missing(n.free, x, FREE_NODES);
    forall y: nat ensures NodeHeld(n', y) == NodeHeld(n, y) {
      Append(n.free, x, y);
    }
  }

  lemma {:induction false} ClearedNodesOwned(n: Nodes)
    requires AtRest(n)
    ensures var n' := ClearedNodes(n); AtRest(n') && |n'.playback| == |n'.record| == 1
    decreases |n.playback| + |n.record|
  {
    hide NodesOwned, Copies;
    if |n.playback| > 1 {
      NodeBack(n, PlaybackNodeBack(n), n.playback[0]);
      ClearedNodesOwned(PlaybackNodeBack(n));
    } else if |n.record| > 1 {
      NodeBack(n, RecordNodeBack(n), n.record[0]);
      ClearedNodesOwned(RecordNodeBack(n));
    }
  }

  /** The end of every run: after the three threads have ended, clearing gives a complete pool exactly in that case. */
  lemma SessionEnds(run: Run, k: nat)
    requires k < |run| && Ended(run[k].b)
    ensures Complete(Cleared(run[k].b)) <==> SilenceLast(run[k].b.record) && run[k].b.lost == []
  {
    RunInv(run, k);
    ClearedComplete(run[k].b);
  }

  /** The state in which the next Audio_start begins after Audio_stop has cleared the queues. */
  ghost function Restarted(s: State): State {
    var free := Cleared(s.b);
    s.(b := Buffers(free, [], [], FillLoop, CbIdle, FlLoop, [], s.b.read, s.b.read + |free|), n := ClearedNodes(s.n),
       d := s.d.(produced := [], queued := [], leaks := 0, outputs := [], heard := [], captured := [], missed := 0,
                 logged := [], consumed := []))
  }

  /** A pool that is complete is a pool to start from, and no other is. */
  lemma CompleteIsOwned(b: Buffers)
    requires b == Buffers(b.free, [], [], FillLoop, CbIdle, FlLoop, [], b.read, b.write)
    ensures Owned(b) <==> Complete(b.free)
  {
    forall x: nat ensures Held(b, x) == Copies(b.free, x) {
      NoCopies(x);
    }
    hide Held, Copies;
    NoCopies(SILENT);
    if Complete(b.free) {
      assert Copies(b.free, SILENT) == One(SILENT < FREE_BUFFERS);
      forall x: nat ensures Held(b, x) == One(x < FREE_BUFFERS) {
        assert Copies(b.free, x) == One(x < FREE_BUFFERS);
      }
    }
    if Owned(b) {
      forall x: nat ensures Copies(b.free, x) == One(x < FREE_BUFFERS) {
        assert x != SILENT ==> Held(b, x) == One(x < FREE_BUFFERS);
      }
    }
  }

  lemma EndsAtRest(run: Run, k: nat)
    requires k < |run| && Ended(run[k].b) && run[k].exit == Running
    ensures AtRest(run[k].n) && |run[k].d.mem| == FREE_BUFFERS + 1 && run[k].d.mem[SILENT] == Silence()
  {
    hide NodesOwned, Owned;
    RunInv(run, k);
  }

  /**
   The next session begins from a proper start, so that all theorems about runs hold again, exactly after a
   clean end.
   */
  lemma RestartIsInit(run: Run, k: nat)
    requires k < |run| && Ended(run[k].b) && run[k].exit == Running
    ensures Init(Restarted(run[k])) <==> SilenceLast(run[k].b.record) && run[k].b.lost == []
  {
    hide Owned, NodesOwned, Complete, SilenceLast, Cleared, ClearedNodes;
    SessionEnds(run, k);
    EndsAtRest(run, k);
    ClearedNodesOwned(run[k].n);
    CompleteIsOwned(Restarted(run[k]).b);
  }

  // ---------- lfqueue_destroy on a queue whose nodes come from the pool ----------

  /** Memory blocks are numbered: nodes 0 to 599, and frame buffer b is block 600 + b. */
  function Blocks(values: seq<nat>): (blocks: seq<nat>)
    ensures |blocks| == |values|
  {
    seq(|values|, i requires 0 <= i < |values| => FREE_NODES + values[i])
  }

  /** How many blocks lfqueue_destroy hands to bufferFree when so many entries are queued. */
  function Offered(entries: nat): nat { 2 * entries + 2 }

  /** One round of the loop below keeps all blocks. */
  lemma DestroyRound(offers: seq<nat>, retired: seq<nat>, list: seq<nat>, queue: seq<nat>, k: nat)
    requires list != [] && queue != [] && k <= |retired|
    ensures var chain := retired + [list[0]];
      multiset(offers + chain[..k] + [FREE_NODES + queue[0]]) + multiset(chain[k..]) + multiset(list[1..])
        + multiset(Blocks(queue[1..]))
      == multiset(offers) + multiset(retired) + multiset(list) + multiset(Blocks(queue))
  {
    var chain, frame := retired + [list[0]], FREE_NODES + queue[0];
    assert chain[..k] + chain[k..] == chain;
    assert [list[0]] + list[1..] == list;
    assert [frame] + Blocks(queue[1..]) == Blocks(queue);
    var after: multiset<nat> := multiset(offers + chain[..k] + [frame]) + multiset(chain[k..]) + multiset(list[1..])
                                + multiset(Blocks(queue[1..]));
    var before: multiset<nat> := multiset(offers) + multiset(retired) + multiset(list) + multiset(Blocks(queue));
    forall x: nat ensures after[x] == before[x] {
      assert multiset(chain[..k] + chain[k..])[x] == multiset(chain)[x];
      assert multiset([list[0]] + list[1..])[x] == multiset(list)[x];
      assert multiset([frame] + Blocks(queue[1..]))[x] == multiset(Blocks(queue))[x];
    }
    assert after == before;
  }

  /**
   lfqueue_destroy: dequeues every entry and hands its frame buffer to bufferFree, then the rest of the
   retired chain and the last node.  On the way each dequeue hands back some expired nodes, never the one
   just retired; the clock decides how many.
   */
  method Destroy(values: seq<nat>, nodes: seq<nat>, base: nat, expired: seq<nat>) returns (offers: seq<nat>)
    requires |nodes| == |values| + 1
    ensures |offers| == Offered(|values|)
    ensures multiset(offers) == multiset(Blocks(values)) + multiset(nodes) + multiset{base}
  {
    offers := [];
    var queue, list, retired, i := values, nodes, [base], 0;
    while queue != []
      invariant |list| == |queue| + 1 && retired != []
      invariant |offers| + |retired| + |list| + |queue| == Offered(|values|)
      invariant multiset(offers) + multiset(retired) + multiset(list) + multiset(Blocks(queue))
             == multiset(Blocks(values)) + multiset(nodes) + multiset{base}
      decreases |queue|
    {
      var k := if i < |expired| && expired[i] <= |retired| then expired[i] else 0;
      DestroyRound(offers, retired, list, queue, k);
      var chain := retired + [list[0]];
      offers := offers + chain[..k] + [FREE_NODES + queue[0]];
      retired, list, queue, i := chain[k..], list[1..], queue[1..], i + 1;
    }
    assert list == [list[0]];
    offers := offers + retired + [list[0]];
  }

  class AudioModule {
    var freeBuffers: seq<nat>
    var playback: seq<nat>
    var record: seq<nat>
    var freeNodes: seq<nat>
    var playNodes: seq<nat>
    var recNodes: seq<nat>
    var playBase: nat
    var recBase: nat

    /** The pools and queues as values; the pointers of the pools are counted from here on. */
    ghost function NodeState(): Nodes
      reads this
    {
      Nodes(freeNodes, playNodes, recNodes, playBase, recBase, [], [], [], 0, |freeNodes|)
    }

    ghost function BufferState(): Buffers
      reads this
    {
      Buffers(freeBuffers, playback, record, FillDone, CbIdle, FlDone, [], 0, |freeBuffers|)
    }

    /** Every queue entry has its node, and every node is in one place. */
    ghost predicate Valid()
      reads this
    {
      NodesOwned(NodeState()) && |playNodes| == |playback| + 1 && |recNodes| == |record| + 1
    }

    /** Audio_init: 300 frame buffers and 600 nodes are allocated, and each queue takes two nodes. */
    constructor ()
      ensures Valid() && playback == [] && record == []
      ensures freeBuffers == Fresh().b.free && NodeState() == Fresh().n.(read := 0, write := |freeNodes|)
    {
      var buffers: seq<nat> := [];
      for i := 0 to FREE_BUFFERS
        invariant buffers == Range(i)
      {
        buffers := Offer(buffers, FREE_BUFFERS, i);
      }
      var nodes: seq<nat> := [];
      for i := 0 to FREE_NODES
        invariant nodes == Range(i)
      {
        nodes := Offer(nodes, FREE_NODES, i);
      }
      freeBuffers, playback, record := buffers, [], [];
      // initRecordQueue, then initPlaybackQueue: a base node for the list, one for the free chain
      recNodes, recBase := [nodes[0]], nodes[1];
      playNodes, playBase := [nodes[2]], nodes[3];
      freeNodes := nodes[4..];
      new;
      FreshNodes();
      assert forall x: nat :: NodeHeld(NodeState(), x) == NodeHeld(Fresh().n, x);
    }

    /** Both loops of clearAllQueues; bufferFree always finds room for the node of a dequeued entry. */
    method ClearAllQueues()
      requires Valid()
      modifies this
      ensures Valid() && playback == [] && record == []
      ensures freeBuffers == Cleared(old(BufferState())) && NodeState() == ClearedNodes(old(NodeState()))
      ensures Owned(old(BufferState())) ==> (Complete(freeBuffers) <==> SilenceLast(old(record)))
    {
      hide NodesOwned, Owned, Complete, SilenceLast;
      if Owned(BufferState()) {
        ClearedComplete(BufferState());
      }
      while playback != []
        invariant Valid() && record == old(record)
        invariant ClearedNodes(NodeState()) == ClearedNodes(old(NodeState()))
        invariant OfferAll(OfferAll(freeBuffers, FREE_BUFFERS, playback), FREE_BUFFERS, record)
               == Cleared(old(BufferState()))
        decreases |playback|
      {
        NodeBack(NodeState(), PlaybackNodeBack(NodeState()), playNodes[0]);
        var discard := playback[0];
        playback := playback[1..];
        freeNodes, playNodes := Offer(freeNodes, FREE_NODES, playNodes[0]), playNodes[1..];
        freeBuffers := Offer(freeBuffers, FREE_BUFFERS, discard);
      }
      while record != []
        invariant Valid() && playback == []
        invariant ClearedNodes(NodeState()) == ClearedNodes(old(NodeState()))
        invariant OfferAll(freeBuffers, FREE_BUFFERS, record) == Cleared(old(BufferState()))
        decreases |record|
      {
        NodeBack(NodeState(), RecordNodeBack(NodeState()), recNodes[0]);
        var discard := record[0];
        record := record[1..];
        freeNodes, recNodes := Offer(freeNodes, FREE_NODES, recNodes[0]), recNodes[1..];
        freeBuffers := Offer(freeBuffers, FREE_BUFFERS, discard);
      }
    }

    /** bufferFree on each of these blocks, until it finds the pool full and leaves the program. */
    method BufferFreeAll(offers: seq<nat>) returns (exited: bool)
      requires |freeNodes| <= FREE_NODES
      modifies this`freeNodes
      ensures exited <==> |old(freeNodes)| + |offers| > FREE_NODES
      ensures !exited ==> freeNodes == old(freeNodes) + offers
    {
      for i := 0 to |offers|
        invariant freeNodes == old(freeNodes) + offers[..i] && |freeNodes| <= FREE_NODES
      {
        if |freeNodes| >= FREE_NODES {
          return true;
        }
        freeNodes := freeNodes + [offers[i]];
      }
      return false;
    }

    /**
     Audio_teardown.  bufferFree leaves the program exactly when an entry is still queued, whatever the clock
     does.  Otherwise each of the 600 nodes is freed exactly once, no frame buffer is freed as a node, and
     every buffer of the pool is freed.
     */
    method Teardown(expired: seq<nat>, expired': seq<nat>)
      returns (exited: bool, freed: seq<nat>, freedBuffers: seq<nat>)
      requires Valid()
      modifies this
      ensures exited <==> old(playback) != [] || old(record) != []
      ensures !exited ==> forall x: nat :: Copies(freed, x) == One(x < FREE_NODES)
      ensures !exited ==> freedBuffers == old(freeBuffers) && freeNodes == [] && freeBuffers == []
      ensures !exited && Complete(old(freeBuffers)) ==>
        forall b: nat :: Copies(freedBuffers, b) == One(b < FREE_BUFFERS)
    {
      hide NodesOwned;
      freed, freedBuffers := [], [];
      NodesOffered(NodeState());
      ghost var before := NodeState();
      var offers := Destroy(playback, playNodes, playBase, expired);
      exited := BufferFreeAll(offers);
      if exited {
        return;
      }
      var offers' := Destroy(record, recNodes, recBase, expired');
      exited := BufferFreeAll(offers');
      if exited {
        return;
      }
      NodesBack(before, offers, offers');
      freed := FreeAll(freeNodes);
      freeNodes := [];
      freedBuffers := FreeAll(freeBuffers);
      freeBuffers := [];
    }

    /** The loop that dequeues a pool until it is empty and frees what it gets. */
    static method FreeAll(pool: seq<nat>) returns (freed: seq<nat>)
      ensures freed == pool
    {
      var left := pool;
      freed := [];
      while left != []
        invariant freed + left == pool
        decreases |left|
      {
        freed, left := freed + [left[0]], left[1..];
      }
    }
  }

  /**
   The pool has room for what lfqueue_destroy offers to it from both queues if and only if both are drained:
   596 nodes are free, less one for each entry, and each entry offers two blocks.
   */
  lemma NodesOffered(n: Nodes)
    requires AtRest(n)
    ensures var p, r := |n.playback| - 1, |n.record| - 1;
      |n.free| + p + r + 4 == FREE_NODES && (|n.free| + Offered(p) + Offered(r) > FREE_NODES <==> p > 0 || r > 0)
  {
    var all := n.free + n.playback + n.record + [n.playBase] + [n.recBase];
    forall x: nat ensures Copies(all, x) == One(x < FREE_NODES) {
      CopiesConcat(n.free, n.playback, x);
      CopiesConcat(n.free + n.playback, n.record, x);
      Append(n.free + n.playback + n.record, n.playBase, x);
      Append(n.free + n.playback + n.record + [n.playBase], n.recBase, x);
      assert NodeHeld(n, x) == One(x < FREE_NODES);
    }
    LengthFromCopies(all, FREE_NODES, FREE_NODES);
  }

  /** With both queues drained, what they offer completes the pool to all 600 nodes, each once. */
  lemma NodesBack(n: Nodes, offers: seq<nat>, offers': seq<nat>)
    requires AtRest(n) && |n.playback| == |n.record| == 1
    requires multiset(offers) == multiset(n.playback) + multiset{n.playBase}
    requires multiset(offers') == multiset(n.record) + multiset{n.recBase}
    ensures forall x: nat :: Copies(n.free + offers + offers', x) == One(x < FREE_NODES)
  {
    forall x: nat ensures Copies(n.free + offers + offers', x) == One(x < FREE_NODES) {
      CopiesConcat(n.free, offers, x);
      CopiesConcat(n.free + offers, offers', x);
      CopiesCount(offers, x);
      CopiesCount(offers', x);
      CopiesCount(n.playback, x);
      CopiesCount(n.record, x);
      assert NodeHeld(n, x) == One(x < FREE_NODES);
    }
  }
}
