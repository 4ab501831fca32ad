/**
 src/lfqueue.c for one thread alone: the linked queue as an object, with the chain of retired nodes
 that are handed back more than two seconds later, and with lfqueue_destroy.

 The clock is a parameter: a call is given the times that its readings of the clock return, which never
 go back.  `_malloc` is a new node; what is handed to `_free` is recorded in freedNodes and freedValues.
 Alone, every compare-and-swap succeeds at once, so no retry loop goes round a second time.
 */
module LfQueue {
  import opened Memory

  /** Seconds that a retired node is kept. */
  const GRACE: int := 2

  class Node {
    const value: nat
    var next: Node?
    var nextfree: Node?
    var deactivated: int

    constructor (value: nat)
      ensures this.value == value && next == null && nextfree == null && deactivated == 0
    {
      this.value, next, nextfree, deactivated := value, null, null, 0;
    }
  }

  ghost predicate Sorted(times: seq<int>) {
    forall i, j | 0 <= i < j < |times| :: times[i] <= times[j]
  }

  /** How many times at the front are past the grace time, never counting the last one. */
  ghost function Expired(times: seq<int>, now: int): (k: nat)
    ensures k <= |times|
  {
    if |times| <= 1 || now - times[0] <= GRACE then 0 else 1 + Expired(times[1..], now)
  }

  /** In a sorted list these are exactly the times past the grace time, the last one apart. */
  lemma {:induction false} ExpiredExactly(times: seq<int>, now: int, i: nat)
    requires i < |times| && Sorted(times)
    ensures i < Expired(times, now) <==> i < |times| - 1 && now - times[i] > GRACE
  {
    if i > 0 && |times| > 1 && now - times[0] > GRACE {
      ExpiredExactly(times[1..], now, i - 1);
    }
  }

  /**
   A walk from the front that stops at the first time within the grace time, or at the last one, passes Expired
   times.
   */
  lemma {:induction false} ExpiredIs(times: seq<int>, now: int, k: nat)
    requires k < |times| && (forall i | 0 <= i < k :: now - times[i] > GRACE)
    requires k == |times| - 1 || now - times[k] <= GRACE
    ensures k == Expired(times, now)
  {
    if k > 0 {
      assert forall i | 0 <= i < k - 1 :: times[1..][i] == times[i + 1];
      ExpiredIs(times[1..], now, k - 1);
    }
  }

  function Values(list: seq<Node>): seq<nat>
    requires list != []
  {
    seq(|list| - 1, i requires 0 <= i < |list| - 1 => list[i + 1].value)
  }

  ghost function Times(nodes: seq<Node>): seq<int>
    reads nodes
  {
    seq(|nodes|, i requires 0 <= i < |nodes| reads nodes => nodes[i].deactivated)
  }

  ghost predicate Distinct(nodes: seq<Node>) {
    forall i, j | 0 <= i < j < |nodes| :: nodes[i] != nodes[j]
  }

  /**
   Nodes chained by nextfree in the order of retirement, with times that do not decrease and are not after the
   clock.
   */
  ghost predicate RetireChain(nodes: seq<Node>, clock: int)
    reads nodes
  {
    && nodes != [] && nodes[|nodes| - 1].nextfree == null
    && (forall i, j | 0 <= i < j < |nodes| && j == i + 1 :: nodes[i].nextfree == nodes[j])
    && (forall i, j | 0 <= i < j < |nodes| :: nodes[i].deactivated <= nodes[j].deactivated)
    && (forall i | 0 <= i < |nodes| :: nodes[i].deactivated <= clock)
  }

  /** The part of the chain before its last node, whose link may be anything. */
  ghost predicate Links(nodes: seq<Node>)
    reads nodes
  {
    forall i, j | 0 <= i < j < |nodes| && j == i + 1 :: nodes[i].nextfree == nodes[j]
  }

  ghost predicate Aged(nodes: seq<Node>, clock: int)
    reads nodes
  {
    && (forall i, j | 0 <= i < j < |nodes| :: nodes[i].deactivated <= nodes[j].deactivated)
    && (forall i | 0 <= i < |nodes| :: nodes[i].deactivated <= clock)
  }

  /** A chain grows at its end. */
  lemma RetireOneMore(nodes: seq<Node>, node: Node, clock: int)
    requires nodes != [] && Links(nodes) && Aged(nodes, clock) && clock <= node.deactivated
    requires nodes[|nodes| - 1].nextfree == node && node.nextfree == null
    ensures RetireChain(nodes + [node], node.deactivated)
    ensures Times(nodes + [node]) == Times(nodes) + [node.deactivated]
  {
  }

  lemma RetireSuffix(nodes: seq<Node>, clock: int, k: nat)
    requires RetireChain(nodes, clock) && k < |nodes|
    ensures RetireChain(nodes[k..], clock)
  {
  }

  /** The first k entries are exactly those past the grace time, the last entry apart. */
  ghost predicate PastGrace(times: seq<int>, now: int, k: nat) {
    forall i | 0 <= i < |times| :: i < k <==> i < |times| - 1 && now - times[i] > 2
  }

  /** The retired nodes past the grace time. */
  lemma ExpiredNodes(nodes: seq<Node>, clock: int, now: int)
    requires RetireChain(nodes, clock)
    ensures PastGrace(Times(nodes), now, Expired(Times(nodes), now))
  {
    forall i | 0 <= i < |nodes|
      ensures i < Expired(Times(nodes), now) <==> i < |nodes| - 1 && now - Times(nodes)[i] > GRACE
    {
      ExpiredExactly(Times(nodes), now, i);
    }
  }

  /** Nodes chained by next, with values that are not NULL behind the first. */
  ghost predicate LinkChain(nodes: seq<Node>)
    reads nodes
  {
    && nodes != [] && nodes[|nodes| - 1].next == null
    && (forall i, j | 0 <= i < j < |nodes| && j == i + 1 :: nodes[i].next == nodes[j])
    && (forall i | 0 < i < |nodes| :: nodes[i].value != NULL)
    && (forall i | 0 <= i < |nodes| :: nodes[i].nextfree == null)
  }

  /** Nodes chained by next up to the last, whose link may be anything. */
  ghost predicate Joined(nodes: seq<Node>)
    reads nodes
  {
    && (forall i, j | 0 <= i < j < |nodes| && j == i + 1 :: nodes[i].next == nodes[j])
    && (forall i | 0 < i < |nodes| :: nodes[i].value != NULL)
    && (forall i | 0 <= i < |nodes| :: nodes[i].nextfree == null)
  }

  /** A list grows at its end. */
  lemma LinkOneMore(nodes: seq<Node>, node: Node)
    requires nodes != [] && Joined(nodes) && nodes[|nodes| - 1].next == node
    requires node.value != NULL && node.next == null && node.nextfree == null
    ensures LinkChain(nodes + [node])
  {
  }

  lemma Regroup(freed: seq<Node>, retired: seq<Node>, list: seq<Node>, k: nat)
    requires k <= |retired|
    ensures freed + retired + list == freed + retired[..k] + retired[k..] + list
  {
  }

  /** A new node behind the list is accounted for like the others. */
  lemma OneMoreNode(freed: seq<Node>, retired: seq<Node>, list: seq<Node>, node: Node)
    requires Distinct(freed + retired + list) && node !in freed + retired + list
    ensures Distinct(freed + retired + (list + [node]))
    ensures forall n :: n in freed + retired + (list + [node]) <==> n in freed + retired + list || n == node
  {
    assert freed + retired + (list + [node]) == freed + retired + list + [node];
  }

  /** Where the node at index i was before the head was moved behind f nodes, past r others. */
  function Came(f: nat, r: nat, i: nat): nat {
    if i < f then i else if i == f then f + r else if i <= f + r then i - 1 else i
  }

  /** Moving the head of the list to the nodes handed back loses nothing and doubles nothing. */
  lemma FreeHead(freed: seq<Node>, retired: seq<Node>, list: seq<Node>)
    requires list != [] && Distinct(freed + retired + list)
    ensures Distinct(freed + [list[0]] + retired + list[1..])
    ensures forall n :: n in freed + [list[0]] + retired + list[1..] <==> n in freed + retired + list
  {
    var all, moved := freed + retired + list, freed + [list[0]] + retired + list[1..];
    var f, r := |freed|, |retired|;
    forall i, j | 0 <= i < j < |moved| ensures moved[i] != moved[j] {
      assert moved[i] == all[Came(f, r, i)] && moved[j] == all[Came(f, r, j)] && Came(f, r, i) != Came(f, r, j);
    }
  }

  class Queue {
    var head: Node
    var tail: Node
    var rootFree: Node
    var moveFree: Node
    var size: int
    var inFreeMode: bool
    var freedNodes: seq<Node>
    var freedValues: seq<nat>

    ghost var list: seq<Node>        // the queue from head on
    ghost var retired: seq<Node>     // the chain from rootFree on
    ghost var everything: set<Node>  // every node allocated for this queue
    ghost var clock: int             // no time stored in a node is later

    ghost predicate Chained()
      reads this, list
    {
      LinkChain(list) && head == list[0] && tail == list[|list| - 1]
    }

    ghost predicate Retiring()
      reads this, retired
    {
      RetireChain(retired, clock) && rootFree == retired[0] && moveFree == retired[|retired| - 1]
    }

    /** Every node allocated is handed back, retired or in the list, and only once. */
    ghost predicate Accounted()
      reads this
    {
      && Distinct(freedNodes + retired + list)
      && everything == set node | node in freedNodes + retired + list
    }

    ghost predicate Structured()
      reads this, list, retired
    {
      Accounted() && Chained() && Retiring() && !inFreeMode
    }

    ghost predicate Valid()
      reads this, list, retired
    {
      Structured() && size == |list| - 1
    }

    /** The queued values, oldest first. */
    ghost function Contents(): seq<nat>
      requires Valid()
      reads this, list, retired
    {
      Values(list)
    }

    /** lfqueue_init_mf. */
    constructor ()
      ensures Valid() && Contents() == [] && clock == 0
      ensures freedNodes == [] && freedValues == [] && fresh(everything) && |everything| == 2
    {
      var base := new Node(NULL);
      var freebase := new Node(NULL);
      head, tail, rootFree, moveFree := base, base, freebase, freebase;
      size, inFreeMode, freedNodes, freedValues := 0, false, [], [];
      list, retired, everything, clock := [base], [freebase], {freebase, base}, 0;
    }

    lemma Apart()
      requires Accounted()
      ensures Distinct(retired)
      ensures forall i, j | 0 <= i < j < |list| :: list[i] != list[j]
      ensures forall i, j | 0 <= i < j < |retired| :: retired[i] != retired[j]
      ensures forall i, j | 0 <= i < |list| && 0 <= j < |retired| :: list[i] != retired[j]
    {
      var f, r, all := |freedNodes|, |retired|, freedNodes + retired + list;
      assert forall i | 0 <= i < |list| :: all[f + r + i] == list[i];
      assert forall i | 0 <= i < |retired| :: all[f + i] == retired[i];
    }

    lemma Inside()
      requires Structured()
      ensures moveFree in everything && head in everything
    {
      assert moveFree in retired && head in list;
    }

    /** The loop of __lfq_check_free. */
    method Walk(now: int) returns (rtfree: Node, ghost k: nat)
      requires Accounted() && Retiring()
      modifies this`freedNodes
      ensures k < |retired| && rtfree == retired[k] && k == Expired(Times(retired), now)
      ensures freedNodes == old(freedNodes) + retired[..k]
      ensures RetireChain(retired[k..], clock) && retired[k..][0] == rtfree
    {
      Apart();
      rtfree := rootFree;
      k := 0;
      while rtfree != moveFree
        invariant 0 <= k < |retired| && rtfree == retired[k]
        invariant forall i | 0 <= i < k :: now - Times(retired)[i] > GRACE
        invariant freedNodes == old(freedNodes) + retired[..k]
        decreases |retired| - k
      {
        var nextfree := rtfree.nextfree;
        if now - rtfree.deactivated <= GRACE {
          break;
        }
        assert retired[k].nextfree == retired[k + 1];
        assert retired[..k + 1] == retired[..k] + [rtfree];
        freedNodes := freedNodes + [rtfree];
        rtfree := nextfree;
        k := k + 1;
      }
      ExpiredIs(Times(retired), now, k);
      RetireSuffix(retired, clock, k);
    }

    /** __lfq_check_free: hands back exactly the nodes past the grace time, other than the newest retired one. */
    method CheckFree(now: int)
      requires Structured() && clock <= now
      modifies this`rootFree, this`freedNodes, this`inFreeMode, this`retired
      ensures Structured()
      ensures var k := Expired(old(Times(retired)), now);
        && k < |old(retired)| && freedNodes == old(freedNodes) + old(retired)[..k] && retired == old(retired)[k..]
        && PastGrace(old(Times(retired)), now, k)
    {
      hide Distinct, LinkChain, RetireChain, Times, Expired, PastGrace;
      ExpiredNodes(retired, clock, now);
      inFreeMode := true;
      var rtfree;
      ghost var k;
      rtfree, k := Walk(now);
      Regroup(old(freedNodes), retired, list, k);
      rootFree := rtfree;
      retired := retired[k..];
      inFreeMode := false;
    }

    /** The linking part of _enqueue. */
    method Link(value: nat) returns (node: Node)
      requires Structured() && value != NULL
      modifies this`tail, this`list, this`everything, tail`next
      ensures Structured() && fresh(node) && node.value == value
      ensures list == old(list) + [node] && everything == old(everything) + {node}
      ensures Times(retired) == old(Times(retired))
    {
      Apart();
      hide RetireChain, Times, Distinct;
      node := new Node(value);
      assert node !in everything;
      OneMoreNode(freedNodes, retired, list, node);
      var tl := tail;
      assert tl !in retired;
      tl.next := node;
      tail := node;
      assert Joined(list);
      hide Joined, LinkChain;
      LinkOneMore(list, node);
      list, everything := list + [node], everything + {node};
    }

    /** __lfq_recycle_free: a node that left the list goes to the end of the chain, with the time of its retirement. */
    method Recycle(freenode: Node, now: int)
      requires Retiring() && Distinct(retired) && freenode !in retired && freenode.nextfree == null && clock <= now
      modifies this`moveFree, this`retired, this`clock, moveFree`nextfree, freenode`deactivated
      ensures Retiring() && retired == old(retired) + [freenode] && clock == now
      ensures Times(retired) == old(Times(retired)) + [now]
    {
      var freed := moveFree;
      freed.nextfree := freenode;
      freenode.deactivated := now;
      moveFree := freenode;
      assert Links(retired) && Aged(retired, clock) && Times(retired) == old(Times(retired));
      hide Links, Aged, RetireChain, Times;
      RetireOneMore(retired, freenode, clock);
      retired, clock := retired + [freenode], now;
    }

    /** The part of _dequeue before the free chain is checked. */
    method Take(now: int) returns (val: nat)
      requires Structured() && clock <= now
      modifies this`head, this`list, this`moveFree, this`retired, this`clock, moveFree`nextfree, head`deactivated
      ensures Structured()
      ensures if |old(list)| == 1
        then val == NULL && list == old(list) && retired == old(retired) && clock == old(clock)
        else |old(list)| > 1 && val == old(list)[1].value && val != NULL && list == old(list)[1..]
             && retired == old(retired) + [old(head)] && clock == now
      ensures Times(retired) == old(Times(retired)) + if |old(list)| == 1 then [] else [now]
    {
      hide Times, Distinct;
      Apart();
      var hd := head;
      var nx := hd.next;
      if tail == hd {
        val := NULL;
      } else {
        assert list[0].next == list[1];
        val := nx.value;
        head := nx;
        Recycle(hd, now);
        assert freedNodes + retired + list[1..] == freedNodes + old(retired) + list;
        list := list[1..];
      }
    }

    /** lfqueue_enq: appends the value, then hands back the expired nodes.  The allocator does not fail. */
    method Enqueue(value: nat, now: int)
      requires Valid() && value != NULL && clock <= now
      modifies this, tail`next
      ensures Valid() && clock == old(clock) && Contents() == old(Contents()) + [value]
      ensures old(everything) < everything && fresh(everything - old(everything)) && |everything - old(everything)| == 1
      ensures var k := Expired(old(Times(retired)), now);
        k < |old(retired)| && freedNodes == old(freedNodes) + old(retired)[..k] && retired == old(retired)[k..]
      ensures freedValues == old(freedValues)
    {
      hide Distinct, LinkChain, RetireChain, Times, Expired;
      var node := Link(value);
      CheckFree(now);
      size := size + 1;
    }

    /**
     lfqueue_deq: removes and returns the oldest value, retires its predecessor, then hands back the expired
     nodes.
     */
    method Dequeue(now: int, later: int) returns (val: nat)
      requires Valid() && clock <= now <= later
      modifies this, moveFree`nextfree, head`deactivated
      ensures Valid() && clock <= now
      ensures if old(Contents()) == [] then val == NULL && Contents() == []
              else val != NULL && old(Contents()) == [val] + Contents()
      ensures everything == old(everything) && freedValues == old(freedValues)
      ensures var empty := old(Contents()) == [];
        var chain := old(retired) + if empty then [] else [old(head)];
        var k := Expired(old(Times(retired)) + if empty then [] else [now], later);
        k < |chain| && freedNodes == old(freedNodes) + chain[..k] && retired == chain[k..]
    {
      hide Distinct, LinkChain, RetireChain, Times, Expired;
      val := Take(now);
      CheckFree(later);
      if val != NULL {
        size := size - 1;
      }
    }

    /**
     lfqueue_single_deq: removes and returns the oldest value and hands its predecessor back at once, without
     the free chain.
     */
    method SingleDequeue() returns (val: nat)
      requires Valid()
      modifies this`head, this`list, this`freedNodes, this`size
      ensures Valid() && everything == old(everything) && retired == old(retired)
      ensures if old(Contents()) == [] then val == NULL && Contents() == [] && freedNodes == old(freedNodes)
              else val != NULL && old(Contents()) == [val] + Contents() && freedNodes == old(freedNodes) + [old(head)]
    {
      Apart();
      var hd := head;
      var next := hd.next;
      if tail == hd {
        return NULL;
      }
      assert list[0].next == list[1];
      val := next.value;
      head := next;
      FreeHead(freedNodes, retired, list);
      freedNodes := freedNodes + [hd];
      list := list[1..];
      size := size - 1;
    }

    /**
     lfqueue_destroy.  Whatever calls came before, it hands back every node allocated for the queue exactly
     once, and it also passes every value that was still queued to _free, in order.
     */
    method Destroy(times: seq<int>)
      requires Valid() && Sorted(times) && |times| >= 2 * |Contents()| + 2 && clock <= times[0]
      modifies this, everything
      ensures Distinct(freedNodes) && old(everything) == set node | node in freedNodes
      ensures freedValues == old(freedValues) + old(Contents()) && size == 0
    {
      hide Distinct, LinkChain, RetireChain, Times, Expired, Values;
      Drain(times);
      DestroyChain();
    }

    /** The loop of lfqueue_destroy that dequeues every value and passes it to _free. */
    method Drain(times: seq<int>)
      requires Valid() && Sorted(times) && |times| >= 2 * |Contents()| + 2 && clock <= times[0]
      modifies this, everything
      ensures Valid() && Contents() == [] && everything == old(everything)
      ensures freedValues == old(freedValues) + old(Contents())
    {
      hide Distinct, LinkChain, RetireChain, Times, Expired, Values;
      Inside();
      var i := 0;
      var p := Dequeue(times[0], times[1]);
      while p != NULL
        invariant Valid() && everything == old(everything)
        invariant 0 <= i && i + 2 <= |times| && clock <= times[i + 1]
        invariant if p == NULL then Contents() == [] && freedValues == old(freedValues) + old(Contents())
                  else freedValues + [p] + Contents() == old(freedValues) + old(Contents())
                       && i + 2 + 2 * |Contents()| + 2 <= |times|
        decreases |Contents()| + if p == NULL then 0 else 1
      {
        freedValues := freedValues + [p];
        i := i + 2;
        Inside();
        p := Dequeue(times[i], times[i + 1]);
      }
    }

    /** The rest of lfqueue_destroy, on an empty queue. */
    method DestroyChain()
      requires Valid() && Contents() == []
      modifies this`freedNodes, this`size
      ensures freedNodes == old(freedNodes) + retired + list && size == 0
    {
      Apart();
      ghost var k := 0;
      var rtfree := rootFree;
      while rtfree != moveFree
        invariant 0 <= k < |retired| && rtfree == retired[k]
        invariant freedNodes == old(freedNodes) + retired[..k]
        decreases |retired| - k
        modifies this`freedNodes
      {
        assert retired[k].nextfree == retired[k + 1];
        assert retired[..k + 1] == retired[..k] + [rtfree];
        var nextfree := rtfree.nextfree;
        freedNodes := freedNodes + [rtfree];
        rtfree := nextfree;
        k := k + 1;
      }
      assert retired == retired[..k] + [rtfree] && list == [tail];
      freedNodes := freedNodes + [rtfree];
      freedNodes := freedNodes + [tail];
      size := 0;
    }
  }
}
