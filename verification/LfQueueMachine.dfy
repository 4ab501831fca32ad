/**
 The linked queue of src/lfqueue.c as a step machine: any number of threads run lfqueue_enq and
 lfqueue_deq, every load and compare-and-swap of the queue is one step, and the allocator always
 gives a node that was never used before.  Retired nodes stay as they are (the deferred free chain
 touches only `nextfree` and the time stamp), so their steps do not appear here.

 `linked` lists the nodes in the order in which they were linked, the first base node in front;
 `popped` and `swung` say where in that list head and tail point.
 */
module LfQueueMachine {
  import opened Memory

  /** Where a thread is; the comments name the line that its next step executes. */
  datatype Pc =
    | Idle(ret: nat)                              // outside; what the last call returned
    | EnqAlloc(v: nat)                            // 154-161
    | EnqLoadTail(v: nat, n: nat)                 // 164
    | EnqLink(v: nat, n: nat, tl: nat)            // 165
    | EnqSwing(n: nat, tl: nat)                   // 167
    | EnqCount                                    // 273
    | DeqLoadHead                                 // 90
    | DeqCheckHead(hd: nat)                       // 91
    | DeqLoadNext(hd: nat)                        // 92
    | DeqCheckTail(hd: nat, nx: Link)             // 93-107
    | DeqLoadValue(hd: nat, n: nat)               // 101
    | DeqSwing(hd: nat, n: nat, val: nat)         // 102
    | DeqCount(val: nat)                          // 284

  datatype State = State(
    head: nat, tail: nat, size: nat, value: seq<nat>, next: seq<Link>, threads: seq<Pc>,
    linked: seq<nat>, popped: nat, swung: nat, enq: seq<nat>, deq: seq<nat>)

  /** lfqueue_init_mf: head and tail at a base node without successor, size zero. */
  ghost predicate Init(s: State) {
    && s.head == 0 && s.tail == 0 && s.size == 0 && s.value == [NULL] && s.next == [Nil]
    && (forall t | 0 <= t < |s.threads| :: s.threads[t].Idle?)
    && s.linked == [0] && s.popped == 0 && s.swung == 0 && s.enq == [] && s.deq == []
  }

  function At(s: State, t: nat, pc: Pc): State
    requires t < |s.threads|
  {
    s.(threads := s.threads[t := pc])
  }

  /** A thread outside the queue calls lfqueue_enq with a value that is not NULL, or lfqueue_deq. */
  ghost predicate Begins(s: State, s': State, t: nat)
    requires t < |s.threads|
  {
    && s.threads[t].Idle?
    && ((exists v: nat :: v != NULL && s' == At(s, t, EnqAlloc(v))) || s' == At(s, t, DeqLoadHead))
  }

  /** The nodes that the step reads or writes exist. */
  ghost predicate Defined(s: State, pc: Pc) {
    match pc
    case EnqLink(_, _, tl) => tl < |s.next|
    case DeqLoadNext(hd) => hd < |s.next|
    case DeqLoadValue(_, n) => n < |s.value|
    case _ => true
  }

  ghost function Step(s: State, t: nat): State
    requires t < |s.threads| && Defined(s, s.threads[t])
  {
    match s.threads[t]
    case Idle(_) => s
    case EnqAlloc(v) => At(s, t, EnqLoadTail(v, |s.next|)).(value := s.value + [v], next := s.next + [Nil])
    case EnqLoadTail(v, n) => At(s, t, EnqLink(v, n, s.tail))
    case EnqLink(v, n, tl) =>
      if s.next[tl] == Nil
      then At(s, t, EnqSwing(n, tl)).(next := s.next[tl := To(n)], linked := s.linked + [n],
                                      enq := s.enq + [v])
      else At(s, t, EnqLoadTail(v, n))
    case EnqSwing(n, tl) =>
      if s.tail == tl
      then At(s, t, EnqCount).(tail := n, swung := s.swung + 1)
      else At(s, t, EnqCount)
    case EnqCount => At(s, t, Idle(0)).(size := (s.size + 1) % WORD)
    case DeqLoadHead => At(s, t, DeqCheckHead(s.head))
    case DeqCheckHead(hd) => At(s, t, if s.head == hd then DeqLoadNext(hd) else DeqLoadHead)
    case DeqLoadNext(hd) => At(s, t, DeqCheckTail(hd, s.next[hd]))
    case DeqCheckTail(hd, nx) =>
      if nx == Nil then At(s, t, Idle(NULL))
      else if s.tail == hd then At(s, t, DeqLoadHead)
      else At(s, t, DeqLoadValue(hd, nx.node))
    case DeqLoadValue(hd, n) => At(s, t, DeqSwing(hd, n, s.value[n]))
    case DeqSwing(hd, n, val) =>
      if s.head == hd
      then At(s, t, DeqCount(val)).(head := n, popped := s.popped + 1, deq := s.deq + [val])
      else At(s, t, DeqLoadHead)
    case DeqCount(val) => At(s, t, Idle(val)).(size := (s.size + WORD - 1) % WORD)
  }

  ghost predicate Moves(s: State, s': State, t: nat) {
    && t < |s.threads|
    && (Begins(s, s', t) || (!s.threads[t].Idle? && Defined(s, s.threads[t]) && s' == Step(s, t)))
  }

  ghost predicate Next(s: State, s': State) {
    exists t: nat :: Moves(s, s', t)
  }

  ghost predicate IsRun(run: seq<State>) {
    && run != [] && Init(run[0])
    && forall j, k | 0 <= j < k < |run| && k == j + 1 :: Next(run[j], run[k])
  }

  type Run = run: seq<State> | IsRun(run)
    witness [State(0, 0, 0, [NULL], [Nil], [], [0], 0, 0, [], [])]

  // ---------- the invariant ----------

  /** The nodes form one chain in link order; head and tail are where popped and swung say. */
  ghost predicate Chain(s: State) {
    && |s.value| == |s.next|
    && 0 <= s.popped <= s.swung < |s.linked| <= s.swung + 2
    && s.head == s.linked[s.popped] && s.tail == s.linked[s.swung]
    && (forall i | 0 <= i < |s.linked| :: s.linked[i] < |s.next|)
    && (forall i, j | 0 <= i < j < |s.linked| :: s.linked[i] != s.linked[j])
    && (forall i, j | 0 <= i < j < |s.linked| && j == i + 1 :: s.next[s.linked[i]] == To(s.linked[j]))
    && s.next[s.linked[|s.linked| - 1]] == Nil
  }

  /** The histories agree with the chain. */
  ghost predicate History(s: State)
    requires Chain(s)
  {
    && |s.enq| == |s.linked| - 1 && |s.deq| == s.popped && s.deq == s.enq[..s.popped] && NULL !in s.enq
    && forall i | 0 < i < |s.linked| :: s.enq[i - 1] == s.value[s.linked[i]]
  }

  /** The node that an enqueuer has allocated and not linked yet. */
  ghost predicate Holds(pc: Pc, n: nat) {
    (pc.EnqLoadTail? || pc.EnqLink?) && pc.n == n
  }

  ghost predicate Private(s: State, v: nat, n: nat) {
    n < |s.next| && n < |s.value| && n !in s.linked && s.next[n] == Nil && s.value[n] == v != NULL
  }

  ghost predicate Local(s: State, pc: Pc)
    requires Chain(s)
  {
    match pc
    case EnqAlloc(v) => v != NULL
    case EnqLoadTail(v, n) => Private(s, v, n)
    case EnqLink(v, n, tl) => Private(s, v, n) && tl in s.linked[..s.swung + 1]
    case EnqSwing(n, tl) => |s.linked| == s.swung + 2 && tl == s.tail && n == s.linked[s.swung + 1]
    case DeqCheckHead(hd) => hd in s.linked[..s.popped + 1]
    case DeqLoadNext(hd) => hd in s.linked[..s.popped + 1]
    case DeqCheckTail(hd, nx) => hd in s.linked[..s.popped + 1] && (nx.To? ==> s.next[hd] == nx)
    case DeqLoadValue(hd, n) => hd in s.linked[..s.popped + 1] && hd in s.linked[..s.swung] && s.next[hd] == To(n)
    case DeqSwing(hd, n, val) =>
      && hd in s.linked[..s.popped + 1] && hd in s.linked[..s.swung] && s.next[hd] == To(n)
      && n < |s.value| && val == s.value[n]
    case DeqCount(val) => val != NULL
    case _ => true
  }

  ghost predicate Locals(s: State)
    requires Chain(s)
  {
    forall t | 0 <= t < |s.threads| :: Local(s, s.threads[t])
  }

  /** Unlinked nodes have one holder, and at most one enqueuer is about to swing the tail. */
  ghost predicate Apart(s: State) {
    forall t, u | 0 <= t < u < |s.threads| ::
      && !(s.threads[t].EnqSwing? && s.threads[u].EnqSwing?)
      && !((s.threads[t].EnqLoadTail? || s.threads[t].EnqLink?) && Holds(s.threads[u], s.threads[t].n))
  }

  /** A lagging tail has an enqueuer that is about to swing it. */
  ghost predicate Lag(s: State) {
    |s.linked| == s.swung + 2 ==> exists t :: 0 <= t < |s.threads| && s.threads[t].EnqSwing?
  }

  /** What a thread still owes the size counter. */
  function Owes(pc: Pc): int {
    if pc.EnqSwing? || pc.EnqCount? then 1 else if pc.DeqCount? then -1 else 0
  }

  function Debt(threads: seq<Pc>): int {
    if threads == [] then 0 else Debt(threads[..|threads| - 1]) + Owes(threads[|threads| - 1])
  }

  ghost predicate Counted(s: State) {
    && s.size < WORD
    && s.size == (|s.enq| - |s.deq| - Debt(s.threads)) % WORD
  }

  ghost predicate Inv(s: State) {
    Chain(s) && History(s) && Locals(s) && Apart(s) && Lag(s) && Counted(s)
  }

  lemma {:induction false} DebtUpdate(threads: seq<Pc>, t: nat, pc: Pc)
    requires t < |threads|
    ensures Debt(threads[t := pc]) == Debt(threads) - Owes(threads[t]) + Owes(pc)
  {
    var k := |threads| - 1;
    if t == k {
      assert threads[t := pc][..k] == threads[..k];
    } else {
      assert threads[t := pc][..k] == threads[..k][t := pc];
      DebtUpdate(threads[..k], t, pc);
    }
  }

  lemma {:induction false} DebtIdle(threads: seq<Pc>)
    requires forall t | 0 <= t < |threads| :: Owes(threads[t]) == 0
    ensures Debt(threads) == 0
  {
    if threads != [] {
      DebtIdle(threads[..|threads| - 1]);
    }
  }

  lemma InitInv(s: State)
    requires Init(s)
    ensures Inv(s)
  {
    DebtIdle(s.threads);
  }

  /** How the queue evolves: nodes are added, linked and passed, and a link once set stays. */
  ghost predicate Grows(s: State, s': State) {
    && s.linked <= s'.linked && s.popped <= s'.popped && s.swung <= s'.swung && s.value <= s'.value
    && |s.next| <= |s'.next| && forall n | 0 <= n < |s.next| && s.next[n].To? :: s'.next[n] == s.next[n]
  }

  lemma InLongerPrefix(x: nat, a: seq<nat>, i: nat, b: seq<nat>, j: nat)
    requires a <= b && i <= j <= |b| && i <= |a| && x in a[..i]
    ensures x in b[..j]
  {
    var k :| 0 <= k < i && a[..i][k] == x;
    assert b[..j][k] == x;
  }

  /** What a dequeuer knows of the chain survives its growth. */
  lemma DequeuerGrows(s: State, s': State, pc: Pc)
    requires Chain(s) && Chain(s') && Grows(s, s') && Local(s, pc)
    requires || pc.DeqCheckHead? || pc.DeqLoadNext? || pc.DeqCheckTail? || pc.DeqLoadValue? || pc.DeqSwing?
    ensures Local(s', pc)
  {
    InLongerPrefix(pc.hd, s.linked, s.popped + 1, s'.linked, s'.popped + 1);
    if pc.DeqLoadValue? || pc.DeqSwing? {
      InLongerPrefix(pc.hd, s.linked, s.swung, s'.linked, s'.swung);
    }
  }

  lemma LocalGrows(s: State, s': State, pc: Pc)
    requires Chain(s) && Chain(s') && Grows(s, s') && Local(s, pc) && !pc.EnqSwing?
    requires (pc.EnqLoadTail? || pc.EnqLink?) ==> Private(s', pc.v, pc.n)
    ensures Local(s', pc)
  {
    if pc.DeqCheckHead? || pc.DeqLoadNext? || pc.DeqCheckTail? || pc.DeqLoadValue? || pc.DeqSwing? {
      DequeuerGrows(s, s', pc);
    } else if pc.EnqLink? {
      InLongerPrefix(pc.tl, s.linked, s.swung + 1, s'.linked, s'.swung + 1);
    }
  }

  /** Everything about the threads survives when only thread t moves, and moves to a good place. */
  lemma OthersKeep(s: State, s': State, t: nat, pc: Pc)
    requires Inv(s) && t < |s.threads| && Chain(s') && Grows(s, s') && s'.threads == s.threads[t := pc]
    requires Local(s', pc) && !s.threads[t].EnqSwing? && !pc.EnqSwing?
    requires s'.linked == s.linked && s'.swung == s.swung
    requires forall n | 0 <= n < |s.next| :: s'.next[n] == s.next[n]
    requires (pc.EnqLoadTail? || pc.EnqLink?) ==> Holds(s.threads[t], pc.n) || pc.n == |s.next|
    ensures Locals(s') && Apart(s') && Lag(s')
  {
    forall u | 0 <= u < |s'.threads| ensures Local(s', s'.threads[u]) {
      assert Local(s, s.threads[u]);
      if u != t && !s.threads[u].EnqSwing? {
        LocalGrows(s, s', s.threads[u]);
      }
    }
    if |s.linked| == s.swung + 2 {
      var u :| 0 <= u < |s.threads| && s.threads[u].EnqSwing?;
      assert s'.threads[u].EnqSwing?;
    }
    assert forall u | 0 <= u < |s.threads| :: !Holds(s.threads[u], |s.next|) by {
      assert forall u | 0 <= u < |s.threads| :: Local(s, s.threads[u]);
    }
  }

  /** Steps that move one thread and change nothing else. */
  lemma LocalStepInv(s: State, t: nat, pc: Pc)
    requires Inv(s) && t < |s.threads| && Local(s, pc) && Owes(s.threads[t]) == 0 && Owes(pc) == 0
    requires (pc.EnqLoadTail? || pc.EnqLink?) ==> Holds(s.threads[t], pc.n)
    ensures Inv(At(s, t, pc))
  {
    DebtUpdate(s.threads, t, pc);
    OthersKeep(s, At(s, t, pc), t, pc);
  }

  lemma AllocChain(s: State, t: nat)
    requires Inv(s) && t < |s.threads| && s.threads[t].EnqAlloc?
    ensures Chain(Step(s, t)) && Grows(s, Step(s, t)) && History(Step(s, t))
    ensures Local(Step(s, t), Step(s, t).threads[t])
  {
    hide Apart, Lag, Counted;
    assert Local(s, s.threads[t]);
  }

  lemma AllocInv(s: State, t: nat)
    requires Inv(s) && t < |s.threads| && s.threads[t].EnqAlloc?
    ensures Inv(Step(s, t))
  {
    hide Chain, Grows, Local, History, Locals;
    var pc := EnqLoadTail(s.threads[t].v, |s.next|);
    AllocChain(s, t);
    DebtUpdate(s.threads, t, pc);
    OthersKeep(s, Step(s, t), t, pc);
  }

  /** A node loaded from tail whose next is still NULL is the end of the chain, and tail points to it. */
  lemma OnlyTheEndLinks(s: State, tl: nat)
    requires Inv(s) && tl in s.linked[..s.swung + 1] && s.next[tl] == Nil
    ensures s.swung == |s.linked| - 1 && tl == s.tail
  {
    forall i | 0 <= i < |s.linked| - 1 ensures s.next[s.linked[i]].To? {
      assert s.next[s.linked[i]] == To(s.linked[i + 1]);
    }
    var i :| 0 <= i < s.swung + 1 && s.linked[i] == tl;
  }

  lemma LinkChain(s: State, t: nat)
    requires Inv(s) && t < |s.threads| && s.threads[t].EnqLink? && Defined(s, s.threads[t])
    requires s.next[s.threads[t].tl] == Nil
    ensures Chain(Step(s, t)) && Grows(s, Step(s, t))
  {
    assert Local(s, s.threads[t]);
    OnlyTheEndLinks(s, s.threads[t].tl);
  }

  lemma LinkHistory(s: State, t: nat)
    requires Inv(s) && t < |s.threads| && s.threads[t].EnqLink? && Defined(s, s.threads[t])
    requires s.next[s.threads[t].tl] == Nil && Chain(Step(s, t))
    ensures History(Step(s, t))
  {
    assert Local(s, s.threads[t]);
  }

  lemma LinkLocals(s: State, t: nat, u: nat)
    requires Inv(s) && t < |s.threads| && u < |s.threads| && s.threads[t].EnqLink? && Defined(s, s.threads[t])
    requires s.next[s.threads[t].tl] == Nil
    ensures Chain(Step(s, t)) && Local(Step(s, t), Step(s, t).threads[u]) && !s.threads[u].EnqSwing?
  {
    assert Local(s, s.threads[t]) && Local(s, s.threads[u]);
    OnlyTheEndLinks(s, s.threads[t].tl);
    LinkChain(s, t);
    if u != t {
      LocalGrows(s, Step(s, t), s.threads[u]);
    }
  }

  lemma LinkedInv(s: State, t: nat)
    requires Inv(s) && t < |s.threads| && s.threads[t].EnqLink? && Defined(s, s.threads[t])
    requires s.next[s.threads[t].tl] == Nil
    ensures Inv(Step(s, t))
  {
    hide Chain, Grows, History, Local;
    var EnqLink(v, n, tl) := s.threads[t];
    var s' := Step(s, t);
    LinkChain(s, t);
    LinkHistory(s, t);
    DebtUpdate(s.threads, t, EnqSwing(n, tl));
    forall u | 0 <= u < |s'.threads| ensures Local(s', s'.threads[u]) && !s.threads[u].EnqSwing? {
      LinkLocals(s, t, u);
    }
    assert s'.threads[t].EnqSwing?;
  }

  lemma LinkInv(s: State, t: nat)
    requires Inv(s) && t < |s.threads| && s.threads[t].EnqLink? && Defined(s, s.threads[t])
    ensures Inv(Step(s, t))
  {
    var EnqLink(v, n, tl) := s.threads[t];
    if s.next[tl] != Nil {
      assert Local(s, s.threads[t]);
      LocalStepInv(s, t, EnqLoadTail(v, n));
    } else {
      LinkedInv(s, t);
    }
  }

  lemma SwingChain(s: State, t: nat)
    requires Inv(s) && t < |s.threads| && s.threads[t].EnqSwing?
    ensures s.tail == s.threads[t].tl && |s.linked| == s.swung + 2
    ensures Chain(Step(s, t)) && History(Step(s, t)) && Grows(s, Step(s, t)) && Step(s, t).swung == s.swung + 1
  {
    hide Apart, Lag, Counted;
    assert Local(s, s.threads[t]);
  }

  lemma SwingInv(s: State, t: nat)
    requires Inv(s) && t < |s.threads| && s.threads[t].EnqSwing?
    ensures s.tail == s.threads[t].tl && Inv(Step(s, t))
  {
    hide Grows, History;
    var s' := Step(s, t);
    SwingChain(s, t);
    DebtUpdate(s.threads, t, EnqCount);
    forall u | 0 <= u < |s'.threads| ensures Local(s', s'.threads[u]) {
      assert Local(s, s.threads[u]);
      if u != t {
        LocalGrows(s, s', s.threads[u]);
      }
    }
  }

  lemma CountCounted(s: State, t: nat)
    requires Counted(s) && t < |s.threads| && (s.threads[t].EnqCount? || s.threads[t].DeqCount?)
    ensures Counted(Step(s, t))
  {
    DebtUpdate(s.threads, t, Step(s, t).threads[t]);
    WordCount(|s.enq| - |s.deq| - Debt(s.threads));
  }

  lemma CountChain(s: State, t: nat)
    requires Inv(s) && t < |s.threads| && (s.threads[t].EnqCount? || s.threads[t].DeqCount?)
    ensures Chain(Step(s, t)) && Grows(s, Step(s, t)) && History(Step(s, t))
  {
    hide Apart, Lag, Locals, Counted;
  }

  lemma CountInv(s: State, t: nat)
    requires Inv(s) && t < |s.threads| && (s.threads[t].EnqCount? || s.threads[t].DeqCount?)
    ensures Inv(Step(s, t))
  {
    hide Chain, Grows, History, Locals, Apart, Lag, Counted;
    CountChain(s, t);
    CountCounted(s, t);
    OthersKeep(s, Step(s, t), t, Step(s, t).threads[t]);
  }

  /** A dequeuer whose head is still current and is not the tail takes the oldest node. */
  lemma HeadIsOldest(s: State, hd: nat, n: nat)
    requires Inv(s) && hd == s.head && hd in s.linked[..s.swung] && s.next[hd] == To(n)
    ensures s.popped < s.swung && n == s.linked[s.popped + 1] && n < |s.value| && s.value[n] == s.enq[s.popped]
  {
    var i :| 0 <= i < s.swung && s.linked[i] == hd;
    assert i == s.popped;
    assert s.next[s.linked[i]] == To(s.linked[i + 1]);
    assert s.enq[i + 1 - 1] == s.value[s.linked[i + 1]];
  }

  lemma TakeChain(s: State, t: nat)
    requires Inv(s) && t < |s.threads| && s.threads[t].DeqSwing? && s.head == s.threads[t].hd
    ensures Chain(Step(s, t)) && History(Step(s, t)) && Grows(s, Step(s, t))
  {
    assert Local(s, s.threads[t]);
    HeadIsOldest(s, s.threads[t].hd, s.threads[t].n);
  }

  lemma TakeInv(s: State, t: nat)
    requires Inv(s) && t < |s.threads| && s.threads[t].DeqSwing?
    ensures Inv(Step(s, t))
  {
    var DeqSwing(hd, n, val) := s.threads[t];
    var s' := Step(s, t);
    assert Local(s, s.threads[t]);
    if s.head != hd {
      LocalStepInv(s, t, DeqLoadHead);
    } else {
      TakeChain(s, t);
      DebtUpdate(s.threads, t, DeqCount(val));
      OthersKeep(s, s', t, DeqCount(val));
    }
  }

  lemma LoadInv(s: State, t: nat)
    requires Inv(s) && t < |s.threads| && Defined(s, s.threads[t])
    requires var pc := s.threads[t];
      pc.EnqLoadTail? || pc.DeqLoadHead? || pc.DeqCheckHead? || pc.DeqLoadNext? || pc.DeqLoadValue?
    ensures Inv(Step(s, t))
  {
    assert Local(s, s.threads[t]);
    var pc := Step(s, t).threads[t];
    assert s.linked[..s.swung + 1][s.swung] == s.tail && s.linked[..s.popped + 1][s.popped] == s.head;
    assert Local(s, pc);
    LocalStepInv(s, t, pc);
  }

  lemma CheckTailInv(s: State, t: nat)
    requires Inv(s) && t < |s.threads| && s.threads[t].DeqCheckTail?
    ensures Inv(Step(s, t))
  {
    var DeqCheckTail(hd, nx) := s.threads[t];
    assert Local(s, s.threads[t]);
    if nx.To? && s.tail != hd {
      var i :| 0 <= i < s.popped + 1 && s.linked[i] == hd;
      assert i < s.swung && s.linked[..s.swung][i] == hd;
    }
    LocalStepInv(s, t, Step(s, t).threads[t]);
  }

  lemma StepInv(s: State, t: nat)
    requires Inv(s) && t < |s.threads| && Defined(s, s.threads[t])
    ensures Inv(Step(s, t))
  {
    match s.threads[t]
    case Idle(_) =>
    case EnqAlloc(_) => AllocInv(s, t);
    case EnqLink(_, _, _) => LinkInv(s, t);
    case EnqSwing(_, _) => SwingInv(s, t);
    case EnqCount => CountInv(s, t);
    case DeqCheckTail(_, _) => CheckTailInv(s, t);
    case DeqSwing(_, _, _) => TakeInv(s, t);
    case DeqCount(_) => CountInv(s, t);
    case _ => LoadInv(s, t);
  }

  lemma NextInv(s: State, s': State)
    requires Inv(s) && Next(s, s')
    ensures Inv(s')
  {
    var t: nat :| Moves(s, s', t);
    if Begins(s, s', t) {
      LocalStepInv(s, t, s'.threads[t]);
    } else {
      StepInv(s, t);
    }
  }

  lemma RunStart(run: Run)
    ensures Inv(run[0])
  {
    InitInv(run[0]);
  }

  lemma RunNext(run: Run, k: nat)
    requires 0 < k < |run| && Inv(run[k - 1])
    ensures Inv(run[k])
  {
    NextInv(run[k - 1], run[k]);
  }

  /** Every state of every run satisfies the invariant. */
  lemma {:induction false} RunInv(run: Run, k: nat)
    requires k < |run|
    ensures Inv(run[k])
  {
    hide *;
    if k == 0 {
      RunStart(run);
    } else {
      RunInv(run, k - 1);
      RunNext(run, k);
    }
  }

  // ---------- what the queue promises ----------

  /** The values linked and not yet taken, oldest first. */
  function Items(s: State): seq<nat>
    requires s.popped <= |s.enq|
  {
    s.enq[s.popped..]
  }

  /** In every run the i-th successful dequeue got the value of the i-th enqueue. */
  lemma FifoOrder(run: Run, k: nat)
    requires k < |run|
    ensures |run[k].deq| <= |run[k].enq|
    ensures forall i | 0 <= i < |run[k].deq| :: run[k].deq[i] == run[k].enq[i]
  {
    RunInv(run, k);
  }

  lemma TakeRefines(s: State, t: nat)
    requires Inv(s) && t < |s.threads| && s.threads[t].DeqSwing? && s.head == s.threads[t].hd
    ensures Step(s, t).popped <= |Step(s, t).enq| && Items(s) == [s.threads[t].val] + Items(Step(s, t))
  {
    assert Local(s, s.threads[t]);
    HeadIsOldest(s, s.threads[t].hd, s.threads[t].n);
  }

  /**
   Each step is a step of a queue: a successful link appends the value that its thread carries (LfQueueCalls:
   the argument of its call), a successful swing of head removes the oldest value, which that call then returns,
   and nothing else changes it.
   */
  lemma MoveRefinesQueue(run: Run, k: nat, s: State, s': State, t: nat)
    requires k + 1 < |run| && s == run[k] && s' == run[k + 1] && Moves(s, s', t)
    ensures s.popped <= |s.enq| && s'.popped <= |s'.enq|
    ensures match s.threads[t]
      case EnqLink(v, _, tl) =>
        tl < |s.next| && Items(s') == if s.next[tl] == Nil then Items(s) + [v] else Items(s)
      case DeqSwing(hd, n, val) =>
        if s.head == hd then Items(s) == [val] + Items(s') && s'.threads[t] == DeqCount(val)
        else Items(s') == Items(s) && s'.threads[t] == DeqLoadHead
      case DeqCount(val) => val != NULL && Items(s') == Items(s) && s'.threads[t] == Idle(val)
      case _ => Items(s') == Items(s)
  {
    RunInv(run, k);
    assert Local(s, s.threads[t]);
    if s.threads[t].DeqSwing? && s.head == s.threads[t].hd {
      TakeRefines(s, t);
    }
  }

  /** Tail is the last node or the one before it, head never passes tail, and both point into the chain. */
  lemma TailNearEnd(run: Run, k: nat)
    requires k < |run|
    ensures var s := run[k];
      && s.popped <= s.swung && |s.linked| - 2 <= s.swung <= |s.linked| - 1
      && s.head == s.linked[s.popped] && s.tail == s.linked[s.swung]
      && (s.swung == |s.linked| - 2 <==> exists t :: 0 <= t < |s.threads| && s.threads[t].EnqSwing?)
  {
    RunInv(run, k);
    forall t | 0 <= t < |run[k].threads| && run[k].threads[t].EnqSwing?
      ensures run[k].swung == |run[k].linked| - 2
    {
      assert Local(run[k], run[k].threads[t]);
    }
  }

  /** The compare-and-swap of tail after a successful link never fails. */
  lemma SwingSucceeds(run: Run, k: nat, t: nat)
    requires k < |run| && t < |run[k].threads| && run[k].threads[t].EnqSwing?
    ensures run[k].tail == run[k].threads[t].tl
  {
    RunInv(run, k);
    SwingInv(run[k], t);
  }

  /** A successful link is made at the end of the chain, by a thread whose loaded tail is the current one. */
  lemma LinkIsAtTheEnd(run: Run, k: nat, t: nat)
    requires k < |run| && t < |run[k].threads| && run[k].threads[t].EnqLink?
    ensures var s, tl := run[k], run[k].threads[t].tl;
      && tl < |s.next| && s.linked != []
      && (s.next[tl] == Nil <==> tl == s.linked[|s.linked| - 1])
      && (s.next[tl] == Nil ==> tl == s.tail)
  {
    RunInv(run, k);
    var s := run[k];
    assert Local(s, s.threads[t]);
    if s.next[s.threads[t].tl] == Nil {
      OnlyTheEndLinks(s, s.threads[t].tl);
    }
  }

  /** Every thread inside a call can always take its next step. */
  lemma StepsAreDefined(run: Run, k: nat, t: nat)
    requires k < |run| && t < |run[k].threads|
    ensures Defined(run[k], run[k].threads[t])
  {
    RunInv(run, k);
    var s := run[k];
    assert Local(s, s.threads[t]);
    if s.threads[t].DeqLoadValue? {
      var hd := s.threads[t].hd;
      var i :| 0 <= i < s.swung && s.linked[i] == hd;
      assert s.next[s.linked[i]] == To(s.linked[i + 1]);
    }
  }

  /** A NULL link read from a node that is or was head means that the queue is empty at that moment. */
  lemma NoSuccessor(s: State, hd: nat)
    requires Inv(s) && hd in s.linked[..s.popped + 1] && s.next[hd] == Nil
    ensures Items(s) == []
  {
    forall i | 0 <= i < |s.linked| - 1 ensures s.next[s.linked[i]].To? {
      assert s.next[s.linked[i]] == To(s.linked[i + 1]);
    }
    var i :| 0 <= i < s.popped + 1 && s.linked[i] == hd;
  }

  ghost predicate ReadNull(s: State, t: nat) {
    t < |s.threads| && s.threads[t].DeqCheckTail? && s.threads[t].nx == Nil
  }

  /** Thread t is about to read the link of hd, and the queue is empty. */
  ghost predicate ReadsEmpty(s: State, t: nat, hd: nat) {
    t < |s.threads| && s.threads[t] == DeqLoadNext(hd) && s.popped <= |s.enq| && Items(s) == []
  }

  /** A step moves one thread; the move into a NULL link reading comes from the load of that link. */
  lemma MoveOf(s: State, s': State, u: nat)
    requires Moves(s, s', u)
    ensures |s'.threads| == |s.threads| && s'.threads == s.threads[u := s'.threads[u]]
    ensures s'.threads[u].DeqCheckTail? ==>
      s.threads[u].DeqLoadNext? && Defined(s, s.threads[u])
      && s'.threads[u] == DeqCheckTail(s.threads[u].hd, s.next[s.threads[u].hd])
  {
  }

  lemma ReadNullBefore(s: State, s': State, t: nat)
    requires Inv(s) && Next(s, s') && ReadNull(s', t)
    ensures (ReadNull(s, t) && s.threads[t] == s'.threads[t]) || ReadsEmpty(s, t, s'.threads[t].hd)
  {
    var u: nat :| Moves(s, s', u);
    MoveOf(s, s', u);
    if u == t {
      assert Local(s, s.threads[t]);
      NoSuccessor(s, s.threads[t].hd);
    }
  }

  lemma ReadNullEarlier(run: Run, k: nat, t: nat)
    requires k < |run| && ReadNull(run[k], t)
    ensures k > 0
    ensures if ReadNull(run[k - 1], t) then run[k - 1].threads[t] == run[k].threads[t]
            else ReadsEmpty(run[k - 1], t, run[k].threads[t].hd)
  {
    if k > 0 {
      RunInv(run, k - 1);
      ReadNullBefore(run[k - 1], run[k], t);
    }
  }

  /** A dequeuer that has read a NULL link read it at a moment j when the queue was empty. */
  lemma {:induction false} EmptyWhenRead(run: Run, k: nat, t: nat) returns (j: nat)
    requires k < |run| && ReadNull(run[k], t)
    ensures j < k && ReadsEmpty(run[j], t, run[k].threads[t].hd)
    ensures forall m | j < m <= k :: ReadNull(run[m], t)
  {
    hide *;
    ReadNullEarlier(run, k, t);
    if ReadNull(run[k - 1], t) {
      j := EmptyWhenRead(run, k - 1, t);
    } else {
      j := k - 1;
    }
  }

  ghost predicate InDequeue(pc: Pc) {
    || pc.DeqLoadHead? || pc.DeqCheckHead? || pc.DeqLoadNext? || pc.DeqCheckTail? || pc.DeqLoadValue?
    || pc.DeqSwing? || pc.DeqCount?
  }

  /** Every NULL answer of a dequeue has a moment j inside that call at which the queue was empty. */
  lemma NullMeansEmpty(run: Run, k: nat, t: nat) returns (j: nat)
    requires k + 1 < |run| && Moves(run[k], run[k + 1], t)
    requires InDequeue(run[k].threads[t]) && run[k + 1].threads[t] == Idle(NULL)
    ensures j <= k && run[j].popped <= |run[j].enq| && Items(run[j]) == []
    ensures forall m | j <= m <= k :: t < |run[m].threads| && InDequeue(run[m].threads[t])
  {
    RunInv(run, k);
    assert Local(run[k], run[k].threads[t]);
    j := EmptyWhenRead(run, k, t);
  }

  /**
   Modulo the word, the size counter is the number of values in the queue, less one for each enqueuer
   that linked and has not counted, plus one for each dequeuer that took and has not counted.
   */
  lemma SizeCounter(run: Run, k: nat)
    requires k < |run|
    ensures run[k].popped <= |run[k].enq|
    ensures run[k].size == (|Items(run[k])| - Debt(run[k].threads)) % WORD
    ensures (forall t | 0 <= t < |run[k].threads| :: run[k].threads[t].Idle?) ==> run[k].size == |Items(run[k])| % WORD
  {
    RunInv(run, k);
    if forall t | 0 <= t < |run[k].threads| :: run[k].threads[t].Idle? {
      DebtIdle(run[k].threads);
    }
  }
}
