/**
 The audio pipeline of src/audio.c as a step machine: the stream callback, the thread that fills the
 playback queue and the thread that flushes the record queue, sharing a pool of frame buffers, a pool
 of queue nodes and two queues.  Samples are copied one at a time, so the threads interleave inside every
 copy.

 The two pools are the lock-free rings of src/lfringbuffer.c, and their calls are not single steps.  A call
 of enqueue loads readPointer and tests it against writePointer later, so it answers 0 exactly when the
 entries and the removals by others since the load fill the ring.  A call of dequeue loads writePointer and
 tests it later; it answers NULL when readPointer has reached what it loaded, and it may answer NULL while
 another thread is inside an enqueue, which can hold the slot.  Either call may start again when another
 thread was faster.  The queues are single steps apart from their calls of the node pool.

 Frame buffers are numbered 0 to 299, and SILENT stands for the constant totalSilence.  No step reads the
 histories and `lost`, which records what the program no longer has a way to reach.
 */
module AudioMachine {
  import opened Counting
  import opened Samples

  const FREE_BUFFERS: nat := 300
  const FREE_NODES: nat := 600
  const FRAME: nat := 512
  const SILENT: nat := FREE_BUFFERS

  type Frame = f: seq<int> | |f| == FRAME witness seq(FRAME, _ => 0)

  function Silence(): Frame { Zeros(FRAME) }

  /** Where a thread is in RingBuffer_enqueue, with the readPointer that it loaded. */
  datatype Give =
    | AtRead                                // 33
    | AtTest(r: nat)                        // 34-45
    | AtStore                               // 53-55, or the return of 0

  /** Where a thread is in RingBuffer_dequeue, with the writePointer that it loaded. */
  datatype Seek =
    | AtWrite                               // 72
    | AtSlot(w: nat)                        // 73-89

  datatype Fill =
    | FillLoop                              // 450-457
    | FillTake(t: Seek)                     // 459-466
    | FillCopy(b: nat, i: nat)              // 473
    | FillEnq(b: nat, t: Seek)              // 475
    | FillDone                              // 478-480

  datatype Callback =
    | CbIdle                                // 396
    | CbFree(b: nat, g: Give)               // 396, the node of the entry goes back
    | CbSilence(i: nat)                     // 404-406
    | CbCopyOut(b: nat, i: nat)             // 408-410
    | CbGiveBack(b: nat, g: Give)           // 413
    | CbTake(t: Seek)                       // 419
    | CbCopyIn(b: nat, i: nat)              // 425-427
    | CbEnq(p: nat, t: Seek)                // 429, 433, 436-439

  datatype Flush =
    | FlLoop                                // 488-495
    | FlFree(p: nat, g: Give)               // 489, the node of the entry goes back
    | FlConsume(p: nat)                     // 497
    | FlReturn(p: nat, stop: bool, g: Give) // 502-515
    | FlDone                                // 518

  /**
   The pool of free buffers, the contents of the two queues, where the threads are, the buffers that are
   lost, and the two pointers of the pool.
   */
  datatype Buffers = Buffers(
    free: seq<nat>, playback: seq<nat>, record: seq<nat>, fill: Fill, cb: Callback, flush: Flush,
    lost: seq<nat>, read: nat, write: nat)

  /**
   The pool of free nodes, the nodes of the two queues from head on, the node each keeps for its free chain,
   the nodes that the consumers are giving back, the nodes that are lost, and the two pointers of the pool.
   */
  datatype Nodes = Nodes(
    free: seq<nat>, playback: seq<nat>, record: seq<nat>, playBase: nat, recBase: nat,
    playHand: seq<nat>, recHand: seq<nat>, lost: seq<nat>, read: nat, write: nat)

  /** A frame written to the device; inserted when the playback queue was empty. */
  datatype Output = Output(frame: Frame, inserted: bool)

  /** The samples in the buffers, the private buffers of the threads, and the histories of frames. */
  datatype Sound = Sound(
    mem: seq<Frame>, source: Frame, input: Frame, output: Frame,
    produced: seq<Frame>,   // frames of the producer that got a buffer
    queued: seq<Frame>,     // those of them that got into the playback queue
    leaks: nat,             // how many did not
    outputs: seq<Output>,   // frames written to the device
    heard: seq<Frame>,      // frames read from the device
    captured: seq<Frame>,   // those of them for which the record queue was given something
    missed: nat,            // how many others there are
    logged: seq<Frame>,     // what the record queue was given
    consumed: seq<Frame>)   // frames handed to the consumer

  /** How the program ended: in bufferFree (583), or in the callback for want of a node (438). */
  datatype Exit = Running | PoolFull | NoEntry

  datatype State = State(b: Buffers, n: Nodes, d: Sound, stopPlayback: bool, stopRecording: bool, exit: Exit)

  /**
   What a call of a pool meets: another thread was faster and the call starts again, the slot is locked, and
   the value of errno that a failing allocation returns is not 0.
   */
  datatype Chance = Chance(again: bool, locked: bool, errno: bool)

  /** What the outside decides in a step: the frame produced or captured, or that a callback asked to stop. */
  datatype Action =
    | FillStep(f: Frame, stop: bool, c: Chance)
    | CallbackStep(f: Frame, c: Chance)
    | FlushStep(stop: bool, c: Chance)
    | StopPlayback
    | StopRecording

  // ---------- the pools ----------

  /** RingBuffer_enqueue of a buffer after readPointer was loaded as r: a ring that seems full drops it. */
  function PutBuffer(s: Buffers, x: nat, r: nat): Buffers {
    if s.write - r >= FREE_BUFFERS then s.(lost := s.lost + [x])
    else s.(free := s.free + [x], write := s.write + 1)
  }

  function PutNode(s: Nodes, x: nat, r: nat): Nodes {
    if s.write - r >= FREE_NODES then s.(lost := s.lost + [x])
    else s.(free := s.free + [x], write := s.write + 1)
  }

  function TakeBuffer(s: Buffers): Buffers
    requires s.free != []
  {
    s.(free := s.free[1..], read := s.read + 1)
  }

  function TakeNode(s: Nodes): Nodes
    requires s.free != []
  {
    s.(free := s.free[1..], read := s.read + 1)
  }

  /** Some thread is inside an enqueue on the pool, where it can hold a slot. */
  predicate BufferGiver(s: Buffers) {
    s.cb.CbGiveBack? || (s.flush.FlReturn? && s.flush.p != SILENT)
  }

  predicate NodeGiver(s: Buffers) { s.cb.CbFree? || s.flush.FlFree? }

  /** RingBuffer_dequeue answers NULL after writePointer was loaded as w. */
  predicate BufferDenied(s: State, w: nat, c: Chance) { s.b.read >= w || (c.locked && BufferGiver(s.b)) }

  predicate NodeDenied(s: State, w: nat, c: Chance) { s.n.read >= w || (c.locked && NodeGiver(s.b)) }

  // ---------- steps ----------

  /** What the threads have loaded is not ahead of the pointers of the pools. */
  predicate FillPointed(s: State) {
    && (s.b.fill.FillTake? && s.b.fill.t.AtSlot? ==> s.b.fill.t.w <= s.b.write)
    && (s.b.fill.FillEnq? && s.b.fill.t.AtSlot? ==> s.b.fill.t.w <= s.n.write)
  }

  predicate CallbackPointed(s: State) {
    && (s.b.cb.CbTake? && s.b.cb.t.AtSlot? ==> s.b.cb.t.w <= s.b.write)
    && (s.b.cb.CbEnq? && s.b.cb.t.AtSlot? ==> s.b.cb.t.w <= s.n.write)
    && (s.b.cb.CbFree? && s.b.cb.g.AtTest? ==> s.b.cb.g.r <= s.n.read)
    && (s.b.cb.CbGiveBack? && s.b.cb.g.AtTest? ==> s.b.cb.g.r <= s.b.read)
  }

  predicate FlushPointed(s: State) {
    && (s.b.flush.FlFree? && s.b.flush.g.AtTest? ==> s.b.flush.g.r <= s.n.read)
    && (s.b.flush.FlReturn? && s.b.flush.g.AtTest? ==> s.b.flush.g.r <= s.b.read)
  }

  predicate PoolsPointed(s: State) {
    s.b.write == s.b.read + |s.b.free| && s.n.write == s.n.read + |s.n.free|
  }

  predicate Pointed(s: State) {
    PoolsPointed(s) && FillPointed(s) && CallbackPointed(s) && FlushPointed(s)
  }

  /** The buffers, the list entries and the nodes that the step uses exist. */
  predicate Defined(s: State) {
    && Pointed(s)
    && s.n.playback != [] && s.n.record != [] && |s.d.mem| == FREE_BUFFERS + 1
    && (s.b.fill.FillCopy? ==> s.b.fill.b <= SILENT)
    && (s.b.cb.CbCopyOut? || s.b.cb.CbCopyIn? ==> s.b.cb.b <= SILENT)
    && (s.b.flush.FlConsume? ==> s.b.flush.p <= SILENT)
    && (s.b.cb.CbEnq? ==> s.b.cb.p <= SILENT)
    && (s.b.cb.CbFree? && s.b.cb.g != AtStore ==> s.n.playHand != [])
    && (s.b.flush.FlFree? && s.b.flush.g != AtStore ==> s.n.recHand != [])
  }

  function WriteSample(mem: seq<Frame>, b: nat, i: nat, x: int): seq<Frame>
    requires b < |mem| && i < FRAME
  {
    mem[b := mem[b][i := x]]
  }

  function Filled(s: State, f: Frame, stop: bool, c: Chance): State
    requires Defined(s)
  {
    match s.b.fill
    case FillLoop =>
      if s.stopPlayback || stop then s.(b := s.b.(fill := FillDone))
      else s.(b := s.b.(fill := FillTake(AtWrite)), d := s.d.(source := f))
    case FillTake(AtWrite) => s.(b := s.b.(fill := FillTake(AtSlot(s.b.write))))
    case FillTake(AtSlot(w)) =>
      if c.again then s.(b := s.b.(fill := FillTake(AtWrite)))
      else if BufferDenied(s, w, c) then s.(b := s.b.(fill := FillLoop))
      else s.(b := TakeBuffer(s.b).(fill := FillCopy(s.b.free[0], 0)),
              d := s.d.(produced := s.d.produced + [s.d.source]))
    case FillCopy(b, i) =>
      if i >= FRAME then s.(b := s.b.(fill := FillEnq(b, AtWrite)))
      else s.(b := s.b.(fill := FillCopy(b, i + 1)), d := s.d.(mem := WriteSample(s.d.mem, b, i, s.d.source[i])))
    case FillEnq(b, AtWrite) => s.(b := s.b.(fill := FillEnq(b, AtSlot(s.n.write))))
    case FillEnq(b, AtSlot(w)) =>
      if c.again then s.(b := s.b.(fill := FillEnq(b, AtWrite)))
      else if NodeDenied(s, w, c) then
        s.(b := s.b.(fill := FillLoop, lost := s.b.lost + [b]), d := s.d.(leaks := s.d.leaks + 1))
      else s.(b := s.b.(fill := FillLoop, playback := s.b.playback + [b]),
              n := TakeNode(s.n).(playback := s.n.playback + [s.n.free[0]]),
              d := s.d.(queued := s.d.queued + [s.d.source]))
    case FillDone => s
  }

  function CalledBack(s: State, f: Frame, c: Chance): State
    requires Defined(s)
  {
    match s.b.cb
    case CbIdle =>
      if s.b.playback == [] then s.(b := s.b.(cb := CbSilence(0)), d := s.d.(input := f))
      else s.(b := s.b.(cb := CbFree(s.b.playback[0], AtRead), playback := s.b.playback[1..]),
              n := s.n.(playback := s.n.playback[1..], playHand := [s.n.playback[0]]), d := s.d.(input := f))
    case CbFree(b, AtRead) => s.(b := s.b.(cb := CbFree(b, AtTest(s.n.read))))
    case CbFree(b, AtTest(r)) =>
      if c.again then s.(b := s.b.(cb := CbFree(b, AtRead)))
      else s.(b := s.b.(cb := CbFree(b, AtStore)), n := PutNode(s.n, s.n.playHand[0], r).(playHand := []),
              exit := if s.n.write - r >= FREE_NODES then PoolFull else s.exit)
    case CbFree(b, AtStore) => s.(b := s.b.(cb := CbCopyOut(b, 0)))
    case CbSilence(i) =>
      if i >= FRAME then s.(b := s.b.(cb := CbTake(AtWrite)),
                            d := s.d.(outputs := s.d.outputs + [Output(s.d.output, true)]))
      else s.(b := s.b.(cb := CbSilence(i + 1)), d := s.d.(output := s.d.output[i := 0]))
    case CbCopyOut(b, i) =>
      if i >= FRAME then s.(b := s.b.(cb := CbGiveBack(b, AtRead)),
                            d := s.d.(outputs := s.d.outputs + [Output(s.d.output, false)]))
      else s.(b := s.b.(cb := CbCopyOut(b, i + 1)), d := s.d.(output := s.d.output[i := s.d.mem[b][i]]))
    case CbGiveBack(b, AtRead) => s.(b := s.b.(cb := CbGiveBack(b, AtTest(s.b.read))))
    case CbGiveBack(b, AtTest(r)) =>
      if c.again then s.(b := s.b.(cb := CbGiveBack(b, AtRead)))
      else s.(b := PutBuffer(s.b, b, r).(cb := CbGiveBack(b, AtStore)))
    case CbGiveBack(b, AtStore) => s.(b := s.b.(cb := CbTake(AtWrite)))
    case CbTake(AtWrite) => s.(b := s.b.(cb := CbTake(AtSlot(s.b.write))))
    case CbTake(AtSlot(w)) =>
      if c.again then s.(b := s.b.(cb := CbTake(AtWrite)))
      else if BufferDenied(s, w, c) then s.(b := s.b.(cb := CbEnq(SILENT, AtWrite)))
      else s.(b := TakeBuffer(s.b).(cb := CbCopyIn(s.b.free[0], 0)))
    case CbCopyIn(b, i) =>
      if i >= FRAME then s.(b := s.b.(cb := CbEnq(b, AtWrite)))
      else s.(b := s.b.(cb := CbCopyIn(b, i + 1)), d := s.d.(mem := WriteSample(s.d.mem, b, i, s.d.input[i])))
    case CbEnq(p, AtWrite) => s.(b := s.b.(cb := CbEnq(p, AtSlot(s.n.write))))
    case CbEnq(p, AtSlot(w)) =>
      if c.again then s.(b := s.b.(cb := CbEnq(p, AtWrite)))
      else if NodeDenied(s, w, c) then
        if c.errno then s.(exit := NoEntry)
        else s.(b := s.b.(cb := CbIdle, lost := s.b.lost + if p == SILENT then [] else [p]),
                d := s.d.(heard := s.d.heard + [s.d.input], missed := s.d.missed + 1))
      else s.(b := s.b.(cb := CbIdle, record := s.b.record + [p]),
              n := TakeNode(s.n).(record := s.n.record + [s.n.free[0]]),
              d := s.d.(heard := s.d.heard + [s.d.input], captured := s.d.captured + [s.d.input],
                        logged := s.d.logged + [s.d.mem[p]]))
  }

  function Flushed(s: State, stop: bool, c: Chance): State
    requires Defined(s)
  {
    match s.b.flush
    case FlLoop =>
      if s.stopRecording then s.(b := s.b.(flush := FlDone))
      else if s.b.record == [] then s
      else s.(b := s.b.(flush := FlFree(s.b.record[0], AtRead), record := s.b.record[1..]),
              n := s.n.(record := s.n.record[1..], recHand := [s.n.record[0]]))
    case FlFree(p, AtRead) => s.(b := s.b.(flush := FlFree(p, AtTest(s.n.read))))
    case FlFree(p, AtTest(r)) =>
      if c.again then s.(b := s.b.(flush := FlFree(p, AtRead)))
      else s.(b := s.b.(flush := FlFree(p, AtStore)), n := PutNode(s.n, s.n.recHand[0], r).(recHand := []),
              exit := if s.n.write - r >= FREE_NODES then PoolFull else s.exit)
    case FlFree(p, AtStore) => s.(b := s.b.(flush := FlConsume(p)))
    case FlConsume(p) =>
      s.(b := s.b.(flush := FlReturn(p, stop, AtRead)), d := s.d.(consumed := s.d.consumed + [s.d.mem[p]]))
    case FlReturn(p, halt, AtRead) =>
      if p == SILENT then s.(b := s.b.(flush := if halt then FlDone else FlLoop))
      else s.(b := s.b.(flush := FlReturn(p, halt, AtTest(s.b.read))))
    case FlReturn(p, halt, AtTest(r)) =>
      if c.again then s.(b := s.b.(flush := FlReturn(p, halt, AtRead)))
      else s.(b := PutBuffer(s.b, p, r).(flush := FlReturn(p, halt, AtStore)))
    case FlReturn(p, halt, AtStore) => s.(b := s.b.(flush := if halt then FlDone else FlLoop))
    case FlDone => s
  }

  function Step(s: State, a: Action): State
    requires Defined(s)
  {
    match a
    case FillStep(f, stop, c) => Filled(s, f, stop, c)
    case CallbackStep(f, c) => CalledBack(s, f, c)
    case FlushStep(stop, c) => Flushed(s, stop, c)
    case StopPlayback => s.(stopPlayback := true)
    case StopRecording => s.(stopRecording := true)
  }

  ghost predicate Next(s: State, s': State) {
    s.exit == Running && Defined(s) && exists a :: s' == Step(s, a)
  }

  // ---------- ownership ----------

  predicate FillHolds(f: Fill, b: nat) { (f.FillCopy? || f.FillEnq?) && f.b == b }

  predicate CbHolds(c: Callback, b: nat) {
    || ((c.CbFree? || c.CbCopyOut? || c.CbCopyIn?) && c.b == b)
    || (c.CbGiveBack? && c.g != AtStore && c.b == b) || (c.CbEnq? && c.p == b)
  }

  predicate FlushHolds(f: Flush, b: nat) {
    ((f.FlFree? || f.FlConsume?) && f.p == b) || (f.FlReturn? && f.g != AtStore && f.p == b)
  }

  /** In how many places buffer b is: the pool, the queues and the three hands. */
  function Places(s: Buffers, b: nat): nat {
    Copies(s.free, b) + Copies(s.playback, b) + Copies(s.record, b)
    + One(FillHolds(s.fill, b)) + One(CbHolds(s.cb, b)) + One(FlushHolds(s.flush, b))
  }

  /** In how many places it is, counting as one that it is lost. */
  function Held(s: Buffers, b: nat): nat { Places(s, b) + Copies(s.lost, b) }

  /** totalSilence is only in the record queue and on its way in or out of it. */
  ghost predicate SilenceConfined(s: Buffers) {
    && Copies(s.free, SILENT) == 0 && Copies(s.playback, SILENT) == 0 && !FillHolds(s.fill, SILENT)
    && (s.cb.CbEnq? || !CbHolds(s.cb, SILENT)) && Copies(s.lost, SILENT) == 0
    && (s.flush.FlReturn? && s.flush.g != AtRead ==> s.flush.p != SILENT)
  }

  /** Each frame buffer is in exactly one place, or lost. */
  ghost predicate Owned(s: Buffers) {
    && SilenceConfined(s)
    && forall b: nat :: b != SILENT ==> Held(s, b) == One(b < FREE_BUFFERS)
  }

  /** In how many places node n is: the pool, the two lists, the two base nodes and the consumers' hands. */
  function NodePlaces(s: Nodes, n: nat): nat {
    Copies(s.free, n) + Copies(s.playback, n) + Copies(s.record, n) + One(s.playBase == n) + One(s.recBase == n)
    + Copies(s.playHand, n) + Copies(s.recHand, n)
  }

  function NodeHeld(s: Nodes, n: nat): nat { NodePlaces(s, n) + Copies(s.lost, n) }

  ghost predicate NodesOwned(s: Nodes) {
    forall n: nat :: NodeHeld(s, n) == One(n < FREE_NODES)
  }

  // ---------- runs ----------

  /**
   The start of a session: all 300 buffers free, all nodes free but the two that each queue keeps, and
   the threads at their beginnings.  Audio_init leaves such a state, and so does a clean Audio_stop.
   */
  ghost predicate Init(s: State) {
    && Owned(s.b) && s.b == Buffers(s.b.free, [], [], FillLoop, CbIdle, FlLoop, [], s.b.read, s.b.read + |s.b.free|)
    && NodesOwned(s.n) && |s.n.playback| == |s.n.record| == 1 && s.n.playHand == s.n.recHand == s.n.lost == []
    && s.n.write == s.n.read + |s.n.free|
    && |s.d.mem| == FREE_BUFFERS + 1 && s.d.mem[SILENT] == Silence()
    && s.d.produced == s.d.queued == [] && s.d.outputs == [] && s.d.heard == s.d.captured == [] && s.d.logged == []
    && s.d.consumed == [] && s.d.leaks == s.d.missed == 0
    && s.exit == Running
  }

  /** The state after Audio_init: the record queue took nodes 0 and 1, the playback queue 2 and 3. */
  function Fresh(): State {
    State(Buffers(Range(FREE_BUFFERS), [], [], FillLoop, CbIdle, FlLoop, [], 0, FREE_BUFFERS),
          Nodes(Range(FREE_NODES)[4..], [2], [0], 3, 1, [], [], [], 4, FREE_NODES),
          Sound(seq(FREE_BUFFERS + 1, _ => Silence()), Silence(), Silence(), Silence(),
                [], [], 0, [], [], [], 0, [], []),
          false, false, Running)
  }

  /** The node pool of Audio_init: nodes 0 to 3 are gone. */
  lemma SpareNodes(n: nat)
    ensures Copies(Range(FREE_NODES)[4..], n) == One(4 <= n < FREE_NODES)
  {
    RangeCounts(FREE_NODES, n);
    RangeCounts(4, n);
    assert Range(FREE_NODES) == Range(4) + Range(FREE_NODES)[4..];
    CopiesCount(Range(FREE_NODES), n);
    CopiesCount(Range(4), n);
    CopiesCount(Range(FREE_NODES)[4..], n);
  }

  lemma FreshBuffers()
    ensures Owned(Fresh().b)
  {
    var b := Fresh().b;
    forall x: nat ensures Copies(b.free, x) == One(x < FREE_BUFFERS) && Held(b, x) == Copies(b.free, x) {
      RangeCounts(FREE_BUFFERS, x);
      hide Copies, Range;
      NoCopies(x);
    }
    hide Held, Copies, Range;
    NoCopies(SILENT);
  }

  lemma FreshNodes()
    ensures NodesOwned(Fresh().n)
  {
    var n := Fresh().n;
    forall x: nat ensures NodeHeld(n, x) == One(x < FREE_NODES) {
      SpareNodes(x);
      assert Copies([2], x) == One(2 == x) && Copies([0], x) == One(0 == x);
    }
  }

  lemma FreshInit()
    ensures Init(Fresh())
  {
    hide Owned, NodesOwned;
    FreshBuffers();
    FreshNodes();
  }

  ghost predicate IsRun(run: seq<State>) {
    && run != [] && Init(run[0])
    && forall j, k | 0 <= j < k < |run| && k == j + 1 :: Next(run[j], run[k])
  }

  ghost function FreshRun(): (run: seq<State>)
    ensures IsRun(run)
  {
    FreshInit();
    [Fresh()]
  }

  type Run = run: seq<State> | IsRun(run) ghost witness FreshRun()

  // ---------- every step keeps the ownership of buffers ----------

  /** The pool has room for a buffer that some thread holds. */
  lemma Room(s: Buffers, b: nat)
    requires Owned(s) && b < FREE_BUFFERS && (CbHolds(s.cb, b) || FlushHolds(s.flush, b))
    ensures |s.free| < FREE_BUFFERS
  {
    assert Held(s, b) == 1;
    forall x: nat ensures Copies(s.free, x) <= One(x < FREE_BUFFERS) {
      assert x != SILENT ==> Held(s, x) == One(x < FREE_BUFFERS);
    }
    Missing(s.free, b, FREE_BUFFERS);
  }

  /** The threads move on with the same buffers in their hands. */
  lemma SameHands(s: Buffers, s': Buffers)
    requires Owned(s) && SilenceConfined(s') && s' == s.(fill := s'.fill, cb := s'.cb, flush := s'.flush)
    requires forall b: nat | b != SILENT :: FillHolds(s'.fill, b) <==> FillHolds(s.fill, b)
    requires forall b: nat | b != SILENT :: CbHolds(s'.cb, b) <==> CbHolds(s.cb, b)
    requires forall b: nat | b != SILENT :: FlushHolds(s'.flush, b) <==> FlushHolds(s.flush, b)
    ensures Owned(s')
  {
    forall b: nat ensures b != SILENT ==> Held(s', b) == Held(s, b) {
      assert b != SILENT ==> (FillHolds(s'.fill, b) <==> FillHolds(s.fill, b));
      assert b != SILENT ==> (CbHolds(s'.cb, b) <==> CbHolds(s.cb, b));
      assert b != SILENT ==> (FlushHolds(s'.flush, b) <==> FlushHolds(s.flush, b));
    }
  }

  lemma SameFillHand(s: Buffers, fill: Fill)
    requires Owned(s) && forall b: nat :: FillHolds(fill, b) <==> FillHolds(s.fill, b)
    ensures Owned(s.(fill := fill))
  {
    SameHands(s, s.(fill := fill));
  }

  lemma SameCallbackHand(s: Buffers, cb: Callback)
    requires Owned(s) && (cb.CbEnq? || !CbHolds(cb, SILENT))
    requires forall b: nat | b != SILENT :: CbHolds(cb, b) <==> CbHolds(s.cb, b)
    ensures Owned(s.(cb := cb))
  {
    SameHands(s, s.(cb := cb));
  }

  lemma SameFlushHand(s: Buffers, flush: Flush)
    requires Owned(s) && (flush.FlReturn? && flush.g != AtRead ==> flush.p != SILENT)
    requires forall b: nat | b != SILENT :: FlushHolds(flush, b) <==> FlushHolds(s.flush, b)
    ensures Owned(s.(flush := flush))
  {
    SameHands(s, s.(flush := flush));
  }

  /** Taking the front of the free pool into an empty hand. */
  lemma TakeFree(s: Buffers, s': Buffers)
    requires Owned(s) && s.free != []
    requires || (s.fill.FillTake? && s' == TakeBuffer(s).(fill := FillCopy(s.free[0], 0)))
             || (s.cb.CbTake? && s' == TakeBuffer(s).(cb := CbCopyIn(s.free[0], 0)))
    ensures Owned(s') && s.free[0] < FREE_BUFFERS
  {
    var b := s.free[0];
    assert b != SILENT ==> Held(s, b) == One(b < FREE_BUFFERS);
    forall b: nat ensures b != SILENT ==> Held(s', b) == Held(s, b) {
    }
  }

  lemma FillEnqueues(s: Buffers, s': Buffers)
    requires Owned(s) && s.fill.FillEnq? && s' == s.(fill := FillLoop, playback := s.playback + [s.fill.b])
    ensures Owned(s')
  {
    Append(s.playback, s.fill.b, SILENT);
    forall b: nat ensures b != SILENT ==> Held(s', b) == Held(s, b) {
      Append(s.playback, s.fill.b, b);
    }
  }

  /** A buffer whose entry got no node is lost. */
  lemma FillLeaks(s: Buffers, s': Buffers)
    requires Owned(s) && s.fill.FillEnq? && s' == s.(fill := FillLoop, lost := s.lost + [s.fill.b])
    ensures Owned(s')
  {
    Append(s.lost, s.fill.b, SILENT);
    forall b: nat ensures b != SILENT ==> Held(s', b) == Held(s, b) {
      Append(s.lost, s.fill.b, b);
    }
  }

  lemma CallbackLeaks(s: Buffers, s': Buffers)
    requires Owned(s) && s.cb.CbEnq?
    requires s' == s.(cb := CbIdle, lost := s.lost + if s.cb.p == SILENT then [] else [s.cb.p])
    ensures Owned(s')
  {
    if s.cb.p == SILENT {
      assert s.lost + [] == s.lost;
    } else {
      Append(s.lost, s.cb.p, SILENT);
    }
    forall b: nat ensures b != SILENT ==> Held(s', b) == Held(s, b) {
      Append(s.lost, s.cb.p, b);
    }
  }

  lemma CallbackPops(s: Buffers, s': Buffers)
    requires Owned(s) && s.cb == CbIdle && s.playback != []
    requires s' == s.(cb := CbFree(s.playback[0], AtRead), playback := s.playback[1..])
    ensures Owned(s') && s.playback[0] < FREE_BUFFERS
  {
    var x := s.playback[0];
    assert x != SILENT ==> Held(s, x) == One(x < FREE_BUFFERS);
    forall b: nat ensures b != SILENT ==> Held(s', b) == Held(s, b) {
    }
  }

  /** The callback, or the flush thread, is at the test of its call that gives buffer b back. */
  ghost predicate Returning(s: Buffers, s': Buffers, b: nat, r: nat) {
    || (s.cb == CbGiveBack(b, AtTest(r)) && s' == PutBuffer(s, b, r).(cb := CbGiveBack(b, AtStore)))
    || (s.flush.FlReturn? && s.flush.p == b && s.flush.g == AtTest(r)
        && s' == PutBuffer(s, b, r).(flush := FlReturn(b, s.flush.stop, AtStore)))
  }

  /** Giving a buffer back never meets a full pool, though the pool may seem full. */
  lemma GiveBack(s: Buffers, s': Buffers, b: nat, r: nat)
    requires Owned(s) && Returning(s, s', b, r)
    ensures Owned(s') && |s.free| < FREE_BUFFERS
  {
    hide Copies;
    assert CbHolds(s.cb, b) || FlushHolds(s.flush, b);
    assert b != SILENT;
    assert Held(s, b) == One(b < FREE_BUFFERS);
    Room(s, b);
    Append(s.free, b, SILENT);
    Append(s.lost, b, SILENT);
    forall x: nat ensures x != SILENT ==> Held(s', x) == Held(s, x) {
      Append(s.free, b, x);
      Append(s.lost, b, x);
    }
  }

  lemma CallbackEnqueues(s: Buffers, s': Buffers)
    requires Owned(s) && s.cb.CbEnq? && s' == s.(cb := CbIdle, record := s.record + [s.cb.p])
    ensures Owned(s')
  {
    forall b: nat ensures b != SILENT ==> Held(s', b) == Held(s, b) {
      Append(s.record, s.cb.p, b);
    }
  }

  lemma FlushPops(s: Buffers, s': Buffers)
    requires Owned(s) && s.flush == FlLoop && s.record != []
    requires s' == s.(flush := FlFree(s.record[0], AtRead), record := s.record[1..])
    ensures Owned(s') && s.record[0] <= SILENT
  {
    var x := s.record[0];
    assert x != SILENT ==> Held(s, x) == One(x < FREE_BUFFERS);
    forall b: nat ensures b != SILENT ==> Held(s', b) == Held(s, b) {
    }
  }

  lemma FilledOwned(s: State, f: Frame, stop: bool, c: Chance)
    requires Defined(s) && Owned(s.b)
    ensures Owned(Filled(s, f, stop, c).b)
  {
    hide Owned;
    var b' := Filled(s, f, stop, c).b;
    match s.b.fill
    case FillTake(AtSlot(w)) =>
      if !c.again && !BufferDenied(s, w, c) { TakeFree(s.b, b'); } else { SameFillHand(s.b, b'.fill); }
    case FillEnq(_, AtSlot(w)) =>
      if c.again { SameFillHand(s.b, b'.fill); }
      else if NodeDenied(s, w, c) { FillLeaks(s.b, b'); } else { FillEnqueues(s.b, b'); }
    case _ => SameFillHand(s.b, b'.fill);
  }

  lemma CalledBackOwned(s: State, f: Frame, c: Chance)
    requires Defined(s) && Owned(s.b)
    ensures Owned(CalledBack(s, f, c).b)
  {
    hide Owned;
    var b' := CalledBack(s, f, c).b;
    match s.b.cb
    case CbIdle =>
      if s.b.playback == [] { SameCallbackHand(s.b, b'.cb); } else { CallbackPops(s.b, b'); }
    case CbGiveBack(b, AtTest(r)) =>
      if c.again { CallbackPasses(s.b, b'.cb); } else { GiveBack(s.b, b', b, r); }
    case CbTake(AtSlot(w)) =>
      if !c.again && !BufferDenied(s, w, c) { TakeFree(s.b, b'); } else { SameCallbackHand(s.b, b'.cb); }
    case CbEnq(_, AtSlot(w)) =>
      if c.again { CallbackPasses(s.b, b'.cb); }
      else if !NodeDenied(s, w, c) { CallbackEnqueues(s.b, b'); }
      else if !c.errno { CallbackLeaks(s.b, b'); }
    case _ => CallbackPasses(s.b, b'.cb);
  }

  /** The callback moves on with what is in its hand. */
  lemma CallbackPasses(s: Buffers, cb: Callback)
    requires Owned(s)
    requires match s.cb
      case CbFree(b, g) => (cb.CbFree? || cb.CbCopyOut?) && cb.b == b
      case CbSilence(_) => cb.CbSilence? || cb.CbTake?
      case CbCopyOut(b, _) => (cb.CbCopyOut? && cb.b == b) || cb == CbGiveBack(b, AtRead)
      case CbGiveBack(b, g) => if g == AtStore then cb.CbTake? else cb.CbGiveBack? && cb.b == b && cb.g != AtStore
      case CbTake(_) => cb.CbTake?
      case CbCopyIn(b, _) => (cb.CbCopyIn? || cb.CbEnq?) && (if cb.CbEnq? then cb.p else cb.b) == b
      case CbEnq(p, _) => cb.CbEnq? && cb.p == p
      case _ => false
    ensures Owned(s.(cb := cb))
  {
    SameCallbackHand(s, cb);
  }

  lemma FlushedOwned(s: State, stop: bool, c: Chance)
    requires Defined(s) && Owned(s.b)
    ensures Owned(Flushed(s, stop, c).b)
  {
    var b' := Flushed(s, stop, c).b;
    assert SilenceConfined(s.b);
    hide Owned;
    match s.b.flush
    case FlLoop =>
      if !s.stopRecording && s.b.record != [] { FlushPops(s.b, b'); } else { SameFlushHand(s.b, b'.flush); }
    case FlReturn(p, _, AtTest(r)) =>
      if c.again { SameFlushHand(s.b, b'.flush); } else { GiveBack(s.b, b', p, r); }
    case _ => SameFlushHand(s.b, b'.flush);
  }

  lemma StepOwned(s: State, a: Action)
    requires Defined(s) && Owned(s.b)
    ensures Owned(Step(s, a).b)
  {
    hide Owned;
    match a
    case FillStep(f, stop, c) => FilledOwned(s, f, stop, c);
    case CallbackStep(f, c) => CalledBackOwned(s, f, c);
    case FlushStep(stop, c) => FlushedOwned(s, stop, c);
    case _ =>
  }

  // ---------- every step keeps the ownership of nodes ----------

  /**
   The lists of nodes match the queues: one node per entry and one in front.  A node is in a consumer's hand
   until its call gives it back, and one that is lost ends the program.
   */
  ghost predicate NodesInv(s: State) {
    && NodesOwned(s.n) && (s.exit == PoolFull <==> s.n.lost != [])
    && |s.n.playback| == |s.b.playback| + 1 && |s.n.record| == |s.b.record| + 1
    && |s.n.playHand| == One(s.b.cb.CbFree? && s.b.cb.g != AtStore)
    && |s.n.recHand| == One(s.b.flush.FlFree? && s.b.flush.g != AtStore)
  }

  lemma NodeTaken(n: Nodes, n': Nodes)
    requires NodesOwned(n) && n.free != []
    requires || n' == TakeNode(n).(playback := n.playback + [n.free[0]])
             || n' == TakeNode(n).(record := n.record + [n.free[0]])
    ensures NodesOwned(n')
  {
    forall x: nat ensures NodeHeld(n', x) == NodeHeld(n, x) {
      Append(n.playback, n.free[0], x);
      Append(n.record, n.free[0], x);
    }
  }

  /** A node that leaves a list goes into the hand of the consumer. */
  lemma NodeUnlinked(n: Nodes, n': Nodes)
    requires NodesOwned(n)
    requires || (n.playback != [] && n.playHand == []
                 && n' == n.(playback := n.playback[1..], playHand := [n.playback[0]]))
             || (n.record != [] && n.recHand == [] && n' == n.(record := n.record[1..], recHand := [n.record[0]]))
    ensures NodesOwned(n')
  {
    forall x: nat ensures NodeHeld(n', x) == NodeHeld(n, x) {
      if n'.playback != n.playback {
        Single(n.playback[0], x);
      } else {
        Single(n.record[0], x);
      }
    }
  }

  /** Giving a node back never meets a full pool, though the pool may seem full. */
  lemma NodeGiven(n: Nodes, n': Nodes, x: nat, r: nat)
    requires NodesOwned(n)
    requires (n.playHand == [x] && n' == PutNode(n, x, r).(playHand := []))
          || (n.recHand == [x] && n' == PutNode(n, x, r).(recHand := []))
    ensures |n.free| < FREE_NODES && NodesOwned(n')
  {
    hide Copies;
    Single(x, x);
    NoCopies(x);
    assert NodeHeld(n, x) == One(x < FREE_NODES) && Copies(n.free, x) == 0;
    forall y: nat ensures Copies(n.free, y) <= One(y < FREE_NODES) {
      assert NodeHeld(n, y) == One(y < FREE_NODES);
    }
    Missing(n.free, x, FREE_NODES);
    forall y: nat ensures NodeHeld(n', y) == NodeHeld(n, y) {
      Append(n.free, x, y);
      Append(n.lost, x, y);
      Single(x, y);
      NoCopies(y);
    }
  }

  lemma FilledNodes(s: State, f: Frame, stop: bool, c: Chance)
    requires Defined(s) && NodesInv(s)
    ensures NodesInv(Filled(s, f, stop, c))
  {
    hide NodesOwned, CallbackPointed, FlushPointed;
    var s' := Filled(s, f, stop, c);
    if s'.n != s.n {
      NodeTaken(s.n, s'.n);
    }
  }

  lemma CalledBackNodes(s: State, f: Frame, c: Chance)
    requires Defined(s) && NodesInv(s) && s.exit == Running
    ensures NodesInv(CalledBack(s, f, c))
  {
    hide NodesOwned, FillPointed, FlushPointed;
    var s' := CalledBack(s, f, c);
    match s.b.cb
    case CbIdle => if s.b.playback != [] { NodeUnlinked(s.n, s'.n); }
    case CbFree(_, AtTest(r)) => if !c.again { NodeGiven(s.n, s'.n, s.n.playHand[0], r); }
    case CbEnq(_, AtSlot(w)) => if !c.again && !NodeDenied(s, w, c) { NodeTaken(s.n, s'.n); }
    case _ =>
  }

  lemma FlushedNodes(s: State, stop: bool, c: Chance)
    requires Defined(s) && NodesInv(s) && s.exit == Running
    ensures NodesInv(Flushed(s, stop, c))
  {
    hide NodesOwned;
    var s' := Flushed(s, stop, c);
    match s.b.flush
    case FlLoop => if !s.stopRecording && s.b.record != [] { NodeUnlinked(s.n, s'.n); }
    case FlFree(_, AtTest(r)) => if !c.again { NodeGiven(s.n, s'.n, s.n.recHand[0], r); }
    case _ =>
  }

  lemma StepNodes(s: State, a: Action)
    requires Defined(s) && NodesInv(s) && s.exit == Running
    ensures NodesInv(Step(s, a))
  {
    hide NodesInv;
    match a
    case FillStep(f, stop, c) => FilledNodes(s, f, stop, c);
    case CallbackStep(f, c) => CalledBackNodes(s, f, c);
    case FlushStep(stop, c) => FlushedNodes(s, stop, c);
    case _ => assert NodesInv(s) ==> NodesInv(Step(s, a)) by { NodesPass(s, Step(s, a)); }
  }

  lemma NodesPass(s: State, s': State)
    requires NodesInv(s) && s'.n == s.n && s'.b == s.b && s'.exit == s.exit
    ensures NodesInv(s')
  {
  }

  /** Pointers never go back, so what another thread has loaded stays behind them. */
  predicate Onward(s: State, s': State) {
    s.b.read <= s'.b.read && s.b.write <= s'.b.write && s.n.read <= s'.n.read && s.n.write <= s'.n.write
  }

  lemma OthersPointed(s: State, s': State)
    requires Pointed(s) && Onward(s, s')
    ensures s'.b.fill == s.b.fill ==> FillPointed(s')
    ensures s'.b.cb == s.b.cb ==> CallbackPointed(s')
    ensures s'.b.flush == s.b.flush ==> FlushPointed(s')
  {
  }

  lemma FillTakesPointed(s: State, f: Frame, stop: bool, c: Chance)
    requires Defined(s) && (s.b.fill.FillTake? || s.b.fill.FillEnq?)
    ensures var s' := Filled(s, f, stop, c); PoolsPointed(s') && FillPointed(s') && Onward(s, s')
  {
    hide CallbackPointed, FlushPointed;
  }

  lemma FilledKeeps(s: State, f: Frame, stop: bool, c: Chance)
    requires Defined(s)
    ensures Filled(s, f, stop, c).b.cb == s.b.cb && Filled(s, f, stop, c).b.flush == s.b.flush
  {
    hide FillPointed, CallbackPointed, FlushPointed;
  }

  lemma FilledPointed(s: State, f: Frame, stop: bool, c: Chance)
    requires Defined(s)
    ensures Pointed(Filled(s, f, stop, c))
  {
    hide CallbackPointed, FlushPointed;
    FilledKeeps(s, f, stop, c);
    if s.b.fill.FillTake? || s.b.fill.FillEnq? {
      hide PoolsPointed, FillPointed, Filled;
      FillTakesPointed(s, f, stop, c);
      OthersPointed(s, Filled(s, f, stop, c));
    } else {
      OthersPointed(s, Filled(s, f, stop, c));
    }
  }

  /** Calls of dequeue: the callback takes a buffer or a node. */
  lemma CallbackTakesPointed(s: State, f: Frame, c: Chance)
    requires Defined(s) && (s.b.cb.CbTake? || s.b.cb.CbEnq?)
    ensures PoolsPointed(CalledBack(s, f, c)) && CallbackPointed(CalledBack(s, f, c)) && Onward(s, CalledBack(s, f, c))
  {
    hide FillPointed, FlushPointed;
  }

  /** Calls of enqueue: it gives back a node or a buffer. */
  lemma CallbackGivesPointed(s: State, f: Frame, c: Chance)
    requires Defined(s) && (s.b.cb.CbFree? || s.b.cb.CbGiveBack?)
    ensures PoolsPointed(CalledBack(s, f, c)) && CallbackPointed(CalledBack(s, f, c)) && Onward(s, CalledBack(s, f, c))
  {
    hide FillPointed, FlushPointed;
  }

  lemma CallbackPlaysPointed(s: State, f: Frame, c: Chance)
    requires Defined(s) && (s.b.cb.CbIdle? || s.b.cb.CbSilence? || s.b.cb.CbCopyOut? || s.b.cb.CbCopyIn?)
    ensures PoolsPointed(CalledBack(s, f, c)) && CallbackPointed(CalledBack(s, f, c)) && Onward(s, CalledBack(s, f, c))
  {
    hide FillPointed, FlushPointed;
  }

  lemma CalledBackKeeps(s: State, f: Frame, c: Chance)
    requires Defined(s)
    ensures CalledBack(s, f, c).b.fill == s.b.fill && CalledBack(s, f, c).b.flush == s.b.flush
  {
  }

  lemma CalledBackPointed(s: State, f: Frame, c: Chance)
    requires Defined(s)
    ensures Pointed(CalledBack(s, f, c))
  {
    CalledBackKeeps(s, f, c);
    hide CalledBack, FillPointed, CallbackPointed, FlushPointed, PoolsPointed;
    match s.b.cb {
      case CbTake(_) => CallbackTakesPointed(s, f, c);
      case CbEnq(_, _) => CallbackTakesPointed(s, f, c);
      case CbFree(_, _) => CallbackGivesPointed(s, f, c);
      case CbGiveBack(_, _) => CallbackGivesPointed(s, f, c);
      case _ => CallbackPlaysPointed(s, f, c);
    }
    OthersPointed(s, CalledBack(s, f, c));
  }

  lemma FlushedPointed(s: State, stop: bool, c: Chance)
    requires Defined(s)
    ensures Pointed(Flushed(s, stop, c))
  {
    hide FillPointed, CallbackPointed;
    OthersPointed(s, Flushed(s, stop, c));
  }

  lemma StepPointed(s: State, a: Action)
    requires Defined(s)
    ensures Pointed(Step(s, a))
  {
    hide Filled, CalledBack, Flushed;
    match a
    case FillStep(f, stop, c) => FilledPointed(s, f, stop, c);
    case CallbackStep(f, c) => CalledBackPointed(s, f, c);
    case FlushStep(stop, c) => FlushedPointed(s, stop, c);
    case _ =>
  }

  // ---------- lengths ----------

  /**
   The nodes are 600: those in the pool, one per queued entry, two for each queue, those that the consumers
   are giving back, and those lost.
   */
  lemma NodeBudget(s: State)
    requires NodesInv(s)
    ensures |s.n.free| + |s.b.playback| + |s.b.record| + 4 + |s.n.playHand| + |s.n.recHand| + |s.n.lost| == FREE_NODES
  {
    var n := s.n;
    var lists := n.free + n.playback + n.record;
    var hands := n.playHand + n.recHand + n.lost;
    var all := lists + hands + [n.playBase] + [n.recBase];
    hide Copies;
    forall x: nat ensures Copies(all, x) == One(x < FREE_NODES) {
      CopiesConcat(n.free, n.playback, x);
      CopiesConcat(n.free + n.playback, n.record, x);
      CopiesConcat(n.playHand, n.recHand, x);
      CopiesConcat(n.playHand + n.recHand, n.lost, x);
      CopiesConcat(lists, hands, x);
      Append(lists + hands, n.playBase, x);
      Append(lists + hands + [n.playBase], n.recBase, x);
      assert NodeHeld(n, x) == One(x < FREE_NODES);
    }
    LengthFromCopies(all, FREE_NODES, FREE_NODES);
    NoCopies(FREE_NODES);
  }

  /** The entries that are queued, or that a consumer has just taken out. */
  function Entries(s: Buffers): seq<nat> {
    s.playback + s.record + (if s.cb.CbFree? then [s.cb.b] else []) + (if s.flush.FlFree? then [s.flush.p] else [])
  }

  /** The real buffers are 300, so entries beyond that are totalSilence in the record queue or just out of it. */
  lemma BufferBudget(s: Buffers)
    requires Owned(s)
    ensures |Entries(s)| <= FREE_BUFFERS + Copies(s.record, SILENT) + One(s.flush.FlFree? && s.flush.p == SILENT)
  {
    var q := Entries(s);
    hide Copies;
    var out, back := if s.cb.CbFree? then [s.cb.b] else [], if s.flush.FlFree? then [s.flush.p] else [];
    forall b: nat
      ensures Copies(q, b) == Copies(s.playback, b) + Copies(s.record, b)
                              + One(s.cb.CbFree? && s.cb.b == b) + One(s.flush.FlFree? && s.flush.p == b)
    {
      CopiesConcat(s.playback, s.record, b);
      CopiesConcat(s.playback + s.record, out, b);
      CopiesConcat(s.playback + s.record + out, back, b);
      NoCopies(b);
      if s.cb.CbFree? { Single(s.cb.b, b); }
      if s.flush.FlFree? { Single(s.flush.p, b); }
    }
    forall b: nat ensures b != SILENT ==> Copies(q, b) <= One(b < FREE_BUFFERS) {
      assert b != SILENT ==> Held(s, b) == One(b < FREE_BUFFERS);
    }
    LengthAtMost(q, FREE_BUFFERS, SILENT);
    assert !CbHolds(s.cb, SILENT) || s.cb.CbEnq?;
  }
}
