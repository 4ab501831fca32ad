/**
 The pools and the lists of nodes of the audio pipeline over whole runs: what goes in comes out in the same order,
 and every answer of a pool goes by a pointer that was loaded in the same call.
 */
module AudioPools {
  import opened AudioMachine
  import opened AudioPromises
  import opened AudioSound
  import opened Counting

  // ---------- what a step takes from a pool or a list, and what it puts there ----------

  /** The buffer that the fill thread, or the callback, gets. */
  function BufferOut(s: State, s': State): seq<nat> {
    if s.b.fill.FillTake? && s'.b.fill.FillCopy? then [s'.b.fill.b]
    else if s.b.cb.CbTake? && s'.b.cb.CbCopyIn? then [s'.b.cb.b] else []
  }

  /** The buffer that the callback, or the flush thread, gives back and that the pool does not refuse. */
  function BufferIn(s: State, s': State): seq<nat> {
    if s.b.cb.CbGiveBack? && s.b.cb.g.AtTest? && s'.b.cb == CbGiveBack(s.b.cb.b, AtStore)
       && !Refused(s, s', s.b.cb.b) then [s.b.cb.b]
    else if s.b.flush.FlReturn? && s.b.flush.g.AtTest? && s'.b.flush == s.b.flush.(g := AtStore)
       && !Refused(s, s', s.b.flush.p) then [s.b.flush.p]
    else []
  }

  /** The node linked to the end of a list. */
  function Linked(list: seq<nat>, list': seq<nat>): seq<nat> {
    if list < list' then list'[|list|..] else []
  }

  /** The callback, or the flush thread, makes the test of a call that gives a node back. */
  predicate CallbackTests(s: State, s': State) {
    s.b.cb.CbFree? && s.b.cb.g.AtTest? && s'.b.cb == CbFree(s.b.cb.b, AtStore)
  }

  predicate FlushTests(s: State, s': State) {
    s.b.flush.FlFree? && s.b.flush.g.AtTest? && s'.b.flush == FlFree(s.b.flush.p, AtStore)
  }

  /** The callback, or the flush thread, takes an entry out. */
  predicate CallbackPops(s: State, s': State) { s.b.cb.CbIdle? && s'.b.cb.CbFree? }

  predicate FlushPops(s: State, s': State) { s.b.flush.FlLoop? && s'.b.flush.FlFree? }

  /** The node that goes back and that the pool does not refuse. */
  function NodeIn(s: State, s': State): seq<nat> {
    if NodeRefused(s, s') then [] else if CallbackTests(s, s') then s.n.playHand
    else if FlushTests(s, s') then s.n.recHand else []
  }

  /** The old head of the playback list, and of the record list, when an entry is taken out. */
  function PlayOut(s: State, s': State): seq<nat> { if CallbackPops(s, s') then s'.n.playHand else [] }

  function RecordOut(s: State, s': State): seq<nat> { if FlushPops(s, s') then s'.n.recHand else [] }

  /** What was in a list and what is put in is what is taken out and what is in it then. */
  predicate Passes(list: seq<nat>, put: seq<nat>, taken: seq<nat>, list': seq<nat>) {
    list + put == taken + list'
  }

  predicate BuffersPass(s: State, s': State) { Passes(s.b.free, BufferIn(s, s'), BufferOut(s, s'), s'.b.free) }

  predicate NodesPass(s: State, s': State) {
    && Passes(s.n.free, NodeIn(s, s'),
              Linked(s.n.playback, s'.n.playback) + Linked(s.n.record, s'.n.record), s'.n.free)
    && Passes(s.n.playback, Linked(s.n.playback, s'.n.playback), PlayOut(s, s'), s'.n.playback)
    && Passes(s.n.record, Linked(s.n.record, s'.n.record), RecordOut(s, s'), s'.n.record)
  }

  /** Nothing happens to a list, its head is taken, or something is put at its end. */
  lemma ListPasses(list: seq<nat>, x: nat)
    ensures Passes(list, [], [], list) && Linked(list, list) == []
    ensures Passes(list, [x], [], list + [x]) && Linked(list, list + [x]) == [x]
    ensures list != [] ==> Passes(list, [], [list[0]], list[1..]) && Linked(list, list[1..]) == []
  {
  }

  // ---------- nodes ----------

  predicate Quiet(s: State, s': State) {
    !CallbackTests(s, s') && !FlushTests(s, s') && !CallbackPops(s, s') && !FlushPops(s, s')
  }

  lemma QuietNodes(s: State, s': State)
    requires s'.n == s.n && Quiet(s, s')
    ensures NodesPass(s, s')
  {
    ListPasses(s.n.free, 0);
    ListPasses(s.n.playback, 0);
    ListPasses(s.n.record, 0);
    hide Passes, Linked;
  }

  /** A node goes from the pool to the end of one of the lists. */
  lemma TakenPasses(s: State, s': State)
    requires s.n.free != [] && Quiet(s, s')
    requires || s'.n == TakeNode(s.n).(playback := s.n.playback + [s.n.free[0]])
             || s'.n == TakeNode(s.n).(record := s.n.record + [s.n.free[0]])
    ensures NodesPass(s, s')
  {
    ListPasses(s.n.free, 0);
    ListPasses(s.n.playback, s.n.free[0]);
    ListPasses(s.n.record, s.n.free[0]);
    hide Passes, Linked;
  }

  /** The head of a list goes into a hand. */
  lemma PoppedPasses(s: State, s': State)
    requires !CallbackTests(s, s') && !FlushTests(s, s')
    requires || (s.n.playback != [] && CallbackPops(s, s') && !FlushPops(s, s')
                 && s'.n == s.n.(playback := s.n.playback[1..], playHand := [s.n.playback[0]]))
             || (s.n.record != [] && FlushPops(s, s') && !CallbackPops(s, s')
                 && s'.n == s.n.(record := s.n.record[1..], recHand := [s.n.record[0]]))
    ensures NodesPass(s, s')
  {
    ListPasses(s.n.free, 0);
    ListPasses(s.n.playback, 0);
    ListPasses(s.n.record, 0);
    hide Passes, Linked;
  }

  /** A node in a hand goes to the end of the pool, or is refused. */
  lemma GivenPasses(s: State, s': State, x: nat, r: nat)
    requires !CallbackPops(s, s') && !FlushPops(s, s') && PoolsPointed(s)
    requires NodeRefused(s, s') <==> SeemsFull(|s.n.free|, s.n.read, r, FREE_NODES)
    requires || (CallbackTests(s, s') && s.n.playHand == [x] && s'.n == PutNode(s.n, x, r).(playHand := []))
             || (!CallbackTests(s, s') && FlushTests(s, s') && s.n.recHand == [x]
                 && s'.n == PutNode(s.n, x, r).(recHand := []))
    ensures NodesPass(s, s')
  {
    ListPasses(s.n.free, x);
    ListPasses(s.n.playback, 0);
    ListPasses(s.n.record, 0);
    hide Passes, Linked, NodeRefused;
  }

  lemma FilledNodesPass(s: State, f: Frame, stop: bool, c: Chance)
    requires Defined(s)
    ensures NodesPass(s, Filled(s, f, stop, c))
  {
    var s' := Filled(s, f, stop, c);
    FilledKeeps(s, f, stop, c);
    hide FillPointed, CallbackPointed, FlushPointed, NodesPass, BufferDenied;
    if s.b.fill.FillEnq? && s.b.fill.t.AtSlot? && !c.again && !NodeDenied(s, s.b.fill.t.w, c) {
      TakenPasses(s, s');
    } else {
      QuietNodes(s, s');
    }
  }

  lemma CalledBackQuiet(s: State, f: Frame, c: Chance)
    requires Defined(s) && !(s.b.cb.CbIdle? && s.b.playback != [])
    requires s.b.cb.CbFree? && s.b.cb.g.AtTest? ==> c.again
    requires s.b.cb.CbEnq? && s.b.cb.t.AtSlot? ==> c.again || NodeDenied(s, s.b.cb.t.w, c)
    ensures var s' := CalledBack(s, f, c); s'.n == s.n && !CallbackTests(s, s') && !CallbackPops(s, s')
  {
    hide FillPointed, CallbackPointed, FlushPointed, BufferDenied, NodeDenied;
  }

  lemma CalledBackNodesPass(s: State, f: Frame, c: Chance)
    requires Defined(s) && NodesInv(s)
    ensures NodesPass(s, CalledBack(s, f, c))
  {
    var s' := CalledBack(s, f, c);
    CalledBackKeeps(s, f, c);
    hide FillPointed, CallbackPointed, FlushPointed, NodesPass, NodesOwned, BufferDenied;
    if s.b.cb.CbIdle? && s.b.playback != [] {
      PoppedPasses(s, s');
    } else if s.b.cb.CbFree? && s.b.cb.g.AtTest? && !c.again {
      GivenPasses(s, s', s.n.playHand[0], s.b.cb.g.r);
    } else if s.b.cb.CbEnq? && s.b.cb.t.AtSlot? && !c.again && !NodeDenied(s, s.b.cb.t.w, c) {
      TakenPasses(s, s');
    } else {
      CalledBackQuiet(s, f, c);
      hide CalledBack;
      QuietNodes(s, s');
    }
  }

  lemma FlushedNodesPass(s: State, stop: bool, c: Chance)
    requires Defined(s) && NodesInv(s)
    ensures NodesPass(s, Flushed(s, stop, c))
  {
    var s' := Flushed(s, stop, c);
    hide FillPointed, CallbackPointed, FlushPointed, NodesPass, NodesOwned, BufferDenied, NodeDenied;
    assert s'.b.cb == s.b.cb;
    if s.b.flush.FlLoop? && !s.stopRecording && s.b.record != [] {
      PoppedPasses(s, s');
    } else if s.b.flush.FlFree? && s.b.flush.g.AtTest? && !c.again {
      GivenPasses(s, s', s.n.recHand[0], s.b.flush.g.r);
    } else {
      QuietNodes(s, s');
    }
  }

  // ---------- buffers ----------

  lemma FilledBuffersPass(s: State, f: Frame, stop: bool, c: Chance)
    requires Defined(s)
    ensures BuffersPass(s, Filled(s, f, stop, c))
  {
    ListPasses(s.b.free, 0);
    FilledKeeps(s, f, stop, c);
    hide Passes, CallbackPointed, FlushPointed;
  }

  lemma GivenBuffersPass(s: State, f: Frame, c: Chance)
    requires Defined(s) && s.b.cb.CbGiveBack?
    ensures BuffersPass(s, CalledBack(s, f, c))
  {
    ListPasses(s.b.free, s.b.cb.b);
    hide Passes, FillPointed, FlushPointed;
  }

  lemma TakenBuffersPass(s: State, f: Frame, c: Chance)
    requires Defined(s) && s.b.cb.CbTake?
    ensures BuffersPass(s, CalledBack(s, f, c))
  {
    ListPasses(s.b.free, 0);
    hide Passes, FillPointed, FlushPointed;
  }

  lemma RestBuffersPass(s: State, f: Frame, c: Chance)
    requires Defined(s) && !s.b.cb.CbGiveBack? && !s.b.cb.CbTake?
    ensures CalledBack(s, f, c).b.free == s.b.free && CalledBack(s, f, c).b.flush == s.b.flush
  {
    CalledBackKeeps(s, f, c);
    hide FillPointed, CallbackPointed, FlushPointed, BufferDenied, NodeDenied;
  }

  lemma CalledBackBuffersPass(s: State, f: Frame, c: Chance)
    requires Defined(s)
    ensures BuffersPass(s, CalledBack(s, f, c))
  {
    CalledBackKeeps(s, f, c);
    hide CalledBack, Defined;
    if s.b.cb.CbGiveBack? {
      GivenBuffersPass(s, f, c);
    } else if s.b.cb.CbTake? {
      TakenBuffersPass(s, f, c);
    } else {
      RestBuffersPass(s, f, c);
      ListPasses(s.b.free, 0);
      hide Passes;
    }
  }

  lemma ReturnedBuffersPass(s: State, stop: bool, c: Chance)
    requires Defined(s) && s.b.flush.FlReturn?
    ensures BuffersPass(s, Flushed(s, stop, c))
  {
    ListPasses(s.b.free, s.b.flush.p);
    hide Passes, FillPointed, CallbackPointed;
  }

  lemma FlushedBuffersPass(s: State, stop: bool, c: Chance)
    requires Defined(s)
    ensures BuffersPass(s, Flushed(s, stop, c))
  {
    if s.b.flush.FlReturn? {
      ReturnedBuffersPass(s, stop, c);
    } else {
      ListPasses(s.b.free, 0);
      hide Passes, FillPointed, CallbackPointed, FlushPointed;
      assert Flushed(s, stop, c).b.free == s.b.free;
    }
  }

  // ---------- whole runs ----------

  /** All that the steps of a run have put into the pools and the lists and taken out of them, in order. */
  datatype Traffic = Traffic(
    buffersIn: seq<nat>, buffersOut: seq<nat>, nodesIn: seq<nat>, nodesOut: seq<nat>,
    playIn: seq<nat>, playOut: seq<nat>, recordIn: seq<nat>, recordOut: seq<nat>)

  function TrafficAfter(t: Traffic, s: State, s': State): Traffic {
    var play, record := Linked(s.n.playback, s'.n.playback), Linked(s.n.record, s'.n.record);
    Traffic(t.buffersIn + BufferIn(s, s'), t.buffersOut + BufferOut(s, s'),
            t.nodesIn + NodeIn(s, s'), t.nodesOut + (play + record),
            t.playIn + play, t.playOut + PlayOut(s, s'), t.recordIn + record, t.recordOut + RecordOut(s, s'))
  }

  function TrafficUntil(run: seq<State>, k: nat): Traffic
    requires k < |run|
  {
    if k == 0 then Traffic([], [], [], [], [], [], [], [])
    else TrafficAfter(TrafficUntil(run, k - 1), run[k - 1], run[k])
  }

  ghost predicate InOrder(first: State, t: Traffic, s: State) {
    && Passes(first.b.free, t.buffersIn, t.buffersOut, s.b.free)
    && Passes(first.n.free, t.nodesIn, t.nodesOut, s.n.free)
    && Passes(first.n.playback, t.playIn, t.playOut, s.n.playback)
    && Passes(first.n.record, t.recordIn, t.recordOut, s.n.record)
  }

  lemma PassesOn(first: seq<nat>, put: seq<nat>, taken: seq<nat>, list: seq<nat>,
                 more: seq<nat>, fewer: seq<nat>, list': seq<nat>)
    requires Passes(first, put, taken, list) && Passes(list, more, fewer, list')
    ensures Passes(first, put + more, taken + fewer, list')
  {
    assert first + (put + more) == first + put + more == taken + list + more == taken + (list + more);
    assert taken + (fewer + list') == taken + fewer + list';
  }

  lemma StepPasses(s: State, a: Action)
    requires Inv(s) && Defined(s)
    ensures BuffersPass(s, Step(s, a)) && NodesPass(s, Step(s, a))
  {
    hide Owned, NodesInv, SoundInv, Defined, Filled, CalledBack, Flushed, BuffersPass, NodesPass;
    match a
    case FillStep(f, stop, c) =>
      FilledBuffersPass(s, f, stop, c);
      FilledNodesPass(s, f, stop, c);
    case CallbackStep(f, c) =>
      CalledBackBuffersPass(s, f, c);
      CalledBackNodesPass(s, f, c);
    case FlushStep(stop, c) =>
      FlushedBuffersPass(s, stop, c);
      FlushedNodesPass(s, stop, c);
    case _ => StopPasses(s, a);
  }

  lemma StopPasses(s: State, a: Action)
    requires Defined(s) && (a.StopPlayback? || a.StopRecording?)
    ensures BuffersPass(s, Step(s, a)) && NodesPass(s, Step(s, a))
  {
    QuietNodes(s, Step(s, a));
    ListPasses(s.b.free, 0);
  }

  lemma NextPasses(run: Run, k: nat)
    requires 0 < k < |run|
    ensures BuffersPass(run[k - 1], run[k]) && NodesPass(run[k - 1], run[k])
  {
    hide Inv, Step, BuffersPass, NodesPass, Init;
    RunInv(run, k - 1);
    assert Next(run[k - 1], run[k]);
    var a :| run[k] == Step(run[k - 1], a);
    StepPasses(run[k - 1], a);
  }

  lemma TrafficPasses(first: State, t: Traffic, s: State, s': State)
    requires InOrder(first, t, s) && BuffersPass(s, s') && NodesPass(s, s')
    ensures InOrder(first, TrafficAfter(t, s, s'), s')
  {
    hide Passes, Linked, BufferIn, BufferOut, NodeIn, PlayOut, RecordOut;
    var play, record := Linked(s.n.playback, s'.n.playback), Linked(s.n.record, s'.n.record);
    PassesOn(first.b.free, t.buffersIn, t.buffersOut, s.b.free, BufferIn(s, s'), BufferOut(s, s'), s'.b.free);
    PassesOn(first.n.free, t.nodesIn, t.nodesOut, s.n.free, NodeIn(s, s'), play + record, s'.n.free);
    PassesOn(first.n.playback, t.playIn, t.playOut, s.n.playback, play, PlayOut(s, s'), s'.n.playback);
    PassesOn(first.n.record, t.recordIn, t.recordOut, s.n.record, record, RecordOut(s, s'), s'.n.record);
  }

  /**
   In every run buffers leave the pool in the order in which they came to it, and so do the nodes of the node pool
   and of both lists: what was there and came in is what went out followed by what is there.
   */
  lemma {:induction false} PoolsInOrder(run: Run, k: nat)
    requires k < |run|
    ensures InOrder(run[0], TrafficUntil(run, k), run[k])
  {
    hide *;
    if k == 0 {
      NoTraffic(run);
    } else {
      PoolsInOrder(run, k - 1);
      NextPasses(run, k);
      TrafficPasses(run[0], TrafficUntil(run, k - 1), run[k - 1], run[k]);
      TrafficNext(run, k);
    }
  }

  lemma NoTraffic(run: Run)
    ensures InOrder(run[0], TrafficUntil(run, 0), run[0])
  {
  }

  lemma TrafficNext(run: Run, k: nat)
    requires 0 < k < |run|
    ensures TrafficUntil(run, k) == TrafficAfter(TrafficUntil(run, k - 1), run[k - 1], run[k])
  {
  }

  // ---------- the pointers that the answers go by ----------

  function SeekPointer(t: Seek): nat { if t.AtSlot? then t.w else 0 }

  function GivePointer(g: Give): nat { if g.AtTest? then g.r else 0 }

  /** The thread has loaded a pointer and not yet used it. */
  predicate FillLoaded(f: Fill) { (f.FillTake? || f.FillEnq?) && f.t.AtSlot? }

  predicate CallbackLoaded(c: Callback) {
    ((c.CbTake? || c.CbEnq?) && c.t.AtSlot?) || ((c.CbFree? || c.CbGiveBack?) && c.g.AtTest?)
  }

  predicate FlushLoaded(f: Flush) { (f.FlFree? || f.FlReturn?) && f.g.AtTest? }

  /** Thread fill is about to load the pointer that f remembers. */
  predicate FillLoads(s: State, f: Fill) {
    match f
    case FillTake(t) => s.b.fill == FillTake(AtWrite) && s.b.write == SeekPointer(t)
    case FillEnq(b, t) => s.b.fill == FillEnq(b, AtWrite) && s.n.write == SeekPointer(t)
    case _ => false
  }

  predicate CallbackLoads(s: State, c: Callback) {
    match c
    case CbTake(t) => s.b.cb == CbTake(AtWrite) && s.b.write == SeekPointer(t)
    case CbEnq(p, t) => s.b.cb == CbEnq(p, AtWrite) && s.n.write == SeekPointer(t)
    case CbFree(b, g) => s.b.cb == CbFree(b, AtRead) && s.n.read == GivePointer(g)
    case CbGiveBack(b, g) => s.b.cb == CbGiveBack(b, AtRead) && s.b.read == GivePointer(g)
    case _ => false
  }

  predicate FlushLoads(s: State, f: Flush) {
    match f
    case FlFree(p, g) => s.b.flush == FlFree(p, AtRead) && s.n.read == GivePointer(g)
    case FlReturn(p, stop, g) => s.b.flush == FlReturn(p, stop, AtRead) && s.b.read == GivePointer(g)
    case _ => false
  }

  predicate Kept(s: State, s': State) {
    && (FillLoaded(s'.b.fill) ==> s.b.fill == s'.b.fill || FillLoads(s, s'.b.fill))
    && (CallbackLoaded(s'.b.cb) ==> s.b.cb == s'.b.cb || CallbackLoads(s, s'.b.cb))
    && (FlushLoaded(s'.b.flush) ==> s.b.flush == s'.b.flush || FlushLoads(s, s'.b.flush))
  }

  lemma FilledLoads(s: State, f: Frame, stop: bool, c: Chance)
    requires Defined(s)
    ensures Kept(s, Filled(s, f, stop, c))
  {
    FilledKeeps(s, f, stop, c);
    hide FillPointed, CallbackPointed, FlushPointed, BufferDenied, NodeDenied;
  }

  lemma CalledBackLoads(s: State, f: Frame, c: Chance)
    requires Defined(s)
    ensures Kept(s, CalledBack(s, f, c))
  {
    CalledBackKeeps(s, f, c);
    hide FillPointed, CallbackPointed, FlushPointed, BufferDenied, NodeDenied;
  }

  lemma FlushedLoads(s: State, stop: bool, c: Chance)
    requires Defined(s)
    ensures Kept(s, Flushed(s, stop, c))
  {
    hide FillPointed, CallbackPointed, FlushPointed;
  }

  lemma StepLoads(s: State, a: Action)
    requires Defined(s)
    ensures Kept(s, Step(s, a))
  {
    hide Defined, Filled, CalledBack, Flushed, Kept;
    match a
    case FillStep(f, stop, c) => FilledLoads(s, f, stop, c);
    case CallbackStep(f, c) => CalledBackLoads(s, f, c);
    case FlushStep(stop, c) => FlushedLoads(s, stop, c);
    case _ => SameLoads(s, a);
  }

  lemma SameLoads(s: State, a: Action)
    requires Defined(s) && (a.StopPlayback? || a.StopRecording?)
    ensures Kept(s, Step(s, a))
  {
  }

  lemma NextLoads(run: Run, k: nat)
    requires 0 < k < |run|
    ensures Kept(run[k - 1], run[k])
  {
    hide Step, Kept, Init;
    assert Next(run[k - 1], run[k]);
    var a :| run[k] == Step(run[k - 1], a);
    StepLoads(run[k - 1], a);
  }

  lemma NothingLoadedFirst(run: Run)
    ensures !FillLoaded(run[0].b.fill) && !CallbackLoaded(run[0].b.cb) && !FlushLoaded(run[0].b.flush)
  {
    assert Init(run[0]);
  }

  /**
   Every answer of a pool goes by the value that a pointer had at a moment j of the same call; the thread has been
   waiting with it since.
   */
  lemma {:induction false} FillWaits(run: Run, k: nat) returns (j: nat)
    requires k < |run| && FillLoaded(run[k].b.fill)
    ensures j < k && FillLoads(run[j], run[k].b.fill)
    ensures forall m | j < m <= k :: run[m].b.fill == run[k].b.fill
  {
    hide IsRun, Init, FillLoaded, FillLoads;
    NothingLoadedFirst(run);
    NextLoads(run, k);
    if run[k - 1].b.fill == run[k].b.fill {
      j := FillWaits(run, k - 1);
    } else {
      j := k - 1;
    }
  }

  lemma {:induction false} CallbackWaits(run: Run, k: nat) returns (j: nat)
    requires k < |run| && CallbackLoaded(run[k].b.cb)
    ensures j < k && CallbackLoads(run[j], run[k].b.cb)
    ensures forall m | j < m <= k :: run[m].b.cb == run[k].b.cb
  {
    hide IsRun, Init, CallbackLoaded, CallbackLoads;
    NothingLoadedFirst(run);
    NextLoads(run, k);
    if run[k - 1].b.cb == run[k].b.cb {
      j := CallbackWaits(run, k - 1);
    } else {
      j := k - 1;
    }
  }

  lemma {:induction false} FlushWaits(run: Run, k: nat) returns (j: nat)
    requires k < |run| && FlushLoaded(run[k].b.flush)
    ensures j < k && FlushLoads(run[j], run[k].b.flush)
    ensures forall m | j < m <= k :: run[m].b.flush == run[k].b.flush
  {
    hide IsRun, Init, FlushLoaded, FlushLoads;
    NothingLoadedFirst(run);
    NextLoads(run, k);
    if run[k - 1].b.flush == run[k].b.flush {
      j := FlushWaits(run, k - 1);
    } else {
      j := k - 1;
    }
  }
}
