/**
 What the audio pipeline promises in every run: what is lost, how the program ends, and what each stream holds.
 AudioObserved says which frames of the outside the streams are made of.
 */
module AudioPromises {
  import opened AudioMachine
  import opened AudioSound
  import opened Counting

  // ---------- what is lost, and exactly when ----------

  /** A call that gives back a buffer, or a node, finds the ring full by the readPointer that it loaded. */
  predicate SeemsFull(entries: nat, read: nat, r: nat, size: nat) { entries + (read - r) >= size }

  /** The step in which the pool refuses buffer b: at the test, its entries and the removals since the load fill it. */
  predicate Refused(s: State, s': State, b: nat) {
    || (s.b.cb.CbGiveBack? && s.b.cb.b == b && s.b.cb.g.AtTest? && s'.b.cb == CbGiveBack(b, AtStore)
        && SeemsFull(|s.b.free|, s.b.read, s.b.cb.g.r, FREE_BUFFERS))
    || (s.b.flush.FlReturn? && s.b.flush.p == b && s.b.flush.g.AtTest?
      && s'.b.flush == FlReturn(b, s.b.flush.stop, AtStore)
        && SeemsFull(|s.b.free|, s.b.read, s.b.flush.g.r, FREE_BUFFERS))
  }

  /** The step in which the entry for b gets no node: the fill thread, or the callback, goes on without one. */
  predicate Unserved(s: State, s': State, b: nat) {
    || (s.b.fill.FillEnq? && s.b.fill.b == b && s.b.fill.t.AtSlot? && s'.b.fill == FillLoop && s'.n == s.n)
    || (s.b.cb.CbEnq? && s.b.cb.p == b != SILENT && s.b.cb.t.AtSlot? && s'.b.cb == CbIdle && s'.n == s.n)
  }

  lemma FilledLoses(s: State, f: Frame, stop: bool, c: Chance, b: nat)
    requires Defined(s)
    ensures var s' := Filled(s, f, stop, c);
      b in s'.b.lost <==> b in s.b.lost || Refused(s, s', b) || Unserved(s, s', b)
  {
    hide CallbackPointed, FlushPointed;
    assert s.b.fill.FillEnq? && Filled(s, f, stop, c).b.playback != s.b.playback ==> Filled(s, f, stop, c).n != s.n;
  }

  lemma GivingLoses(s: State, f: Frame, c: Chance, b: nat)
    requires Defined(s) && s.b.cb.CbGiveBack?
    ensures var s' := CalledBack(s, f, c);
      b in s'.b.lost <==> b in s.b.lost || Refused(s, s', b) || Unserved(s, s', b)
  {
    hide FillPointed, FlushPointed;
  }

  lemma RecordingLoses(s: State, f: Frame, c: Chance, b: nat)
    requires Defined(s) && s.b.cb.CbEnq?
    ensures var s' := CalledBack(s, f, c);
      b in s'.b.lost <==> b in s.b.lost || Refused(s, s', b) || Unserved(s, s', b)
  {
    hide FillPointed, FlushPointed;
  }

  lemma CalledBackLoses(s: State, f: Frame, c: Chance, b: nat)
    requires Defined(s)
    ensures var s' := CalledBack(s, f, c);
      b in s'.b.lost <==> b in s.b.lost || Refused(s, s', b) || Unserved(s, s', b)
  {
    hide FillPointed, FlushPointed;
    if s.b.cb.CbGiveBack? {
      GivingLoses(s, f, c, b);
    } else if s.b.cb.CbEnq? {
      RecordingLoses(s, f, c, b);
    } else {
      assert CalledBack(s, f, c).b.lost == s.b.lost;
    }
  }

  lemma FlushedLoses(s: State, stop: bool, c: Chance, b: nat)
    requires Defined(s)
    ensures var s' := Flushed(s, stop, c);
      b in s'.b.lost <==> b in s.b.lost || Refused(s, s', b) || Unserved(s, s', b)
  {
    hide FillPointed, CallbackPointed;
  }

  lemma StepLoses(s: State, a: Action, b: nat)
    requires Defined(s)
    ensures b in Step(s, a).b.lost <==> b in s.b.lost || Refused(s, Step(s, a), b) || Unserved(s, Step(s, a), b)
  {
    hide Filled, CalledBack, Flushed, Defined;
    match a
    case FillStep(f, stop, c) => FilledLoses(s, f, stop, c, b);
    case CallbackStep(f, c) => CalledBackLoses(s, f, c, b);
    case FlushStep(stop, c) => FlushedLoses(s, stop, c, b);
    case _ =>
  }

  predicate RefusedAt(run: seq<State>, j: nat, b: nat) {
    j + 1 < |run| && Refused(run[j], run[j + 1], b)
  }

  predicate UnservedAt(run: seq<State>, j: nat, b: nat) {
    j + 1 < |run| && Unserved(run[j], run[j + 1], b)
  }

  lemma NextLoses(run: Run, k: nat, b: nat)
    requires 0 < k < |run|
    ensures b in run[k].b.lost <==> b in run[k - 1].b.lost || RefusedAt(run, k - 1, b) || UnservedAt(run, k - 1, b)
  {
    hide Step, Refused, Unserved;
    assert Next(run[k - 1], run[k]);
    var a :| run[k] == Step(run[k - 1], a);
    StepLoses(run[k - 1], a, b);
  }

  lemma NothingLostFirst(run: Run)
    ensures run[0].b.lost == run[0].n.lost == [] && run[0].exit == Running && run[0].d.leaks == run[0].d.missed == 0
  {
    assert Init(run[0]);
  }

  /** A buffer is lost if and only if some step refused it or found no node for its entry. */
  lemma {:induction false} LostExactly(run: Run, k: nat, b: nat)
    requires k < |run|
    ensures b in run[k].b.lost <==> exists j | 0 <= j < k :: RefusedAt(run, j, b) || UnservedAt(run, j, b)
  {
    hide *;
    if k == 0 {
      NothingLostFirst(run);
    } else {
      LostExactly(run, k - 1, b);
      NextLoses(run, k, b);
    }
  }

  lemma HeldOnce(run: Run, k: nat, b: nat)
    requires k < |run|
    ensures b < FREE_BUFFERS ==> Places(run[k].b, b) == if b in run[k].b.lost then 0 else 1
    ensures b > SILENT ==> Places(run[k].b, b) == 0
    ensures SILENT !in run[k].b.free && SILENT !in run[k].b.playback && !FillHolds(run[k].b.fill, SILENT)
  {
    RunInv(run, k);
    hide Copies;
    CopiesIn(run[k].b.lost, b);
    CopiesIn(run[k].b.free, SILENT);
    CopiesIn(run[k].b.playback, SILENT);
    assert b != SILENT ==> Held(run[k].b, b) == One(b < FREE_BUFFERS);
  }

  /**
   Each of the 300 buffers is in at most one place, and in exactly one if and only if no call that gave it
   back found the pool full by what it had loaded and no entry for it failed to get a node.  totalSilence is
   never free and never queued for playback.
   */
  lemma BufferInOnePlace(run: Run, k: nat, b: nat)
    requires k < |run|
    ensures b < FREE_BUFFERS ==> Places(run[k].b, b) <= 1
    ensures b < FREE_BUFFERS ==>
      (Places(run[k].b, b) == 1 <==> forall j | 0 <= j < k :: !RefusedAt(run, j, b) && !UnservedAt(run, j, b))
    ensures b > SILENT ==> Places(run[k].b, b) == 0
    ensures SILENT !in run[k].b.free && SILENT !in run[k].b.playback && !FillHolds(run[k].b.fill, SILENT)
  {
    hide *;
    HeldOnce(run, k, b);
    LostExactly(run, k, b);
  }

  /**
   The test of a call decides by nothing else: it refuses exactly when entries and removals since the load fill
   the pool.
   */
  lemma RefusedExactly(run: Run, k: nat, a: Action, b: nat, r: nat)
    requires k < |run| && Defined(run[k])
    requires || (a.CallbackStep? && !a.c.again && run[k].b.cb == CbGiveBack(b, AtTest(r)))
             || (a.FlushStep? && !a.c.again && run[k].b.flush.FlReturn? && run[k].b.flush.p == b
                 && run[k].b.flush.g == AtTest(r))
    ensures r <= run[k].b.read && |run[k].b.free| < FREE_BUFFERS
    ensures Refused(run[k], Step(run[k], a), b) <==> |run[k].b.free| + (run[k].b.read - r) >= FREE_BUFFERS
    ensures Refused(run[k], Step(run[k], a), b) ==> r < run[k].b.read
  {
    RunInv(run, k);
    hide NodesInv, SoundInv, Owned, FillPointed;
    var s' := Step(run[k], a).b;
    GiveBack(run[k].b, s', b, r);
  }

  /**
   An entry gets no node exactly when the entries of the pool were all added since the load, or its slot is
   locked.
   */
  lemma UnservedExactly(run: Run, k: nat, a: Action, b: nat, w: nat)
    requires k < |run| && Defined(run[k])
    requires || (a.FillStep? && !a.c.again && run[k].b.fill == FillEnq(b, AtSlot(w)))
             || (a.CallbackStep? && !a.c.again && !a.c.errno && b != SILENT && run[k].b.cb == CbEnq(b, AtSlot(w)))
    ensures w <= run[k].n.write
    ensures Unserved(run[k], Step(run[k], a), b) <==>
      |run[k].n.free| <= run[k].n.write - w || (a.c.locked && NodeGiver(run[k].b))
  {
    hide Inv;
    var s' := Step(run[k], a);
    assert s'.n.read != run[k].n.read ==> s'.n != run[k].n;
  }

  // ---------- the program's exits ----------

  /** The step in which bufferFree finds the node pool full by the readPointer that it loaded. */
  predicate NodeRefused(s: State, s': State) {
    || (s.b.cb.CbFree? && s.b.cb.g.AtTest? && s'.b.cb == CbFree(s.b.cb.b, AtStore)
        && SeemsFull(|s.n.free|, s.n.read, s.b.cb.g.r, FREE_NODES))
    || (s.b.flush.FlFree? && s.b.flush.g.AtTest? && s'.b.flush == FlFree(s.b.flush.p, AtStore)
        && SeemsFull(|s.n.free|, s.n.read, s.b.flush.g.r, FREE_NODES))
  }

  /** The step in which the callback gets no node and errno is not 0. */
  predicate EntryRefused(s: State, s': State) {
    s.b.cb.CbEnq? && s.b.cb.t.AtSlot? && s'.b == s.b && s'.exit == NoEntry
  }

  lemma FilledExits(s: State, f: Frame, stop: bool, c: Chance)
    requires Defined(s) && s.exit == Running
    ensures Filled(s, f, stop, c).exit == Running && !NodeRefused(s, Filled(s, f, stop, c))
  {
    hide FillPointed, CallbackPointed, FlushPointed;
  }

  lemma CalledBackExits(s: State, f: Frame, c: Chance)
    requires Defined(s) && s.exit == Running
    ensures CalledBack(s, f, c).exit == PoolFull <==> NodeRefused(s, CalledBack(s, f, c))
    ensures CalledBack(s, f, c).exit == NoEntry <==> EntryRefused(s, CalledBack(s, f, c))
  {
    hide FillPointed, FlushPointed;
  }

  lemma FlushedExits(s: State, stop: bool, c: Chance)
    requires Defined(s) && s.exit == Running
    ensures Flushed(s, stop, c).exit == PoolFull <==> NodeRefused(s, Flushed(s, stop, c))
    ensures Flushed(s, stop, c).exit != NoEntry
  {
    hide FillPointed, CallbackPointed;
  }

  lemma StepExits(s: State, a: Action)
    requires Defined(s) && s.exit == Running
    ensures Step(s, a).exit == PoolFull <==> NodeRefused(s, Step(s, a))
    ensures Step(s, a).exit == NoEntry <==> EntryRefused(s, Step(s, a))
  {
    hide Filled, CalledBack, Flushed, Defined;
    match a
    case FillStep(f, stop, c) => FilledExits(s, f, stop, c);
    case CallbackStep(f, c) => CalledBackExits(s, f, c);
    case FlushStep(stop, c) => FlushedExits(s, stop, c);
    case _ =>
  }

  /**
   The program leaves by bufferFree exactly in the step after which a node was refused, and by the callback
   exactly when it got no node; there is no other way to end it.
   */
  lemma ExitExactly(run: Run, k: nat)
    requires k < |run|
    ensures run[k].exit == PoolFull <==> k > 0 && NodeRefused(run[k - 1], run[k])
    ensures run[k].exit == NoEntry <==> k > 0 && EntryRefused(run[k - 1], run[k])
  {
    hide Step, NodeRefused, EntryRefused, Defined;
    if k == 0 {
      NothingLostFirst(run);
    } else {
      assert Next(run[k - 1], run[k]);
      var a :| run[k] == Step(run[k - 1], a);
      StepExits(run[k - 1], a);
    }
  }

  /** The node budget. */
  lemma NodesBalance(run: Run, k: nat)
    requires k < |run|
    ensures var n := run[k].n;
      |n.free| + |run[k].b.playback| + |run[k].b.record| + 4 + |n.playHand| + |n.recHand| + |n.lost| == FREE_NODES
    ensures run[k].n.lost != [] <==> k > 0 && NodeRefused(run[k - 1], run[k])
  {
    hide NodesOwned, Owned, SoundInv, NodeRefused;
    RunInv(run, k);
    NodeBudget(run[k]);
    ExitExactly(run, k);
  }

  /**
   At the test of a call that gives a node back the pool is never full: it can only seem so, after removals by
   others.
   */
  lemma NodeRoom(run: Run, k: nat)
    requires k < |run| && run[k].exit == Running
    requires (run[k].b.cb.CbFree? && run[k].b.cb.g.AtTest?) || (run[k].b.flush.FlFree? && run[k].b.flush.g.AtTest?)
    ensures |run[k].n.free| < FREE_NODES
  {
    RunInv(run, k);
    NodeBudget(run[k]);
  }

  /** No pool was taken from between the load and the test of a call that gives something back to it. */
  predicate Undisturbed(s: State) {
    && (s.b.cb.CbFree? && s.b.cb.g.AtTest? ==> s.b.cb.g.r == s.n.read)
    && (s.b.flush.FlFree? && s.b.flush.g.AtTest? ==> s.b.flush.g.r == s.n.read)
    && (s.b.cb.CbGiveBack? && s.b.cb.g.AtTest? ==> s.b.cb.g.r == s.b.read)
    && (s.b.flush.FlReturn? && s.b.flush.g.AtTest? ==> s.b.flush.g.r == s.b.read)
  }

  lemma UndisturbedKeeps(run: Run, k: nat, s': State, b: nat)
    requires k < |run| && run[k].exit == Running && Undisturbed(run[k])
    ensures !Refused(run[k], s', b) && !NodeRefused(run[k], s')
  {
    RunInv(run, k);
    if Refused(run[k], s', b) {
      assert CbHolds(run[k].b.cb, b) || FlushHolds(run[k].b.flush, b);
      assert Held(run[k].b, b) == One(b < FREE_BUFFERS);
      Room(run[k].b, b);
    }
    if NodeRefused(run[k], s') {
      NodeRoom(run, k);
    }
  }

  /**
   While no such call is disturbed, bufferFree never leaves the program, and a buffer is in exactly one place
   unless an entry for it got no node.
   */
  lemma UndisturbedKeepsAll(run: Run, k: nat, b: nat)
    requires k < |run| && forall j | 0 <= j < |run| :: Undisturbed(run[j])
    ensures run[k].exit != PoolFull
    ensures b < FREE_BUFFERS ==> (Places(run[k].b, b) == 1 <==> forall j | 0 <= j < k :: !UnservedAt(run, j, b))
  {
    hide Undisturbed, Refused, Unserved, NodeRefused, Places, Init;
    BufferInOnePlace(run, k, b);
    ExitExactly(run, k);
    forall j | 0 <= j < k ensures !RefusedAt(run, j, b) && !NodeRefused(run[j], run[j + 1]) {
      StillRunning(run, j);
      UndisturbedKeeps(run, j, run[j + 1], b);
    }
    assert k > 0 ==> !NodeRefused(run[k - 1], run[k - 1 + 1]);
  }

  lemma StillRunning(run: Run, k: nat)
    requires k + 1 < |run|
    ensures run[k].exit == Running
  {
    assert Next(run[k], run[k + 1]);
  }

  /**
   An allocation whose call is undisturbed and meets no locked slot fails only when at least 296 entries of
   totalSilence wait in the record queue, or have just been taken out of it.
   */
  lemma StarvationNeedsSilence(run: Run, k: nat, c: Chance)
    requires k < |run| && run[k].exit == Running && !c.locked && NodeDenied(run[k], run[k].n.write, c)
    ensures Copies(run[k].b.record, SILENT) + One(run[k].b.flush.FlFree? && run[k].b.flush.p == SILENT) >= 296
  {
    hide Owned, NodesOwned, SoundInv, Copies;
    RunInv(run, k);
    NodeBudget(run[k]);
    BufferBudget(run[k].b);
  }

  // ---------- what the pipeline promises ----------

  /**
   The device plays, apart from inserted silence, the first of the frames that got into the playback queue, in
   order.
   */
  lemma PlaysInOrder(run: Run, k: nat)
    requires k < |run|
    ensures Sounds(run[k].d.outputs) <= run[k].d.queued
    ensures forall i | 0 <= i < |run[k].d.outputs| && run[k].d.outputs[i].inserted ::
      run[k].d.outputs[i].frame == Silence()
  {
    RunInv(run, k);
    var s := run[k];
    hide Owned, NodesInv, Copying, Recording, Tallied, Pointed;
    var rest := Frames(s.d.mem, Flying(s.b)) + Frames(s.d.mem, s.b.playback);
    assert s.d.queued == Sounds(s.d.outputs) + rest;
  }

  /**
   The i-th frame that the consumer gets is the i-th frame that the record queue was given something for, or
   silence.
   */
  lemma ConsumesInOrder(run: Run, k: nat, i: nat)
    requires k < |run| && i < |run[k].d.consumed|
    ensures i < |run[k].d.captured|
    ensures run[k].d.consumed[i] == run[k].d.captured[i] || run[k].d.consumed[i] == Silence()
  {
    RunInv(run, k);
    var s := run[k];
    hide Owned, NodesInv, Copying, Playing, Tallied, Pointed;
    assert s.d.logged[i] == s.d.consumed[i];
  }

  /**
   Between frames, what got into the playback queue is exactly what was played followed by the contents of
   the queue, and what the record queue was given is exactly what was consumed followed by its contents.
   */
  lemma NoFrameLost(run: Run, k: nat)
    requires k < |run|
    ensures Shaped(run[k].b, run[k].d)
    ensures run[k].b.cb.CbIdle? ==>
      run[k].d.queued == Sounds(run[k].d.outputs) + Frames(run[k].d.mem, run[k].b.playback)
    ensures run[k].b.flush.FlLoop? || run[k].b.flush.FlDone? ==>
      run[k].d.logged == run[k].d.consumed + Frames(run[k].d.mem, run[k].b.record)
    ensures |run[k].d.logged| == |run[k].d.captured|
  {
    hide Owned, NodesInv, Copying, Tallied, Pointed, InRange;
    RunInv(run, k);
    assert Frames(run[k].d.mem, []) == [];
    assert forall a: seq<Frame>, q: seq<Frame> :: a + [] + q == a + q;
  }

  /** A step in which the entry of the fill thread gets no node; and one in which that of the callback does not. */
  predicate FillStarved(s: State, s': State) {
    s.b.fill.FillEnq? && s.b.fill.t.AtSlot? && s'.b.fill == FillLoop && s'.n == s.n
  }

  predicate CallbackStarved(s: State, s': State) {
    s.b.cb.CbEnq? && s.b.cb.t.AtSlot? && s'.b.cb == CbIdle && s'.n == s.n
  }

  predicate FillStarvedAt(run: seq<State>, j: nat) { j + 1 < |run| && FillStarved(run[j], run[j + 1]) }

  predicate CallbackStarvedAt(run: seq<State>, j: nat) { j + 1 < |run| && CallbackStarved(run[j], run[j + 1]) }

  lemma StepStarves(s: State, a: Action)
    requires Defined(s)
    ensures Step(s, a).d.leaks == s.d.leaks + One(FillStarved(s, Step(s, a)))
    ensures Step(s, a).d.missed == s.d.missed + One(CallbackStarved(s, Step(s, a)))
  {
    match a
    case FillStep(f, stop, c) => FilledStarves(s, f, stop, c);
    case CallbackStep(f, c) => CalledBackStarves(s, f, c);
    case _ =>
  }

  lemma FilledStarves(s: State, f: Frame, stop: bool, c: Chance)
    requires Defined(s)
    ensures var s' := Filled(s, f, stop, c);
      s'.d.leaks == s.d.leaks + One(FillStarved(s, s')) && s'.d.missed == s.d.missed && !CallbackStarved(s, s')
  {
    hide CallbackPointed, FlushPointed;
  }

  lemma RecordingStarves(s: State, f: Frame, c: Chance)
    requires Defined(s) && s.b.cb.CbEnq?
    ensures var s' := CalledBack(s, f, c);
      s'.d.missed == s.d.missed + One(CallbackStarved(s, s')) && s'.d.leaks == s.d.leaks && s'.b.fill == s.b.fill
  {
    hide FillPointed, FlushPointed;
  }

  lemma CalledBackStarves(s: State, f: Frame, c: Chance)
    requires Defined(s)
    ensures var s' := CalledBack(s, f, c);
      s'.d.missed == s.d.missed + One(CallbackStarved(s, s')) && s'.d.leaks == s.d.leaks && !FillStarved(s, s')
  {
    hide FillPointed, CallbackPointed, FlushPointed;
    if s.b.cb.CbEnq? {
      RecordingStarves(s, f, c);
    }
  }

  lemma NextStarves(run: Run, k: nat)
    requires 0 < k < |run|
    ensures run[k].d.leaks == run[k - 1].d.leaks + One(FillStarvedAt(run, k - 1))
    ensures run[k].d.missed == run[k - 1].d.missed + One(CallbackStarvedAt(run, k - 1))
  {
    hide Step, FillStarved, CallbackStarved;
    assert Next(run[k - 1], run[k]);
    var a :| run[k] == Step(run[k - 1], a);
    StepStarves(run[k - 1], a);
  }

  lemma {:induction false} StarvedExactly(run: Run, k: nat)
    requires k < |run|
    ensures run[k].d.leaks == 0 <==> forall j | 0 <= j < k :: !FillStarvedAt(run, j)
    ensures run[k].d.missed == 0 <==> forall j | 0 <= j < k :: !CallbackStarvedAt(run, j)
  {
    hide IsRun, Init, FillStarvedAt, CallbackStarvedAt;
    if k == 0 {
      NothingLostFirst(run);
    } else {
      StarvedExactly(run, k - 1);
      NextStarves(run, k);
    }
  }

  /**
   The frames that got a buffer are those that got into the playback queue and the one on its way, if and only
   if every entry of the fill thread got a node; then the device plays the first of them, in order.
   */
  lemma PlaysAllProduced(run: Run, k: nat)
    requires k < |run|
    ensures var d := run[k].d;
      d.produced == d.queued + Filling(run[k].b, d) <==> forall j | 0 <= j < k :: !FillStarvedAt(run, j)
    ensures (forall j | 0 <= j < k :: !FillStarvedAt(run, j)) ==> Sounds(run[k].d.outputs) <= run[k].d.produced
  {
    hide Owned, NodesInv, Shaped, Copying, Playing, Recording, Pointed, FillStarvedAt;
    RunInv(run, k);
    StarvedExactly(run, k);
    PlaysInOrder(run, k);
    assert Tallied(run[k].b, run[k].d);
  }

  /**
   The record queue was given something for every frame read from the device if and only if every entry of the
   callback got a node; then the i-th frame that the consumer gets is the i-th frame of the device, or silence.
   */
  lemma ConsumesAllHeard(run: Run, k: nat)
    requires k < |run|
    ensures run[k].d.captured == run[k].d.heard <==> forall j | 0 <= j < k :: !CallbackStarvedAt(run, j)
    ensures (forall j | 0 <= j < k :: !CallbackStarvedAt(run, j)) ==>
      |run[k].d.consumed| <= |run[k].d.heard| && forall i | 0 <= i < |run[k].d.consumed| ::
        run[k].d.consumed[i] == run[k].d.heard[i] || run[k].d.consumed[i] == Silence()
  {
    hide Owned, NodesInv, Shaped, Copying, Playing, Recording, Pointed, CallbackStarvedAt, Filling;
    RunInv(run, k);
    StarvedExactly(run, k);
    forall i | 0 <= i < |run[k].d.consumed|
      ensures i < |run[k].d.captured|
      ensures run[k].d.consumed[i] == run[k].d.captured[i] || run[k].d.consumed[i] == Silence()
    {
      ConsumesInOrder(run, k, i);
    }
    if |run[k].d.consumed| > 0 {
      ConsumesInOrder(run, k, |run[k].d.consumed| - 1);
    }
    assert Tallied(run[k].b, run[k].d);
  }
}
