/**
 The audio pipeline seen from outside.  An observer who knows what the outside decides in every step (the
 frames that the producer and the device deliver, the answers of producer and consumer, the requests to stop)
 and where the threads are says what is played, recorded and consumed, when the threads end, and how the
 program leaves.  The observer looks at no sample buffer and at no history of the machine.
 */
module AudioObserved {
  import opened AudioMachine
  import opened AudioPromises
  import opened AudioSound
  import opened Counting

  datatype Observed = Observed(
    round: Frame,            // what the producer delivered in the round of the fill thread
    call: Frame,             // what the device delivered to the callback that is running
    dry: bool,               // the playback queue was empty when that callback began
    short: bool,             // that callback got no buffer to record into
    answer: bool,            // the last answer of the consumer asked to stop
    offered: seq<Frame>,     // frames of the rounds that got a buffer
    queued: seq<Frame>,      // those of them whose entry got a node
    inserted: seq<bool>,     // for each frame written to the device, whether it is inserted silence
    heard: seq<Frame>,       // frames of the callbacks that are over
    captured: seq<Frame>,    // those of them whose entry got a node
    recorded: seq<Frame>,    // what those entries stand for
    fillEnded: bool, flushEnded: bool, stopPlayback: bool, stopRecording: bool, exit: Exit)

  /** A dequeue that loaded writePointer w answers NULL: all entries came later, or the slot is locked. */
  predicate Out(entries: nat, write: nat, w: nat, locked: bool) { entries <= write - w || locked }

  predicate NoBuffer(s: State, w: nat, c: Chance) {
    Out(|s.b.free|, s.b.write, w, c.locked && BufferGiver(s.b))
  }

  predicate NoNode(s: State, w: nat, c: Chance) { Out(|s.n.free|, s.n.write, w, c.locked && NodeGiver(s.b)) }

  // ---------- what the steps amount to ----------

  /** The producer delivers a frame, unless it is told to stop or asks for it. */
  predicate Delivers(s: State, a: Action) {
    a.FillStep? && s.b.fill.FillLoop? && !s.stopPlayback && !a.stop
  }

  predicate StopsFilling(s: State, a: Action) {
    a.FillStep? && s.b.fill.FillLoop? && (s.stopPlayback || a.stop)
  }

  predicate GetsBuffer(s: State, a: Action) {
    a.FillStep? && s.b.fill.FillTake? && s.b.fill.t.AtSlot? && !a.c.again && !NoBuffer(s, s.b.fill.t.w, a.c)
  }

  predicate GetsEntry(s: State, a: Action) {
    a.FillStep? && s.b.fill.FillEnq? && s.b.fill.t.AtSlot? && !a.c.again && !NoNode(s, s.b.fill.t.w, a.c)
  }

  predicate Begins(a: Action, cb: Callback) { a.CallbackStep? && cb.CbIdle? }

  /** The output buffer is full. */
  predicate Plays(a: Action, cb: Callback) {
    a.CallbackStep? && (cb.CbSilence? || cb.CbCopyOut?) && cb.i >= FRAME
  }

  predicate Seeks(a: Action, cb: Callback) { a.CallbackStep? && cb.CbTake? && cb.t.AtSlot? && !a.c.again }

  /** The callback makes its entry, or does without it; with errno not 0 it ends the program. */
  predicate Enters(s: State, a: Action) {
    a.CallbackStep? && s.b.cb.CbEnq? && s.b.cb.t.AtSlot? && !a.c.again && !NoNode(s, s.b.cb.t.w, a.c)
  }

  predicate Misses(s: State, a: Action) {
    a.CallbackStep? && s.b.cb.CbEnq? && s.b.cb.t.AtSlot? && !a.c.again && NoNode(s, s.b.cb.t.w, a.c)
  }

  predicate Answers(a: Action, flush: Flush) { a.FlushStep? && flush.FlConsume? }

  /** A round of the flush thread is over: the buffer is back in the pool, or it was totalSilence. */
  predicate RoundEnds(a: Action, flush: Flush) {
    a.FlushStep? && flush.FlReturn? && (flush.g.AtStore? || (flush.g.AtRead? && flush.p == SILENT))
  }

  predicate StopsFlushing(s: State, a: Action) { a.FlushStep? && s.b.flush.FlLoop? && s.stopRecording }

  /** A node goes back, and the pool is full by what was loaded. */
  predicate Overflows(s: State, a: Action) {
    || (a.CallbackStep? && s.b.cb.CbFree? && s.b.cb.g.AtTest? && !a.c.again
        && SeemsFull(|s.n.free|, s.n.read, s.b.cb.g.r, FREE_NODES))
    || (a.FlushStep? && s.b.flush.FlFree? && s.b.flush.g.AtTest? && !a.c.again
        && SeemsFull(|s.n.free|, s.n.read, s.b.flush.g.r, FREE_NODES))
  }

  // ---------- the observer ----------

  function First(s: State): Observed {
    Observed(Silence(), Silence(), false, false, false, [], [], [], [], [], [], false, false,
             s.stopPlayback, s.stopRecording, Running)
  }

  function Observe(o: Observed, s: State, a: Action): Observed {
    Observed(
      if Delivers(s, a) then a.f else o.round,
      if Begins(a, s.b.cb) then a.f else o.call,
      if Begins(a, s.b.cb) then s.b.playback == [] else o.dry,
      if Seeks(a, s.b.cb) then NoBuffer(s, s.b.cb.t.w, a.c) else o.short,
      if Answers(a, s.b.flush) then a.stop else o.answer,
      o.offered + (if GetsBuffer(s, a) then [o.round] else []),
      o.queued + (if GetsEntry(s, a) then [o.round] else []),
      o.inserted + (if Plays(a, s.b.cb) then [o.dry] else []),
      o.heard + (if Enters(s, a) || (Misses(s, a) && !a.c.errno) then [o.call] else []),
      o.captured + (if Enters(s, a) then [o.call] else []),
      o.recorded + (if Enters(s, a) then [if o.short then Silence() else o.call] else []),
      o.fillEnded || StopsFilling(s, a),
      o.flushEnded || StopsFlushing(s, a) || (RoundEnds(a, s.b.flush) && o.answer),
      o.stopPlayback || a.StopPlayback?,
      o.stopRecording || a.StopRecording?,
      if Overflows(s, a) then PoolFull else if Misses(s, a) && a.c.errno then NoEntry else o.exit)
  }

  /** The steps of a run are those of the actions. */
  ghost predicate Follows(run: seq<State>, acts: seq<Action>) {
    && |run| == |acts| + 1
    && forall j, k | 0 <= j < k < |run| && k == j + 1 :: Defined(run[j]) && run[k] == Step(run[j], acts[j])
  }

  /** What the observer has seen before step k. */
  function Seen(run: seq<State>, acts: seq<Action>, k: nat): Observed
    requires k < |run| == |acts| + 1
  {
    if k == 0 then First(run[0]) else Observe(Seen(run, acts, k - 1), run[k - 1], acts[k - 1])
  }

  // ---------- the machine agrees with the observer ----------

  ghost predicate FillAgrees(s: State, o: Observed) {
    && (s.b.fill.FillTake? || s.b.fill.FillCopy? || s.b.fill.FillEnq? ==> s.d.source == o.round)
    && s.d.produced == o.offered && s.d.queued == o.queued && (s.b.fill.FillDone? <==> o.fillEnded)
  }

  ghost predicate CallbackAgrees(s: State, o: Observed) {
    && (!s.b.cb.CbIdle? ==> s.d.input == o.call)
    && (s.b.cb.CbSilence? ==> o.dry) && (s.b.cb.CbFree? || s.b.cb.CbCopyOut? ==> !o.dry)
    && (s.b.cb.CbCopyIn? ==> !o.short) && (s.b.cb.CbEnq? ==> (s.b.cb.p == SILENT <==> o.short))
    && s.d.heard == o.heard && s.d.captured == o.captured && s.d.logged == o.recorded
    && |s.d.outputs| == |o.inserted| && forall i | 0 <= i < |o.inserted| :: s.d.outputs[i].inserted == o.inserted[i]
  }

  ghost predicate FlushAgrees(s: State, o: Observed) {
    && (s.b.flush.FlReturn? ==> s.b.flush.stop == o.answer) && (s.b.flush.FlDone? <==> o.flushEnded)
    && s.stopPlayback == o.stopPlayback && s.stopRecording == o.stopRecording
  }

  ghost predicate Agrees(s: State, o: Observed) {
    FillAgrees(s, o) && CallbackAgrees(s, o) && FlushAgrees(s, o) && s.exit == o.exit
  }

  lemma DeniedIsOut(s: State, w: nat, c: Chance)
    requires PoolsPointed(s)
    ensures BufferDenied(s, w, c) <==> NoBuffer(s, w, c)
    ensures NodeDenied(s, w, c) <==> NoNode(s, w, c)
  {
  }

  // Each agreement survives the steps of the others.

  lemma FillApart(s: State, s': State, o: Observed, a: Action)
    requires FillAgrees(s, o) && !a.FillStep? && s'.b.fill == s.b.fill
    requires s'.d.source == s.d.source && s'.d.produced == s.d.produced && s'.d.queued == s.d.queued
    ensures FillAgrees(s', Observe(o, s, a))
  {
  }

  lemma CallbackApart(s: State, s': State, o: Observed, a: Action)
    requires CallbackAgrees(s, o) && !a.CallbackStep? && s'.b.cb == s.b.cb && s'.d.input == s.d.input
    requires s'.d.heard == s.d.heard && s'.d.captured == s.d.captured && s'.d.logged == s.d.logged
    requires s'.d.outputs == s.d.outputs
    ensures CallbackAgrees(s', Observe(o, s, a))
  {
  }

  lemma FlushApart(s: State, s': State, o: Observed, a: Action)
    requires FlushAgrees(s, o) && !a.FlushStep? && s'.b.flush == s.b.flush
    requires s'.stopPlayback == (s.stopPlayback || a.StopPlayback?)
    requires s'.stopRecording == (s.stopRecording || a.StopRecording?)
    ensures FlushAgrees(s', Observe(o, s, a))
  {
  }

  // ---------- the fill thread ----------

  lemma FilledAgrees(s: State, o: Observed, f: Frame, stop: bool, c: Chance)
    requires Defined(s) && FillAgrees(s, o)
    ensures FillAgrees(Filled(s, f, stop, c), Observe(o, s, FillStep(f, stop, c)))
  {
    hide CallbackPointed, FlushPointed, BufferDenied, NodeDenied, NoBuffer, NoNode;
    if (s.b.fill.FillTake? || s.b.fill.FillEnq?) && s.b.fill.t.AtSlot? {
      DeniedIsOut(s, s.b.fill.t.w, c);
    }
  }

  lemma FilledLeaves(s: State, f: Frame, stop: bool, c: Chance)
    requires Defined(s)
    ensures var s' := Filled(s, f, stop, c);
      && s'.d.input == s.d.input && s'.d.heard == s.d.heard && s'.d.captured == s.d.captured
      && s'.d.logged == s.d.logged && s'.d.outputs == s.d.outputs
      && s'.stopPlayback == s.stopPlayback && s'.stopRecording == s.stopRecording && s'.exit == s.exit
  {
    hide FillPointed, CallbackPointed, FlushPointed, BufferDenied, NodeDenied;
  }

  lemma FillStepAgrees(s: State, o: Observed, f: Frame, stop: bool, c: Chance)
    requires Defined(s) && Agrees(s, o)
    ensures Agrees(Filled(s, f, stop, c), Observe(o, s, FillStep(f, stop, c)))
  {
    FilledAgrees(s, o, f, stop, c);
    FilledKeeps(s, f, stop, c);
    FilledLeaves(s, f, stop, c);
    hide Filled, FillAgrees, CallbackAgrees, FlushAgrees, NoBuffer, NoNode, Defined;
    CallbackApart(s, Filled(s, f, stop, c), o, FillStep(f, stop, c));
    FlushApart(s, Filled(s, f, stop, c), o, FillStep(f, stop, c));
  }

  // ---------- the callback ----------

  /** The callback leaves alone what the fill thread and the stopping go by. */
  ghost predicate LeavesFilling(s: State, s': State) {
    && s'.d.source == s.d.source && s'.d.produced == s.d.produced && s'.d.queued == s.d.queued
    && s'.stopPlayback == s.stopPlayback && s'.stopRecording == s.stopRecording
  }

  lemma PlayingLeaves(s: State, f: Frame, c: Chance)
    requires Defined(s) && !s.b.cb.CbTake? && !s.b.cb.CbCopyIn? && !s.b.cb.CbEnq?
    ensures LeavesFilling(s, CalledBack(s, f, c))
  {
    hide FillPointed, CallbackPointed, FlushPointed;
  }

  lemma RecordingLeaves(s: State, f: Frame, c: Chance)
    requires Defined(s) && (s.b.cb.CbTake? || s.b.cb.CbCopyIn? || s.b.cb.CbEnq?)
    ensures LeavesFilling(s, CalledBack(s, f, c))
  {
    hide FillPointed, CallbackPointed, FlushPointed, BufferDenied, NodeDenied;
  }

  lemma BeginningAgrees(s: State, o: Observed, f: Frame, c: Chance)
    requires Defined(s) && CallbackAgrees(s, o) && s.b.cb.CbIdle?
    ensures CallbackAgrees(CalledBack(s, f, c), Observe(o, s, CallbackStep(f, c)))
  {
    hide FillPointed, CallbackPointed, FlushPointed;
  }

  lemma PlayingAgrees(s: State, o: Observed, f: Frame, c: Chance)
    requires Defined(s) && CallbackAgrees(s, o) && (s.b.cb.CbSilence? || s.b.cb.CbCopyOut?)
    ensures CallbackAgrees(CalledBack(s, f, c), Observe(o, s, CallbackStep(f, c)))
  {
    hide FillPointed, CallbackPointed, FlushPointed;
  }

  /** It loads a pointer for its entry. */
  lemma LoadingAgrees(s: State, o: Observed, f: Frame, c: Chance)
    requires Defined(s) && CallbackAgrees(s, o) && s.b.cb.CbEnq? && (s.b.cb.t.AtWrite? || c.again)
    ensures CallbackAgrees(CalledBack(s, f, c), Observe(o, s, CallbackStep(f, c)))
  {
    hide FillPointed, CallbackPointed, FlushPointed, NoNode;
  }

  /** It gives back a node, or a buffer. */
  lemma GivingAgrees(s: State, o: Observed, f: Frame, c: Chance)
    requires Defined(s) && CallbackAgrees(s, o) && (s.b.cb.CbFree? || s.b.cb.CbGiveBack?)
    ensures CallbackAgrees(CalledBack(s, f, c), Observe(o, s, CallbackStep(f, c)))
  {
    hide FillPointed, CallbackPointed, FlushPointed;
  }

  /** It seeks a buffer to record into. */
  lemma SeekingAgrees(s: State, o: Observed, f: Frame, c: Chance)
    requires Defined(s) && InRange(s.b) && CallbackAgrees(s, o) && (s.b.cb.CbTake? || s.b.cb.CbCopyIn?)
    ensures CallbackAgrees(CalledBack(s, f, c), Observe(o, s, CallbackStep(f, c)))
  {
    hide FillPointed, CallbackPointed, FlushPointed, BufferDenied, NodeDenied, NoBuffer, NoNode;
    if s.b.cb.CbTake? && s.b.cb.t.AtSlot? {
      DeniedIsOut(s, s.b.cb.t.w, c);
    }
  }

  /** It makes its entry, or does without. */
  lemma EntryAgrees(s: State, o: Observed, f: Frame, c: Chance)
    requires Defined(s) && SoundInv(s) && CallbackAgrees(s, o) && s.b.cb.CbEnq? && s.b.cb.t.AtSlot? && !c.again
    ensures CallbackAgrees(CalledBack(s, f, c), Observe(o, s, CallbackStep(f, c)))
  {
    DeniedIsOut(s, s.b.cb.t.w, c);
    hide FillPointed, CallbackPointed, FlushPointed, BufferDenied, NodeDenied, NoBuffer, NoNode;
    hide Playing, Recording, Tallied, InRange;
  }

  lemma CalledBackExit(s: State, o: Observed, f: Frame, c: Chance)
    requires Defined(s) && s.exit == o.exit
    ensures CalledBack(s, f, c).exit == Observe(o, s, CallbackStep(f, c)).exit
  {
    if s.b.cb.CbEnq? && s.b.cb.t.AtSlot? {
      DeniedIsOut(s, s.b.cb.t.w, c);
    }
    hide FillPointed, CallbackPointed, FlushPointed, BufferDenied, NodeDenied, NoBuffer, NoNode;
  }

  lemma CallbackStepAgrees(s: State, o: Observed, f: Frame, c: Chance)
    requires Defined(s) && Inv(s) && Agrees(s, o)
    ensures Agrees(CalledBack(s, f, c), Observe(o, s, CallbackStep(f, c)))
  {
    CalledBackKeeps(s, f, c);
    if s.b.cb.CbTake? || s.b.cb.CbCopyIn? || s.b.cb.CbEnq? {
      RecordingLeaves(s, f, c);
    } else {
      PlayingLeaves(s, f, c);
    }
    CalledBackExit(s, o, f, c);
    hide CalledBack, FillAgrees, CallbackAgrees, FlushAgrees, NoBuffer, NoNode, Defined, Observe;
    FillApart(s, CalledBack(s, f, c), o, CallbackStep(f, c));
    FlushApart(s, CalledBack(s, f, c), o, CallbackStep(f, c));
    match s.b.cb
    case CbFree(_, _) => GivingAgrees(s, o, f, c);
    case CbGiveBack(_, _) => GivingAgrees(s, o, f, c);
    case CbTake(_) => SeekingAgrees(s, o, f, c);
    case CbCopyIn(_, _) => SeekingAgrees(s, o, f, c);
    case CbEnq(_, t) =>
      if t.AtSlot? && !c.again { EntryAgrees(s, o, f, c); } else { LoadingAgrees(s, o, f, c); }
    case CbIdle => BeginningAgrees(s, o, f, c);
    case _ => PlayingAgrees(s, o, f, c);
  }

  // ---------- the flush thread ----------

  lemma FlushedLeaves(s: State, stop: bool, c: Chance)
    requires Defined(s)
    ensures var s' := Flushed(s, stop, c);
      && s'.b.fill == s.b.fill && s'.b.cb == s.b.cb
      && s'.d == s.d.(consumed := s'.d.consumed)
  {
    hide FillPointed, CallbackPointed, FlushPointed;
  }

  lemma FlushedAgrees(s: State, o: Observed, stop: bool, c: Chance)
    requires Defined(s) && FlushAgrees(s, o)
    ensures FlushAgrees(Flushed(s, stop, c), Observe(o, s, FlushStep(stop, c)))
    ensures s.exit == o.exit ==> Flushed(s, stop, c).exit == Observe(o, s, FlushStep(stop, c)).exit
  {
    hide FillPointed, CallbackPointed, FlushPointed;
  }

  lemma FlushStepAgrees(s: State, o: Observed, stop: bool, c: Chance)
    requires Defined(s) && Agrees(s, o)
    ensures Agrees(Flushed(s, stop, c), Observe(o, s, FlushStep(stop, c)))
  {
    FlushedLeaves(s, stop, c);
    FlushedAgrees(s, o, stop, c);
    hide Flushed, FillAgrees, CallbackAgrees, FlushAgrees, Defined, Observe;
    FillApart(s, Flushed(s, stop, c), o, FlushStep(stop, c));
    CallbackApart(s, Flushed(s, stop, c), o, FlushStep(stop, c));
  }

  // ---------- all steps ----------

  lemma StepAgrees(s: State, o: Observed, a: Action)
    requires Defined(s) && Inv(s) && Agrees(s, o)
    ensures Agrees(Step(s, a), Observe(o, s, a))
  {
    hide Agrees, Observe, Inv, Filled, CalledBack, Flushed;
    match a
    case FillStep(f, stop, c) => FillStepAgrees(s, o, f, stop, c);
    case CallbackStep(f, c) => CallbackStepAgrees(s, o, f, c);
    case FlushStep(stop, c) => FlushStepAgrees(s, o, stop, c);
    case _ => StopAgrees(s, o, a);
  }

  lemma StopAgrees(s: State, o: Observed, a: Action)
    requires Defined(s) && Agrees(s, o) && (a.StopPlayback? || a.StopRecording?)
    ensures Agrees(Step(s, a), Observe(o, s, a))
  {
  }

  lemma FirstAgrees(s: State)
    requires Init(s)
    ensures Agrees(s, First(s))
  {
  }

  lemma OneStep(run: seq<State>, acts: seq<Action>, k: nat)
    requires Follows(run, acts) && 0 < k < |run|
    ensures Defined(run[k - 1]) && run[k] == Step(run[k - 1], acts[k - 1])
  {
    hide Defined, Step;
  }

  lemma NextAgrees(run: Run, acts: seq<Action>, k: nat)
    requires Follows(run, acts) && 0 < k < |run| && Agrees(run[k - 1], Seen(run, acts, k - 1))
    ensures Agrees(run[k], Seen(run, acts, k))
  {
    hide Agrees, Step, Observe, Inv, IsRun, Defined;
    RunInv(run, k - 1);
    OneStep(run, acts, k);
    StepAgrees(run[k - 1], Seen(run, acts, k - 1), acts[k - 1]);
  }

  /**
   Whatever the outside decides, in every run the streams, the ends of the threads and the exit are what the
   observer says.
   */
  lemma {:induction false} RunAgrees(run: Run, acts: seq<Action>, k: nat)
    requires Follows(run, acts) && k < |run|
    ensures Agrees(run[k], Seen(run, acts, k))
  {
    hide Agrees, Step, Observe, Inv, IsRun, Defined, Init;
    if k == 0 {
      RunBegins(run);
    } else {
      RunAgrees(run, acts, k - 1);
      NextAgrees(run, acts, k);
    }
  }

  lemma RunBegins(run: Run)
    ensures Agrees(run[0], First(run[0]))
  {
    hide Agrees, First;
    assert Init(run[0]);
    FirstAgrees(run[0]);
  }

  /** The action of a step. */
  ghost function ActionOf(s: State, s': State): (a: Action)
    requires Next(s, s')
    ensures s' == Step(s, a)
  {
    var a :| s' == Step(s, a);
    a
  }

  /** Every run has actions that it follows, so what is proved with them holds of all runs. */
  lemma EveryRunFollows(run: Run) returns (acts: seq<Action>)
    ensures Follows(run, acts)
  {
    hide Step, Init;
    forall k | 0 <= k < |run| - 1 ensures Next(run[k], run[k + 1]) {
    }
    acts := seq(|run| - 1, k requires 0 <= k < |run| - 1 => ActionOf(run[k], run[k + 1]));
  }

  // ---------- what is played ----------

  lemma OfferedAgrees(run: Run, acts: seq<Action>, k: nat)
    requires Follows(run, acts) && k < |run|
    ensures var d, o := run[k].d, Seen(run, acts, k);
      && d.produced == o.offered && d.queued == o.queued
      && Filling(run[k].b, d) == if run[k].b.fill.FillCopy? || run[k].b.fill.FillEnq? then [o.round] else []
  {
    hide Seen, Follows, CallbackAgrees, FlushAgrees;
    RunAgrees(run, acts, k);
  }

  /**
   Apart from inserted silence the device plays, in order and unchanged, the first of the frames that the
   producer delivered in rounds that got a buffer and a node.  These are all the frames of the rounds that got a
   buffer, but for the one on its way, if and only if no entry went without a node.
   */
  lemma PlaysWhatIsDelivered(run: Run, acts: seq<Action>, k: nat)
    requires Follows(run, acts) && k < |run|
    ensures var o, fill := Seen(run, acts, k), run[k].b.fill;
      && Sounds(run[k].d.outputs) <= o.queued
      && (o.offered == o.queued + (if fill.FillCopy? || fill.FillEnq? then [o.round] else []) <==>
            forall j | 0 <= j < k :: !FillStarvedAt(run, j))
      && ((forall j | 0 <= j < k :: !FillStarvedAt(run, j)) ==> Sounds(run[k].d.outputs) <= o.offered)
  {
    hide *;
    OfferedAgrees(run, acts, k);
    PlaysInOrder(run, k);
    PlaysAllProduced(run, k);
  }

  /** Silence is inserted exactly by the callbacks that begin with an empty playback queue. */
  lemma InsertsSilence(run: Run, acts: seq<Action>, k: nat)
    requires Follows(run, acts) && k < |run|
    ensures var outputs, o := run[k].d.outputs, Seen(run, acts, k);
      && |outputs| == |o.inserted|
      && forall i | 0 <= i < |outputs| ::
           outputs[i].inserted == o.inserted[i] && (o.inserted[i] ==> outputs[i].frame == Silence())
  {
    hide Seen, Follows, FillAgrees, FlushAgrees;
    RunAgrees(run, acts, k);
    PlaysInOrder(run, k);
  }

  // ---------- what is recorded ----------

  lemma RecordedAgrees(run: Run, acts: seq<Action>, k: nat)
    requires Follows(run, acts) && k < |run|
    ensures var d, o := run[k].d, Seen(run, acts, k);
      d.heard == o.heard && d.captured == o.captured && d.logged == o.recorded
  {
    hide Seen, Follows, FillAgrees, FlushAgrees;
    RunAgrees(run, acts, k);
  }

  /**
   The consumer gets, in order, the frames of the device in the callbacks that made an entry, with silence exactly
   for those that got no buffer.  These are all the callbacks that are over if and only if no entry went without a
   node.
   */
  lemma ConsumesWhatIsRecorded(run: Run, acts: seq<Action>, k: nat)
    requires Follows(run, acts) && k < |run|
    ensures var s, o := run[k], Seen(run, acts, k);
      && s.d.consumed <= o.recorded
      && Shaped(s.b, s.d)
      && (s.b.flush.FlLoop? || s.b.flush.FlDone? ==> o.recorded == s.d.consumed + Frames(s.d.mem, s.b.record))
      && (o.captured == o.heard <==> forall j | 0 <= j < k :: !CallbackStarvedAt(run, j))
  {
    hide *;
    RecordedAgrees(run, acts, k);
    ConsumedFirst(run, k);
    NoFrameLost(run, k);
    ConsumesAllHeard(run, k);
  }

  lemma FrontOf(x: seq<Frame>, y: seq<Frame>, z: seq<Frame>)
    ensures x <= x + y + z
  {
  }

  lemma ConsumedFirst(run: Run, k: nat)
    requires k < |run|
    ensures run[k].d.consumed <= run[k].d.logged
  {
    RunInv(run, k);
    var d, b := run[k].d, run[k].b;
    hide Owned, NodesInv, Copying, Playing, Tallied, Pointed, Frames, Consuming, IsRun;
    FrontOf(d.consumed, Frames(d.mem, Consuming(b)), Frames(d.mem, b.record));
  }

  // ---------- how the threads and the program end ----------

  predicate StopsFillingAt(run: seq<State>, acts: seq<Action>, j: nat) {
    j < |acts| && j < |run| && StopsFilling(run[j], acts[j])
  }

  predicate StopsFlushingAt(run: seq<State>, acts: seq<Action>, j: nat) {
    && j < |acts| && |run| == |acts| + 1
    && (StopsFlushing(run[j], acts[j]) || (RoundEnds(acts[j], run[j].b.flush) && Seen(run, acts, j).answer))
  }

  /** What one step adds. */
  lemma SeenNext(run: seq<State>, acts: seq<Action>, k: nat)
    requires 0 < k < |run| == |acts| + 1
    ensures Seen(run, acts, k).fillEnded <==> Seen(run, acts, k - 1).fillEnded || StopsFillingAt(run, acts, k - 1)
    ensures Seen(run, acts, k).flushEnded <==> Seen(run, acts, k - 1).flushEnded || StopsFlushingAt(run, acts, k - 1)
    ensures Seen(run, acts, k).exit ==
      if Overflows(run[k - 1], acts[k - 1]) then PoolFull
      else if Misses(run[k - 1], acts[k - 1]) && acts[k - 1].c.errno then NoEntry else Seen(run, acts, k - 1).exit
  {
    hide NoNode, NoBuffer, Overflows, Misses, StopsFlushing, StopsFilling, RoundEnds;
  }

  lemma {:induction false} EndsSeen(run: seq<State>, acts: seq<Action>, k: nat)
    requires k < |run| == |acts| + 1
    ensures Seen(run, acts, k).fillEnded <==> exists j | 0 <= j < k :: StopsFillingAt(run, acts, j)
    ensures Seen(run, acts, k).flushEnded <==> exists j | 0 <= j < k :: StopsFlushingAt(run, acts, j)
  {
    if k > 0 {
      hide Seen, StopsFillingAt, StopsFlushingAt;
      EndsSeen(run, acts, k - 1);
      SeenNext(run, acts, k);
    }
  }

  /**
   The fill thread ends exactly when it finds stopPlayback set or the producer asks to stop, and the flush thread
   exactly when it finds stopRecording set or has returned the buffer after the consumer asked to stop.
   */
  lemma ThreadsEnd(run: Run, acts: seq<Action>, k: nat)
    requires Follows(run, acts) && k < |run|
    ensures run[k].b.fill.FillDone? <==> exists j | 0 <= j < k :: StopsFillingAt(run, acts, j)
    ensures run[k].b.flush.FlDone? <==> exists j | 0 <= j < k :: StopsFlushingAt(run, acts, j)
  {
    hide Seen, StopsFillingAt, StopsFlushingAt, CallbackAgrees;
    RunAgrees(run, acts, k);
    EndsSeen(run, acts, k);
  }

  /** The exit after a step is decided by that step alone. */
  lemma LeavesExactly(run: Run, acts: seq<Action>, k: nat)
    requires Follows(run, acts) && k + 1 < |run|
    ensures run[k + 1].exit == PoolFull <==> Overflows(run[k], acts[k])
    ensures run[k + 1].exit == NoEntry <==> Misses(run[k], acts[k]) && acts[k].c.errno
  {
    hide FillAgrees, CallbackAgrees, FlushAgrees, NoNode, Misses, Overflows, Seen, Step, Init, Defined;
    StillRunning(run, k);
    RunAgrees(run, acts, k);
    RunAgrees(run, acts, k + 1);
    SeenNext(run, acts, k + 1);
    MissesNoOther(run[k], acts[k]);
  }

  lemma MissesNoOther(s: State, a: Action)
    ensures !(Misses(s, a) && Overflows(s, a))
  {
  }
}
