/**
 Runs of the audio pipeline that end in the states which src/audio.c does not expect.  In all of them the
 pointers of the pools alone decide every answer: no call starts again and no slot is locked.
 */
module AudioRuns {
  import opened Audio
  import opened AudioMachine
  import opened AudioPromises
  import opened AudioSound
  import opened Counting

  const PLAIN: Chance := Chance(false, false, false)

  predicate IsPlain(a: Action) { a.FillStep? || a.CallbackStep? || a.FlushStep? ==> a.c == PLAIN }

  ghost predicate PlainNext(s: State, s': State) {
    Defined(s) && exists a :: IsPlain(a) && s' == Step(s, a)
  }

  ghost predicate Plain(run: seq<State>) {
    forall j, k | 0 <= j < k < |run| && k == j + 1 :: PlainNext(run[j], run[k])
  }

  function Last(run: Run): State { run[|run| - 1] }

  /** A plain run whose last state can still move. */
  ghost predicate Live(run: Run) {
    |run| > 0 && Plain(run) && Last(run).exit == Running && Defined(Last(run)) && Inv(Last(run))
  }

  // ---------- one step more ----------

  lemma PlainLonger(run: Run, s': State)
    requires Plain(run) && PlainNext(Last(run), s')
    ensures Plain(run + [s'])
  {
    var run' := run + [s'];
    forall j, k | 0 <= j < k < |run'| && k == j + 1 ensures PlainNext(run'[j], run'[k]) {
      if k < |run| {
        assert PlainNext(run[j], run[k]);
      }
    }
  }

  lemma LongerRun(run: Run, a: Action)
    requires Live(run)
    ensures IsRun(run + [Step(Last(run), a)]) && Inv(Step(Last(run), a)) && Defined(Step(Last(run), a))
  {
    hide Inv, Init, Defined, Step, Plain;
    var run' := run + [Step(Last(run), a)];
    StepInv(Last(run), a);
    InvDefined(Step(Last(run), a));
    forall j, k | 0 <= j < k < |run'| && k == j + 1 ensures Next(run'[j], run'[k]) {
      if k < |run| {
        assert Next(run[j], run[k]);
      }
    }
  }

  lemma Extend(run: Run, a: Action) returns (run': Run)
    requires Live(run) && IsPlain(a)
    ensures run' == run + [Step(Last(run), a)] && Last(run') == Step(Last(run), a) && Plain(run')
    ensures Last(run').exit == Running ==> Live(run')
  {
    hide Inv, Init, Defined, Step, IsRun, Plain;
    LongerRun(run, a);
    run' := run + [Step(Last(run), a)];
    PlainLonger(run, Last(run'));
  }

  lemma FirstRun() returns (run: Run)
    ensures run == [Fresh()] && Live(run)
  {
    hide Owned, NodesOwned, SoundInv, Init, Range;
    FreshInit();
    run := [Fresh()];
    InitInv(Fresh());
    InvDefined(Fresh());
  }

  /** The buffers after several steps, and how far the pointers of the node pool have moved. */
  ghost predicate Went(run: Run, run': Run, b': Buffers, taken: nat, given: nat) {
    var s, s' := Last(run), Last(run');
    && Live(run') && s'.b == b' && s'.n.read == s.n.read + taken && s'.n.write == s.n.write + given
    && s'.n.recHand == s.n.recHand && s'.n.playHand == s.n.playHand
    && s'.stopPlayback == s.stopPlayback && s'.stopRecording == s.stopRecording
  }

  // ---------- whole calls ----------

  /** The callback plays silence from sample i on. */
  lemma {:induction false} PlaySilence(run: Run, i: nat) returns (run': Run)
    requires Live(run) && Last(run).b.cb == CbSilence(i) && i <= FRAME
    ensures Went(run, run', Last(run).b.(cb := CbTake(AtWrite)), 0, 0)
    decreases FRAME - i
  {
    hide Inv, Plain, IsRun;
    var next := Extend(run, CallbackStep(Silence(), PLAIN));
    if i == FRAME {
      run' := next;
    } else {
      run' := PlaySilence(next, i + 1);
    }
  }

  /** The callback plays buffer b from sample i on. */
  lemma {:induction false} CopyOut(run: Run, b: nat, i: nat) returns (run': Run)
    requires Live(run) && Last(run).b.cb == CbCopyOut(b, i) && i <= FRAME
    ensures Went(run, run', Last(run).b.(cb := CbGiveBack(b, AtRead)), 0, 0)
    decreases FRAME - i
  {
    hide Inv, Plain, IsRun;
    var next := Extend(run, CallbackStep(Silence(), PLAIN));
    if i == FRAME {
      run' := next;
    } else {
      run' := CopyOut(next, b, i + 1);
    }
  }

  /** The callback copies the captured frame into buffer b from sample i on. */
  lemma {:induction false} CopyIn(run: Run, b: nat, i: nat) returns (run': Run)
    requires Live(run) && Last(run).b.cb == CbCopyIn(b, i) && i <= FRAME
    ensures Went(run, run', Last(run).b.(cb := CbEnq(b, AtWrite)), 0, 0)
    decreases FRAME - i
  {
    hide Inv, Plain, IsRun;
    var next := Extend(run, CallbackStep(Silence(), PLAIN));
    if i == FRAME {
      run' := next;
    } else {
      run' := CopyIn(next, b, i + 1);
    }
  }

  /** The fill thread copies the produced frame into buffer b from sample i on. */
  lemma {:induction false} FillIn(run: Run, b: nat, i: nat) returns (run': Run)
    requires Live(run) && Last(run).b.fill == FillCopy(b, i) && i <= FRAME
    ensures Went(run, run', Last(run).b.(fill := FillEnq(b, AtWrite)), 0, 0)
    ensures Last(run').d.produced == Last(run).d.produced && Last(run').d.queued == Last(run).d.queued
    ensures Last(run').d.leaks == Last(run).d.leaks
    decreases FRAME - i
  {
    hide Inv, Plain, IsRun;
    var next := Extend(run, FillStep(Silence(), false, PLAIN));
    if i == FRAME {
      run' := next;
    } else {
      run' := FillIn(next, b, i + 1);
    }
  }

  /** The fill thread gets a buffer and fills it. */
  lemma Fill1(run: Run) returns (run': Run)
    requires Live(run) && Last(run).b.fill == FillLoop && !Last(run).stopPlayback && Last(run).b.free != []
    ensures Went(run, run', TakeBuffer(Last(run).b).(fill := FillEnq(Last(run).b.free[0], AtWrite)), 0, 0)
    ensures Last(run').d.produced == Last(run).d.produced + [Silence()] && Last(run').d.queued == Last(run).d.queued
    ensures Last(run').d.leaks == Last(run).d.leaks
  {
    hide Inv, Plain, IsRun;
    run' := Extend(run, FillStep(Silence(), false, PLAIN));
    run' := Extend(run', FillStep(Silence(), false, PLAIN));
    run' := Extend(run', FillStep(Silence(), false, PLAIN));
    run' := FillIn(run', Last(run).b.free[0], 0);
  }

  /** It puts the buffer into the playback queue. */
  lemma FillQueues(run: Run, b: nat) returns (run': Run)
    requires Live(run) && Last(run).b.fill == FillEnq(b, AtWrite) && Last(run).n.free != []
    ensures Went(run, run', Last(run).b.(fill := FillLoop, playback := Last(run).b.playback + [b]), 1, 0)
  {
    hide Inv, Plain, IsRun;
    run' := Extend(run, FillStep(Silence(), false, PLAIN));
    run' := Extend(run', FillStep(Silence(), false, PLAIN));
  }

  /** The callback takes a buffer, if there is one, and records into it, up to its enqueue. */
  lemma RecordFrame(run: Run) returns (run': Run)
    requires Live(run) && Last(run).b.cb == CbTake(AtWrite)
    ensures var b := Last(run).b;
      Went(run, run', if b.free == [] then b.(cb := CbEnq(SILENT, AtWrite))
                      else TakeBuffer(b).(cb := CbEnq(b.free[0], AtWrite)), 0, 0)
  {
    hide Inv, Plain, IsRun;
    run' := Extend(run, CallbackStep(Silence(), PLAIN));
    run' := Extend(run', CallbackStep(Silence(), PLAIN));
    if Last(run).b.free != [] {
      run' := CopyIn(run', Last(run).b.free[0], 0);
    }
  }

  /** What the callback does to the buffers from its call of the pool on. */
  function Recorded(b: Buffers): Buffers {
    if b.free == [] then b.(cb := CbIdle, record := b.record + [SILENT])
    else TakeBuffer(b).(cb := CbIdle, record := b.record + [b.free[0]])
  }

  lemma Record(run: Run) returns (run': Run)
    requires Live(run) && Last(run).b.cb == CbTake(AtWrite) && Last(run).n.free != []
    ensures Went(run, run', Recorded(Last(run).b), 1, 0)
  {
    hide Inv, Plain, IsRun;
    var recorded := RecordFrame(run);
    assert Last(recorded).n.free != [];
    run' := Extend(recorded, CallbackStep(Silence(), PLAIN));
    run' := Extend(run', CallbackStep(Silence(), PLAIN));
  }

  /** A whole callback with nothing to play. */
  lemma Callback(run: Run) returns (run': Run)
    requires Live(run) && Last(run).b.cb == CbIdle && Last(run).b.playback == [] && Last(run).n.free != []
    ensures Went(run, run', Recorded(Last(run).b), 1, 0)
  {
    hide Inv, Plain, IsRun;
    var begun := Extend(run, CallbackStep(Silence(), PLAIN));
    var played := PlaySilence(begun, 0);
    run' := Record(played);
  }

  /** The callback takes a frame out of the playback queue and gives the node back. */
  lemma PopFrame(run: Run) returns (run': Run)
    requires Live(run) && Last(run).b.cb == CbIdle && Last(run).b.playback != []
    ensures var b, x := Last(run).b, Last(run).b.playback[0];
      Went(run, run', b.(cb := CbCopyOut(x, 0), playback := b.playback[1..]), 0, 1)
  {
    hide Inv, Plain, IsRun;
    HandEmpty(run);
    run' := Extend(run, CallbackStep(Silence(), PLAIN));
    run' := Extend(run', CallbackStep(Silence(), PLAIN));
    NodeRoom(run', |run'| - 1);
    run' := Extend(run', CallbackStep(Silence(), PLAIN));
    run' := Extend(run', CallbackStep(Silence(), PLAIN));
  }

  lemma HandEmpty(run: Run)
    requires Live(run)
    ensures Last(run).b.cb == CbIdle ==> Last(run).n.playHand == []
    ensures Last(run).b.flush == FlLoop ==> Last(run).n.recHand == []
  {
  }

  /** It plays the frame and gives the buffer back, undisturbed. */
  lemma GiveFrame(run: Run, x: nat) returns (run': Run)
    requires Live(run) && Last(run).b.cb == CbCopyOut(x, 0)
    ensures var b := Last(run).b;
      Went(run, run', b.(cb := CbTake(AtWrite), free := b.free + [x], write := b.write + 1), 0, 0)
  {
    hide Inv, Plain, IsRun;
    run' := CopyOut(run, x, 0);
    run' := Extend(run', CallbackStep(Silence(), PLAIN));
    BufferRoom(run', x);
    run' := Extend(run', CallbackStep(Silence(), PLAIN));
    run' := Extend(run', CallbackStep(Silence(), PLAIN));
  }

  lemma BufferRoom(run: Run, b: nat)
    requires Live(run)
    requires || (Last(run).b.cb.CbGiveBack? && Last(run).b.cb.b == b && Last(run).b.cb.g != AtStore)
             || (Last(run).b.flush.FlReturn? && Last(run).b.flush.p == b != SILENT && Last(run).b.flush.g == AtRead)
    ensures |Last(run).b.free| < FREE_BUFFERS
  {
    var s := Last(run).b;
    assert CbHolds(s.cb, b) || FlushHolds(s.flush, b);
    assert b != SILENT;
    assert Held(s, b) == One(b < FREE_BUFFERS);
    Room(s, b);
  }

  /** The flush thread takes out the oldest entry and loads the readPointer of the node pool. */
  lemma FlushPop(run: Run) returns (run': Run)
    requires Live(run) && !Last(run).stopRecording && Last(run).b.flush == FlLoop && Last(run).b.record != []
    ensures Live(run') && |Last(run').n.recHand| == 1 && Last(run').n.playHand == Last(run).n.playHand
    ensures Last(run').n.read == Last(run).n.read && Last(run').n.write == Last(run).n.write
    ensures Last(run').stopPlayback == Last(run).stopPlayback && !Last(run').stopRecording
    ensures var b, x := Last(run).b, Last(run).b.record[0];
      Last(run').b == b.(flush := FlFree(x, AtTest(Last(run).n.read)), record := b.record[1..])
  {
    hide Inv, Plain, IsRun;
    run' := Extend(run, FlushStep(false, PLAIN));
    run' := Extend(run', FlushStep(false, PLAIN));
  }

  /** It gives the node back, undisturbed, consumes the entry and loads the readPointer of the pool of buffers. */
  lemma FlushConsumes(run: Run) returns (run': Run)
    requires Live(run) && !Last(run).stopRecording && Last(run).b.flush == FlLoop
    requires Last(run).b.record != [] && Last(run).b.record[0] != SILENT
    ensures var b, x := Last(run).b, Last(run).b.record[0];
      Went(run, run', b.(flush := FlReturn(x, false, AtTest(b.read)), record := b.record[1..]), 0, 1)
  {
    hide Inv, Plain, IsRun;
    HandEmpty(run);
    run' := FlushPop(run);
    NodeRoom(run', |run'| - 1);
    run' := Extend(run', FlushStep(false, PLAIN));
    run' := Extend(run', FlushStep(false, PLAIN));
    run' := Extend(run', FlushStep(false, PLAIN));
    run' := Extend(run', FlushStep(false, PLAIN));
  }

  /** It consumes the oldest entry and gives its buffer back, undisturbed. */
  lemma FlushOne(run: Run) returns (run': Run)
    requires Live(run) && !Last(run).stopRecording && Last(run).b.flush == FlLoop
    requires Last(run).b.record != [] && Last(run).b.record[0] != SILENT
    ensures var b, x := Last(run).b, Last(run).b.record[0];
      Went(run, run', b.(record := b.record[1..], free := b.free + [x], write := b.write + 1), 0, 1)
  {
    hide Inv, Plain, IsRun;
    run' := FlushConsumes(run);
    ReturnRoom(run', Last(run).b.record[0]);
    run' := Extend(run', FlushStep(false, PLAIN));
    run' := Extend(run', FlushStep(false, PLAIN));
  }

  lemma ReturnRoom(run: Run, b: nat)
    requires Live(run) && Last(run).b.flush.FlReturn? && Last(run).b.flush.p == b && Last(run).b.flush.g.AtTest?
    ensures |Last(run).b.free| < FREE_BUFFERS
  {
    var s := Last(run).b;
    assert FlushHolds(s.flush, b) && b != SILENT;
    assert Held(s, b) == One(b < FREE_BUFFERS);
    Room(s, b);
  }

  /** Both threads are told to stop and end. */
  lemma End(run: Run) returns (run': Run)
    requires Live(run) && Last(run).b.cb == CbIdle && Last(run).b.fill == FillLoop && Last(run).b.flush == FlLoop
    ensures Live(run') && Last(run').b == Last(run).b.(fill := FillDone, flush := FlDone) && Ended(Last(run').b)
  {
    hide Plain, IsRun, Inv;
    run' := Extend(run, StopPlayback);
    run' := Extend(run', StopRecording);
    run' := Extend(run', FillStep(Silence(), false, PLAIN));
    run' := Extend(run', FlushStep(false, PLAIN));
  }

  // ---------- clearing and teardown ----------

  /** The state after n frames were recorded, while the fill thread and the flush thread wait. */
  ghost predicate Backlog(s: State, n: nat) {
    && n <= FREE_BUFFERS && !s.stopPlayback && !s.stopRecording && s.n.read == 4 + n && s.n.write == FREE_NODES
    && s.b == Buffers(Range(FREE_BUFFERS)[n..], [], Range(n), FillLoop, CbIdle, FlLoop, [], n, FREE_BUFFERS)
  }

  lemma NodesLeft(run: Run)
    requires Live(run)
    ensures |Last(run).n.free| == Last(run).n.write - Last(run).n.read
  {
  }

  lemma {:induction false} RecordMany(n: nat) returns (run: Run)
    requires n <= FREE_BUFFERS
    ensures Live(run) && Backlog(Last(run), n)
  {
    hide Inv, Plain, IsRun, Defined;
    if n == 0 {
      run := FirstRun();
      assert Range(FREE_BUFFERS)[0..] == Range(FREE_BUFFERS) && Range(0) == [];
    } else {
      var before := RecordMany(n - 1);
      NodesLeft(before);
      run := Callback(before);
      assert Range(FREE_BUFFERS)[n - 1..][1..] == Range(FREE_BUFFERS)[n..];
      assert Range(n) == Range(n - 1) + [n - 1];
    }
  }

  /** 300 frames are recorded and then totalSilence, one frame is consumed, and its buffer is recorded into. */
  lemma SilenceThenSound() returns (run: Run)
    ensures Live(run)
    ensures var b := Last(run).b;
      && b.free == b.playback == b.lost == [] && b.record == Range(FREE_BUFFERS)[1..] + [SILENT] + [0]
      && b.cb == CbIdle && b.fill == FillLoop && b.flush == FlLoop
  {
    hide Plain, IsRun, Inv, Defined;
    run := RecordMany(FREE_BUFFERS);
    NodesLeft(run);
    run := Callback(run);
    assert Last(run).b.free == [];
    run := FlushOne(run);
    assert (Range(FREE_BUFFERS) + [SILENT])[1..] == Range(FREE_BUFFERS)[1..] + [SILENT];
    NodesLeft(run);
    run := Callback(run);
  }

  /**
   clearAllQueues does not always complete the pool: when the threads of this run have ended, a real buffer
   waits behind totalSilence, though nothing was ever lost.
   */
  lemma IncompleteClearing() returns (run: Run)
    ensures Plain(run) && Ended(Last(run).b) && Last(run).b.lost == []
    ensures !SilenceLast(Last(run).b.record) && !Complete(Cleared(Last(run).b)) && !Init(Restarted(Last(run)))
  {
    hide Plain, IsRun, Inv, Defined, Init, Complete, Cleared, Restarted;
    run := SilenceThenSound();
    run := End(run);
    var q := Last(run).b.record;
    assert q[299] == SILENT && q[300] == 0;
    SessionEnds(run, |run| - 1);
    RestartIsInit(run, |run| - 1);
  }

  /** Audio_teardown after an Audio_stop that failed before clearing: the blocks offered to the pool do not fit. */
  lemma TeardownOverflows() returns (run: Run)
    ensures Plain(run) && Ended(Last(run).b) && Last(run).b.record == [0] && Last(run).b.playback == []
    ensures var s := Last(run);
      |s.n.free| + Offered(|s.b.playback|) + Offered(|s.b.record|) == FREE_NODES + 1
  {
    hide Plain, IsRun, Defined, Owned, NodesOwned, SoundInv;
    run := RecordMany(1);
    run := End(run);
    NodeBudget(Last(run));
  }

  // ---------- calls that are disturbed ----------

  /**
   A frame buffer is lost.  The flush thread loads readPointer; the fill thread takes a buffer, queues it, and
   the callback plays it and gives it back; then the flush thread tests, with 299 entries in the pool.
   */
  lemma LostBuffer() returns (run: Run)
    ensures Plain(run) && Last(run).exit == Running && |Last(run).b.free| == FREE_BUFFERS - 1
    ensures |run| >= 2 && RefusedAt(run, |run| - 2, 0) && Last(run).b.lost == [0] && Places(Last(run).b, 0) == 0
  {
    hide Plain, IsRun, Inv, Defined, Places;
    run := RecordMany(1);
    run := FlushConsumes(run);
    run := Fill1(run);
    NodesLeft(run);
    run := FillQueues(run, 1);
    run := PopFrame(run);
    run := GiveFrame(run, 1);
    run := Extend(run, FlushStep(false, PLAIN));
    BufferInOnePlace(run, |run| - 1, 0);
  }

  /** i frames were produced, played and recorded since the flush thread loaded readPointer as r. */
  ghost predicate Rounds(s: State, r: nat, i: nat) {
    && i <= 5 && !s.stopPlayback && s.b.flush == FlFree(0, AtTest(r)) && |s.n.recHand| == 1
    && s.n.write == r + 595 + i && s.n.read == r + 2 * i && s.b.fill == FillLoop && s.b.cb == CbIdle
    && s.b.playback == [] && |s.b.free| == 299 - i
  }

  lemma Round(run: Run, r: nat, i: nat) returns (run': Run)
    requires Live(run) && Rounds(Last(run), r, i) && i < 5
    ensures Live(run') && Rounds(Last(run'), r, i + 1)
  {
    hide Plain, IsRun, Inv, Defined;
    run' := Fill1(run);
    NodesLeft(run');
    run' := FillQueues(run', Last(run).b.free[0]);
    run' := PopFrame(run');
    run' := GiveFrame(run', Last(run).b.free[0]);
    NodesLeft(run');
    run' := Record(run');
  }

  /**
   bufferFree leaves the program, with 590 of 600 nodes in the pool: since the flush thread loaded readPointer
   five frames were produced, played and recorded.
   */
  lemma SpuriousExit() returns (run: Run)
    ensures Plain(run) && Last(run).exit == PoolFull && |Last(run).n.free| == 590
    ensures |run| >= 2 && NodeRefused(run[|run| - 2], Last(run))
  {
    hide Plain, IsRun, Inv, Defined;
    run := RecordMany(1);
    run := FlushPop(run);
    var r := Last(run).n.read;
    run := Round(run, r, 0);
    run := Round(run, r, 1);
    run := Round(run, r, 2);
    run := Round(run, r, 3);
    run := Round(run, r, 4);
    NodesLeft(run);
    run := Extend(run, FlushStep(false, PLAIN));
    ExitExactly(run, |run| - 1);
  }

  // ---------- no node is left ----------

  /** The fill thread has filled buffer 0, and then n callbacks have recorded something. */
  ghost predicate Crowded(s: State, n: nat) {
    && n <= 596 && s.b.fill == FillEnq(0, AtWrite) && s.b.cb == CbIdle && s.b.flush == FlLoop && s.b.playback == []
    && |s.b.record| == n && s.b.lost == []
  }

  lemma CrowdedNodes(run: Run)
    requires Live(run) && Crowded(Last(run), |Last(run).b.record|)
    ensures |Last(run).n.free| == 596 - |Last(run).b.record|
  {
    hide Owned, NodesOwned, SoundInv;
    NodeBudget(Last(run));
  }

  lemma {:induction false} Crowd(n: nat) returns (run: Run)
    requires n <= 596
    ensures Live(run) && Crowded(Last(run), n)
  {
    hide Inv, Plain, IsRun, Defined;
    if n == 0 {
      run := FirstRun();
      run := Fill1(run);
    } else {
      var before := Crowd(n - 1);
      CrowdedNodes(before);
      run := Callback(before);
    }
  }

  /**
   A frame buffer is lost with its frame although the pool of buffers never refused it: the record queue holds
   596 entries, so the pool of nodes is empty, and nobody looks at the answer of the enqueue.
   */
  lemma LeakedBuffer() returns (run: Run)
    ensures Plain(run) && Last(run).exit == Running
    ensures |run| >= 2 && UnservedAt(run, |run| - 2, 0) && Last(run).b.lost == [0] && Places(Last(run).b, 0) == 0
    ensures Last(run).d.produced != Last(run).d.queued + Filling(Last(run).b, Last(run).d)
  {
    hide Plain, IsRun, Inv, Defined, Places, Filling;
    run := Crowd(596);
    CrowdedNodes(run);
    NodesLeft(run);
    run := Extend(run, FillStep(Silence(), false, PLAIN));
    run := Extend(run, FillStep(Silence(), false, PLAIN));
    BufferInOnePlace(run, |run| - 1, 0);
    assert FillStarvedAt(run, |run| - 2);
    PlaysAllProduced(run, |run| - 1);
  }
}
