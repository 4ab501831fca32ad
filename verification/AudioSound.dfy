/**
 The contents of the two streams of the audio pipeline, and the invariant that every run keeps: who owns the
 buffers and the nodes, what the threads have loaded, and where each frame is.
 */
module AudioSound {
  import opened AudioMachine
  import opened Counting
  import opened Samples

  /** Every queue entry and every buffer in a hand is a buffer, or totalSilence where that may be. */
  ghost predicate InRange(s: Buffers) {
    && (forall i | 0 <= i < |s.playback| :: s.playback[i] < SILENT)
    && (forall i | 0 <= i < |s.record| :: s.record[i] <= SILENT)
    && (s.fill.FillCopy? || s.fill.FillEnq? ==> s.fill.b < SILENT)
    && (s.cb.CbFree? || s.cb.CbCopyOut? || s.cb.CbCopyIn? ==> s.cb.b < SILENT) && (s.cb.CbEnq? ==> s.cb.p <= SILENT)
    && (s.flush.FlFree? || s.flush.FlConsume? ==> s.flush.p <= SILENT)
  }

  lemma OwnedInRange(s: Buffers)
    requires Owned(s)
    ensures InRange(s)
  {
    forall b: nat |
      b in s.playback || b in s.record || FillHolds(s.fill, b) || CbHolds(s.cb, b) || FlushHolds(s.flush, b)
      ensures b <= SILENT
    {
      CopiesIn(s.playback, b);
      CopiesIn(s.record, b);
      assert b != SILENT ==> Held(s, b) == One(b < FREE_BUFFERS);
    }
    CopiesIn(s.playback, SILENT);
    forall i | 0 <= i < |s.playback| ensures s.playback[i] < SILENT {
      assert s.playback[i] in s.playback;
    }
    forall i | 0 <= i < |s.record| ensures s.record[i] <= SILENT {
      assert s.record[i] in s.record;
    }
    if s.fill.FillCopy? || s.fill.FillEnq? { assert FillHolds(s.fill, s.fill.b); }
    if s.cb.CbFree? || s.cb.CbCopyOut? || s.cb.CbCopyIn? { assert CbHolds(s.cb, s.cb.b); }
    if s.cb.CbEnq? { assert CbHolds(s.cb, s.cb.p); }
    if s.flush.FlFree? || s.flush.FlConsume? { assert FlushHolds(s.flush, s.flush.p); }
  }

  /** A buffer in the hand of a thread that copies into it is in no queue and in no other hand. */
  lemma HandApart(s: Buffers, b: nat)
    requires Owned(s) && b < SILENT && (FillHolds(s.fill, b) || CbHolds(s.cb, b))
    ensures b !in s.playback && b !in s.record && !FlushHolds(s.flush, b) && !(FillHolds(s.fill, b) && CbHolds(s.cb, b))
  {
    assert Held(s, b) == 1;
    CopiesIn(s.playback, b);
    CopiesIn(s.record, b);
  }

  /** The contents of the buffers in a list. */
  function Frames(mem: seq<Frame>, q: seq<nat>): (r: seq<Frame>)
    requires forall i | 0 <= i < |q| :: q[i] < |mem|
    ensures |r| == |q|
  {
    seq(|q|, i requires 0 <= i < |q| => mem[q[i]])
  }

  /** The frames of a device stream without the inserted silence. */
  function Sounds(outputs: seq<Output>): seq<Frame> {
    if outputs == [] then [] else
      var last := outputs[|outputs| - 1];
      Sounds(outputs[..|outputs| - 1]) + if last.inserted then [] else [last.frame]
  }

  ghost predicate Shaped(b: Buffers, d: Sound) {
    InRange(b) && |d.mem| == FREE_BUFFERS + 1 && d.mem[SILENT] == Silence()
  }

  /** How far each copy has come. */
  ghost predicate Copying(b: Buffers, d: Sound)
    requires Shaped(b, d)
  {
    && (b.fill.FillCopy? ==> b.fill.i <= FRAME && d.mem[b.fill.b][..b.fill.i] == d.source[..b.fill.i])
    && (b.fill.FillEnq? ==> d.mem[b.fill.b] == d.source)
    && (b.cb.CbSilence? ==> b.cb.i <= FRAME && d.output[..b.cb.i] == Silence()[..b.cb.i])
    && (b.cb.CbCopyOut? ==> b.cb.i <= FRAME && d.output[..b.cb.i] == d.mem[b.cb.b][..b.cb.i])
    && (b.cb.CbCopyIn? ==> b.cb.i <= FRAME && d.mem[b.cb.b][..b.cb.i] == d.input[..b.cb.i])
    && (b.cb.CbEnq? && b.cb.p != SILENT ==> d.mem[b.cb.p] == d.input)
  }

  /** The buffer that the callback is playing, and the entry that the flush thread is about to consume. */
  function Flying(b: Buffers): seq<nat> { if b.cb.CbFree? || b.cb.CbCopyOut? then [b.cb.b] else [] }

  function Consuming(b: Buffers): seq<nat> { if b.flush.FlFree? || b.flush.FlConsume? then [b.flush.p] else [] }

  /** The frame that the fill thread has a buffer for. */
  function Filling(b: Buffers, d: Sound): seq<Frame> { if b.fill.FillCopy? || b.fill.FillEnq? then [d.source] else [] }

  /** The frames that got into the playback queue are those played, the one being played and those in the queue. */
  ghost predicate Playing(b: Buffers, d: Sound)
    requires Shaped(b, d)
  {
    && d.queued == Sounds(d.outputs) + Frames(d.mem, Flying(b)) + Frames(d.mem, b.playback)
    && forall i | 0 <= i < |d.outputs| && d.outputs[i].inserted :: d.outputs[i].frame == Silence()
  }

  /** What the record queue was given is what was consumed, what is being consumed and what is in the queue. */
  ghost predicate Recording(b: Buffers, d: Sound)
    requires Shaped(b, d)
  {
    && d.logged == d.consumed + Frames(d.mem, Consuming(b)) + Frames(d.mem, b.record)
    && |d.logged| == |d.captured|
    && forall i | 0 <= i < |d.logged| :: d.logged[i] == d.captured[i] || d.logged[i] == Silence()
  }

  /** Frames are counted at both ends, and none is missing from a history unless a node was. */
  ghost predicate Tallied(b: Buffers, d: Sound) {
    && |d.produced| == |d.queued| + d.leaks + |Filling(b, d)|
      && (d.leaks == 0 ==> d.produced == d.queued + Filling(b, d))
    && |d.heard| == |d.captured| + d.missed && (d.missed == 0 ==> d.heard == d.captured)
  }

  ghost predicate SoundInv(s: State) {
    Shaped(s.b, s.d) && Copying(s.b, s.d) && Playing(s.b, s.d) && Recording(s.b, s.d) && Tallied(s.b, s.d)
  }

  /** Writing a buffer that no list contains leaves the contents of the lists. */
  lemma WriteElsewhere(mem: seq<Frame>, q: seq<nat>, b: nat, f: Frame)
    requires b < |mem| && b !in q && forall i | 0 <= i < |q| :: q[i] < |mem|
    ensures Frames(mem[b := f], q) == Frames(mem, q)
  {
    forall i | 0 <= i < |q| ensures mem[b := f][q[i]] == mem[q[i]] {
      assert q[i] in q;
    }
  }

  /** One sample more is copied. */
  lemma OneMore(to: Frame, from: Frame, i: nat)
    requires i < FRAME && to[..i] == from[..i]
    ensures to[i := from[i]][..i + 1] == from[..i + 1]
  {
    assert to[i := from[i]][..i] == to[..i];
  }

  lemma AllCopied(to: Frame, from: Frame, i: nat)
    requires i <= FRAME && to[..i] == from[..i] && i >= FRAME
    ensures to == from
  {
    assert to[..FRAME] == to && from[..FRAME] == from;
  }

  /** The playback side is untouched. */
  lemma PlayingSame(b: Buffers, d: Sound, b': Buffers, d': Sound)
    requires Shaped(b, d) && Playing(b, d) && Shaped(b', d')
    requires d'.queued == d.queued && d'.outputs == d.outputs && b'.playback == b.playback && Flying(b') == Flying(b)
    requires Frames(d'.mem, Flying(b)) == Frames(d.mem, Flying(b))
      && Frames(d'.mem, b.playback) == Frames(d.mem, b.playback)
    ensures Playing(b', d')
  {
  }

  /** The recording side is untouched. */
  lemma RecordingSame(b: Buffers, d: Sound, b': Buffers, d': Sound)
    requires Shaped(b, d) && Recording(b, d) && Shaped(b', d')
    requires d'.logged == d.logged && d'.consumed == d.consumed && d'.captured == d.captured && b'.record == b.record
    requires Consuming(b') == Consuming(b) && Frames(d'.mem, Consuming(b)) == Frames(d.mem, Consuming(b))
    requires Frames(d'.mem, b.record) == Frames(d.mem, b.record)
    ensures Recording(b', d')
  {
  }

  lemma TalliedSame(b: Buffers, d: Sound, b': Buffers, d': Sound)
    requires Tallied(b, d) && Filling(b', d') == Filling(b, d)
    requires d'.produced == d.produced && d'.queued == d.queued && d'.leaks == d.leaks
    requires d'.heard == d.heard && d'.captured == d.captured && d'.missed == d.missed
    ensures Tallied(b', d')
  {
  }

  /** Steps that change only where a thread is and what the pools hold. */
  lemma PassSound(s: State, s': State)
    requires SoundInv(s) && s'.d == s.d.(source := s'.d.source, input := s'.d.input)
    requires InRange(s'.b) && s'.b.playback == s.b.playback && s'.b.record == s.b.record
    requires Flying(s'.b) == Flying(s.b) && Consuming(s'.b) == Consuming(s.b)
      && Filling(s'.b, s'.d) == Filling(s.b, s.d)
    requires Shaped(s'.b, s'.d) && Copying(s'.b, s'.d)
    ensures SoundInv(s')
  {
    hide InRange, Copying, Playing, Recording, Tallied, Frames, Flying, Consuming, Filling;
    PlayingSame(s.b, s.d, s'.b, s'.d);
    RecordingSame(s.b, s.d, s'.b, s'.d);
    TalliedSame(s.b, s.d, s'.b, s'.d);
  }

  /** Writing to the buffer in the hand of a thread that copies into it disturbs neither side. */
  lemma WriteSound(s: State, b': Buffers, d': Sound, x: nat, f: Frame)
    requires Owned(s.b) && SoundInv(s) && x < SILENT && d' == s.d.(mem := s.d.mem[x := f])
    requires || (s.b.fill.FillCopy? && s.b.fill.b == x && b' == s.b.(fill := FillCopy(x, s.b.fill.i + 1)))
             || (s.b.cb.CbCopyIn? && s.b.cb.b == x && b' == s.b.(cb := CbCopyIn(x, s.b.cb.i + 1)))
    ensures Shaped(b', d') && Playing(b', d') && Recording(b', d') && Tallied(b', d')
    ensures s.b.cb.CbCopyOut? ==> s.b.cb.b != x
    ensures s.b.fill.FillCopy? && s.b.cb.CbCopyIn? ==> s.b.fill.b != s.b.cb.b
    ensures s.b.fill.FillEnq? && s.b.cb.CbCopyIn? ==> s.b.fill.b != x
    ensures s.b.cb.CbEnq? ==> s.b.cb.p != x
  {
    assert FillHolds(s.b.fill, x) || CbHolds(s.b.cb, x);
    HandApart(s.b, x);
    HandsApart(s.b, x);
    hide Owned, Playing, Recording, Tallied, Copying, Frames, FillHolds, CbHolds, FlushHolds;
    WriteElsewhere(s.d.mem, s.b.playback, x, f);
    WriteElsewhere(s.d.mem, s.b.record, x, f);
    WriteElsewhere(s.d.mem, Flying(s.b), x, f);
    WriteElsewhere(s.d.mem, Consuming(s.b), x, f);
    PlayingSame(s.b, s.d, b', d');
    RecordingSame(s.b, s.d, b', d');
    TalliedSame(s.b, s.d, b', d');
  }

  /** What is in no other hand is not being played, consumed or recorded into. */
  lemma HandsApart(s: Buffers, x: nat)
    requires (s.fill.FillCopy? && s.fill.b == x) || (s.cb.CbCopyIn? && s.cb.b == x)
    requires !FlushHolds(s.flush, x) && !(FillHolds(s.fill, x) && CbHolds(s.cb, x))
    ensures x !in Flying(s) && x !in Consuming(s)
    ensures s.cb.CbCopyOut? ==> s.cb.b != x
    ensures s.fill.FillCopy? && s.cb.CbCopyIn? ==> s.fill.b != s.cb.b
    ensures s.fill.FillEnq? && s.cb.CbCopyIn? ==> s.fill.b != x
    ensures s.cb.CbEnq? ==> s.cb.p != x
  {
    assert CbHolds(s.cb, x) <== (s.cb.CbFree? || s.cb.CbCopyOut? || s.cb.CbCopyIn?) && s.cb.b == x;
    assert CbHolds(s.cb, x) <== s.cb.CbEnq? && s.cb.p == x;
    assert FillHolds(s.fill, x) <== (s.fill.FillCopy? || s.fill.FillEnq?) && s.fill.b == x;
  }

  // ---------- the fill thread ----------

  lemma FillPassSound(s: State, s': State, f: Frame, stop: bool, c: Chance)
    requires Defined(s) && SoundInv(s) && s' == Filled(s, f, stop, c) && InRange(s'.b)
    requires Filling(s'.b, s.d) == Filling(s.b, s.d) && s'.d == s.d.(source := s'.d.source)
    requires s.b.fill.FillCopy? || s.b.fill.FillEnq? ==>
      s.b.fill.FillEnq? && s'.b.fill.FillEnq? && s'.d.source == s.d.source
    ensures SoundInv(s')
  {
    hide InRange, Playing, Recording, Tallied, Frames, FillPointed, CallbackPointed, FlushPointed;
    PassSound(s, s');
  }

  lemma FillCopiesSound(s: State, f: Frame, stop: bool, c: Chance)
    requires Defined(s) && Owned(s.b) && SoundInv(s) && s.b.fill.FillCopy? && s.b.fill.i < FRAME
    ensures SoundInv(Filled(s, f, stop, c))
  {
    hide Owned, Playing, Recording, Tallied, Frames;
    var s' := Filled(s, f, stop, c);
    var FillCopy(b, i) := s.b.fill;
    WriteSound(s, s'.b, s'.d, b, s'.d.mem[b]);
    OneMore(s.d.mem[b], s.d.source, i);
  }

  lemma FillCopiedSound(s: State, f: Frame, stop: bool, c: Chance)
    requires Defined(s) && SoundInv(s) && s.b.fill.FillCopy? && s.b.fill.i >= FRAME
    ensures SoundInv(Filled(s, f, stop, c))
  {
    hide Playing, Recording, Tallied, Frames, FillPointed, CallbackPointed, FlushPointed;
    var s' := Filled(s, f, stop, c);
    AllCopied(s.d.mem[s.b.fill.b], s.d.source, s.b.fill.i);
    PassSound(s, s');
  }

  /** The frame just produced got a buffer. */
  lemma FillTakeSound(s: State, b': Buffers, d': Sound)
    requires SoundInv(s) && s.b.fill.FillTake? && InRange(b')
    requires b' == s.b.(fill := b'.fill, free := b'.free, read := b'.read) && b'.fill.FillCopy? && b'.fill.i == 0
    requires d' == s.d.(produced := s.d.produced + [s.d.source])
    ensures Shaped(b', d') && Copying(b', d') && Playing(b', d') && Recording(b', d') && Tallied(b', d')
  {
    hide InRange, Playing, Recording, Frames;
    PlayingSame(s.b, s.d, b', d');
    RecordingSame(s.b, s.d, b', d');
  }

  /** A frame moves along the playback side: into the queue, out of the queue, out to the device. */
  lemma Shifts(a: seq<Frame>, x: Frame, q: seq<Frame>, c: seq<Frame>)
    ensures a + c + q + [x] == a + c + (q + [x])
    ensures a + [] + ([x] + q) == a + [x] + q
    ensures a + [x] + q == (a + [x]) + [] + q
  {
  }

  lemma SoundsAppend(outputs: seq<Output>, o: Output)
    ensures Sounds(outputs + [o]) == Sounds(outputs) + if o.inserted then [] else [o.frame]
  {
    assert (outputs + [o])[..|outputs|] == outputs;
  }

  /** The buffer that the fill thread filled gets into the playback queue. */
  lemma FillEnqSound(s: State, b': Buffers, d': Sound)
    requires SoundInv(s) && s.b.fill.FillEnq? && InRange(b')
    requires b' == s.b.(fill := FillLoop, playback := s.b.playback + [s.b.fill.b])
    requires d' == s.d.(queued := s.d.queued + [s.d.source])
    ensures Shaped(b', d') && Copying(b', d') && Playing(b', d') && Recording(b', d') && Tallied(b', d')
  {
    RecordingSame(s.b, s.d, b', d');
    assert Frames(s.d.mem, b'.playback) == Frames(s.d.mem, s.b.playback) + [s.d.mem[s.b.fill.b]];
    Shifts(Sounds(s.d.outputs), s.d.source, Frames(s.d.mem, s.b.playback), Frames(s.d.mem, Flying(s.b)));
  }

  /** It gets no node, and its frame is lost with it. */
  lemma FillLeakSound(s: State, b': Buffers, d': Sound)
    requires SoundInv(s) && s.b.fill.FillEnq? && InRange(b')
    requires b' == s.b.(fill := FillLoop, lost := b'.lost) && d' == s.d.(leaks := s.d.leaks + 1)
    ensures Shaped(b', d') && Copying(b', d') && Playing(b', d') && Recording(b', d') && Tallied(b', d')
  {
    hide InRange, Playing, Recording, Frames;
    PlayingSame(s.b, s.d, b', d');
    RecordingSame(s.b, s.d, b', d');
  }

  lemma FilledSound(s: State, f: Frame, stop: bool, c: Chance)
    requires Defined(s) && Owned(s.b) && SoundInv(s) && InRange(Filled(s, f, stop, c).b)
    ensures SoundInv(Filled(s, f, stop, c))
  {
    hide Owned, InRange, Copying, Playing, Recording, Tallied, Frames, FillPointed, CallbackPointed, FlushPointed;
    var s' := Filled(s, f, stop, c);
    match s.b.fill
    case FillCopy(_, i) =>
      if i >= FRAME { FillCopiedSound(s, f, stop, c); } else { FillCopiesSound(s, f, stop, c); }
    case FillTake(AtSlot(w)) =>
      if !c.again && !BufferDenied(s, w, c) { FillTakeSound(s, s'.b, s'.d); } else { FillPassSound(s, s', f, stop, c); }
    case FillEnq(_, AtSlot(w)) =>
      if c.again { FillPassSound(s, s', f, stop, c); }
      else if NodeDenied(s, w, c) { FillLeakSound(s, s'.b, s'.d); } else { FillEnqSound(s, s'.b, s'.d); }
    case _ => FillPassSound(s, s', f, stop, c);
  }

  // ---------- the callback ----------

  /** Steps of the callback that only talk to a pool. */
  lemma CallbackGivesSound(s: State, f: Frame, c: Chance)
    requires Defined(s) && SoundInv(s) && InRange(CalledBack(s, f, c).b) && CalledBack(s, f, c).d == s.d
    requires s.b.cb.CbFree? || s.b.cb.CbGiveBack?
    ensures SoundInv(CalledBack(s, f, c))
  {
    hide InRange, Playing, Recording, Tallied, Frames, FillPointed, CallbackPointed, FlushPointed;
    PassSound(s, CalledBack(s, f, c));
  }

  lemma CallbackTakesSound(s: State, f: Frame, c: Chance)
    requires Defined(s) && SoundInv(s) && InRange(CalledBack(s, f, c).b) && CalledBack(s, f, c).d == s.d
    requires s.b.cb.CbTake? || (s.b.cb.CbEnq? && CalledBack(s, f, c).b.cb.CbEnq?)
    ensures SoundInv(CalledBack(s, f, c))
  {
    hide InRange, Playing, Recording, Tallied, Frames, FillPointed, FlushPointed;
    PassSound(s, CalledBack(s, f, c));
  }

  /** A frame leaves the playback queue. */
  lemma StartPlays(b: Buffers, d: Sound, b': Buffers)
    requires Shaped(b, d) && Playing(b, d) && b.cb.CbIdle? && b.playback != []
    requires b' == b.(cb := CbFree(b.playback[0], AtRead), playback := b.playback[1..]) && Shaped(b', d)
    ensures Playing(b', d)
  {
    assert Frames(d.mem, b.playback) == [d.mem[b.playback[0]]] + Frames(d.mem, b'.playback);
    Shifts(Sounds(d.outputs), d.mem[b.playback[0]], Frames(d.mem, b'.playback), []);
  }

  lemma CallbackStartSound(s: State, f: Frame, c: Chance)
    requires Defined(s) && SoundInv(s) && s.b.cb.CbIdle? && InRange(CalledBack(s, f, c).b)
    ensures SoundInv(CalledBack(s, f, c))
  {
    hide Playing, Recording, Tallied, Frames, FillPointed, CallbackPointed, FlushPointed;
    var s' := CalledBack(s, f, c);
    assert Shaped(s'.b, s'.d);
    if s.b.playback == [] {
      PassSound(s, s');
    } else {
      StartPlays(s.b, s.d, s'.b);
      PlayingSame(s'.b, s.d, s'.b, s'.d);
      RecordingSame(s.b, s.d, s'.b, s'.d);
      TalliedSame(s.b, s.d, s'.b, s'.d);
    }
  }

  /** The output buffer is complete: it holds a frame of the queue, or silence. */
  lemma OutputPlays(b: Buffers, d: Sound, b': Buffers, d': Sound, o: Output)
    requires Shaped(b, d) && Playing(b, d) && (b.cb.CbSilence? || b.cb.CbCopyOut?)
    requires b' == b.(cb := b'.cb) && !b'.cb.CbCopyOut? && !b'.cb.CbFree?
    requires d' == d.(outputs := d.outputs + [o]) && Shaped(b', d')
    requires o == if b.cb.CbSilence? then Output(Silence(), true) else Output(d.mem[b.cb.b], false)
    ensures Playing(b', d')
  {
    SoundsAppend(d.outputs, o);
    Shifts(Sounds(d.outputs), o.frame, Frames(d.mem, b.playback), []);
  }

  lemma CallbackPlaysSound(s: State, f: Frame, c: Chance)
    requires Defined(s) && SoundInv(s) && (s.b.cb.CbSilence? || s.b.cb.CbCopyOut?) && s.b.cb.i >= FRAME
    ensures SoundInv(CalledBack(s, f, c))
  {
    hide Playing, Recording, Tallied, Frames, FillPointed, CallbackPointed, FlushPointed;
    var s' := CalledBack(s, f, c);
    assert Shaped(s'.b, s'.d);
    RecordingSame(s.b, s.d, s'.b, s'.d);
    TalliedSame(s.b, s.d, s'.b, s'.d);
    AllCopied(s.d.output, if s.b.cb.CbSilence? then Silence() else s.d.mem[s.b.cb.b], s.b.cb.i);
    OutputPlays(s.b, s.d, s'.b, s'.d, s'.d.outputs[|s.d.outputs|]);
  }

  lemma CallbackCopiesOutSound(s: State, f: Frame, c: Chance)
    requires Defined(s) && SoundInv(s) && (s.b.cb.CbSilence? || s.b.cb.CbCopyOut?) && s.b.cb.i < FRAME
    ensures SoundInv(CalledBack(s, f, c))
  {
    hide Playing, Recording, Tallied, Frames, FillPointed, CallbackPointed, FlushPointed;
    var s' := CalledBack(s, f, c);
    assert Shaped(s'.b, s'.d);
    RecordingSame(s.b, s.d, s'.b, s'.d);
    PlayingSame(s.b, s.d, s'.b, s'.d);
    TalliedSame(s.b, s.d, s'.b, s'.d);
    OneMore(s.d.output, if s.b.cb.CbSilence? then Silence() else s.d.mem[s.b.cb.b], s.b.cb.i);
  }

  lemma CallbackCopiesInSound(s: State, f: Frame, c: Chance)
    requires Defined(s) && Owned(s.b) && SoundInv(s) && s.b.cb.CbCopyIn? && s.b.cb.i < FRAME
    ensures SoundInv(CalledBack(s, f, c))
  {
    hide Owned, Playing, Recording, Tallied, Frames, FillPointed, CallbackPointed, FlushPointed;
    var s' := CalledBack(s, f, c);
    var CbCopyIn(b, i) := s.b.cb;
    WriteSound(s, s'.b, s'.d, b, s'.d.mem[b]);
    OneMore(s.d.mem[b], s.d.input, i);
  }

  lemma CallbackCopiedInSound(s: State, f: Frame, c: Chance)
    requires Defined(s) && SoundInv(s) && s.b.cb.CbCopyIn? && s.b.cb.i >= FRAME
    ensures SoundInv(CalledBack(s, f, c))
  {
    hide Playing, Recording, Tallied, Frames, FillPointed, CallbackPointed, FlushPointed;
    AllCopied(s.d.mem[s.b.cb.b], s.d.input, s.b.cb.i);
    PassSound(s, CalledBack(s, f, c));
  }

  /** The record queue takes the frame just captured, or silence. */
  lemma PushRecords(b: Buffers, d: Sound, p: nat, b': Buffers, d': Sound)
    requires Shaped(b, d) && Recording(b, d) && p <= SILENT && Shaped(b', d')
    requires p == SILENT || d.mem[p] == d.input
    requires b' == b.(cb := CbIdle, record := b.record + [p])
    requires d' == d.(heard := d.heard + [d.input], captured := d.captured + [d.input], logged := d.logged + [d.mem[p]])
    ensures Recording(b', d')
  {
    assert Frames(d.mem, b.record + [p]) == Frames(d.mem, b.record) + [d.mem[p]];
    var current := Frames(d.mem, Consuming(b));
    assert d.consumed + current + (Frames(d.mem, b.record) + [d.mem[p]])
        == d.consumed + current + Frames(d.mem, b.record) + [d.mem[p]];
  }

  lemma CallbackEnqSound(s: State, b': Buffers, d': Sound)
    requires SoundInv(s) && s.b.cb.CbEnq? && InRange(b')
    requires b' == s.b.(cb := CbIdle, record := s.b.record + [s.b.cb.p])
    requires d' == s.d.(heard := s.d.heard + [s.d.input], captured := s.d.captured + [s.d.input],
                        logged := s.d.logged + [s.d.mem[s.b.cb.p]])
    ensures Shaped(b', d') && Copying(b', d') && Playing(b', d') && Recording(b', d') && Tallied(b', d')
  {
    hide Playing, Recording, Frames;
    PlayingSame(s.b, s.d, b', d');
    PushRecords(s.b, s.d, s.b.cb.p, b', d');
  }

  /** The record queue gets no node, and the frame just captured is dropped. */
  lemma CallbackMissSound(s: State, b': Buffers, d': Sound)
    requires SoundInv(s) && s.b.cb.CbEnq? && InRange(b') && b' == s.b.(cb := CbIdle, lost := b'.lost)
    requires d' == s.d.(heard := s.d.heard + [s.d.input], missed := s.d.missed + 1)
    ensures Shaped(b', d') && Copying(b', d') && Playing(b', d') && Recording(b', d') && Tallied(b', d')
  {
    hide InRange, Playing, Recording, Frames;
    PlayingSame(s.b, s.d, b', d');
    RecordingSame(s.b, s.d, b', d');
  }

  lemma CallbackRecordsSound(s: State, f: Frame, c: Chance)
    requires Defined(s) && SoundInv(s) && s.b.cb.CbEnq? && InRange(CalledBack(s, f, c).b)
    ensures SoundInv(CalledBack(s, f, c))
  {
    hide InRange, Copying, Playing, Recording, Tallied, Frames, FillPointed, FlushPointed;
    var s' := CalledBack(s, f, c);
    if s'.b.cb.CbEnq? {
      CallbackTakesSound(s, f, c);
    } else if s'.n == s.n {
      CallbackMissSound(s, s'.b, s'.d);
    } else {
      CallbackEnqSound(s, s'.b, s'.d);
    }
  }

  lemma CalledBackSound(s: State, f: Frame, c: Chance)
    requires Defined(s) && Owned(s.b) && SoundInv(s) && InRange(CalledBack(s, f, c).b)
    ensures SoundInv(CalledBack(s, f, c))
  {
    hide Owned, InRange, Copying, Playing, Recording, Tallied, Frames, FillPointed, FlushPointed;
    match s.b.cb
    case CbIdle => CallbackStartSound(s, f, c);
    case CbSilence(i) =>
      if i >= FRAME { CallbackPlaysSound(s, f, c); } else { CallbackCopiesOutSound(s, f, c); }
    case CbCopyOut(_, i) =>
      if i >= FRAME { CallbackPlaysSound(s, f, c); } else { CallbackCopiesOutSound(s, f, c); }
    case CbCopyIn(_, i) =>
      if i >= FRAME { CallbackCopiedInSound(s, f, c); } else { CallbackCopiesInSound(s, f, c); }
    case CbEnq(_, _) => CallbackRecordsSound(s, f, c);
    case CbTake(_) => CallbackTakesSound(s, f, c);
    case _ => CallbackGivesSound(s, f, c);
  }

  // ---------- the flush thread ----------

  lemma PopRecords(b: Buffers, d: Sound, b': Buffers)
    requires Shaped(b, d) && Recording(b, d) && b.flush.FlLoop? && b.record != []
    requires b' == b.(flush := FlFree(b.record[0], AtRead), record := b.record[1..]) && Shaped(b', d)
    ensures Recording(b', d)
  {
    var f, q := d.mem[b.record[0]], Frames(d.mem, b'.record);
    assert Frames(d.mem, b.record) == [f] + q;
    assert d.consumed + [] + ([f] + q) == d.consumed + [f] + q;
  }

  lemma ConsumeRecords(b: Buffers, d: Sound, b': Buffers, d': Sound)
    requires Shaped(b, d) && Recording(b, d) && b.flush.FlConsume?
    requires b' == b.(flush := b'.flush) && b'.flush.FlReturn? && Shaped(b', d')
    requires d' == d.(consumed := d.consumed + [d.mem[b.flush.p]])
    ensures Recording(b', d')
  {
    var f, q := d.mem[b.flush.p], Frames(d.mem, b.record);
    assert d.consumed + [f] + q == (d.consumed + [f]) + [] + q;
  }

  lemma FlushPopSound(s: State, b': Buffers)
    requires SoundInv(s) && s.b.flush.FlLoop? && s.b.record != [] && InRange(b')
    requires b' == s.b.(flush := FlFree(s.b.record[0], AtRead), record := s.b.record[1..])
    ensures Shaped(b', s.d) && Copying(b', s.d) && Playing(b', s.d) && Recording(b', s.d) && Tallied(b', s.d)
  {
    hide Playing, Recording, Frames;
    PlayingSame(s.b, s.d, b', s.d);
    PopRecords(s.b, s.d, b');
  }

  lemma FlushConsumeSound(s: State, b': Buffers, d': Sound)
    requires SoundInv(s) && s.b.flush.FlConsume? && b' == s.b.(flush := b'.flush) && b'.flush.FlReturn? && InRange(b')
    requires d' == s.d.(consumed := s.d.consumed + [s.d.mem[s.b.flush.p]])
    ensures Shaped(b', d') && Copying(b', d') && Playing(b', d') && Recording(b', d') && Tallied(b', d')
  {
    hide Playing, Recording, Frames;
    PlayingSame(s.b, s.d, b', d');
    ConsumeRecords(s.b, s.d, b', d');
  }

  lemma FlushPassSound(s: State, stop: bool, c: Chance)
    requires Defined(s) && SoundInv(s) && InRange(Flushed(s, stop, c).b)
    requires s.b.flush.FlLoop? ==> s.stopRecording || s.b.record == []
    requires !s.b.flush.FlConsume?
    ensures SoundInv(Flushed(s, stop, c))
  {
    hide InRange, Playing, Recording, Tallied, Frames, FillPointed, CallbackPointed;
    PassSound(s, Flushed(s, stop, c));
  }

  lemma FlushedSound(s: State, stop: bool, c: Chance)
    requires Defined(s) && SoundInv(s) && InRange(Flushed(s, stop, c).b)
    ensures SoundInv(Flushed(s, stop, c))
  {
    hide InRange, Copying, Playing, Recording, Tallied, Frames, FillPointed, CallbackPointed;
    var s' := Flushed(s, stop, c);
    if s.b.flush.FlConsume? {
      FlushConsumeSound(s, s'.b, s'.d);
    } else if s.b.flush.FlLoop? && !s.stopRecording && s.b.record != [] {
      FlushPopSound(s, s'.b);
    } else {
      FlushPassSound(s, stop, c);
    }
  }

  // ---------- the invariant ----------

  ghost predicate Inv(s: State) {
    Owned(s.b) && NodesInv(s) && Pointed(s) && SoundInv(s)
  }

  lemma InvDefined(s: State)
    requires Inv(s)
    ensures Defined(s)
  {
    hide Owned, NodesOwned, Copying, Playing, Recording, Tallied;
  }

  lemma StepSound(s: State, a: Action)
    requires Defined(s) && Owned(s.b) && SoundInv(s) && Owned(Step(s, a).b)
    ensures SoundInv(Step(s, a))
  {
    OwnedInRange(Step(s, a).b);
    hide Owned, SoundInv, Filled, CalledBack, Flushed;
    match a
    case FillStep(f, stop, c) => FilledSound(s, f, stop, c);
    case CallbackStep(f, c) => CalledBackSound(s, f, c);
    case FlushStep(stop, c) => FlushedSound(s, stop, c);
    case _ => StopSound(s, Step(s, a));
  }

  lemma StopSound(s: State, s': State)
    requires SoundInv(s) && s'.b == s.b && s'.d == s.d
    ensures SoundInv(s')
  {
  }

  lemma StepInv(s: State, a: Action)
    requires Inv(s) && Defined(s) && s.exit == Running
    ensures Inv(Step(s, a))
  {
    hide Owned, NodesInv, SoundInv, Pointed, Step;
    StepOwned(s, a);
    StepNodes(s, a);
    StepPointed(s, a);
    StepSound(s, a);
  }

  lemma InitInv(s: State)
    requires Init(s)
    ensures Inv(s)
  {
    OwnedInRange(s.b);
  }

  lemma NextInv(s: State, s': State)
    requires Inv(s) && Next(s, s')
    ensures Inv(s')
  {
    hide Inv, Step;
    var a :| s' == Step(s, a);
    StepInv(s, a);
  }

  lemma RunStart(run: Run)
    ensures Inv(run[0])
  {
    InitInv(run[0]);
  }

  lemma RunNext(run: Run, k: nat)
    requires 0 < k < |run| && Inv(run[k - 1])
    ensures Inv(run[k])
  {
    hide Inv, Next, Init;
    NextInv(run[k - 1], run[k]);
  }

  /** Every state of every run satisfies the invariant. */
  lemma {:induction false} RunInv(run: Run, k: nat)
    requires k < |run|
    ensures Inv(run[k])
  {
    hide *;
    if k == 0 {
      RunStart(run);
    } else {
      RunInv(run, k - 1);
      RunNext(run, k);
    }
  }

  /** Every step uses only buffers, list entries and nodes that exist. */
  lemma StepsAreDefined(run: Run, k: nat)
    requires k < |run|
    ensures Defined(run[k])
  {
    hide Inv;
    RunInv(run, k);
    InvDefined(run[k]);
  }
}
