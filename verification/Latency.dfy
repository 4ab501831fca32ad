/**
 The capture-to-playback loop of src/main_latency.c in non-blocking mode without the effect.  What the
 devices answer is a script: any pattern of short transfers, "try again" and errors.  A device whose
 script is used up answers with an error.
 */
module Latency {
  import opened Samples

  const EAGAIN: int := 11
  const EIO: int := 5

  /** A frame of samples; silence is 0. */
  type Frame = int

  datatype Answer = Transfer(n: nat) | Again | Broken

  /** A capture device: the frames still to come and its answers. */
  class Capture {
    var incoming: seq<Frame>
    var script: seq<Answer>
    ghost var captured: seq<Frame>
    ghost var failed: bool

    constructor (incoming: seq<Frame>, script: seq<Answer>)
      ensures this.incoming == incoming && this.script == script && captured == [] && !failed
    {
      this.incoming, this.script, captured, failed := incoming, script, [], false;
    }

    /** snd_pcm_readi: moves at most len frames into the buffer and returns their number, or a negative error. */
    method Readi(buf: array<Frame>, len: nat) returns (r: int)
      requires len <= buf.Length
      modifies this, buf
      ensures r <= len && captured == old(captured) + if r > 0 then buf[..r] else []
      ensures captured + incoming == old(captured) + old(incoming)
      ensures failed == (old(failed) || (r < 0 && r != -EAGAIN))
      ensures if old(script) == [] then script == [] && r == -EIO else script == old(script)[1..]
    {
      if script == [] {
        failed := true;
        return -EIO;
      }
      var answer := script[0];
      script := script[1..];
      match answer
      case Again => r := -EAGAIN;
      case Broken =>
        failed := true;
        r := -EIO;
      case Transfer(n) =>
        var k := if n < len then n else len;
        if k > |incoming| {
          k := |incoming|;
        }
        Deliver(buf, k);
        r := k;
    }

    /** The next k frames arrive in the buffer. */
    method Deliver(buf: array<Frame>, k: nat)
      requires k <= |incoming| && k <= buf.Length
      modifies this`incoming, this`captured, buf
      ensures captured == old(captured) + buf[..k] && captured + incoming == old(captured) + old(incoming)
    {
      for i := 0 to k
        invariant forall j | 0 <= j < i :: buf[j] == incoming[j]
        modifies buf
      {
        buf[i] := incoming[i];
      }
      assert buf[..k] == incoming[..k] && incoming == incoming[..k] + incoming[k..];
      captured, incoming := captured + incoming[..k], incoming[k..];
    }
  }

  /** A playback device: the frames it has taken and its answers. */
  class Playback {
    var script: seq<Answer>
    ghost var played: seq<Frame>
    ghost var failed: bool

    constructor (script: seq<Answer>)
      ensures this.script == script && played == [] && !failed
    {
      this.script, played, failed := script, [], false;
    }

    /** snd_pcm_writei: takes at most the frames from `from` on and returns their number, or a negative error. */
    method Writei(buf: array<Frame>, from: nat, len: nat) returns (r: int)
      requires from + len <= buf.Length
      modifies this
      ensures r <= len && played == old(played) + if r > 0 then buf[from..from + r] else []
      ensures failed == (old(failed) || (r < 0 && r != -EAGAIN))
      ensures if old(script) == [] then script == [] && r == -EIO else script == old(script)[1..]
    {
      if script == [] {
        failed := true;
        return -EIO;
      }
      var answer := script[0];
      script := script[1..];
      match answer
      case Again => r := -EAGAIN;
      case Broken =>
        failed := true;
        r := -EIO;
      case Transfer(n) =>
        r := if n < len then n else len;
        played := played + buf[from..from + r];
    }
  }

  /** readbuf in non-blocking mode: repeats while the device says "try again", then counts what came. */
  method Readbuf(chandle: Capture, buf: array<Frame>, len: nat, frames: nat, max: nat)
    returns (r: int, frames': nat, max': nat)
    requires len <= buf.Length && !chandle.failed
    modifies chandle, buf
    ensures r < 0 <==> chandle.failed
    ensures chandle.captured + chandle.incoming == old(chandle.captured) + old(chandle.incoming)
    ensures r <= len && r != -EAGAIN && |chandle.script| <= |old(chandle.script)|
    ensures chandle.captured == old(chandle.captured) + if r > 0 then buf[..r] else []
    ensures frames' == frames + (if r > 0 then r else 0) && max' == if r > max then r else max
    ensures r >= 0 ==> |chandle.script| < |old(chandle.script)|
  {
    r := chandle.Readi(buf, len);
    while r == -EAGAIN
      invariant r <= len && |chandle.script| <= |old(chandle.script)|
      invariant chandle.failed <==> r < 0 && r != -EAGAIN
      invariant chandle.captured + chandle.incoming == old(chandle.captured) + old(chandle.incoming)
      invariant chandle.captured == old(chandle.captured) + if r > 0 then buf[..r] else []
      invariant r != -EIO ==> |chandle.script| < |old(chandle.script)|
      decreases |chandle.script| + if r == -EAGAIN then 1 else 0
    {
      r := chandle.Readi(buf, len);
    }
    frames', max' := frames, max;
    if r > 0 {
      frames' := frames + r;
      if max < r {
        max' := r;
      }
    }
  }

  /** writebuf: repeats until everything is written or the device fails; what was written is a prefix, counted. */
  method Writebuf(phandle: Playback, buf: array<Frame>, len: nat, frames: nat) returns (r: int, frames': nat)
    requires len <= buf.Length && !phandle.failed
    modifies phandle
    ensures r < 0 <==> phandle.failed
    ensures r <= 0 && frames <= frames' <= frames + len && (r == 0 ==> frames' == frames + len)
    ensures phandle.played == old(phandle.played) + buf[..frames' - frames]
  {
    var at: nat, left: nat := 0, len;
    frames' := frames;
    while left > 0
      invariant at + left == len && frames' == frames + at
      invariant phandle.played == old(phandle.played) + buf[..at] && !phandle.failed
      decreases left + |phandle.script|
    {
      var before := phandle.script;
      r := phandle.Writei(buf, at, left);
      if r == -EAGAIN {
        assert before != [];
        continue;
      }
      if r < 0 {
        return;
      }
      assert buf[..at + r] == buf[..at] + buf[at..at + r];
      at, left, frames' := at + r, left - r, frames' + r;
    }
    return 0, frames';
  }

  /** What the playback device has been given after so many frames came in. */
  ghost predicate InStep(phandle: Playback, chandle: Capture, latency: nat)
    reads phandle, chandle
  {
    phandle.played == Zeros(2 * latency) + chandle.captured
  }

  /** The two buffers of silence that main writes first. */
  method Prefill(phandle: Playback, buffer: array<Frame>, latency: nat) returns (r: int, framesOut: nat)
    requires latency <= buffer.Length && phandle.played == [] && !phandle.failed
    modifies phandle, buffer
    ensures framesOut <= 2 * latency && phandle.played == Zeros(framesOut)
    ensures r <= 0 && (r < 0 <==> phandle.failed) && (r == 0 ==> framesOut == 2 * latency)
  {
    for i := 0 to latency
      invariant buffer[..i] == Zeros(i)
      modifies buffer
    {
      buffer[i] := 0;
      assert buffer[..i + 1] == buffer[..i] + [0];
    }
    r, framesOut := Writebuf(phandle, buffer, latency, 0);
    assert Zeros(latency)[..framesOut] == Zeros(framesOut);
    if r < 0 {
      return;
    }
    r, framesOut := Writebuf(phandle, buffer, latency, framesOut);
    assert Zeros(latency) + Zeros(latency)[..framesOut - latency] == Zeros(framesOut);
  }

  /**
   One round of main's outer loop after the parameters are set: two buffers of silence are written, then
   frames are copied until the limit.  It succeeds exactly when no device fails.  Then the playback stream
   is 2 * latency frames of silence followed by the captured frames in order; after a failure it is a
   front part of that.  The captured frames are a front part of what came in.
   */
  method Transfer(phandle: Playback, chandle: Capture, buffer: array<Frame>, latency: nat, loopLimit: nat)
    returns (ok: bool, framesIn: nat, framesOut: nat)
    requires latency <= buffer.Length && phandle.played == [] && chandle.captured == []
    requires !phandle.failed && !chandle.failed
    modifies phandle, chandle, buffer
    ensures framesIn == |chandle.captured| && framesOut == |phandle.played|
    ensures chandle.captured + chandle.incoming == old(chandle.incoming)
    ensures ok <==> !phandle.failed && !chandle.failed
    ensures phandle.played <= Zeros(2 * latency) + chandle.captured
    ensures ok ==> phandle.played == Zeros(2 * latency) + chandle.captured
    ensures ok ==> framesOut == framesIn + 2 * latency && framesIn >= loopLimit
    ensures if loopLimit == 0 then framesIn == 0 else framesIn < loopLimit + latency
  {
    framesIn, ok := 0, false;
    var r;
    r, framesOut := Prefill(phandle, buffer, latency);
    if r < 0 {
      assert Zeros(framesOut) <= Zeros(2 * latency);
      return;
    }
    ok := true;
    var inMax := 0;
    while ok && framesIn < loopLimit
      invariant framesIn == |chandle.captured| && framesOut == |phandle.played|
      invariant chandle.captured + chandle.incoming == old(chandle.incoming)
      invariant ok <==> !phandle.failed && !chandle.failed
      invariant if loopLimit == 0 then framesIn == 0 else framesIn < loopLimit + latency
      invariant phandle.played <= Zeros(2 * latency) + chandle.captured
      invariant ok ==> InStep(phandle, chandle, latency)
      decreases ok, |chandle.script|
    {
      ghost var captured := chandle.captured;
      r, framesIn, inMax := Readbuf(chandle, buffer, latency, framesIn, inMax);
      if r < 0 {
        ok := false;
      } else {
        var w;
        w, framesOut := Writebuf(phandle, buffer, r, framesOut);
        assert Zeros(2 * latency) + chandle.captured == Zeros(2 * latency) + captured + buffer[..r];
        if w < 0 {
          ok := false;
        }
      }
    }
  }
}
