/** The record-then-play callbacks of src/main_pa.c (one channel), for callbacks of any sizes. */
module PaRecorder {
  import opened Samples

  datatype CallbackResult = PaContinue | PaComplete

  function Min(a: nat, b: nat): nat { if a < b then a else b }

  class TestData {
    var frameIndex: nat
    const maxFrameIndex: nat
    const recordedSamples: array<int>

    ghost predicate Valid()
      reads this
    {
      frameIndex <= maxFrameIndex == recordedSamples.Length
    }

    constructor (maxFrameIndex: nat)
      ensures Valid() && frameIndex == 0 && this.maxFrameIndex == maxFrameIndex && fresh(recordedSamples)
    {
      frameIndex, this.maxFrameIndex := 0, maxFrameIndex;
      recordedSamples := new int[maxFrameIndex];
    }

    /** Stores as many of the samples (or as much silence, for a NULL input) as there is room for. */
    method RecordCallback(inputBuffer: array?<int>, framesPerBuffer: nat) returns (finished: CallbackResult)
      requires Valid()
      requires inputBuffer != null ==> inputBuffer.Length >= framesPerBuffer && inputBuffer != recordedSamples
      modifies this, recordedSamples
      ensures Valid()
      ensures var (samples, done) := Recorded(old(recordedSamples[..frameIndex]), maxFrameIndex,
                                              if inputBuffer == null then Zeros(framesPerBuffer)
                                              else inputBuffer[..framesPerBuffer]);
        recordedSamples[..frameIndex] == samples && finished == done
    {
      var framesLeft := maxFrameIndex - frameIndex;
      var framesToCalc;
      if framesLeft < framesPerBuffer {
        framesToCalc, finished := framesLeft, PaComplete;
      } else {
        framesToCalc, finished := framesPerBuffer, PaContinue;
      }
      ghost var input := if inputBuffer == null then Zeros(framesPerBuffer) else inputBuffer[..framesPerBuffer];
      for i := 0 to framesToCalc
        invariant Valid() && frameIndex == old(frameIndex)
        invariant recordedSamples[..frameIndex + i] == old(recordedSamples[..frameIndex]) + input[..i]
        invariant inputBuffer != null ==> inputBuffer[..framesPerBuffer] == input
        modifies recordedSamples
      {
        recordedSamples[frameIndex + i] := if inputBuffer == null then 0 else inputBuffer[i];
        assert recordedSamples[..frameIndex + i + 1] ==
          recordedSamples[..frameIndex + i] + [recordedSamples[frameIndex + i]];
        assert input[..i + 1] == input[..i] + [input[i]];
      }
      frameIndex := frameIndex + framesToCalc;
    }

    /** Plays the next samples and fills the rest of the output with zeros. */
    method PlayCallback(outputBuffer: array<int>, framesPerBuffer: nat) returns (finished: CallbackResult)
      requires Valid() && outputBuffer.Length >= framesPerBuffer && outputBuffer != recordedSamples
      modifies this, outputBuffer
      ensures Valid()
      ensures var (output, next, done) := Played(recordedSamples[..], old(frameIndex), framesPerBuffer);
        outputBuffer[..framesPerBuffer] == output && frameIndex == next && finished == done
    {
      var framesLeft := maxFrameIndex - frameIndex;
      var n := if framesLeft < framesPerBuffer then framesLeft else framesPerBuffer;
      for i := 0 to n
        invariant outputBuffer[..i] == recordedSamples[frameIndex..frameIndex + i]
        modifies outputBuffer
      {
        outputBuffer[i] := recordedSamples[frameIndex + i];
        assert outputBuffer[..i + 1] == outputBuffer[..i] + [outputBuffer[i]];
      }
      for i := n to framesPerBuffer
        invariant outputBuffer[..i] == recordedSamples[frameIndex..frameIndex + n] + Zeros(i - n)
        modifies outputBuffer
      {
        outputBuffer[i] := 0;
        assert outputBuffer[..i + 1] == outputBuffer[..i] + [0];
      }
      frameIndex := frameIndex + n;
      finished := if framesLeft < framesPerBuffer then PaComplete else PaContinue;
    }
  }

  /** The samples held after a recording callback, and whether it was the last. */
  function Recorded(samples: seq<int>, max: nat, input: seq<int>): (seq<int>, CallbackResult)
    requires |samples| <= max
  {
    (samples + input[..Min(max - |samples|, |input|)], if max - |samples| < |input| then PaComplete else PaContinue)
  }

  /** The output of a playing callback, the next index, and whether it was the last. */
  function Played(samples: seq<int>, index: nat, n: nat): (seq<int>, nat, CallbackResult)
    requires index <= |samples|
  {
    var k := Min(|samples| - index, n);
    (samples[index..index + k] + Zeros(n - k), index + k, if |samples| - index < n then PaComplete else PaContinue)
  }

  // ---------- whole streams ----------

  function Flatten(chunks: seq<seq<int>>): seq<int> {
    if chunks == [] then [] else Flatten(chunks[..|chunks| - 1]) + chunks[|chunks| - 1]
  }

  /** The samples held after callbacks with these inputs, and the answer of the last one. */
  function RecordAll(max: nat, inputs: seq<seq<int>>): (r: (seq<int>, CallbackResult))
    ensures |r.0| <= max
  {
    if inputs == [] then ([], PaContinue)
    else Recorded(RecordAll(max, inputs[..|inputs| - 1]).0, max, inputs[|inputs| - 1])
  }

  /** The outputs of callbacks of these sizes from index 0 on, the index after them, and the answer of the last one. */
  function PlayAll(samples: seq<int>, sizes: seq<nat>): (r: (seq<int>, nat, CallbackResult))
    ensures r.1 <= |samples|
  {
    if sizes == [] then ([], 0, PaContinue)
    else
      var before := PlayAll(samples, sizes[..|sizes| - 1]);
      var now := Played(samples, before.1, sizes[|sizes| - 1]);
      (before.0 + now.0, now.1, now.2)
  }

  /**
   Recording keeps the front of the input stream, however it is cut; it answers complete exactly when a sample
   did not fit.
   */
  lemma {:induction false} RecordsPrefix(max: nat, inputs: seq<seq<int>>)
    ensures RecordAll(max, inputs).0 == Flatten(inputs)[..Min(max, |Flatten(inputs)|)]
    ensures RecordAll(max, inputs).1 == PaComplete <==>
      inputs != [] && inputs[|inputs| - 1] != [] && |Flatten(inputs)| > max
  {
    if inputs != [] {
      var n := |inputs| - 1;
      RecordsPrefix(max, inputs[..n]);
      var before, last := Flatten(inputs[..n]), inputs[n];
      assert Flatten(inputs) == before + last;
      if |before| <= max {
        assert (before + last)[..Min(max, |before + last|)] == before + last[..Min(max - |before|, |last|)];
      }
    }
  }

  function Total(sizes: seq<nat>): nat {
    if sizes == [] then 0 else Total(sizes[..|sizes| - 1]) + sizes[|sizes| - 1]
  }

  /** Playing gives the samples in order, then only zeros, however the output is cut. */
  lemma {:induction false} PlaysThenZeros(samples: seq<int>, sizes: seq<nat>)
    ensures var k := Min(|samples|, Total(sizes));
      PlayAll(samples, sizes).0 == samples[..k] + Zeros(Total(sizes) - k) && PlayAll(samples, sizes).1 == k
  {
    if sizes != [] {
      var n := |sizes| - 1;
      PlaysThenZeros(samples, sizes[..n]);
      var before, size := Total(sizes[..n]), sizes[n];
      var j, k := Min(|samples|, before), Min(|samples|, before + size);
      var now := Played(samples, j, size);
      assert now == (samples[j..k] + Zeros(size - (k - j)), k, now.2);
      var output := samples[..j] + Zeros(before - j) + (samples[j..k] + Zeros(size - (k - j)));
      assert PlayAll(samples, sizes) == (output, k, now.2);
      assert output == samples[..k] + Zeros(before + size - k);
    } else {
      assert samples[..0] + Zeros(0) == [];
    }
  }

  /** Playing answers complete exactly when a sample was missing. */
  lemma PlayingEnds(samples: seq<int>, sizes: seq<nat>)
    ensures PlayAll(samples, sizes).2 == PaComplete <==>
      sizes != [] && sizes[|sizes| - 1] > 0 && Total(sizes) > |samples|
  {
    if sizes != [] {
      PlaysThenZeros(samples, sizes[..|sizes| - 1]);
    }
  }

  /**
   Recording until paComplete with any callbacks, then playing with any others, plays exactly the
   first max samples of the input in order, followed only by zeros.
   */
  lemma RecordThenPlay(max: nat, inputs: seq<seq<int>>, sizes: seq<nat>)
    requires RecordAll(max, inputs).1 == PaComplete
    ensures var k := Min(max, Total(sizes));
      |Flatten(inputs)| > max
        && PlayAll(RecordAll(max, inputs).0, sizes).0 == Flatten(inputs)[..k] + Zeros(Total(sizes) - k)
  {
    RecordsPrefix(max, inputs);
    PlaysThenZeros(RecordAll(max, inputs).0, sizes);
  }
}
