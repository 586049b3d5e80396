/** The recording callback: the audio engine calls it with each block of
    input frames, and it copies them into the pre-allocated record array
    (or writes silence when there is no input), advances the frame cursor,
    and tells the engine whether to keep calling. */
module Capture {
  import opened Sizing

  /** What the callback returns to the engine: paContinue or paComplete. */
  datatype Status = Continue | Complete

  /** The input pointer handed to the callback: null, or a block of
      interleaved samples. */
  datatype Input = NoInput | Block(samples: seq<int>)

  /** The callback's user data: the frame cursor, the record capacity in
      frames, and the record array (samples already widened to double,
      which is exact for 16-bit values). */
  datatype RecordData = RecordData(frameIndex: int, maxFrameIndex: int, recordedSamples: seq<int>)
  {
    /** The cursor lies inside the record array, which holds maxFrameIndex
        frames of NumChannels samples each. */
    predicate Valid() {
      && 0 <= frameIndex <= maxFrameIndex
      && |recordedSamples| == maxFrameIndex * NumChannels
    }
  }

  /** The engine delivers framesPerBuffer frames whenever it delivers any. */
  predicate WellSized(input: Input, framesPerBuffer: nat) {
    input.Block? ==> |input.samples| == framesPerBuffer * NumChannels
  }

  function Min(a: int, b: int): (m: int)
    ensures m <= a && m <= b
    ensures m == a || m == b
  {
    if a < b then a else b
  }

  /** The record data as the program sets it up before starting the stream:
      the cursor at 0 and a zero-filled array of TotalFrames frames. */
  function InitialData(): (d: RecordData)
    ensures d.Valid()
    ensures d.frameIndex == 0 && d.maxFrameIndex == TotalFrames
    ensures |d.recordedSamples| == NumSamples
    ensures forall k :: 0 <= k < |d.recordedSamples| ==> d.recordedSamples[k] == Silence
  {
    RecordData(0, TotalFrames, SilentBlock(NumSamples))
  }

  /** framesLeft: the int difference maxFrameIndex - frameIndex stored in an
      unsigned long, so a negative difference wraps around. */
  function FramesLeft(frameIndex: int, maxFrameIndex: int): (left: nat)
    ensures left < ULongModulus
    ensures 0 <= maxFrameIndex - frameIndex < ULongModulus ==> left == maxFrameIndex - frameIndex
    ensures 0 < frameIndex - maxFrameIndex < ULongModulus ==>
              left == ULongModulus - (frameIndex - maxFrameIndex)
  {
    (maxFrameIndex - frameIndex) % ULongModulus
  }

  /** The branch on framesLeft < framesPerBuffer: how many frames this call
      handles, and what it returns. */
  function Schedule(frameIndex: int, maxFrameIndex: int, framesPerBuffer: nat): (r: (nat, Status))
  {
    var framesLeft := FramesLeft(frameIndex, maxFrameIndex);
    if framesLeft < framesPerBuffer then (framesLeft, Complete)
    else (framesPerBuffer, Continue)
  }

  /** With the cursor inside the array, the callback handles the smaller of
      the remaining capacity and the block, and it completes exactly when
      the block does not fit: a block that fills the array exactly still
      continues. */
  lemma ScheduleInRange(frameIndex: int, maxFrameIndex: int, framesPerBuffer: nat)
    requires 0 <= frameIndex <= maxFrameIndex < ULongModulus
    ensures Schedule(frameIndex, maxFrameIndex, framesPerBuffer).0
            == Min(maxFrameIndex - frameIndex, framesPerBuffer)
    ensures Schedule(frameIndex, maxFrameIndex, framesPerBuffer).1 == Complete
            <==> maxFrameIndex - frameIndex < framesPerBuffer
  {
  }

  /** A block that fills the array exactly: that call continues with the
      cursor at the end, and the next call copies no frames, leaves the
      record data as it is and completes. */
  lemma ExactFitCompletesLate(data: RecordData, input: Input, later: Input, framesPerBuffer: nat)
    requires data.Valid() && data.maxFrameIndex < ULongModulus
    requires WellSized(input, framesPerBuffer) && WellSized(later, framesPerBuffer)
    requires 0 < framesPerBuffer == data.maxFrameIndex - data.frameIndex
    ensures var first := Callback(data, input, framesPerBuffer);
            && first.1 == Continue
            && first.0.frameIndex == data.maxFrameIndex
            && Callback(first.0, later, framesPerBuffer) == (first.0, Complete)
  {
    var next := Callback(data, input, framesPerBuffer).0;
    var last := Callback(next, later, framesPerBuffer).0;
    CallbackWrites(next, later, framesPerBuffer);
    assert last.recordedSamples == next.recordedSamples;
  }

  /** The guard does not catch a cursor past the end: the unsigned
      difference is huge, so the call claims a whole block and continues.
      This is why the callback relies on the cursor staying in range. */
  lemma CursorPastEndNotDetected(frameIndex: int, maxFrameIndex: int, framesPerBuffer: nat)
    requires maxFrameIndex < frameIndex
    requires framesPerBuffer + (frameIndex - maxFrameIndex) <= ULongModulus
    ensures Schedule(frameIndex, maxFrameIndex, framesPerBuffer) == (framesPerBuffer, Continue)
  {
  }

  /** count samples of silence. */
  function SilentBlock(count: nat): (w: seq<int>)
    ensures |w| == count
    ensures forall i :: 0 <= i < count ==> w[i] == Silence
  {
    if count == 0 then [] else SilentBlock(count - 1) + [Silence]
  }

  /** The samples a call writes: a block's samples in order, or silence. */
  function Written(input: Input, count: nat): (w: seq<int>)
    requires input.Block? ==> count <= |input.samples|
    ensures |w| == count
  {
    if input.NoInput? then SilentBlock(count) else input.samples[..count]
  }

  /** One call of the recording callback, as a reference definition in
      terms of slices of the record array. */
  function Callback(data: RecordData, input: Input, framesPerBuffer: nat): (r: (RecordData, Status))
    requires data.Valid() && WellSized(input, framesPerBuffer)
    requires data.maxFrameIndex < ULongModulus
    ensures r.0.Valid()
    ensures r.0.maxFrameIndex == data.maxFrameIndex
    ensures r.0.frameIndex
            == data.frameIndex + Min(data.maxFrameIndex - data.frameIndex, framesPerBuffer)
    ensures r.1 == Complete <==> data.maxFrameIndex - data.frameIndex < framesPerBuffer
  {
    ScheduleInRange(data.frameIndex, data.maxFrameIndex, framesPerBuffer);
    var (framesToCalc, finished) := Schedule(data.frameIndex, data.maxFrameIndex, framesPerBuffer);
    var lo := data.frameIndex * NumChannels;
    var hi := lo + framesToCalc * NumChannels;
    var recorded := data.recordedSamples[..lo]
                    + Written(input, framesToCalc * NumChannels)
                    + data.recordedSamples[hi..];
    (data.(frameIndex := data.frameIndex + framesToCalc, recordedSamples := recorded), finished)
  }

  /** What one call writes: from the old cursor to the new one, silence
      when there is no input and otherwise the block's samples in order;
      every other sample of the record array is left as it was. */
  lemma CallbackWrites(data: RecordData, input: Input, framesPerBuffer: nat)
    requires data.Valid() && WellSized(input, framesPerBuffer)
    requires data.maxFrameIndex < ULongModulus
    ensures var next := Callback(data, input, framesPerBuffer).0;
            var lo, hi := data.frameIndex * NumChannels, next.frameIndex * NumChannels;
            && (input.NoInput? ==>
                  forall k :: lo <= k < hi ==> next.recordedSamples[k] == Silence)
            && (input.Block? ==>
                  forall k :: lo <= k < hi ==> next.recordedSamples[k] == input.samples[k - lo])
            && (forall k :: 0 <= k < |data.recordedSamples| && !(lo <= k < hi) ==>
                  next.recordedSamples[k] == data.recordedSamples[k])
  {
  }

  /** The callback as the program runs it: a write pointer and a read
      pointer stepped one sample at a time. Interleaved frames are
      contiguous, so copying framesToCalc frames of NumChannels samples is
      copying framesToCalc * NumChannels consecutive samples. */
  method RecordCallback(data: RecordData, input: Input, framesPerBuffer: nat)
    returns (next: RecordData, finished: Status)
    requires data.Valid() && WellSized(input, framesPerBuffer)
    requires data.maxFrameIndex < ULongModulus
    ensures (next, finished) == Callback(data, input, framesPerBuffer)
    ensures input.NoInput? ==>
              forall k :: data.frameIndex * NumChannels <= k < next.frameIndex * NumChannels ==>
                next.recordedSamples[k] == Silence
    ensures input.Block? ==>
              forall k :: data.frameIndex * NumChannels <= k < next.frameIndex * NumChannels ==>
                next.recordedSamples[k] == input.samples[k - data.frameIndex * NumChannels]
    ensures forall k :: 0 <= k < |data.recordedSamples| &&
                        !(data.frameIndex * NumChannels <= k < next.frameIndex * NumChannels) ==>
              next.recordedSamples[k] == data.recordedSamples[k]
  {
    ScheduleInRange(data.frameIndex, data.maxFrameIndex, framesPerBuffer);
    var (framesToCalc, status) := Schedule(data.frameIndex, data.maxFrameIndex, framesPerBuffer);
    var lo := data.frameIndex * NumChannels;
    var count := framesToCalc * NumChannels;
    var recorded := data.recordedSamples;
    var i := 0;
    while i < count
      invariant 0 <= i <= count
      invariant |recorded| == |data.recordedSamples|
      invariant forall k :: 0 <= k < |recorded| && !(lo <= k < lo + i) ==>
                  recorded[k] == data.recordedSamples[k]
      invariant forall k :: lo <= k < lo + i ==>
                  recorded[k] == (if input.NoInput? then Silence else input.samples[k - lo])
    {
      if input.NoInput? {
        recorded := recorded[lo + i := Silence];
      } else {
        recorded := recorded[lo + i := input.samples[i]];
      }
      i := i + 1;
    }
    next := data.(frameIndex := data.frameIndex + framesToCalc, recordedSamples := recorded);
    finished := status;
    var expected := Callback(data, input, framesPerBuffer).0;
    CallbackWrites(data, input, framesPerBuffer);
    assert forall k :: 0 <= k < |recorded| ==> recorded[k] == expected.recordedSamples[k];
    assert recorded == expected.recordedSamples;
    assert next == expected;
  }
}
