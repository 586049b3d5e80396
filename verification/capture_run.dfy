/** Successive calls of the recording callback, as the audio engine makes
    them one block at a time: when the record array fills, where the
    samples land, and which call reports completion. */
module CaptureRun {
  import opened Sizing
  import opened Capture

  /** Every block the engine delivers has the configured length. */
  predicate AllWellSized(inputs: seq<Input>, framesPerBuffer: nat) {
    forall j :: 0 <= j < |inputs| ==> WellSized(inputs[j], framesPerBuffer)
  }

  /** The callback applied to each input in turn: the final record data and
      the status each call returned. */
  function Run(data: RecordData, inputs: seq<Input>, framesPerBuffer: nat): (r: (RecordData, seq<Status>))
    requires data.Valid() && data.maxFrameIndex < ULongModulus
    requires AllWellSized(inputs, framesPerBuffer)
    ensures r.0.Valid() && r.0.maxFrameIndex == data.maxFrameIndex
    ensures r.0.frameIndex >= data.frameIndex
    ensures |r.1| == |inputs|
    decreases |inputs|
  {
    if |inputs| == 0 then (data, [])
    else
      var step := Callback(data, inputs[0], framesPerBuffer);
      var later := Run(step.0, inputs[1..], framesPerBuffer);
      (later.0, [step.1] + later.1)
  }

  /** The sample stream the engine offers: each block's samples, or a
      block's worth of silence for a call without input. */
  function Stream(inputs: seq<Input>, framesPerBuffer: nat): (s: seq<int>)
    requires AllWellSized(inputs, framesPerBuffer)
    decreases |inputs|
  {
    if |inputs| == 0 then []
    else Written(inputs[0], framesPerBuffer * NumChannels) + Stream(inputs[1..], framesPerBuffer)
  }

  /** After n calls the cursor has advanced by n blocks, capped at the end
      of the record array. */
  lemma {:induction false} RunCursor(data: RecordData, inputs: seq<Input>, framesPerBuffer: nat)
    requires data.Valid() && data.maxFrameIndex < ULongModulus
    requires AllWellSized(inputs, framesPerBuffer)
    ensures Run(data, inputs, framesPerBuffer).0.frameIndex
            == Min(data.frameIndex + |inputs| * framesPerBuffer, data.maxFrameIndex)
    decreases |inputs|
  {
    if |inputs| > 0 {
      var next := Callback(data, inputs[0], framesPerBuffer).0;
      RunCursor(next, inputs[1..], framesPerBuffer);
      assert (|inputs| - 1) * framesPerBuffer + framesPerBuffer == |inputs| * framesPerBuffer;
    }
  }

  /** Call j (counting from 0) reports completion exactly when j + 1 blocks
      do not fit in the space the cursor started with: every earlier call
      continues, including one that fills the array to the last frame. */
  lemma {:induction false} RunStatus(data: RecordData, inputs: seq<Input>, framesPerBuffer: nat)
    requires data.Valid() && data.maxFrameIndex < ULongModulus
    requires AllWellSized(inputs, framesPerBuffer)
    ensures forall j :: 0 <= j < |inputs| ==>
              (Run(data, inputs, framesPerBuffer).1[j] == Complete
               <==> data.frameIndex + (j + 1) * framesPerBuffer > data.maxFrameIndex)
    decreases |inputs|
  {
    if |inputs| > 0 {
      var (next, status) := Callback(data, inputs[0], framesPerBuffer);
      var later := Run(next, inputs[1..], framesPerBuffer).1;
      RunStatus(next, inputs[1..], framesPerBuffer);
      StatusShift(Run(data, inputs, framesPerBuffer).1, status, later,
                  data.frameIndex, next.frameIndex, data.maxFrameIndex, framesPerBuffer);
    }
  }

  /** The statuses of a run are the first call's status followed by those
      of the rest of the run, whose block count starts one block later. */
  lemma StatusShift(statuses: seq<Status>, status: Status, later: seq<Status>,
                    frameIndex: int, next: int, maxFrameIndex: int, framesPerBuffer: nat)
    requires statuses == [status] + later
    requires frameIndex <= maxFrameIndex
    requires status == Complete <==> maxFrameIndex - frameIndex < framesPerBuffer
    requires next == frameIndex + Min(maxFrameIndex - frameIndex, framesPerBuffer)
    requires forall i :: 0 <= i < |later| ==>
               (later[i] == Complete <==> next + (i + 1) * framesPerBuffer > maxFrameIndex)
    ensures forall j :: 0 <= j < |statuses| ==>
              (statuses[j] == Complete <==> frameIndex + (j + 1) * framesPerBuffer > maxFrameIndex)
  {
    forall j | 0 <= j < |statuses|
      ensures statuses[j] == Complete <==> frameIndex + (j + 1) * framesPerBuffer > maxFrameIndex
    {
      if j > 0 {
        var i := j - 1;
        assert statuses[j] == later[i];
        SkipOneBlock(frameIndex, next, maxFrameIndex, framesPerBuffer, i);
      }
    }
  }

  /** Counting blocks from the cursor after one call is counting one block
      fewer from the cursor before it. */
  lemma SkipOneBlock(frameIndex: int, next: int, maxFrameIndex: int, framesPerBuffer: nat, i: nat)
    requires frameIndex <= maxFrameIndex
    requires next == frameIndex + Min(maxFrameIndex - frameIndex, framesPerBuffer)
    ensures next + (i + 1) * framesPerBuffer > maxFrameIndex
            <==> frameIndex + (i + 2) * framesPerBuffer > maxFrameIndex
  {
    assert (i + 2) * framesPerBuffer == (i + 1) * framesPerBuffer + framesPerBuffer;
    if maxFrameIndex - frameIndex < framesPerBuffer {
      assert (i + 1) * framesPerBuffer >= framesPerBuffer by {
        MulMonotone(1, i + 1, framesPerBuffer);
      }
    }
  }

  /** a holds block from index lo up to index hi: a[lo..hi] is a prefix
      of block. */
  predicate Holds(a: seq<int>, block: seq<int>, lo: int, hi: int) {
    && 0 <= lo <= hi <= |a|
    && hi - lo <= |block|
    && forall k :: lo <= k < hi ==> a[k] == block[k - lo]
  }

  /** a agrees with b everywhere outside [lo, hi). */
  predicate Keeps(a: seq<int>, b: seq<int>, lo: int, hi: int) {
    && |a| == |b|
    && forall k :: 0 <= k < |b| && !(lo <= k < hi) ==> a[k] == b[k]
  }

  /** One call writes its block of the stream at the cursor, and it takes
      less than a whole block only when that fills the array. */
  lemma FirstCall(data: RecordData, input: Input, framesPerBuffer: nat, next: RecordData, block: seq<int>)
    requires data.Valid() && data.maxFrameIndex < ULongModulus
    requires WellSized(input, framesPerBuffer)
    requires next == Callback(data, input, framesPerBuffer).0
    requires block == Written(input, framesPerBuffer * NumChannels)
    ensures next.frameIndex < data.maxFrameIndex ==>
              next.frameIndex * NumChannels - data.frameIndex * NumChannels == |block|
    ensures Holds(next.recordedSamples, block, data.frameIndex * NumChannels, next.frameIndex * NumChannels)
    ensures Keeps(next.recordedSamples, data.recordedSamples,
                  data.frameIndex * NumChannels, next.frameIndex * NumChannels)
  {
    CallbackWrites(data, input, framesPerBuffer);
  }

  /** Run and Stream unfold by one call. */
  lemma RunUnfold(data: RecordData, inputs: seq<Input>, framesPerBuffer: nat)
    requires data.Valid() && data.maxFrameIndex < ULongModulus
    requires AllWellSized(inputs, framesPerBuffer) && |inputs| > 0
    ensures var next := Callback(data, inputs[0], framesPerBuffer).0;
            && Run(data, inputs, framesPerBuffer).0 == Run(next, inputs[1..], framesPerBuffer).0
            && Stream(inputs, framesPerBuffer)
               == Written(inputs[0], framesPerBuffer * NumChannels) + Stream(inputs[1..], framesPerBuffer)
  {
  }

  /** The record array ends up holding the offered stream, in order, from
      the starting cursor up to the final cursor, and every sample outside
      that stretch keeps its old value. */
  lemma {:induction false} RunRecords(data: RecordData, inputs: seq<Input>, framesPerBuffer: nat)
    requires data.Valid() && data.maxFrameIndex < ULongModulus
    requires AllWellSized(inputs, framesPerBuffer)
    ensures var last := Run(data, inputs, framesPerBuffer).0;
            Holds(last.recordedSamples, Stream(inputs, framesPerBuffer),
                  data.frameIndex * NumChannels, last.frameIndex * NumChannels)
    ensures var last := Run(data, inputs, framesPerBuffer).0;
            Keeps(last.recordedSamples, data.recordedSamples,
                  data.frameIndex * NumChannels, last.frameIndex * NumChannels)
    decreases |inputs|
  {
    if |inputs| > 0 {
      var next := Callback(data, inputs[0], framesPerBuffer).0;
      var last := Run(next, inputs[1..], framesPerBuffer).0;
      var first := Written(inputs[0], framesPerBuffer * NumChannels);
      RunUnfold(data, inputs, framesPerBuffer);
      FirstCall(data, inputs[0], framesPerBuffer, next, first);
      RunRecords(next, inputs[1..], framesPerBuffer);
      Splice(data.recordedSamples, next.recordedSamples, last.recordedSamples,
             first, Stream(inputs[1..], framesPerBuffer),
             data.frameIndex * NumChannels, next.frameIndex * NumChannels,
             last.frameIndex * NumChannels);
    } else {
      assert Run(data, inputs, framesPerBuffer).0 == data;
    }
  }

  /** Two consecutive writes, one block and then the rest of a stream,
      leave the whole stream in place, and the stretch they cover together
      is the only one changed. */
  lemma Splice(before: seq<int>, next: seq<int>, last: seq<int>, first: seq<int>, rest: seq<int>,
               lo: int, mid: int, hi: int)
    requires Holds(next, first, lo, mid) && Keeps(next, before, lo, mid)
    requires Holds(last, rest, mid, hi) && Keeps(last, next, mid, hi)
    requires mid < hi ==> mid - lo == |first|
    ensures Holds(last, first + rest, lo, hi)
    ensures Keeps(last, before, lo, hi)
  {
    var stream := first + rest;
    forall k | lo <= k < hi
      ensures last[k] == stream[k - lo]
    {
      if k < mid {
        assert last[k] == next[k];
      } else {
        assert stream[k - lo] == rest[k - mid];
      }
    }
  }

  /** The program's configuration: from the zero-filled array with the
      cursor at 0, calls 0 to 42 each take a whole 1024-frame block and
      continue, and call 43 takes the last 68 frames and completes. */
  lemma DefaultRecording(inputs: seq<Input>)
    requires AllWellSized(inputs, FramesPerBuffer)
    ensures forall j :: 0 <= j < |inputs| ==>
              (Run(InitialData(), inputs, FramesPerBuffer).1[j] == Complete <==> j >= 43)
    ensures |inputs| >= 44 ==> Run(InitialData(), inputs, FramesPerBuffer).0.frameIndex == TotalFrames
    ensures |inputs| <= 43 ==>
              Run(InitialData(), inputs, FramesPerBuffer).0.frameIndex == |inputs| * FramesPerBuffer
  {
    RunStatus(InitialData(), inputs, FramesPerBuffer);
    RunCursor(InitialData(), inputs, FramesPerBuffer);
  }

  /** Once 44 calls have been made in the program's configuration, the
      record array is exactly the first NumSamples samples of the stream. */
  lemma DefaultRecordingHoldsStream(inputs: seq<Input>)
    requires AllWellSized(inputs, FramesPerBuffer) && |inputs| >= 44
    ensures |Stream(inputs, FramesPerBuffer)| >= NumSamples
    ensures Run(InitialData(), inputs, FramesPerBuffer).0.recordedSamples
            == Stream(inputs, FramesPerBuffer)[..NumSamples]
  {
    var last := Run(InitialData(), inputs, FramesPerBuffer).0;
    var stream := Stream(inputs, FramesPerBuffer);
    RunCursor(InitialData(), inputs, FramesPerBuffer);
    RunRecords(InitialData(), inputs, FramesPerBuffer);
    assert Holds(last.recordedSamples, stream, 0, NumSamples);
    assert forall k :: 0 <= k < NumSamples ==> last.recordedSamples[k] == stream[..NumSamples][k];
  }
}
