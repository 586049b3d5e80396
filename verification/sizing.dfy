/** Compile-time configuration of the recorder: sample rate, buffer and
    record sizes, the number of usable spectrum bins, and the sample format
    (16-bit integers, whose silence value is 0). */
module Sizing {

  /** Frames per second requested from the input stream. */
  const SampleRate: nat := 44100

  /** Frames the audio engine hands to each callback. */
  const FramesPerBuffer: nat := 1024

  const MaxBpm: nat := 120

  /** Analysis length derived from MaxBpm (integer division throughout);
      it is only ever printed. */
  const BeatSamples: nat := SampleRate / (MaxBpm / 60 * 2)
  const BeatBins: int := BeatSamples / 2 - 1

  const NumSeconds: nat := 1
  const NumChannels: nat := 1

  /** Frames in the record array (maxFrameIndex). */
  const TotalFrames: nat := NumSeconds * SampleRate

  /** Samples in the record array, which is also the FFT size and the
      length of the FFT output buffer. */
  const NumSamples: nat := NumSeconds * SampleRate * NumChannels

  /** Spectrum bins read after each transform. */
  const NumBins: int := NumSamples / 2 - 1

  /** SAMPLE_SILENCE of the 16-bit integer format. */
  const Silence: int := 0

  /** Range of the sample type (short). */
  const SampleMin: int := -32768
  const SampleMax: int := 32767

  /** 2^64: unsigned long arithmetic wraps modulo this. */
  const ULongModulus: nat := 0x1_0000_0000_0000_0000

  /** Multiplying by a natural number keeps the order. */
  lemma MulMonotone(a: nat, b: nat, c: nat)
    requires a <= b
    ensures a * c <= b * c
  {
  }

  /** The sizes the program prints at start-up, and the fact the spectrum
      loop depends on: every bin index lies inside the FFT output buffer. */
  lemma SizingFacts()
    ensures TotalFrames * NumChannels == NumSamples == 44100
    ensures BeatSamples == 11025 && BeatBins == 5511
    ensures NumBins == 22049
    ensures 0 < NumBins < NumSamples
  {
  }
}
