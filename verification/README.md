# paex_record_fft: verified model of the recorder's sequential core

`paex_record_fft.cc` records one second of mono 16-bit audio through a
PortAudio input stream. Its callback `recordCallback` copies each block of
input frames into a pre-allocated record array. While the stream is active,
the main loop runs an FFTW half-complex transform of that array. It converts
the first `NUM_BINS` output values to decibels and reports the bin that
`std::max_element` picks. When recording ends, the program prints the
largest absolute sample and the mean absolute sample.

This project models the sequential logic of that program in Dafny:

- `sizing.dfy` (module `Sizing`): the compile-time macros (sample rate,
  buffer size, record size, bin counts, the silence value of the `paInt16`
  format).
- `capture.dfy` (module `Capture`): `recordCallback`.
  - The `unsigned long` computation of `framesLeft`, written out as a
    difference modulo 2^64.
  - The completion branch.
  - The silence or copy loop.
  - The cursor advance.
  - `Callback` is a reference definition in terms of slices of the record
    array. `RecordCallback` is the pointer loop the program runs, proved
    equal to it.
- `capture_run.dfy` (module `CaptureRun`): the engine calling the callback
  block after block. It covers where the cursor ends, which call completes,
  and what the record array then holds.
- `spectrum.dfy` (module `Spectrum`):
  - the decibel loop over the transform output, with the conversion itself
    as a function parameter;
  - a value type `Level` that includes minus infinity, because `log10(0)`
    is minus infinity and the program applies no floor;
  - `std::max_element` as a first-maximum argmax;
  - the reported velocity.
- `amplitude.dfy` (module `Amplitude`): the max/average loop, over
  unbounded integers. It also has a model of the loop as written with
  `short` arithmetic (see Findings).

Two behaviours of the program worth knowing:

- The callback reports completion exactly when `framesLeft < framesPerBuffer`.
  - A block that fills the array exactly still returns `paContinue`.
  - Only the following call, which copies nothing, returns `paComplete`.
  - Every call after that also returns `paComplete`.
- No decibel floor is applied: a zero bin gives minus infinity, which
  `max_element` treats as below every finite value.

## Model

| member | source | states |
|---|---|---|
| Sizing.SizingFacts | experiments/portaudio/paex_record_fft.cc:55-63 | The record holds 44100 samples. N_SAMPLES is 11025 and N_BINS is 5511. NUM_BINS is 22049, which lies strictly between 0 and the 44100-slot transform output buffer. |
| Capture.InitialData | experiments/portaudio/paex_record_fft.cc:190-208 | The record data starts valid: cursor 0, capacity TotalFrames, NumSamples samples, all zero. |
| Capture.FramesLeft | experiments/portaudio/paex_record_fft.cc:120 | framesLeft is below 2^64. It equals maxFrameIndex - frameIndex when that is non-negative, and 2^64 minus the overshoot when the cursor is past the end. |
| Capture.ScheduleInRange | experiments/portaudio/paex_record_fft.cc:120-136 | Schedule is the branch on framesLeft < framesPerBuffer. With the cursor in range, the call handles min(maxFrameIndex - frameIndex, framesPerBuffer) frames. It completes if and only if fewer than framesPerBuffer frames remain. |
| Capture.CursorPastEndNotDetected | experiments/portaudio/paex_record_fft.cc:120-136 | A cursor past the end makes framesLeft wrap to a huge value, so the call claims a whole block and continues. |
| Capture.ExactFitCompletesLate | experiments/portaudio/paex_record_fft.cc:127-136 | When exactly one block remains, that call fills the array and continues. The next call leaves the record data unchanged and completes. |
| Capture.Callback | experiments/portaudio/paex_record_fft.cc:108-157 | One call keeps the record data valid and keeps the capacity. It advances the cursor by min(remaining, framesPerBuffer) and completes if and only if the block does not fit. |
| Capture.CallbackWrites | experiments/portaudio/paex_record_fft.cc:138-154 | Between the old and new cursor, a call writes silence when there is no input and otherwise the block's samples in order. Every other sample is unchanged. |
| Capture.RecordCallback | experiments/portaudio/paex_record_fft.cc:108-157 | The write/read pointer loop gives exactly the reference result Callback: silence or the input in order inside the written slice, and the old samples everywhere else. |
| CaptureRun.Run | experiments/portaudio/paex_record_fft.cc:108-157 | Any sequence of calls keeps the record data valid, keeps the capacity, never moves the cursor backwards, and yields one status per call. |
| CaptureRun.RunCursor | experiments/portaudio/paex_record_fft.cc:127-154 | After n calls the cursor is min(start + n * framesPerBuffer, maxFrameIndex). |
| CaptureRun.RunStatus | experiments/portaudio/paex_record_fft.cc:127-136 | Call j reports completion if and only if start + (j + 1) * framesPerBuffer exceeds maxFrameIndex. Every earlier call continues. |
| CaptureRun.RunRecords | experiments/portaudio/paex_record_fft.cc:138-154 | After any run, the record array holds the offered stream, in order, from the start cursor to the final cursor. Every sample outside that stretch keeps its old value. |
| CaptureRun.DefaultRecording | experiments/portaudio/paex_record_fft.cc:127-136 | In the program's configuration (cursor 0, 44100 frames, 1024-frame blocks), calls 0-42 continue and every call from 43 on completes. The cursor stops at 44100. |
| CaptureRun.DefaultRecordingHoldsStream | experiments/portaudio/paex_record_fft.cc:138-154 | In that configuration, after 44 calls the record array equals the first 44100 samples of the offered stream. |
| Spectrum.DbSpectrum | experiments/portaudio/paex_record_fft.cc:252-258 | From a 44100-value transform output, the loop yields NUM_BINS values. Each one is the conversion of the output value at the same index, and every read stays inside the buffer. |
| Spectrum.LessIsStrictTotalOrder | experiments/portaudio/paex_record_fft.cc:259-260 | The comparison max_element uses on decibel values (with minus infinity) is irreflexive, transitive and total on distinct values. |
| Spectrum.MaxElement | experiments/portaudio/paex_record_fft.cc:259-262 | On a non-empty spectrum, the returned distance p is in range, no value exceeds s[p], and every value before p is strictly below it. An empty range yields 0. |
| Spectrum.MaxElementIsFirstMax | experiments/portaudio/paex_record_fft.cc:259-262 | An index is the returned one if and only if it is the first maximum. |
| Spectrum.TieGoesToLowerBin | experiments/portaudio/paex_record_fft.cc:259-262 | With equal maxima at bins 3 and 7, bin 3 is reported. |
| Spectrum.Velocity | experiments/portaudio/paex_record_fft.cc:263 | The velocity is minus infinity if and only if the peak value is. |
| Spectrum.VelocityKeepsOrder | experiments/portaudio/paex_record_fft.cc:263 | Scaling by 127 preserves the order of spectrum values in both directions. |
| Spectrum.DetectPeak | experiments/portaudio/paex_record_fft.cc:259-263 | The report names the first-maximum bin and its value, its velocity is that value times 127, and no bin has a larger velocity. |
| Amplitude.PeakAmplitude | experiments/portaudio/paex_record_fft.cc:273-282 | The maximum is at least the absolute value of every sample, equals the absolute value of some sample, and is 0 on an empty record. |
| Amplitude.SumAbs | experiments/portaudio/paex_record_fft.cc:274-284 | The accumulated sum is 0 if and only if every sample is 0. |
| Amplitude.PeakZeroIffSilent | experiments/portaudio/paex_record_fft.cc:273-282 | The maximum is 0 if and only if the record is silent. |
| Amplitude.SumAbsAppend | experiments/portaudio/paex_record_fft.cc:275-284 | The sum of absolute values is additive over concatenation. |
| Amplitude.SumAbsBound | experiments/portaudio/paex_record_fft.cc:273-284 | The sum never exceeds the sample count times the maximum. |
| Amplitude.Mean | experiments/portaudio/paex_record_fft.cc:286 | The average times numSamples gives back the total, and the average is non-negative. |
| Amplitude.MeanAtMost | experiments/portaudio/paex_record_fft.cc:286 | A total of at most count * max has an average of at most max. |
| Amplitude.AccumulateAbs | experiments/portaudio/paex_record_fft.cc:273-284 | The loop's running maximum and running sum equal the maximum and the sum of absolute values over the whole record. |
| Amplitude.MeasureAmplitude | experiments/portaudio/paex_record_fft.cc:272-286 | The printed maximum is the peak absolute sample. The printed average is the sum of absolute values over numSamples, between 0 and the maximum. |
| Amplitude.SmallRecordStatistics | experiments/portaudio/paex_record_fft.cc:273-286 | The record -3, 1, 4, -1, 5, -9 gives a maximum of 9 and an average of 23/6. |
| Amplitude.ToShort | experiments/portaudio/paex_record_fft.cc:277-278 | Storing an int into a short gives a value in [-32768, 32767] congruent to it modulo 2^16, unchanged when already in range. |
| Amplitude.ShortAbs | experiments/portaudio/paex_record_fft.cc:278 | The short abs step equals the absolute value for every sample except -32768, which it maps to -32768. |
| Amplitude.ShortPeak | experiments/portaudio/paex_record_fft.cc:273-282 | The maximum kept in a short lies in [0, 32767]. |
| Amplitude.ShortSum | experiments/portaudio/paex_record_fft.cc:283 | The sum of the short abs values is at least -32768 per sample. |
| Amplitude.ShortStatisticsAgree | experiments/portaudio/paex_record_fft.cc:273-284 | Without a -32768 sample, the short computation gives the exact maximum and sum. |
| Amplitude.FullScaleNegativeSample | experiments/portaudio/paex_record_fft.cc:278 | For the record holding only -32768, the loop as written reports maximum 0 and sum -32768, where the absolute value is 32768. |

## Left out

- PortAudio initialisation, device selection, and stream open/start/close. Also the `Pa_IsStreamActive` poll and the error reporting and exit codes. These are foreign I/O; the engine is the caller of the callback, and `CaptureRun.Run` stands in for it.
- FFTW plan creation and `fftw_execute`: a foreign library. The transform output is an arbitrary sequence of reals given to `Spectrum.DbSpectrum`.
- The decibel conversion `20 * log10(sqrt(x * x)) / SAMPLE_RATE` is floating point, so it is a function parameter of `Spectrum.DbSpectrum`. Only the fact that it can yield minus infinity is modelled, through `Level`.
- Spectrum values are exact reals, not doubles. NaN cannot occur: `sqrt(x * x)` is never negative.
- The `frameIndex = 0` reset in the poll loop (line 247) races with the callback; unsynchronised concurrency is not modelled. `CaptureRun` covers calls on one cursor with no reset in between.
- Printing, gnuplot, and the raw-file dump compiled out by `WRITE_TO_FILE`: output only.
- The per-frame `NUM_CHANNELS == 2` branch of the copy loops. Interleaved frames are contiguous, so the model copies `framesToCalc * NUM_CHANNELS` consecutive samples. This is the same effect for one channel or two.
- The record array holds doubles. Samples are modelled as integers, which doubles represent exactly at 16 bits.
- Capture.Callback: frameIndex and maxFrameIndex are unbounded integers, not 32-bit `int`s. The callback requires `maxFrameIndex < 2^64`, so only the unsigned-long wrap of `framesLeft` is written out. The record has 44100 frames, far below every width limit.
- CaptureRun.Run: calls keep coming after a call returns `paComplete`, whereas the engine stops calling then. Only the prefix up to the first completion matches what the engine does; the later statuses show that the callback would keep reporting completion.
- Amplitude.Mean: the average is an exact real quotient, without the rounding of the double division.
- Amplitude.MeasureAmplitude: uses the exact absolute value, per the finding below. Its maximum can be 32768, which the `short` variable `max` of the source cannot hold.

## Findings

| source | as written | input that shows it | evidently intended | confidence | as-written member | corrected member |
|---|---|---|---|---|---|---|
| experiments/portaudio/paex_record_fft.cc:278 | `val = -val` stores the negation back into a `short`, so -32768 wraps to -32768 | a record holding the sample -32768: the loop reports maximum 0 and adds -32768 to the average | the absolute value 32768 counts towards both the maximum and the average | medium, not executed | Amplitude.FullScaleNegativeSample | Amplitude.MeasureAmplitude |
