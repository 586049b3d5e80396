/** The statistics printed once recording ends: the largest absolute sample
    and the mean absolute sample over the whole record array. */
module Amplitude {
  import opened Sizing

  function Abs(x: int): (r: nat)
    ensures r == x || r == -x
  {
    if x < 0 then -x else x
  }

  /** The running maximum of absolute values, starting from 0 and replaced
      only by a strictly larger value, as the loop computes it. */
  function PeakAmplitude(samples: seq<int>): (peak: nat)
    ensures forall i :: 0 <= i < |samples| ==> Abs(samples[i]) <= peak
    ensures |samples| == 0 ==> peak == 0
    ensures |samples| > 0 ==> exists i :: 0 <= i < |samples| && peak == Abs(samples[i])
    decreases |samples|
  {
    if |samples| == 0 then 0
    else
      var front := samples[..|samples| - 1];
      var peak := PeakAmplitude(front);
      var val := Abs(samples[|samples| - 1]);
      assert forall i :: 0 <= i < |front| ==> front[i] == samples[i];
      if val > peak then val else peak
  }

  /** The running sum of absolute values. */
  function SumAbs(samples: seq<int>): (sum: nat)
    ensures sum == 0 <==> forall i :: 0 <= i < |samples| ==> samples[i] == 0
    decreases |samples|
  {
    if |samples| == 0 then 0
    else
      var front := samples[..|samples| - 1];
      assert forall i :: 0 <= i < |front| ==> front[i] == samples[i];
      SumAbs(front) + Abs(samples[|samples| - 1])
  }

  /** Extending a prefix by one sample is one step of the running maximum. */
  lemma PeakStep(samples: seq<int>, i: nat)
    requires i < |samples|
    ensures PeakAmplitude(samples[..i + 1])
            == if Abs(samples[i]) > PeakAmplitude(samples[..i]) then Abs(samples[i])
               else PeakAmplitude(samples[..i])
  {
    assert samples[..i + 1][..i] == samples[..i];
  }

  /** Extending a prefix by one sample is one step of the running sum. */
  lemma SumStep(samples: seq<int>, i: nat)
    requires i < |samples|
    ensures SumAbs(samples[..i + 1]) == SumAbs(samples[..i]) + Abs(samples[i])
  {
    assert samples[..i + 1][..i] == samples[..i];
  }

  /** The peak is 0 exactly when the record is silent. */
  lemma PeakZeroIffSilent(samples: seq<int>)
    ensures PeakAmplitude(samples) == 0 <==> forall i :: 0 <= i < |samples| ==> samples[i] == 0
  {
    if PeakAmplitude(samples) != 0 {
      var i :| 0 <= i < |samples| && PeakAmplitude(samples) == Abs(samples[i]);
    }
  }

  /** The sum is additive over concatenation, so it does not depend on how
      the record is split into blocks. */
  lemma {:induction false} SumAbsAppend(a: seq<int>, b: seq<int>)
    ensures SumAbs(a + b) == SumAbs(a) + SumAbs(b)
    decreases |b|
  {
    if |b| > 0 {
      var front := b[..|b| - 1];
      assert (a + b)[..|a + b| - 1] == a + front;
      SumAbsAppend(a, front);
    } else {
      assert a + b == a;
    }
  }

  /** The sum never exceeds the peak once per sample, so the mean never
      exceeds the peak. */
  lemma {:induction false} SumAbsBound(samples: seq<int>)
    ensures SumAbs(samples) <= |samples| * PeakAmplitude(samples)
    decreases |samples|
  {
    if |samples| > 0 {
      var front := samples[..|samples| - 1];
      SumAbsBound(front);
      assert forall i :: 0 <= i < |front| ==> front[i] == samples[i];
      BoundStep(SumAbs(front), |front|, PeakAmplitude(front), PeakAmplitude(samples),
                Abs(samples[|samples| - 1]));
    }
  }

  /** One more sample of at most the new peak keeps the sum within the
      sample count times that peak. */
  lemma BoundStep(sum: nat, n: nat, frontPeak: nat, peak: nat, last: nat)
    requires sum <= n * frontPeak && frontPeak <= peak && last <= peak
    ensures sum + last <= (n + 1) * peak
  {
    MulMonotone(frontPeak, peak, n);
    assert (n + 1) * peak == n * peak + peak;
  }

  /** The average as the program computes it: the total divided by the
      sample count. */
  function Mean(total: nat, count: nat): (mean: real)
    requires count > 0
    ensures mean * count as real == total as real
    ensures 0.0 <= mean
  {
    total as real / count as real
  }

  /** A total of at most count * max has a mean of at most max. */
  lemma MeanAtMost(total: nat, count: nat, max: nat)
    requires count > 0 && total <= count * max
    ensures Mean(total, count) <= max as real
  {
    var n, m := count as real, max as real;
    assert (count * max) as real == n * m;
    assert Mean(total, count) <= m by {
      assert (n * m) / n == m;
    }
  }

  /** The measuring loop over the record array: the running maximum and
      the running sum of absolute values. */
  method AccumulateAbs(recorded: seq<int>) returns (max: nat, total: nat)
    ensures max == PeakAmplitude(recorded)
    ensures total == SumAbs(recorded)
  {
    max := 0;
    total := 0;
    var i := 0;
    while i < |recorded|
      invariant 0 <= i <= |recorded|
      invariant max == PeakAmplitude(recorded[..i])
      invariant total == SumAbs(recorded[..i])
    {
      PeakStep(recorded, i);
      SumStep(recorded, i);
      var val := Abs(recorded[i]);
      if val > max {
        max := val;
      }
      total := total + val;
      i := i + 1;
    }
    assert recorded[..i] == recorded;
  }

  /** The statistics as printed: the maximum amplitude, and the mean
      absolute sample. The record array always holds NumSamples > 0
      values, so the division is defined. */
  method MeasureAmplitude(recorded: seq<int>) returns (max: nat, average: real)
    requires |recorded| > 0
    ensures max == PeakAmplitude(recorded)
    ensures average == Mean(SumAbs(recorded), |recorded|)
    ensures 0.0 <= average <= max as real
  {
    var total;
    max, total := AccumulateAbs(recorded);
    average := Mean(total, |recorded|);
    assert average <= max as real by {
      SumAbsBound(recorded);
      MeanAtMost(total, |recorded|, max);
    }
  }

  /** A worked record: samples -3, 1, 4, -1, 5, -9 give a maximum of 9 and
      an average of 23 / 6. */
  lemma SmallRecordStatistics()
    ensures PeakAmplitude([-3, 1, 4, -1, 5, -9]) == 9
    ensures Mean(SumAbs([-3, 1, 4, -1, 5, -9]), 6) == 23.0 / 6.0
  {
    SmallRecordPeak();
    SmallRecordSum();
  }

  lemma SmallRecordPeak()
    ensures PeakAmplitude([-3, 1, 4, -1, 5, -9]) == 9
  {
    var s: seq<int> := [-3, 1, 4, -1, 5, -9];
    assert s[..0] == [] && s[..6] == s;
    PeakStep(s, 0);
    PeakStep(s, 1);
    PeakStep(s, 2);
    PeakStep(s, 3);
    PeakStep(s, 4);
    PeakStep(s, 5);
  }

  lemma SmallRecordSum()
    ensures SumAbs([-3, 1, 4, -1, 5, -9]) == 23
  {
    var s: seq<int> := [-3, 1, 4, -1, 5, -9];
    assert s[..0] == [] && s[..6] == s;
    SumStep(s, 0);
    SumStep(s, 1);
    SumStep(s, 2);
    SumStep(s, 3);
    SumStep(s, 4);
    SumStep(s, 5);
  }

  /** Every value is a 16-bit sample. */
  predicate InShortRange(samples: seq<int>) {
    forall i :: 0 <= i < |samples| ==> SampleMin <= samples[i] <= SampleMax
  }

  /** Conversion of an int to short: two's-complement wrap-around into
      [SampleMin, SampleMax]. */
  function ToShort(x: int): (r: int)
    ensures SampleMin <= r <= SampleMax
    ensures (r - x) % 0x1_0000 == 0
    ensures SampleMin <= x <= SampleMax ==> r == x
  {
    (x - SampleMin) % 0x1_0000 + SampleMin
  }

  /** The abs step as written: the negation is computed in int and stored
      back into the short variable val. */
  function ShortAbs(x: int): (r: int)
    requires SampleMin <= x <= SampleMax
    ensures x != SampleMin ==> r == Abs(x)
    ensures x == SampleMin ==> r == SampleMin
  {
    if x < 0 then ToShort(-x) else x
  }

  /** The maximum as the loop computes it with short values: start at 0 and
      take every strictly larger val. */
  function ShortPeak(samples: seq<int>): (peak: int)
    requires InShortRange(samples)
    ensures 0 <= peak <= SampleMax
    decreases |samples|
  {
    if |samples| == 0 then 0
    else
      var front := samples[..|samples| - 1];
      assert forall i :: 0 <= i < |front| ==> front[i] == samples[i];
      var peak := ShortPeak(front);
      var val := ShortAbs(samples[|samples| - 1]);
      if val > peak then val else peak
  }

  /** The sum as the loop accumulates it from the short values. */
  function ShortSum(samples: seq<int>): (sum: int)
    requires InShortRange(samples)
    ensures sum >= SampleMin * |samples|
    decreases |samples|
  {
    if |samples| == 0 then 0
    else
      var front := samples[..|samples| - 1];
      assert forall i :: 0 <= i < |front| ==> front[i] == samples[i];
      ShortSum(front) + ShortAbs(samples[|samples| - 1])
  }

  /** Away from the most negative sample the short computation agrees with
      the exact one. */
  lemma {:induction false} ShortStatisticsAgree(samples: seq<int>)
    requires InShortRange(samples)
    requires forall i :: 0 <= i < |samples| ==> samples[i] != SampleMin
    ensures ShortPeak(samples) == PeakAmplitude(samples)
    ensures ShortSum(samples) == SumAbs(samples)
    decreases |samples|
  {
    if |samples| > 0 {
      var front := samples[..|samples| - 1];
      assert forall i :: 0 <= i < |front| ==> front[i] == samples[i];
      ShortStatisticsAgree(front);
    }
  }

  /** A record holding one full-scale negative sample: the short negation
      wraps back to -32768, so the reported maximum stays 0 and the sum,
      hence the average, is negative, where the absolute value is 32768. */
  lemma FullScaleNegativeSample()
    ensures ShortPeak([SampleMin]) == 0
    ensures ShortSum([SampleMin]) == SampleMin
    ensures PeakAmplitude([SampleMin]) == SumAbs([SampleMin]) == 32768
  {
    var s: seq<int> := [SampleMin];
    assert s[..0] == [];
  }
}
