/** Post-processing of each transform: the decibel spectrum over the usable
    bins, and the peak bin chosen the way std::max_element chooses it. */
module Spectrum {
  import opened Sizing

  /** A spectrum value as the decibel conversion can produce it: log10 of a
      zero bin is minus infinity, every other bin is a finite double. */
  datatype Level = NegInfinity | Finite(value: real)

  /** The comparison max_element uses (operator< on doubles). */
  predicate Less(a: Level, b: Level) {
    match a
    case NegInfinity => b.Finite?
    case Finite(x) => b.Finite? && x < b.value
  }

  /** Less is a strict total order: irreflexive, transitive, and any two
      distinct values are comparable. */
  lemma LessIsStrictTotalOrder(a: Level, b: Level, c: Level)
    ensures !Less(a, a)
    ensures Less(a, b) && Less(b, c) ==> Less(a, c)
    ensures a != b ==> Less(a, b) || Less(b, a)
  {
  }

  /** The reported velocity: the peak value times 127 (minus infinity
      stays minus infinity). */
  function Velocity(level: Level): (v: Level)
    ensures v.NegInfinity? <==> level.NegInfinity?
  {
    match level
    case NegInfinity => NegInfinity
    case Finite(x) => Finite(x * 127.0)
  }

  /** Scaling by 127 keeps the order of spectrum values, so the peak value
      also has the largest velocity. */
  lemma VelocityKeepsOrder(a: Level, b: Level)
    ensures Less(a, b) <==> Less(Velocity(a), Velocity(b))
  {
  }

  /** The spectrum loop: bin i is the decibel value of fftwOutput[i] alone,
      for each of the NumBins usable bins. The conversion
      20 * log10(sqrt(x * x)) / SampleRate is floating point and is taken as
      a given function. The output buffer holds NumSamples values, and
      NumBins < NumSamples keeps every read inside it. */
  method DbSpectrum(fftwOutput: seq<real>, toDb: real -> Level) returns (db: seq<Level>)
    requires |fftwOutput| == NumSamples
    ensures |db| == NumBins
    ensures forall i :: 0 <= i < |db| ==> db[i] == toDb(fftwOutput[i])
  {
    db := [];
    var i := 0;
    while i < NumBins
      invariant 0 <= i <= NumBins
      invariant |db| == i
      invariant forall j :: 0 <= j < i ==> db[j] == toDb(fftwOutput[j])
    {
      db := db + [toDb(fftwOutput[i])];
      i := i + 1;
    }
  }

  /** p is where max_element stops on a non-empty range: no value exceeds
      s[p], and every value before p is strictly below it. */
  ghost predicate IsFirstMax(s: seq<Level>, p: int) {
    && 0 <= p < |s|
    && (forall j :: 0 <= j < |s| ==> !Less(s[p], s[j]))
    && (forall j :: 0 <= j < p ==> Less(s[j], s[p]))
  }

  /** The index std::max_element returns, as a distance from the start: a
      scan from the left that moves only to a strictly larger value. An
      empty range yields its end, which is index 0. */
  function MaxElement(s: seq<Level>): (p: nat)
    ensures |s| == 0 ==> p == 0
    ensures |s| > 0 ==> IsFirstMax(s, p)
    decreases |s|
  {
    if |s| <= 1 then 0
    else
      var front := s[..|s| - 1];
      var p := MaxElement(front);
      assert forall j :: 0 <= j < |front| ==> front[j] == s[j];
      if Less(s[p], s[|s| - 1]) then
        assert forall j :: 0 <= j < |s| - 1 ==> Less(s[j], s[|s| - 1]) by {
          forall j | 0 <= j < |s| - 1 {
            LessIsStrictTotalOrder(s[j], s[p], s[|s| - 1]);
          }
        }
        |s| - 1
      else
        p
  }

  /** At most one index is a first maximum. */
  lemma FirstMaxUnique(s: seq<Level>, p: int, q: int)
    requires IsFirstMax(s, p) && IsFirstMax(s, q)
    ensures p == q
  {
    var atP, atQ := s[p], s[q];
  }

  /** MaxElement is characterised by the first-maximum property: an index
      is the one it returns exactly when that index is a first maximum. */
  lemma MaxElementIsFirstMax(s: seq<Level>, p: int)
    requires |s| > 0
    ensures p == MaxElement(s) <==> IsFirstMax(s, p)
  {
    if IsFirstMax(s, p) {
      FirstMaxUnique(s, p, MaxElement(s));
    }
  }

  /** Ties go to the lower bin: two equal maxima at bins 3 and 7 report 3. */
  lemma TieGoesToLowerBin(s: seq<Level>)
    requires |s| > 7 && s[3] == s[7]
    requires forall j :: 0 <= j < |s| && j != 3 && j != 7 ==> Less(s[j], s[3])
    ensures MaxElement(s) == 3
  {
    forall j | 0 <= j < |s|
      ensures !Less(s[3], s[j])
    {
      LessIsStrictTotalOrder(s[j], s[3], s[j]);
    }
    MaxElementIsFirstMax(s, 3);
  }

  /** What the program reports for one transform: the peak bin (printed as
      a frequency in Hz), and its value times 127 as the velocity. */
  datatype PeakReport = PeakReport(bin: nat, level: Level, velocity: Level)

  function DetectPeak(db: seq<Level>): (r: PeakReport)
    requires |db| > 0
    ensures IsFirstMax(db, r.bin)
    ensures r.level == db[r.bin]
    ensures r.velocity == Velocity(r.level)
    ensures forall j :: 0 <= j < |db| ==> !Less(r.velocity, Velocity(db[j]))
  {
    var p := MaxElement(db);
    assert forall j :: 0 <= j < |db| ==> !Less(Velocity(db[p]), Velocity(db[j])) by {
      forall j | 0 <= j < |db| {
        VelocityKeepsOrder(db[p], db[j]);
      }
    }
    PeakReport(p, db[p], Velocity(db[p]))
  }
}
