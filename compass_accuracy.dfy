/**
 * The compass stability check of components/compassAccuracy.tsx: a throttled history of the
 * last ten rounded headings, analysed once it holds five, by the average minor-arc change
 * between consecutive readings; and the reset done when the user finishes calibrating.
 */
module CompassAccuracy {
  import opened SolatTypes

  /** Number of readings kept for the stability analysis. */
  const ReadingHistorySize: nat := 10
  /** Readings needed before the history is analysed. */
  const MinReadings: nat := 5
  /** Average variation (degrees) above which calibration is asked for. */
  const VariationThreshold: int := 15
  /** Minimum time between two accepted samples, in milliseconds. */
  const ThrottleMs: int := 200

  datatype Confidence = High | Medium | Low

  /**
   * The outcome of one analysis: the new `isCalibrationNeeded`, the new confidence, and the
   * reading passed to `updateReading`, if any.
   */
  datatype Verdict = Verdict(calibrationNeeded: bool, confidence: Confidence, surfaced: Option<int>)

  function Abs(x: int): nat {
    if x < 0 then -x else x
  }

  /** `Math.round` on a heading: the nearest integer, halves rounded up. */
  function Round(alpha: real): (r: int)
    ensures alpha - 0.5 < r as real <= alpha + 0.5
  {
    (alpha + 0.5).Floor
  }

  /** A heading in [0, 360) rounds into [0, 360]. */
  lemma RoundHeading(alpha: real)
    requires 0.0 <= alpha < 360.0
    ensures 0 <= Round(alpha) <= 360
  {
  }

  /** `history.slice(-10)`: the last ten entries, or all of them when there are fewer. */
  function KeepLast(history: seq<int>): (r: seq<int>)
    ensures |r| == if |history| > ReadingHistorySize then ReadingHistorySize else |history|
    ensures r == history[|history| - |r|..]
  {
    if |history| > ReadingHistorySize then history[|history| - ReadingHistorySize..] else history
  }

  /**
   * Appending a reading to a history of at most ten keeps at most ten, ends with the new
   * reading, and evicts the oldest one only when the history was full.
   */
  lemma AppendEvictsOldest(history: seq<int>, x: int)
    requires |history| <= ReadingHistorySize
    ensures var r := KeepLast(history + [x]);
            && |r| <= ReadingHistorySize
            && r[|r| - 1] == x
            && (|history| < ReadingHistorySize ==> r == history + [x])
            && (|history| == ReadingHistorySize ==> r == history[1..] + [x])
  {
  }

  /** The change between two headings along the shorter arc (0/360 wrap-around handled). */
  function MinorArc(a: int, b: int): int {
    var diff := Abs(a - b);
    if diff > 180 then 360 - diff else diff
  }

  /**
   * For headings in [0, 360], the minor arc is the smaller of the two turning distances
   * modulo 360, so it lies in [0, 180] and does not depend on the order of the headings.
   */
  lemma MinorArcIsShorterTurn(a: int, b: int)
    requires 0 <= a <= 360 && 0 <= b <= 360
    ensures var cw, ccw := (a - b) % 360, (b - a) % 360;
            MinorArc(a, b) == if cw <= ccw then cw else ccw
    ensures 0 <= MinorArc(a, b) <= 180
    ensures MinorArc(a, b) == MinorArc(b, a)
  {
  }

  lemma MinorArcExamples()
    ensures MinorArc(350, 10) == 20 && MinorArc(10, 350) == 20 && MinorArc(0, 180) == 180
  {
  }

  /** The consecutive differences the analysis pushes into `variations`. */
  function Variations(history: seq<int>): (v: seq<int>)
    ensures |history| >= 1 ==> |v| == |history| - 1
  {
    if |history| < 2 then []
    else seq(|history| - 1, i requires 0 <= i < |history| - 1 => MinorArc(history[i + 1], history[i]))
  }

  /** `reduce((a, b) => a + b, 0)`: a left-to-right sum. */
  function Sum(s: seq<int>): int {
    if s == [] then 0 else Sum(s[..|s| - 1]) + s[|s| - 1]
  }

  /**
   * The analysis stated without division: with n differences summing to `total`, the
   * average exceeds a threshold k exactly when `total > k * n`.
   */
  function Stability(history: seq<int>): Verdict
    requires |history| >= 2
  {
    var total, n := Sum(Variations(history)), |history| - 1;
    if total > VariationThreshold * n then
      Verdict(true, if total > 30 * n then Low else if total > 20 * n then Medium else High, None)
    else
      Verdict(false, High, Some(history[|history| - 1]))
  }

  /**
   * analyzeCompassStability: collect the consecutive differences in a loop, average them,
   * and classify the average against 15, 20 and 30 degrees.
   */
  method AnalyzeStability(history: seq<int>) returns (v: Verdict)
    requires |history| >= 2
    ensures v == Stability(history)
  {
    var variations: seq<int> := [];
    for i := 1 to |history|
      invariant |variations| == i - 1
      invariant forall k :: 0 <= k < i - 1 ==> variations[k] == MinorArc(history[k + 1], history[k])
    {
      var diff: int := Abs(history[i] - history[i - 1]);
      if diff > 180 {
        diff := 360 - diff;
      }
      variations := variations + [diff];
    }
    assert variations == Variations(history);
    var total := 0;
    for j := 0 to |variations|
      invariant total == Sum(variations[..j])
    {
      assert variations[..j + 1][..j] == variations[..j];
      total := total + variations[j];
    }
    assert variations[..|variations|] == variations;
    var n := |variations|;
    var avgVariation := total as real / n as real;
    AverageAbove(total, n, 15);
    AverageAbove(total, n, 20);
    AverageAbove(total, n, 30);
    if avgVariation > 15.0 {
      var confidence := if avgVariation > 30.0 then Low else if avgVariation > 20.0 then Medium else High;
      v := Verdict(true, confidence, None);
    } else {
      v := Verdict(false, High, Some(history[|history| - 1]));
    }
  }

  /** Comparing an average with k is comparing the total with k times the count. */
  lemma AverageAbove(total: int, n: int, k: int)
    requires n > 0
    ensures total as real / n as real > k as real <==> total > k * n
  {
    var avg := total as real / n as real;
    assert avg * n as real == total as real;
    if total > k * n {
      assert avg * n as real > k as real * n as real;
    } else {
      assert avg * n as real <= k as real * n as real;
    }
  }

  /**
   * The verdict in terms of the average variation itself: calibration is needed above 15
   * degrees, and then confidence is low above 30, medium above 20 and high otherwise.
   */
  lemma StabilityByAverage(history: seq<int>)
    requires |history| >= 2
    ensures var avg := Sum(Variations(history)) as real / (|history| - 1) as real;
            var v := Stability(history);
            && (v.calibrationNeeded <==> avg > 15.0)
            && (v.calibrationNeeded ==>
                  && (v.confidence == Low <==> avg > 30.0)
                  && (v.confidence == Medium <==> 20.0 < avg <= 30.0)
                  && (v.confidence == High <==> avg <= 20.0))
  {
    var total, n := Sum(Variations(history)), |history| - 1;
    AverageAbove(total, n, 15);
    AverageAbove(total, n, 20);
    AverageAbove(total, n, 30);
  }

  /** Calibration is asked for exactly when no reading is surfaced; otherwise confidence is high. */
  lemma StabilitySurfacesOnlyWhenStable(history: seq<int>)
    requires |history| >= 2
    ensures var v := Stability(history);
            && (v.surfaced.Some? <==> !v.calibrationNeeded)
            && (v.surfaced.Some? ==> v.surfaced.value == history[|history| - 1] && v.confidence == High)
  {
  }

  lemma {:induction false} SumBounds(s: seq<int>, lo: int, hi: int)
    requires forall i :: 0 <= i < |s| ==> lo <= s[i] <= hi
    ensures lo * |s| <= Sum(s) <= hi * |s|
  {
    if s != [] {
      SumBounds(s[..|s| - 1], lo, hi);
    }
  }

  /** Readings that never change give an average of 0: high confidence, last reading surfaced. */
  lemma ConstantReadingsAreStable(history: seq<int>)
    requires |history| >= 2
    requires forall i :: 0 <= i < |history| ==> history[i] == history[0]
    ensures Stability(history) == Verdict(false, High, Some(history[0]))
  {
    SumBounds(Variations(history), 0, 0);
  }

  /** The average variation of headings in [0, 360] never exceeds 180 degrees. */
  lemma AverageAtMostHalfTurn(history: seq<int>)
    requires |history| >= 2
    requires forall i :: 0 <= i < |history| ==> 0 <= history[i] <= 360
    ensures 0 <= Sum(Variations(history)) <= 180 * (|history| - 1)
  {
    var v := Variations(history);
    forall i | 0 <= i < |v| ensures 0 <= v[i] <= 180 {
      MinorArcIsShorterTurn(history[i + 1], history[i]);
    }
    SumBounds(v, 0, 180);
  }

  /** Swinging round the compass in quarter turns averages 90 degrees: low confidence. */
  lemma QuarterTurnsAreUnstable()
    ensures Stability([0, 90, 180, 270, 0]) == Verdict(true, Low, None)
  {
    var h := [0, 90, 180, 270, 0];
    assert Variations(h) == [90, 90, 90, 90];
    assert Sum([90, 90, 90, 90]) == 360 by {
      assert [90, 90, 90, 90][..3] == [90, 90, 90];
      assert [90, 90, 90][..2] == [90, 90];
      assert [90, 90][..1] == [90];
    }
  }

  /** The guard of the sample effect: supported, permitted, a truthy heading, not throttled. */
  predicate AcceptsSample(isSupported: bool, isPermissionGranted: Option<bool>,
                          alpha: Option<real>, now: int, lastCheckedTime: int)
  {
    && isSupported
    && isPermissionGranted == Some(true)
    && alpha.Some? && alpha.value != 0.0
    && now - lastCheckedTime >= ThrottleMs
  }

  /**
   * The component's state: the reading history, the time of the last accepted sample, the
   * calibration flag and confidence, and whether the calibration guide is open.
   */
  class Calibrator {
    var readings: seq<int>
    var lastCheckedTime: int
    var isCalibrationNeeded: bool
    var calibrationConfidence: Option<Confidence>
    var showCalibrationGuide: bool

    ghost predicate Valid()
      reads this
    {
      |readings| <= ReadingHistorySize
    }

    constructor ()
      ensures Valid()
      ensures readings == [] && lastCheckedTime == 0
      ensures !isCalibrationNeeded && calibrationConfidence.None? && !showCalibrationGuide
    {
      readings, lastCheckedTime := [], 0;
      isCalibrationNeeded, calibrationConfidence, showCalibrationGuide := false, None, false;
    }

    /**
     * The orientation effect. An accepted sample records the time, appends the rounded
     * heading to the last ten readings and, once there are at least five, applies the
     * analysis; `surfaced` is what is passed to `updateReading`. A refused sample changes
     * nothing.
     */
    method OnOrientation(isSupported: bool, isPermissionGranted: Option<bool>,
                         alpha: Option<real>, now: int) returns (surfaced: Option<int>)
      requires Valid()
      modifies this`readings, this`lastCheckedTime, this`isCalibrationNeeded,
               this`calibrationConfidence
      ensures Valid()
      ensures !AcceptsSample(isSupported, isPermissionGranted, alpha, now, old(lastCheckedTime)) ==>
                && readings == old(readings) && lastCheckedTime == old(lastCheckedTime)
                && isCalibrationNeeded == old(isCalibrationNeeded)
                && calibrationConfidence == old(calibrationConfidence)
                && surfaced.None?
      ensures AcceptsSample(isSupported, isPermissionGranted, alpha, now, old(lastCheckedTime)) ==>
                && readings == KeepLast(old(readings) + [Round(alpha.value)])
                && lastCheckedTime == now
      ensures AcceptsSample(isSupported, isPermissionGranted, alpha, now, old(lastCheckedTime))
              && |readings| < MinReadings ==>
                && isCalibrationNeeded == old(isCalibrationNeeded)
                && calibrationConfidence == old(calibrationConfidence)
                && surfaced.None?
      ensures AcceptsSample(isSupported, isPermissionGranted, alpha, now, old(lastCheckedTime))
              && |readings| >= MinReadings ==>
                var v := Stability(readings);
                && isCalibrationNeeded == v.calibrationNeeded
                && calibrationConfidence == Some(v.confidence)
                && surfaced == v.surfaced
    {
      surfaced := None;
      if !isSupported || isPermissionGranted != Some(true) || alpha.None? || alpha.value == 0.0 {
        return;
      }
      if now - lastCheckedTime < ThrottleMs {
        return;
      }
      lastCheckedTime := now;
      var currentReading := Round(alpha.value);
      var newReadings := KeepLast(readings + [currentReading]);
      if |newReadings| >= MinReadings {
        var v := AnalyzeStability(newReadings);
        isCalibrationNeeded := v.calibrationNeeded;
        calibrationConfidence := Some(v.confidence);
        surfaced := v.surfaced;
      }
      readings := newReadings;
    }

    /** The "Calibrate" button opens the guide. */
    method OpenCalibrationGuide()
      modifies this`showCalibrationGuide
      ensures showCalibrationGuide
    {
      showCalibrationGuide := true;
    }

    /**
     * handleCalibrationComplete: close the guide, empty the history and clear the flag; the
     * confidence is left as it was, so five fresh readings are needed before it changes.
     */
    method CalibrationComplete()
      requires Valid()
      modifies this`showCalibrationGuide, this`readings, this`isCalibrationNeeded
      ensures Valid()
      ensures !showCalibrationGuide && readings == [] && !isCalibrationNeeded
    {
      showCalibrationGuide := false;
      readings := [];
      isCalibrationNeeded := false;
    }
  }
}
