/**
 * TagPeakFinder: smooths a pass's readings with a forward EMA followed by a backward EMA
 * over the forward result (a zero-phase filter), then reports the timestamp of the first
 * index holding the largest smoothed value. Java's float and double arithmetic is real
 * arithmetic here.
 */
module PeakFinding {
  import opened Wrappers
  import opened Text
  import opened Samples
  import opened Settings

  const MINIMUM_SAMPLES_FOR_ANALYSIS: nat := 3

  /** Double.MAX_VALUE, that is (2 - 2^-52) * 2^1023; the scan starts from its negation. */
  const DOUBLE_MAX: real := 179769313486231570814527423731704356798070567525844996598917476803157260780028538760589558632766878171540458953514382464234321326889464182768467546703537516986049910576551282076245490090389328944075868508455133942304583236903222948165808559332123348274797826204144723168738177180919299881250404026184124858368.0

  datatype TagPeakData = TagPeakData(peakTimeMs: int, peakRssi: real)

  /** A peak; `null` (too few samples, or no value above the starting bound); or the
      NullPointerException of a null alpha. */
  datatype PeakOutcome = Peak(data: TagPeakData) | NoPeak | NullAlpha

  function RawOf(samples: seq<TagData>): (raw: seq<real>)
    ensures |raw| == |samples|
    ensures forall i :: 0 <= i < |samples| ==> raw[i] == samples[i].rssi as real
  {
    seq(|samples|, i requires 0 <= i < |samples| => samples[i].rssi as real)
  }

  /** The forward pass: starts at the first reading, then mixes each reading with the
      previous output. */
  function Forward(raw: seq<real>, alpha: real): (f: seq<real>)
    ensures |f| == |raw|
    ensures |raw| > 0 ==> f[0] == raw[0]
    ensures forall i {:trigger raw[i]} :: 0 < i < |raw| ==> f[i] == alpha * raw[i] + (1.0 - alpha) * f[i - 1]
    decreases |raw|
  {
    if |raw| <= 1 then raw
    else
      var p := Forward(raw[..|raw| - 1], alpha);
      p + [alpha * raw[|raw| - 1] + (1.0 - alpha) * p[|p| - 1]]
  }

  /** The backward pass over the forward output: ends at the last forward value, then mixes
      each forward value with the following output. */
  function Backward(f: seq<real>, alpha: real): (b: seq<real>)
    ensures |b| == |f|
    ensures |f| > 0 ==> b[|f| - 1] == f[|f| - 1]
    ensures forall i {:trigger f[i]} :: 0 <= i < |f| - 1 ==> b[i] == alpha * f[i] + (1.0 - alpha) * b[i + 1]
    decreases |f|
  {
    if |f| <= 1 then f
    else
      var rest := Backward(f[1..], alpha);
      [alpha * f[0] + (1.0 - alpha) * rest[0]] + rest
  }

  /** applyZeroPhaseFilter. */
  function ZeroPhase(samples: seq<TagData>, alpha: real): (z: seq<real>)
    ensures |z| == |samples|
  {
    Backward(Forward(RawOf(samples), alpha), alpha)
  }

  predicate Within(xs: seq<real>, lo: real, hi: real) {
    forall i :: 0 <= i < |xs| ==> lo <= xs[i] <= hi
  }

  lemma MulNonneg(p: real, q: real)
    requires 0.0 <= p && 0.0 <= q
    ensures 0.0 <= p * q
  {
  }

  /** A mix of two values in [lo, hi] with weight in [0, 1] stays in [lo, hi]. */
  lemma Convex(a: real, x: real, y: real, lo: real, hi: real)
    requires 0.0 <= a <= 1.0 && lo <= x <= hi && lo <= y <= hi
    ensures lo <= a * x + (1.0 - a) * y <= hi
  {
    MulNonneg(a, x - lo);
    MulNonneg(1.0 - a, y - lo);
    MulNonneg(a, hi - x);
    MulNonneg(1.0 - a, hi - y);
    assert a * x + (1.0 - a) * y - lo == a * (x - lo) + (1.0 - a) * (y - lo);
    assert hi - (a * x + (1.0 - a) * y) == a * (hi - x) + (1.0 - a) * (hi - y);
  }

  lemma {:induction false} ForwardWithin(raw: seq<real>, alpha: real, lo: real, hi: real, k: nat)
    requires 0.0 <= alpha <= 1.0 && Within(raw, lo, hi) && k <= |raw|
    ensures forall i :: 0 <= i < k ==> lo <= Forward(raw, alpha)[i] <= hi
  {
    if k > 0 {
      ForwardWithin(raw, alpha, lo, hi, k - 1);
      var f := Forward(raw, alpha);
      if k > 1 {
        assert f[k - 1] == alpha * raw[k - 1] + (1.0 - alpha) * f[k - 2];
        Convex(alpha, raw[k - 1], f[k - 2], lo, hi);
      }
    }
  }

  lemma {:induction false} BackwardWithin(f: seq<real>, alpha: real, lo: real, hi: real, k: nat)
    requires 0.0 <= alpha <= 1.0 && Within(f, lo, hi) && k <= |f|
    ensures forall i :: |f| - k <= i < |f| ==> lo <= Backward(f, alpha)[i] <= hi
  {
    if k > 0 {
      BackwardWithin(f, alpha, lo, hi, k - 1);
      var b := Backward(f, alpha);
      var j := |f| - k;
      if k > 1 {
        assert b[j] == alpha * f[j] + (1.0 - alpha) * b[j + 1];
        Convex(alpha, f[j], b[j + 1], lo, hi);
      }
      assert lo <= b[j] <= hi;
    }
  }

  /** With 0 <= alpha <= 1 every smoothed value lies between the smallest and the largest
      reading, so the smoothed peak never exceeds the raw peak. */
  lemma ZeroPhaseWithin(samples: seq<TagData>, alpha: real, lo: real, hi: real)
    requires 0.0 <= alpha <= 1.0
    requires forall i :: 0 <= i < |samples| ==> lo <= samples[i].rssi as real <= hi
    ensures Within(ZeroPhase(samples, alpha), lo, hi)
  {
    var raw := RawOf(samples);
    ForwardWithin(raw, alpha, lo, hi, |raw|);
    var f := Forward(raw, alpha);
    BackwardWithin(f, alpha, lo, hi, |f|);
  }

  /** `k` is the first index holding the largest value of `z`. */
  predicate IsFirstMax(z: seq<real>, k: int) {
    && 0 <= k < |z|
    && (forall j :: 0 <= j < |z| ==> z[j] <= z[k])
    && (forall j :: 0 <= j < k ==> z[j] < z[k])
  }

  lemma FirstMaxUnique(z: seq<real>, a: int, b: int)
    requires IsFirstMax(z, a) && IsFirstMax(z, b)
    ensures a == b
  {
    assert z[a] == z[b];
  }

  /** What findPeak's scan knows after looking at the first `i` values. */
  predicate ScanInvariant(z: seq<real>, i: nat, best: int, bestVal: real) {
    && (forall j :: 0 <= j < i && j < |z| ==> z[j] <= bestVal)
    && (best == -1 ==> bestVal == -DOUBLE_MAX)
    && (0 <= best ==> best < |z| && bestVal == z[best] && -DOUBLE_MAX < bestVal
                      && forall j :: 0 <= j < best ==> z[j] < bestVal)
  }

  /** findPeak's loop from index `i` on: a strictly larger value takes over, so ties keep
      the earlier index. Returns the peak index, -1 when nothing exceeds the start bound. */
  function ScanMax(z: seq<real>, i: nat, best: int, bestVal: real): (r: int)
    requires i <= |z| && -1 <= best < i + 1 && best < |z| + 1
    requires best < i || (best == -1 && i == 0)
    requires ScanInvariant(z, i, best, bestVal)
    ensures -1 <= r < |z|
    ensures r == -1 <==> (best == -1 && forall j :: i <= j < |z| ==> z[j] <= -DOUBLE_MAX)
    ensures 0 <= r ==> z[r] > -DOUBLE_MAX && (forall j :: 0 <= j < |z| ==> z[j] <= z[r])
                       && (forall j :: 0 <= j < r ==> z[j] < z[r])
    decreases |z| - i
  {
    if i == |z| then best
    else if z[i] > bestVal then ScanMax(z, i + 1, i, z[i])
    else ScanMax(z, i + 1, best, bestVal)
  }

  /** TagPeakFinder.findPeak. */
  function FindPeak(samples: seq<TagData>, settings: Setting): (r: PeakOutcome)
    ensures |samples| < MINIMUM_SAMPLES_FOR_ANALYSIS ==> r == NoPeak
    ensures r.NullAlpha? <==> |samples| >= MINIMUM_SAMPLES_FOR_ANALYSIS && settings.rssiAveragingAlpha.None?
    ensures |samples| >= MINIMUM_SAMPLES_FOR_ANALYSIS && settings.rssiAveragingAlpha.Some? ==>
      var z := ZeroPhase(samples, settings.rssiAveragingAlpha.value);
      && (r.NoPeak? <==> forall j :: 0 <= j < |z| ==> z[j] <= -DOUBLE_MAX)
      && (r.Peak? ==> exists k :: IsFirstMax(z, k) && r.data == TagPeakData(samples[k].entryTimeMs, z[k]))
  {
    if |samples| < MINIMUM_SAMPLES_FOR_ANALYSIS then NoPeak
    else if settings.rssiAveragingAlpha.None? then NullAlpha
    else
      var z := ZeroPhase(samples, settings.rssiAveragingAlpha.value);
      var k := ScanMax(z, 0, -1, -DOUBLE_MAX);
      if k != -1 then
        assert IsFirstMax(z, k);
        Peak(TagPeakData(samples[k].entryTimeMs, z[k]))
      else NoPeak
  }

  /** With at least three readings in Java's int range and 0 <= alpha <= 1, a peak is
      always found, and its value lies within the raw readings' range. */
  lemma PeakFoundForIntReadings(samples: seq<TagData>, settings: Setting, lo: int, hi: int)
    requires |samples| >= MINIMUM_SAMPLES_FOR_ANALYSIS
    requires settings.rssiAveragingAlpha.Some? && 0.0 <= settings.rssiAveragingAlpha.value <= 1.0
    requires INT_MIN <= lo && hi <= INT_MAX
    requires forall i :: 0 <= i < |samples| ==> lo <= samples[i].rssi <= hi
    ensures FindPeak(samples, settings).Peak?
    ensures lo as real <= FindPeak(samples, settings).data.peakRssi <= hi as real
  {
    var z := ZeroPhase(samples, settings.rssiAveragingAlpha.value);
    ZeroPhaseWithin(samples, settings.rssiAveragingAlpha.value, lo as real, hi as real);
    assert z[0] > -DOUBLE_MAX;
  }

  function Pass(rssi: seq<int>): (samples: seq<TagData>)
    ensures |samples| == |rssi|
    ensures forall i :: 0 <= i < |rssi| ==> samples[i] == TagData(1, 1000 + i, rssi[i])
  {
    seq(|rssi|, i requires 0 <= i < |rssi| => TagData(1, 1000 + i, rssi[i]))
  }

  const HUMP: seq<int> := [-80, -70, -60, -55, -50, -55, -60, -70, -80]
  const HUMP_FORWARD: seq<real> :=
    [-80.0, -75.0, -67.5, -61.25, -55.625, -55.3125, -57.65625, -63.828125, -71.9140625]
  const HUMP_SMOOTHED: seq<real> :=
    [-74.598846435546875, -69.19769287109375, -63.3953857421875, -59.290771484375, -57.33154296875,
     -59.0380859375, -62.763671875, -67.87109375, -71.9140625]

  lemma HumpForward()
    ensures Forward(RawOf(Pass(HUMP)), 0.5) == HUMP_FORWARD
  {
    var raw := RawOf(Pass(HUMP));
    var f := Forward(raw, 0.5);
    assert raw[0] == -80.0 && f[0] == -80.0;
    assert raw[1] == -70.0 && f[1] == -75.0;
    assert raw[2] == -60.0 && f[2] == -67.5;
    assert raw[3] == -55.0 && f[3] == -61.25;
    assert raw[4] == -50.0 && f[4] == -55.625;
    assert raw[5] == -55.0 && f[5] == -55.3125;
    assert raw[6] == -60.0 && f[6] == -57.65625;
    assert raw[7] == -70.0 && f[7] == -63.828125;
    assert raw[8] == -80.0 && f[8] == -71.9140625;
  }

  lemma HumpBackward()
    ensures Backward(HUMP_FORWARD, 0.5) == HUMP_SMOOTHED
  {
    var f := HUMP_FORWARD;
    var z := Backward(f, 0.5);
    assert z[8] == -71.9140625;
    assert z[7] == -67.87109375;
    assert z[6] == -62.763671875;
    assert z[5] == -59.0380859375;
    assert z[4] == -57.33154296875;
    assert z[3] == -59.290771484375;
    assert z[2] == -63.3953857421875;
    assert z[1] == -69.19769287109375;
    assert z[0] == -74.598846435546875;
  }

  lemma HumpSmoothedMax()
    ensures IsFirstMax(HUMP_SMOOTHED, 4)
  {
  }

  /** The symmetric hump at 1000..1008 ms, alpha 0.5: the smoothed peak is at 1004 and
      below the raw -50. */
  lemma HumpPeaksAtCentre()
    ensures var r := FindPeak(Pass(HUMP), DefaultSetting().(rssiAveragingAlpha := Some(0.5)));
      r.Peak? && r.data.peakTimeMs == 1004 && r.data.peakRssi < -50.0
  {
    var samples := Pass(HUMP);
    var z := ZeroPhase(samples, 0.5);
    assert z == HUMP_SMOOTHED by {
      HumpForward();
      HumpBackward();
    }
    assert IsFirstMax(z, 4) by {
      HumpSmoothedMax();
    }
    assert z[0] > -DOUBLE_MAX;
    var r := FindPeak(samples, DefaultSetting().(rssiAveragingAlpha := Some(0.5)));
    var k :| IsFirstMax(z, k) && r.data == TagPeakData(samples[k].entryTimeMs, z[k]);
    FirstMaxUnique(z, k, 4);
  }

  const FLAT_TOP: seq<int> := [-80, -60, -50, -50, -50, -60, -80]
  const FLAT_TOP_FORWARD: seq<real> := [-80.0, -70.0, -60.0, -55.0, -52.5, -56.25, -68.125]
  const FLAT_TOP_SMOOTHED: seq<real> :=
    [-72.021484375, -64.04296875, -58.0859375, -56.171875, -57.34375, -62.1875, -68.125]

  lemma FlatTopForward()
    ensures Forward(RawOf(Pass(FLAT_TOP)), 0.5) == FLAT_TOP_FORWARD
  {
    var raw := RawOf(Pass(FLAT_TOP));
    var f := Forward(raw, 0.5);
    assert raw[0] == -80.0 && f[0] == -80.0;
    assert raw[1] == -60.0 && f[1] == -70.0;
    assert raw[2] == -50.0 && f[2] == -60.0;
    assert raw[3] == -50.0 && f[3] == -55.0;
    assert raw[4] == -50.0 && f[4] == -52.5;
    assert raw[5] == -60.0 && f[5] == -56.25;
    assert raw[6] == -80.0 && f[6] == -68.125;
  }

  lemma FlatTopBackward()
    ensures Backward(FLAT_TOP_FORWARD, 0.5) == FLAT_TOP_SMOOTHED
  {
    var f := FLAT_TOP_FORWARD;
    var z := Backward(f, 0.5);
    assert z[6] == -68.125;
    assert z[5] == -62.1875;
    assert z[4] == -57.34375;
    assert z[3] == -56.171875;
    assert z[2] == -58.0859375;
    assert z[1] == -64.04296875;
    assert z[0] == -72.021484375;
  }

  lemma FlatTopSmoothedMax()
    ensures IsFirstMax(FLAT_TOP_SMOOTHED, 3)
  {
  }

  /** The flat top at 1002..1004 ms, alpha 0.5: the smoothed peak is the middle, 1003. */
  lemma FlatTopPeaksAtMiddle()
    ensures var r := FindPeak(Pass(FLAT_TOP), DefaultSetting().(rssiAveragingAlpha := Some(0.5)));
      r.Peak? && r.data.peakTimeMs == 1003 && r.data.peakRssi < -50.0
  {
    var samples := Pass(FLAT_TOP);
    var z := ZeroPhase(samples, 0.5);
    assert z == FLAT_TOP_SMOOTHED by {
      FlatTopForward();
      FlatTopBackward();
    }
    assert IsFirstMax(z, 3) by {
      FlatTopSmoothedMax();
    }
    assert z[0] > -DOUBLE_MAX;
    var r := FindPeak(samples, DefaultSetting().(rssiAveragingAlpha := Some(0.5)));
    var k :| IsFirstMax(z, k) && r.data == TagPeakData(samples[k].entryTimeMs, z[k]);
    FirstMaxUnique(z, k, 3);
  }

  /** Two readings are too few. */
  lemma TooFewSamples()
    ensures FindPeak(Pass([-80, -70]), DefaultSetting().(rssiAveragingAlpha := Some(0.5))) == NoPeak
  {
  }
}
