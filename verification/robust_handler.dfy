/**
 * RobustMedianEmaHandler: a median over the last readings, an EMA over the medians, and a
 * state machine driven by the EMA's slope with a hysteresis drop before LOGGED.
 */
module RobustHandler {
  import opened Wrappers
  import opened Samples
  import opened TagStates
  import opened TagProcessing
  import opened Medians
  import opened MedianHandler

  /** A Java float that starts at negative infinity and later holds a reading. */
  datatype ExtReal = NegInf | Finite(v: real)

  /** `x >= t` for a finite `t`: false at negative infinity. */
  predicate AtLeast(x: ExtReal, t: real) { x.Finite? && x.v >= t }

  /** `a > x` for a finite `a`: true at negative infinity. */
  predicate Exceeds(a: real, x: ExtReal) { x.NegInf? || a > x.v }

  /** `Math.max(x, a)` for a finite `a`. */
  function MaxWith(x: ExtReal, a: real): (r: real)
    ensures r >= a && (x.Finite? ==> r >= x.v)
    ensures r == a || (x.Finite? && r == x.v)
  {
    if x.Finite? && x.v >= a then x.v else a
  }

  /** The tunables: median window, EMA weight, the two thresholds, the rise and fall counts
      and the hysteresis drop in dB. */
  datatype RobustConfig = RobustConfig(
    medianWindow: int,
    alpha: real,
    approachThreshold: int,
    hereThreshold: int,
    minRise: int,
    minFall: int,
    hysteresis: real)

  predicate ConfigValid(c: RobustConfig) {
    c.medianWindow >= 1 && 0.0 <= c.alpha <= 1.0 && c.minRise >= 1 && c.minFall >= 1 && c.hysteresis >= 0.0
  }

  function Clamp(v: real, lo: real, hi: real): real {
    var m := if hi <= v then hi else v;
    if lo >= m then lo else m
  }

  /** The seven-argument constructor: the window and counts raised to at least 1, the weight
      clamped into [0, 1], the hysteresis raised to at least 0; knobs already in range are
      kept as given. */
  function NewRobustConfig(medianWindow: int, emaAlpha: real, approachThreshold: int, hereThreshold: int,
                           minRiseCount: int, minFallCount: int, hysteresisDb: real): (c: RobustConfig)
    ensures ConfigValid(c)
    ensures c.approachThreshold == approachThreshold && c.hereThreshold == hereThreshold
    ensures medianWindow >= 1 ==> c.medianWindow == medianWindow
    ensures 0.0 <= emaAlpha <= 1.0 ==> c.alpha == emaAlpha
    ensures emaAlpha < 0.0 ==> c.alpha == 0.0
    ensures emaAlpha > 1.0 ==> c.alpha == 1.0
    ensures minRiseCount >= 1 ==> c.minRise == minRiseCount
    ensures minFallCount >= 1 ==> c.minFall == minFallCount
    ensures hysteresisDb >= 0.0 ==> c.hysteresis == hysteresisDb
  {
    RobustConfig(
      if medianWindow < 1 then 1 else medianWindow,
      Clamp(emaAlpha, 0.0, 1.0),
      approachThreshold,
      hereThreshold,
      if minRiseCount < 1 then 1 else minRiseCount,
      if minFallCount < 1 then 1 else minFallCount,
      if hysteresisDb < 0.0 then 0.0 else hysteresisDb)
  }

  /** The no-argument constructor's tunables. */
  function DefaultRobustConfig(): (c: RobustConfig)
    ensures ConfigValid(c) && c.medianWindow == 5 && c.alpha == 0.3
    ensures c.approachThreshold == -90 && c.hereThreshold == -85
    ensures c.minRise == 3 && c.minFall == 2 && c.hysteresis == 2.0
  {
    NewRobustConfig(5, 0.30, -90, -85, 3, 2, 2.0)
  }

  /** The handler's state: the median buffer, the EMA and the previous EMA (both absent until
      the first sample), the slope counters, the peaks and the lifecycle state. */
  datatype Robust = Robust(
    cfg: RobustConfig,
    buf: seq<int>,
    ema: Option<real>,
    last: Option<real>,
    rising: nat,
    falling: nat,
    peakSinceApproach: ExtReal,
    herePeak: ExtReal,
    state: TagStatusState)

  /** A constructed handler after `init()`. */
  function NewRobust(cfg: RobustConfig): (h: Robust)
    requires ConfigValid(cfg)
    ensures RobustValid(h) && h.state == TooFar && h.buf == [] && h.ema.None?
  {
    Robust(cfg, [], None, None, 0, 0, NegInf, NegInf, TooFar)
  }

  /** The states the handler can be in: the previous value is the EMA, an APPROACHING handler
      has a peak at or above the EMA, and a HERE handler a HERE peak at or above it. */
  predicate RobustValid(h: Robust) {
    && ConfigValid(h.cfg)
    && |h.buf| <= h.cfg.medianWindow
    && h.last == h.ema
    && (h.state == Approaching ==> h.ema.Some? && AtLeast(h.peakSinceApproach, h.ema.value))
    && (h.state == Here ==> h.ema.Some? && AtLeast(h.herePeak, h.ema.value))
  }

  /** The EMA after one more median. */
  function NextEma(h: Robust, med: real): (e: real)
    ensures h.ema.None? ==> e == med
    ensures h.ema.Some? && 0.0 <= h.cfg.alpha <= 1.0 ==> Between(e, h.ema.value, med)
  {
    if h.ema.None? then med else Ema(h.ema.value, h.cfg.alpha, med)
  }

  /** The slope counters after a step from `prev` to `e`: a rise counts up `rising` and clears
      `falling`, a fall does the opposite, and no change leaves both alone. */
  function CountSlope(h: Robust, prev: real, e: real): (r: Robust)
    ensures r == h.(rising := r.rising, falling := r.falling)
    ensures e > prev ==> r.rising == h.rising + 1 && r.falling == 0
    ensures e < prev ==> r.rising == 0 && r.falling == h.falling + 1
    ensures e == prev ==> r.rising == h.rising && r.falling == h.falling
  {
    var diff := e - prev;
    if diff > 0.0 then h.(rising := h.rising + 1, falling := 0)
    else if diff < 0.0 then h.(rising := 0, falling := h.falling + 1)
    else h
  }

  /** Keeps the current step counted as the first fall. */
  function AtLeastOne(n: nat): (r: nat)
    ensures r >= 1 && (n >= 1 ==> r == n)
  {
    if n == 0 then 1 else n
  }

  /** TOO_FAR: APPROACHING once the EMA reaches the approach threshold after enough rises,
      starting the peak there. */
  function FromTooFar(h: Robust, e: real): (r: Robust)
    requires h.state == TooFar
    ensures r.state == Approaching || r == h
    ensures r.state == Approaching <==> e >= h.cfg.approachThreshold as real && h.rising >= h.cfg.minRise
    ensures r.state == Approaching ==> r == h.(state := Approaching, peakSinceApproach := Finite(e))
  {
    if e >= h.cfg.approachThreshold as real && h.rising >= h.cfg.minRise then
      h.(state := Approaching, peakSinceApproach := Finite(e))
    else h
  }

  /** APPROACHING: track the peak; HERE on a falling step once the EMA or the peak has reached
      the HERE threshold, with the HERE peak the larger of the two. */
  function FromApproaching(h: Robust, prev: real, e: real): (r: Robust)
    requires h.state == Approaching && h.peakSinceApproach.Finite?
    ensures r.cfg == h.cfg && r.buf == h.buf && r.ema == h.ema && r.last == h.last && r.rising == h.rising
    ensures r.state == Here || r.state == Approaching
    ensures r.peakSinceApproach.Finite? && r.peakSinceApproach.v >= e && r.peakSinceApproach.v >= h.peakSinceApproach.v
    ensures r.peakSinceApproach.v == e || r.peakSinceApproach == h.peakSinceApproach
    ensures r.state == Here <==>
              e < prev && (e >= h.cfg.hereThreshold as real || AtLeast(r.peakSinceApproach, h.cfg.hereThreshold as real))
    ensures r.state == Here ==> r.herePeak == Finite(MaxWith(r.peakSinceApproach, e))
    ensures r.state == Here ==> r.falling >= 1 && (h.falling >= 1 ==> r.falling == h.falling)
    ensures r.state == Approaching ==> r.falling == h.falling
  {
    var peak := if Exceeds(e, h.peakSinceApproach) then Finite(e) else h.peakSinceApproach;
    var h := h.(peakSinceApproach := peak);
    if e - prev < 0.0 && (e >= h.cfg.hereThreshold as real || AtLeast(peak, h.cfg.hereThreshold as real)) then
      h.(state := Here, herePeak := Finite(MaxWith(peak, e)), falling := AtLeastOne(h.falling))
    else h
  }

  /** HERE: keep the best peak; LOGGED after enough falls once the EMA has dropped at least the
      hysteresis below that peak. */
  function FromHere(h: Robust, e: real): (r: Robust)
    requires h.state == Here && h.herePeak.Finite?
    ensures r == h.(herePeak := r.herePeak, state := r.state)
    ensures r.state == Here || r.state == Logged
    ensures r.herePeak.Finite? && r.herePeak.v >= e && r.herePeak.v >= h.herePeak.v
    ensures r.state == Logged <==> h.falling >= h.cfg.minFall && r.herePeak.v - e >= h.cfg.hysteresis
  {
    var top := if Exceeds(e, h.herePeak) then Finite(e) else h.herePeak;
    var h := h.(herePeak := top);
    if h.falling >= h.cfg.minFall && AtLeast(top, e + h.cfg.hysteresis) then h.(state := Logged)
    else h
  }

  /** `acceptSample`: push the reading, take the median, mix it into the EMA; the first sample
      stops there, later ones count the slope and move the state machine. */
  function RobustStep(h: Robust, s: CalibrationSample): (r: Robust)
    requires RobustValid(h)
    ensures RobustValid(r) && r.cfg == h.cfg
    ensures r.buf == Push(h.buf, h.cfg.medianWindow, s.rssi)
    ensures r.ema == Some(NextEma(h, MedianSmooth(r.buf)))
    ensures h.last.None? ==> r.state == h.state && r.rising == h.rising && r.falling == h.falling
    ensures h.last.Some? && r.ema.value > h.last.value ==> r.rising == h.rising + 1 && r.falling == 0
    ensures h.last.Some? && r.ema.value < h.last.value ==> r.rising == 0 && r.falling == h.falling + 1
    ensures h.last.Some? && r.ema.value == h.last.value ==> r.rising == h.rising && r.falling == h.falling
    ensures HandlerAdvances(h.state, r.state)
    ensures r.state != h.state ==> HandlerRank(r.state) == HandlerRank(h.state) + 1
    ensures h.state == TooFar && h.last.Some? ==>
              (r.state == Approaching <==>
                 r.ema.value >= h.cfg.approachThreshold as real && r.rising >= h.cfg.minRise)
    ensures h.state == TooFar && r.state == Approaching ==> r.peakSinceApproach == Finite(r.ema.value)
    ensures h.state == Approaching && h.last.Some? ==>
              (r.state == Here <==>
                 r.ema.value < h.last.value
                 && (r.ema.value >= h.cfg.hereThreshold as real || AtLeast(r.peakSinceApproach, h.cfg.hereThreshold as real)))
    ensures h.state == Approaching && r.state == Here ==>
              r.herePeak == Finite(MaxWith(r.peakSinceApproach, r.ema.value)) && r.falling >= 1
    ensures h.state == Approaching && r.state == Approaching ==>
              AtLeast(r.peakSinceApproach, h.peakSinceApproach.v)
    ensures h.state == Here ==> AtLeast(r.herePeak, h.herePeak.v)
    ensures h.state == Here && h.last.Some? ==>
              (r.state == Logged <==>
                 r.falling >= h.cfg.minFall && r.herePeak.v - r.ema.value >= h.cfg.hysteresis)
  {
    var buf := Push(h.buf, h.cfg.medianWindow, s.rssi);
    var e := NextEma(h, MedianSmooth(buf));
    var g := h.(buf := buf, ema := Some(e));
    match h.last
    case None => g.(last := Some(e))
    case Some(prev) =>
      var c := CountSlope(g, prev, e);
      Transition(c, prev, e).(last := Some(e))
  }

  /** The state machine's move on a counted step from EMA `prev` to EMA `e`. */
  function Transition(c: Robust, prev: real, e: real): (m: Robust)
    requires c.state == Approaching ==> c.peakSinceApproach.Finite?
    requires c.state == Here ==> c.herePeak.Finite?
    ensures m.cfg == c.cfg && m.buf == c.buf && m.ema == c.ema && m.last == c.last && m.rising == c.rising
    ensures c.state != Approaching ==> m.falling == c.falling
    ensures HandlerAdvances(c.state, m.state)
    ensures m.state != c.state ==> HandlerRank(m.state) == HandlerRank(c.state) + 1
    ensures m.state == Approaching ==> AtLeast(m.peakSinceApproach, e)
    ensures m.state == Here ==> AtLeast(m.herePeak, e)
    ensures c.state == TooFar ==>
              (m.state == Approaching <==> e >= c.cfg.approachThreshold as real && c.rising >= c.cfg.minRise)
    ensures c.state == TooFar && m.state == Approaching ==> m.peakSinceApproach == Finite(e)
    ensures c.state == Approaching ==>
              (m.state == Here <==>
                 e < prev && (e >= c.cfg.hereThreshold as real || AtLeast(m.peakSinceApproach, c.cfg.hereThreshold as real)))
    ensures c.state == Approaching && m.state == Here ==>
              m.herePeak == Finite(MaxWith(m.peakSinceApproach, e)) && m.falling >= 1
    ensures c.state == Approaching && m.state == Approaching ==> AtLeast(m.peakSinceApproach, c.peakSinceApproach.v)
    ensures c.state == Here ==> AtLeast(m.herePeak, c.herePeak.v)
    ensures c.state == Here ==>
              (m.state == Logged <==> c.falling >= c.cfg.minFall && m.herePeak.v - e >= c.cfg.hysteresis)
  {
    match c.state
    case TooFar => FromTooFar(c, e)
    case Approaching => FromApproaching(c, prev, e)
    case Here => FromHere(c, e)
    case _ => c
  }

  function RunRobust(h: Robust, samples: seq<CalibrationSample>): (r: Robust)
    requires RobustValid(h)
    ensures RobustValid(r) && r.cfg == h.cfg
    ensures HandlerAdvances(h.state, r.state)
    decreases |samples|
  {
    if |samples| == 0 then h
    else
      var p := RunRobust(h, samples[..|samples| - 1]);
      var r := RobustStep(p, samples[|samples| - 1]);
      HandlerAdvancesTransitive(h.state, p.state, r.state);
      r
  }

  predicate AllWithin(xs: seq<int>, lo: int, hi: int) {
    forall i :: 0 <= i < |xs| ==> lo <= xs[i] <= hi
  }

  lemma PushWithin(buf: seq<int>, window: int, x: int, lo: int, hi: int)
    requires 1 <= window && |buf| <= window
    requires AllWithin(buf, lo, hi) && lo <= x <= hi
    ensures AllWithin(Push(buf, window, x), lo, hi)
  {
    var r := Push(buf, window, x);
    forall i | 0 <= i < |r| ensures lo <= r[i] <= hi {
      if i < |r| - 1 {
        var j := if |buf| == window then i + 1 else i;
        assert r[i] == buf[j];
      }
    }
  }

  lemma MedianWithin(buf: seq<int>, lo: int, hi: int)
    requires |buf| > 0 && AllWithin(buf, lo, hi)
    ensures lo as real <= MedianSmooth(buf) <= hi as real
  {
    assert lo <= SeqMin(buf) && SeqMax(buf) <= hi;
  }

  /** One step keeps the window and the EMA inside [lo, hi]. */
  lemma StepWithin(p: Robust, smp: CalibrationSample, lo: int, hi: int)
    requires RobustValid(p) && AllWithin(p.buf, lo, hi) && lo <= smp.rssi <= hi
    requires p.ema.Some? ==> lo as real <= p.ema.value <= hi as real
    ensures var r := RobustStep(p, smp);
            && AllWithin(r.buf, lo, hi)
            && (r.ema.Some? ==> lo as real <= r.ema.value <= hi as real)
  {
    PushWithin(p.buf, p.cfg.medianWindow, smp.rssi, lo, hi);
    var buf := Push(p.buf, p.cfg.medianWindow, smp.rssi);
    MedianWithin(buf, lo, hi);
    var r := RobustStep(p, smp);
    assert r.buf == buf;
  }

  /** The EMA of medians never leaves the range of the readings fed to it: the median lies
      within the window and the clamped weight keeps the mix between its two inputs. */
  lemma {:induction false} RobustEmaWithin(cfg: RobustConfig, samples: seq<CalibrationSample>, lo: int, hi: int)
    requires ConfigValid(cfg)
    requires forall i :: 0 <= i < |samples| ==> lo <= samples[i].rssi <= hi
    ensures var r := RunRobust(NewRobust(cfg), samples);
            && AllWithin(r.buf, lo, hi)
            && (r.ema.Some? ==> lo as real <= r.ema.value <= hi as real)
    decreases |samples|
  {
    var n := |samples|;
    if n > 0 {
      var init := samples[..n - 1];
      RobustEmaWithin(cfg, init, lo, hi);
      var p := RunRobust(NewRobust(cfg), init);
      assert lo <= samples[n - 1].rssi <= hi;
      StepWithin(p, samples[n - 1], lo, hi);
      assert RunRobust(NewRobust(cfg), samples) == RobustStep(p, samples[n - 1]);
    }
  }
}
