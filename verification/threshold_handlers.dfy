/**
 * The two threshold calibration handlers: NonConsecutiveThresholdHandler counts strong and
 * weak readings wherever they fall, TimeBasedExitHandler enters HERE on an EMA threshold and
 * logs a fixed delay later. A handler is a value here: `init()` gives the fresh value and
 * `acceptSample` the next one, whose `state` is what the Java method returns.
 */
module ThresholdHandlers {
  import opened Wrappers
  import opened Samples
  import opened TagStates
  import opened TagProcessing

  /** NonConsecutiveThresholdHandler: the threshold, the number of readings needed, the two
      counters and the current state. */
  datatype NonConsecutive = NonConsecutive(threshold: int, needed: int, above: nat, below: nat, state: TagStatusState)

  /** The constructor followed by `init()`: `samplesNeeded` raised to at least 1, both
      counters zero, TOO_FAR. */
  function NewNonConsecutive(hereThresholdDbm: int, samplesNeeded: int): (h: NonConsecutive)
    ensures h.needed >= 1 && (samplesNeeded >= 1 ==> h.needed == samplesNeeded)
    ensures h.threshold == hereThresholdDbm && h.above == 0 && h.below == 0 && h.state == TooFar
  {
    NonConsecutive(hereThresholdDbm, if samplesNeeded < 1 then 1 else samplesNeeded, 0, 0, TooFar)
  }

  /** The states the handler can be in: outside HERE fewer than `needed` strong readings are
      pending, inside HERE fewer than `needed` weak ones, and LOGGED never occurs. */
  predicate NonConsecutiveValid(h: NonConsecutive) {
    && h.needed >= 1
    && (h.state == TooFar || h.state == Approaching || h.state == Here)
    && (h.state != Here ==> h.above < h.needed)
    && (h.state == Here ==> h.below < h.needed)
  }

  /** `init()` on a handler in use: the same as constructing it afresh. */
  function ResetNonConsecutive(h: NonConsecutive): (r: NonConsecutive)
    ensures h.needed >= 1 ==> r == NewNonConsecutive(h.threshold, h.needed)
    ensures NonConsecutiveValid(r)
  {
    NonConsecutive(h.threshold, if h.needed < 1 then 1 else h.needed, 0, 0, TooFar)
  }

  function Bit(b: bool): nat { if b then 1 else 0 }

  /** `acceptSample`: a strong reading (at or above the threshold) counts up `above`, any
      other reading counts up `below`; then the state machine moves. */
  function NonConsecutiveStep(h: NonConsecutive, s: CalibrationSample): (r: NonConsecutive)
    ensures r.threshold == h.threshold && r.needed == h.needed
    ensures (h.state == TooFar || h.state == Approaching) ==>
              && (r.state == Here <==> h.above + Bit(s.rssi >= h.threshold) >= h.needed)
              && (r.state != Here ==> r.state == Approaching)
              && (r.state == Here ==> r.below == 0)
    ensures h.state == Here ==>
              && (r.state == TooFar <==> h.below + Bit(s.rssi < h.threshold) >= h.needed)
              && (r.state != TooFar ==> r.state == Here)
              && (r.state == TooFar ==> r.above == 0)
    ensures !(h.state == TooFar || h.state == Approaching || h.state == Here) ==> r.state == h.state
    // every reading counts, and only the transition it causes clears the opposite counter
    ensures r.above == (if h.state == Here && r.state == TooFar then 0 else h.above + Bit(s.rssi >= h.threshold))
    ensures r.below == (if (h.state == TooFar || h.state == Approaching) && r.state == Here then 0
                        else h.below + Bit(s.rssi < h.threshold))
    ensures r.state == TooFar ==> h.state != TooFar && h.state != Approaching
    ensures NonConsecutiveValid(h) ==> NonConsecutiveValid(r)
  {
    var above := h.above + Bit(s.rssi >= h.threshold);
    var below := h.below + Bit(s.rssi < h.threshold);
    match h.state
    case TooFar | Approaching =>
      if above >= h.needed then h.(above := above, below := 0, state := Here)
      else h.(above := above, below := below, state := Approaching)
    case Here =>
      if below >= h.needed then h.(above := 0, below := below, state := TooFar)
      else h.(above := above, below := below)
    case _ => h.(above := above, below := below)
  }

  /** The handler after a sequence of samples, fed in order. */
  function RunNonConsecutive(h: NonConsecutive, samples: seq<CalibrationSample>): (r: NonConsecutive)
    ensures r.threshold == h.threshold && r.needed == h.needed
    ensures NonConsecutiveValid(h) ==> NonConsecutiveValid(r) && r.state != Logged
    decreases |samples|
  {
    if |samples| == 0 then h
    else NonConsecutiveStep(RunNonConsecutive(h, samples[..|samples| - 1]), samples[|samples| - 1])
  }

  /** Number of readings at or above `threshold`. */
  function StrongCount(samples: seq<CalibrationSample>, threshold: int): nat
    decreases |samples|
  {
    if |samples| == 0 then 0
    else StrongCount(samples[..|samples| - 1], threshold) + Bit(samples[|samples| - 1].rssi >= threshold)
  }

  /** Until `needed` strong readings have arrived, a fresh handler sits in APPROACHING after
      the first sample and its counters hold exactly the strong and weak readings seen. */
  lemma {:induction false} NonConsecutiveBeforeHere(threshold: int, needed: int, samples: seq<CalibrationSample>)
    requires StrongCount(samples, threshold) < NewNonConsecutive(threshold, needed).needed
    ensures var r := RunNonConsecutive(NewNonConsecutive(threshold, needed), samples);
            && r.above == StrongCount(samples, threshold)
            && r.below == |samples| - StrongCount(samples, threshold)
            && (|samples| > 0 ==> r.state == Approaching)
  {
    if |samples| > 0 {
      var init := samples[..|samples| - 1];
      NonConsecutiveBeforeHere(threshold, needed, init);
    }
  }

  /** A fresh handler reaches HERE on the `needed`-th strong reading, however many weak
      readings came in between. */
  lemma NonConsecutiveEntersHere(threshold: int, needed: int, samples: seq<CalibrationSample>)
    requires |samples| > 0
    requires StrongCount(samples[..|samples| - 1], threshold) < NewNonConsecutive(threshold, needed).needed
    requires NewNonConsecutive(threshold, needed).needed <= StrongCount(samples, threshold)
    ensures RunNonConsecutive(NewNonConsecutive(threshold, needed), samples).state == Here
  {
    var init := samples[..|samples| - 1];
    NonConsecutiveBeforeHere(threshold, needed, init);
    if |init| == 0 {
      assert RunNonConsecutive(NewNonConsecutive(threshold, needed), init).state == TooFar;
    }
  }

  /** TimeBasedExitHandler: the EMA weight, HERE threshold and LOGGED delay, the EMA (absent
      until the first sample), the state and when HERE began. */
  datatype TimeExit = TimeExit(alpha: real, threshold: int, delayMs: int, ema: Option<real>, state: TagStatusState, hereStartMs: Option<int>)

  /** The constructor followed by `init()`: a negative delay becomes 0, no EMA, TOO_FAR. */
  function NewTimeExit(alpha: real, hereThresholdDbm: int, loggedDelayMs: int): (h: TimeExit)
    ensures h.delayMs >= 0 && (loggedDelayMs >= 0 ==> h.delayMs == loggedDelayMs)
    ensures h.alpha == alpha && h.threshold == hereThresholdDbm
    ensures h.ema.None? && h.state == TooFar && h.hereStartMs.None?
  {
    TimeExit(alpha, hereThresholdDbm, if loggedDelayMs < 0 then 0 else loggedDelayMs, None, TooFar, None)
  }

  /** The states the handler can be in: a HERE or LOGGED handler knows when HERE began, and
      only a handler that has seen no sample is TOO_FAR. */
  predicate TimeExitValid(h: TimeExit) {
    && h.delayMs >= 0
    && (h.state == TooFar || h.state == Approaching || h.state == Here || h.state == Logged)
    && (h.state == Here || h.state == Logged ==> h.hereStartMs.Some?)
    && (h.state == TooFar <==> h.ema.None?)
  }

  /** `acceptSample`: the first reading seeds the EMA, later ones are mixed in with weight
      `alpha`; then the state machine moves, and LOGGED is sticky. */
  function TimeExitStep(h: TimeExit, s: CalibrationSample): (r: TimeExit)
    ensures r.alpha == h.alpha && r.threshold == h.threshold && r.delayMs == h.delayMs
    ensures r.ema.Some? && (h.ema.None? ==> r.ema.value == s.rssi as real)
    ensures h.ema.Some? ==> r.ema == Some(Ema(h.ema.value, h.alpha, s.rssi as real))
    ensures h.ema.Some? && 0.0 <= h.alpha <= 1.0 ==> Between(r.ema.value, h.ema.value, s.rssi as real)
    ensures HandlerAdvances(h.state, r.state)
    ensures (h.state == TooFar || h.state == Approaching) ==>
              && (r.state == Here <==> r.ema.value >= h.threshold as real)
              && (r.state == Here ==> r.hereStartMs == Some(s.timestampMs))
              && (r.state != Here ==> r.state == Approaching)
    ensures h.state == Here ==>
              (r.state == Logged <==> h.hereStartMs.Some? && s.timestampMs - h.hereStartMs.value >= h.delayMs)
    ensures r.state == Logged && h.state != Logged ==> h.state == Here
    ensures h.state != TooFar && h.state != Approaching ==> r.hereStartMs == h.hereStartMs
    ensures TimeExitValid(h) ==> TimeExitValid(r)
  {
    var e := if h.ema.None? then s.rssi as real else Ema(h.ema.value, h.alpha, s.rssi as real);
    var h := h.(ema := Some(e));
    match h.state
    case TooFar | Approaching =>
      if e >= h.threshold as real then h.(state := Here, hereStartMs := Some(s.timestampMs))
      else h.(state := Approaching)
    case Here =>
      if h.hereStartMs.Some? && s.timestampMs - h.hereStartMs.value >= h.delayMs then h.(state := Logged)
      else h
    case _ => h
  }

  function RunTimeExit(h: TimeExit, samples: seq<CalibrationSample>): (r: TimeExit)
    ensures r.alpha == h.alpha && r.threshold == h.threshold && r.delayMs == h.delayMs
    ensures HandlerAdvances(h.state, r.state)
    ensures TimeExitValid(h) ==> TimeExitValid(r)
    decreases |samples|
  {
    if |samples| == 0 then h
    else
      var p := RunTimeExit(h, samples[..|samples| - 1]);
      var r := TimeExitStep(p, samples[|samples| - 1]);
      HandlerAdvancesTransitive(h.state, p.state, r.state);
      r
  }

  /** When a fresh handler has logged, HERE began at the timestamp of one of the samples and
      some later-or-equal sample came at least the delay after it. */
  lemma {:induction false} TimeExitLogsAfterDelay(alpha: real, threshold: int, delay: int, samples: seq<CalibrationSample>)
    requires RunTimeExit(NewTimeExit(alpha, threshold, delay), samples).state == Logged
    ensures var r := RunTimeExit(NewTimeExit(alpha, threshold, delay), samples);
            && r.hereStartMs.Some?
            && exists i, j :: 0 <= i <= j < |samples| && samples[i].timestampMs == r.hereStartMs.value
                 && samples[j].timestampMs - samples[i].timestampMs >= r.delayMs
  {
    var h0 := NewTimeExit(alpha, threshold, delay);
    var n := |samples|;
    assert n > 0;
    var init := samples[..n - 1];
    var p := RunTimeExit(h0, init);
    var r := TimeExitStep(p, samples[n - 1]);
    if p.state == Logged {
      TimeExitLogsAfterDelay(alpha, threshold, delay, init);
      var i, j :| 0 <= i <= j < |init| && init[i].timestampMs == p.hereStartMs.value
                  && init[j].timestampMs - init[i].timestampMs >= p.delayMs;
      assert samples[i] == init[i] && samples[j] == init[j];
    } else {
      assert p.state == Here;
      TimeExitHereStart(alpha, threshold, delay, init);
      var i :| 0 <= i < |init| && init[i].timestampMs == p.hereStartMs.value;
      assert samples[i] == init[i];
    }
  }

  /** While a fresh handler is HERE, HERE began at the timestamp of one of the samples. */
  lemma {:induction false} TimeExitHereStart(alpha: real, threshold: int, delay: int, samples: seq<CalibrationSample>)
    requires RunTimeExit(NewTimeExit(alpha, threshold, delay), samples).state == Here
    ensures var r := RunTimeExit(NewTimeExit(alpha, threshold, delay), samples);
            r.hereStartMs.Some? && exists i :: 0 <= i < |samples| && samples[i].timestampMs == r.hereStartMs.value
  {
    var h0 := NewTimeExit(alpha, threshold, delay);
    var n := |samples|;
    assert n > 0;
    var init := samples[..n - 1];
    var p := RunTimeExit(h0, init);
    if p.state == Here {
      TimeExitHereStart(alpha, threshold, delay, init);
      var i :| 0 <= i < |init| && init[i].timestampMs == p.hereStartMs.value;
      assert samples[i] == init[i];
    } else {
      assert RunTimeExit(h0, samples).hereStartMs == Some(samples[n - 1].timestampMs);
    }
  }

  /** With a weight in [0, 1] the EMA never leaves the range of the readings fed to it. */
  lemma {:induction false} TimeExitEmaWithin(h: TimeExit, samples: seq<CalibrationSample>, lo: int, hi: int)
    requires h.ema.None? && 0.0 <= h.alpha <= 1.0
    requires forall i :: 0 <= i < |samples| ==> lo <= samples[i].rssi <= hi
    ensures var r := RunTimeExit(h, samples);
            r.ema.Some? ==> lo as real <= r.ema.value <= hi as real
  {
    if |samples| > 0 {
      var init := samples[..|samples| - 1];
      TimeExitEmaWithin(h, init, lo, hi);
      assert lo <= samples[|samples| - 1].rssi <= hi;
    }
  }
}
