/**
 * The production pass state machine (TagProcessor.processSample): an EMA of the RSSI
 * drives FIRST_SAMPLE -> APPROACHING -> HERE -> LOGGED, readings at or below the
 * approaching threshold are ignored, and the highest EMA seen is kept as the peak.
 */
module TagProcessing {
  import opened Wrappers
  import opened TagStates
  import opened Settings

  predicate Between(r: real, a: real, b: real) {
    (a <= r <= b) || (b <= r <= a)
  }

  /** computeExponentialMovingAverage: the new value weighted by `alpha`. */
  function Ema(original: real, alpha: real, current: real): (r: real)
    ensures 0.0 <= alpha <= 1.0 ==> Between(r, original, current)
    ensures r - original == alpha * (current - original)
  {
    EmaMoves(original, alpha, current);
    current * alpha + original * (1.0 - alpha)
  }

  lemma EmaMoves(original: real, alpha: real, current: real)
    ensures var r := current * alpha + original * (1.0 - alpha);
      && r - original == alpha * (current - original)
      && (0.0 <= alpha <= 1.0 ==> Between(r, original, current))
  {
    var r := current * alpha + original * (1.0 - alpha);
    assert r - original == alpha * (current - original);
    if 0.0 <= alpha <= 1.0 {
      if original <= current {
        assert alpha * (current - original) <= current - original;
      } else {
        assert alpha * (original - current) <= original - current;
      }
    }
  }

  /** A step unboxes a null setting, which raises NullPointerException: the approaching
      threshold is always read; for a visible reading the alpha is read unless the pass is
      new, and the arrived threshold is read when the pass is (then) APPROACHING or HERE. */
  predicate ReadsNull(st: TagStatus, s: Setting, rssi: int) {
    || s.approachingThreshold.None?
    || (&& rssi > s.approachingThreshold.value
        && ((st.state != FirstSample && s.rssiAveragingAlpha.None?)
            || (st.state in {FirstSample, Approaching, Here} && s.arrivedThreshold.None?)))
  }

  /** TagProcessor.processSample; `None` where a null setting is unboxed. */
  function ProcessSample(st: TagStatus, s: Setting, rssi: int, nowMs: int): (r: Option<TagStatus>)
    ensures r.None? <==> ReadsNull(st, s, rssi)
    // a reading at or below the approaching threshold leaves the pass untouched
    ensures r.Some? && rssi <= s.approachingThreshold.value ==> r.value == st
    // a visible reading refreshes last-seen and the EMA and can only raise the peak
    ensures r.Some? && rssi > s.approachingThreshold.value ==>
      && r.value.lastSeenMs == nowMs
      && r.value.emaRssi == (if st.state == FirstSample then rssi as real
                             else Ema(st.emaRssi, s.rssiAveragingAlpha.value, rssi as real))
      && r.value.peakRssi >= st.peakRssi && r.value.peakRssi >= r.value.emaRssi
      && (r.value.peakRssi > st.peakRssi ==> r.value.peakRssi == r.value.emaRssi && r.value.peakTimeMs == nowMs)
      && (r.value.peakRssi == st.peakRssi ==> r.value.peakTimeMs == st.peakTimeMs)
    // identity never changes and the state only moves forward
    ensures r.Some? ==>
      && r.value.trackId == st.trackId && r.value.tagId == st.tagId
      && r.value.friendlyName == st.friendlyName && r.value.entryTimeMs == st.entryTimeMs
      && Advances(st.state, r.value.state)
    // a visible reading promotes a new pass to APPROACHING at least, and never past HERE
    ensures r.Some? && rssi > s.approachingThreshold.value && st.state in {FirstSample, Approaching} ==>
      r.value.state in {Approaching, Here}
    // only a pass that was HERE can be logged, and a HERE pass stays HERE or is logged
    ensures r.Some? && r.value.state == Logged && st.state != Logged ==> st.state == Here
    ensures r.Some? && st.state == Here ==> r.value.state in {Here, Logged}
    // arrival: into HERE exactly when the EMA reaches the arrived threshold
    ensures r.Some? ==>
      (r.value.state == Here && st.state != Here <==>
        && st.state in {FirstSample, Approaching} && rssi > s.approachingThreshold.value
        && r.value.emaRssi >= s.arrivedThreshold.value as real)
    // departure: HERE becomes LOGGED exactly when the EMA drops below it, stamping the exit
    ensures r.Some? ==>
      (st.state == Here && r.value.state == Logged <==>
        && st.state == Here && rssi > s.approachingThreshold.value
        && r.value.emaRssi < s.arrivedThreshold.value as real)
    ensures r.Some? ==>
      r.value.exitTimeMs == (if st.state == Here && r.value.state == Logged then nowMs else st.exitTimeMs)
    // TOO_FAR, LOGGED and TIMED_OUT never change state here
    ensures r.Some? && st.state in {TooFar, Logged, TimedOut} ==> r.value.state == st.state
  {
    if s.approachingThreshold.None? then None
    else if rssi <= s.approachingThreshold.value then Some(st)
    else
      var seen := st.(lastSeenMs := nowMs);
      if seen.state != FirstSample && s.rssiAveragingAlpha.None? then None
      else
        var smoothed :=
          if seen.state == FirstSample then seen.(state := Approaching, emaRssi := rssi as real)
          else seen.(emaRssi := Ema(seen.emaRssi, s.rssiAveragingAlpha.value, rssi as real));
        var peaked :=
          if smoothed.emaRssi > smoothed.peakRssi then smoothed.(peakRssi := smoothed.emaRssi, peakTimeMs := smoothed.lastSeenMs)
          else smoothed;
        if peaked.state == Approaching then
          if s.arrivedThreshold.None? then None
          else if peaked.emaRssi >= s.arrivedThreshold.value as real then Some(peaked.(state := Here))
          else Some(peaked)
        else if peaked.state == Here then
          if s.arrivedThreshold.None? then None
          else if peaked.emaRssi < s.arrivedThreshold.value as real then
            Some(peaked.(state := Logged, exitTimeMs := peaked.lastSeenMs))
          else Some(peaked)
        else Some(peaked)
  }

  /** Feeds readings `(rssi, nowMs)` to `processSample` one after another; `None` once a
      step raises. */
  function ProcessAll(st: TagStatus, s: Setting, readings: seq<(int, int)>): Option<TagStatus>
    decreases |readings|
  {
    if |readings| == 0 then Some(st)
    else
      match ProcessSample(st, s, readings[0].0, readings[0].1)
      case None => None
      case Some(next) => ProcessAll(next, s, readings[1..])
  }

  /** Over any run of readings the state only moves forward, the peak never drops and the
      pass keeps its identity. In particular a LOGGED pass stays LOGGED. */
  lemma {:induction false} ProcessAllMonotone(st: TagStatus, s: Setting, readings: seq<(int, int)>)
    decreases |readings|
    ensures ProcessAll(st, s, readings).Some? ==>
      var r := ProcessAll(st, s, readings).value;
      && Advances(st.state, r.state)
      && r.peakRssi >= st.peakRssi
      && r.trackId == st.trackId && r.tagId == st.tagId && r.entryTimeMs == st.entryTimeMs
  {
    if |readings| > 0 {
      var step := ProcessSample(st, s, readings[0].0, readings[0].1);
      if step.Some? {
        ProcessAllMonotone(step.value, s, readings[1..]);
        if ProcessAll(st, s, readings).Some? {
          AdvancesTransitive(st.state, step.value.state, ProcessAll(st, s, readings).value.state);
        }
      }
    }
  }

  /** `isInProcess` over a run: a pass that has left processing (LOGGED) never re-enters it,
      and a pass still in process after the run was in process before it. */
  lemma LoggedStaysOutOfProcess(st: TagStatus, s: Setting, readings: seq<(int, int)>)
    ensures ProcessAll(st, s, readings).Some? && !IsInProcess(st) ==>
      !IsInProcess(ProcessAll(st, s, readings).value)
  {
    ProcessAllMonotone(st, s, readings);
  }

  /** With the default settings (alpha 0.3, approaching -90, arrived -70) a new pass seen at
      -60 dBm is promoted and arrives in the same step. */
  lemma FirstStrongReadingArrives(tagId: int, nowMs: int)
    ensures var st := NewTagStatus(tagId, Some(""), nowMs, FirstSample);
      ProcessSample(st, DefaultSetting(), -60, nowMs + 5) ==
        Some(st.(state := Here, emaRssi := -60.0, lastSeenMs := nowMs + 5, peakRssi := -60.0, peakTimeMs := nowMs + 5))
  {
  }
}
