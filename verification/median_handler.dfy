/**
 * The slope-driven state machine shared by the smoothing calibration handlers
 * (AbstractRssiHandler) and its median-of-window smoother (MedianRssiHandler). The machine
 * sees one smoothed value per sample, counts rising and falling steps, and moves
 * TOO_FAR -> APPROACHING -> HERE -> LOGGED.
 */
module MedianHandler {
  import opened Wrappers
  import opened Samples
  import opened TagStates
  import opened Medians
  import opened Ints

  const APPROACH_THRESHOLD: int := -90
  const HERE_THRESHOLD: int := -80
  const FALLBACK_MIN_RISE_SAMPLES: nat := 3
  const FALL_CONFIRM_DROP_SAMPLES: nat := 2

  /** AbstractRssiHandler's fields. `last` is `None` where Java holds negative infinity, that
      is, before the first smoothed value. */
  datatype SlopeFsm = SlopeFsm(state: TagStatusState, rising: nat, falling: nat, last: Option<real>, seenTop: bool)

  /** `init()`: TOO_FAR, no counts, no previous value. */
  function FreshFsm(): (f: SlopeFsm)
    ensures f.state == TooFar && f.rising == 0 && f.falling == 0 && f.last.None? && !f.seenTop
  {
    SlopeFsm(TooFar, 0, 0, None, false)
  }

  /** `acceptSample` after smoothing: the first value is only remembered; later a rise counts
      up `rising` and clears `falling`, a fall counts up `falling` (leaving `rising` alone)
      and, while APPROACHING, marks that the top has passed. Then the state moves. */
  function SlopeStep(f: SlopeFsm, val: real): (r: SlopeFsm)
    ensures r.last == Some(val)
    ensures f.last.None? ==> r == f.(last := Some(val))
    ensures r.rising >= f.rising
    ensures f.last.Some? && val > f.last.value ==> r.rising == f.rising + 1 && r.falling == 0
    ensures f.last.Some? && val < f.last.value ==> r.rising == f.rising && r.falling == f.falling + 1
    ensures f.last.Some? && val == f.last.value ==> r.rising == f.rising && r.falling == f.falling
    // only a fall while APPROACHING marks the top as passed; the mark is never cleared
    ensures f.last.Some? ==> (r.seenTop <==> f.seenTop || (val < f.last.value && f.state == Approaching))
    ensures HandlerAdvances(f.state, r.state)
    ensures f.state == TooFar && f.last.Some? ==>
              (r.state == Approaching <==> val >= APPROACH_THRESHOLD as real && r.rising >= FALLBACK_MIN_RISE_SAMPLES)
    ensures f.state == Approaching && f.last.Some? ==> (r.state == Here <==> r.seenTop && val >= HERE_THRESHOLD as real)
    ensures f.state == Here && f.last.Some? ==> (r.state == Logged <==> r.falling >= FALL_CONFIRM_DROP_SAMPLES)
    ensures r.state != f.state ==> HandlerRank(r.state) == HandlerRank(f.state) + 1
  {
    match f.last
    case None => f.(last := Some(val))
    case Some(prev) =>
      var f :=
        if val > prev then f.(rising := f.rising + 1, falling := 0)
        else if val < prev then f.(falling := f.falling + 1, seenTop := f.seenTop || f.state == Approaching)
        else f;
      var state :=
        match f.state
        case TooFar =>
          if val >= APPROACH_THRESHOLD as real && f.rising >= FALLBACK_MIN_RISE_SAMPLES then Approaching else TooFar
        case Approaching => if f.seenTop && val >= HERE_THRESHOLD as real then Here else Approaching
        case Here => if f.falling >= FALL_CONFIRM_DROP_SAMPLES then Logged else Here
        case _ => f.state;
      f.(state := state, last := Some(val))
  }

  /** The machine after a sequence of smoothed values. */
  function RunFsm(f: SlopeFsm, vals: seq<real>): (r: SlopeFsm)
    ensures r.rising >= f.rising
    ensures HandlerAdvances(f.state, r.state)
    decreases |vals|
  {
    if |vals| == 0 then f
    else
      var p := RunFsm(f, vals[..|vals| - 1]);
      var r := SlopeStep(p, vals[|vals| - 1]);
      HandlerAdvancesTransitive(f.state, p.state, r.state);
      r
  }

  /** Number of strict rises between consecutive values. */
  function Rises(vals: seq<real>): nat
    decreases |vals|
  {
    if |vals| < 2 then 0
    else Rises(vals[..|vals| - 1]) + (if vals[|vals| - 1] > vals[|vals| - 2] then 1 else 0)
  }

  /** Because a fall never clears it, `rising` counts every rise since `init()`, not just
      the current run of rises. */
  lemma {:induction false} RisingCountsAllRises(vals: seq<real>)
    ensures RunFsm(FreshFsm(), vals).rising == Rises(vals)
    ensures |vals| > 0 ==> RunFsm(FreshFsm(), vals).last == Some(vals[|vals| - 1])
    decreases |vals|
  {
    if |vals| > 0 {
      var init := vals[..|vals| - 1];
      RisingCountsAllRises(init);
      if |init| > 0 {
        assert init[|init| - 1] == vals[|vals| - 2];
      }
    }
  }

  /** A single rise then a single fall then a rise again leaves a count of two rises: the fall
      in between does not reset the count (the source comment speaks of consecutive rises). */
  lemma RisesSurviveFalls()
    ensures RunFsm(FreshFsm(), [-95.0, -94.0, -96.0, -93.0]).rising == 2
  {
    var v := [-95.0, -94.0, -96.0, -93.0];
    RisingCountsAllRises(v);
    assert v[..3] == [-95.0, -94.0, -96.0] && v[..3][..2] == [-95.0, -94.0] && v[..3][..2][..1] == [-95.0];
    assert Rises(v[..3][..2]) == 1;
    assert Rises(v[..3]) == 1;
  }

  /** MedianRssiHandler: the window size, the last readings and the machine. */
  datatype MedianRssi = MedianRssi(window: int, buf: seq<int>, fsm: SlopeFsm)

  /** The constructor followed by `init()`: the window raised to at least 1, an empty buffer
      and a fresh machine. */
  function NewMedianRssi(window: int): (h: MedianRssi)
    ensures h.window >= 1 && (window >= 1 ==> h.window == window)
    ensures h.buf == [] && h.fsm == FreshFsm()
  {
    MedianRssi(if window < 1 then 1 else window, [], FreshFsm())
  }

  /** The buffer after one more reading: the oldest is dropped when the window is full. */
  function Push(buf: seq<int>, window: int, rssi: int): (r: seq<int>)
    requires 1 <= window && |buf| <= window
    ensures 1 <= |r| <= window && r[|r| - 1] == rssi
    ensures |buf| < window ==> r == buf + [rssi]
    ensures |buf| == window ==> r == buf[1..] + [rssi]
  {
    (if |buf| == window then buf[1..] else buf) + [rssi]
  }

  /** `smooth`: the median of the window (the mean of the two middle readings for an even
      count), which lies between the window's least and greatest readings. */
  function MedianSmooth(buf: seq<int>): (m: real)
    requires |buf| > 0
    ensures SeqMin(buf) as real <= m <= SeqMax(buf) as real
    ensures Count(buf, x => x as real <= m) >= (|buf| + 1) / 2
    ensures Count(buf, x => x as real >= m) >= (|buf| + 1) / 2
    ensures forall s {:trigger Ascending(s)} :: |s| == |buf| && multiset(s) == multiset(buf) && Ascending(s) ==>
              m == MeanOfMiddles(s)
  {
    MeanMedian(buf)
  }

  /** `acceptSample`: push the reading, smooth, and step the machine on the smoothed value. */
  function MedianStep(h: MedianRssi, s: CalibrationSample): (r: MedianRssi)
    requires 1 <= h.window && |h.buf| <= h.window
    ensures r.window == h.window && |r.buf| <= r.window
    ensures r.buf == Push(h.buf, h.window, s.rssi)
    ensures r.fsm.last == Some(MedianSmooth(r.buf))
    ensures HandlerAdvances(h.fsm.state, r.fsm.state)
  {
    var buf := Push(h.buf, h.window, s.rssi);
    h.(buf := buf, fsm := SlopeStep(h.fsm, MedianSmooth(buf)))
  }

  function RunMedian(h: MedianRssi, samples: seq<CalibrationSample>): (r: MedianRssi)
    requires 1 <= h.window && |h.buf| <= h.window
    ensures r.window == h.window && |r.buf| <= r.window
    ensures HandlerAdvances(h.fsm.state, r.fsm.state)
    decreases |samples|
  {
    if |samples| == 0 then h
    else
      var p := RunMedian(h, samples[..|samples| - 1]);
      var r := MedianStep(p, samples[|samples| - 1]);
      HandlerAdvancesTransitive(h.fsm.state, p.fsm.state, r.fsm.state);
      r
  }

  lemma SliceExtend(xs: seq<int>, a: nat, n: nat)
    requires a < n <= |xs|
    ensures xs[a..n - 1] + [xs[n - 1]] == xs[a..n]
  {
  }

  /** The window after pushing every reading of `samples` into an empty buffer. */
  function Window(window: int, samples: seq<CalibrationSample>): (r: seq<int>)
    requires window >= 1
    ensures |r| <= window
    decreases |samples|
  {
    if |samples| == 0 then []
    else Push(Window(window, samples[..|samples| - 1]), window, samples[|samples| - 1].rssi)
  }

  /** The window holds the last `window` readings (all of them while fewer have arrived),
      oldest first. */
  lemma {:induction false} WindowIsLastReadings(window: int, samples: seq<CalibrationSample>)
    requires window >= 1
    ensures var buf := Window(window, samples);
            && |buf| == Min(|samples|, window)
            && forall i :: 0 <= i < |buf| ==> buf[i] == samples[|samples| - |buf| + i].rssi
    decreases |samples|
  {
    var n := |samples|;
    if n > 0 {
      var init := samples[..n - 1];
      WindowIsLastReadings(window, init);
      var p := Window(window, init);
      var buf := Window(window, samples);
      forall i | 0 <= i < |buf|
        ensures buf[i] == samples[n - |buf| + i].rssi
      {
        if i < |buf| - 1 {
          var j := if |p| == window then i + 1 else i;
          assert buf[i] == p[j];
          assert p[j] == init[n - 1 - |p| + j].rssi;
        }
      }
    }
  }

  /** A fresh handler's buffer is the window of the readings it has been fed. */
  lemma {:induction false} MedianBufferIsWindow(window: int, samples: seq<CalibrationSample>)
    ensures var h := NewMedianRssi(window);
            RunMedian(h, samples).buf == Window(h.window, samples)
    decreases |samples|
  {
    if |samples| > 0 {
      MedianBufferIsWindow(window, samples[..|samples| - 1]);
    }
  }
}
