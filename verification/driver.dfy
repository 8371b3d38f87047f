/**
 * The calibration driver (DriverMain and TestResult): each handler is run over a file's
 * filtered samples, the first time it enters APPROACHING, HERE and LOGGED is recorded, the
 * peak is searched for only among the samples up to LOGGED, and every recorded time is
 * pinned to a raw sample (the exact timestamp, or the nearest one).
 */
module Driver {
  import opened Wrappers
  import opened Text
  import opened Samples
  import opened TagStates
  import opened Settings
  import opened Sorting
  import opened PeakFinding
  import opened ThresholdHandlers
  import opened MedianHandler
  import opened RobustHandler

  /** The epoch that every plotted timestamp is measured from. */
  const BASE_TS: int := 1761170000000

  // ---------------------------------------------------------------- prefix cut

  /** cutSamplesAtOrBefore: the samples up to, not including, the first one later than the
      cutoff. It is a prefix, not a filter: nothing after that sample is kept. */
  function CutAtOrBefore(samples: seq<CalibrationSample>, cutoffTs: int): (r: seq<CalibrationSample>)
    ensures |r| <= |samples| && r == samples[..|r|]
    ensures forall i :: 0 <= i < |r| ==> r[i].timestampMs <= cutoffTs
    ensures |r| < |samples| ==> samples[|r|].timestampMs > cutoffTs
  {
    if |samples| == 0 || samples[0].timestampMs > cutoffTs then []
    else [samples[0]] + CutAtOrBefore(samples[1..], cutoffTs)
  }

  /** The samples at or before the cutoff, wherever they are. */
  function AtOrBefore(samples: seq<CalibrationSample>, cutoffTs: int): seq<CalibrationSample> {
    if |samples| == 0 then []
    else (if samples[0].timestampMs <= cutoffTs then [samples[0]] else []) + AtOrBefore(samples[1..], cutoffTs)
  }

  predicate TimeOrdered(samples: seq<CalibrationSample>) {
    forall i, j :: 0 <= i < j < |samples| ==> samples[i].timestampMs <= samples[j].timestampMs
  }

  /** On samples in time order the cut keeps exactly the samples at or before the cutoff. */
  lemma {:induction false} CutOfOrderedIsFilter(samples: seq<CalibrationSample>, cutoffTs: int)
    requires TimeOrdered(samples)
    ensures CutAtOrBefore(samples, cutoffTs) == AtOrBefore(samples, cutoffTs)
  {
    if |samples| > 0 {
      CutOfOrderedIsFilter(samples[1..], cutoffTs);
      if samples[0].timestampMs > cutoffTs {
        NoneAtOrBefore(samples[1..], cutoffTs);
      }
    }
  }

  lemma {:induction false} NoneAtOrBefore(samples: seq<CalibrationSample>, cutoffTs: int)
    requires forall i :: 0 <= i < |samples| ==> samples[i].timestampMs > cutoffTs
    ensures AtOrBefore(samples, cutoffTs) == []
  {
    if |samples| > 0 {
      NoneAtOrBefore(samples[1..], cutoffTs);
    }
  }

  /** Out of time order the two differ: a late sample after an early one is lost. */
  lemma CutIsNotFilter()
    ensures var s := [CalibrationSample(0, 5, -60, -60), CalibrationSample(0, 10, -55, -55), CalibrationSample(0, 3, -70, -70)];
            CutAtOrBefore(s, 5) == [s[0]] && AtOrBefore(s, 5) == [s[0], s[2]]
  {
    var s := [CalibrationSample(0, 5, -60, -60), CalibrationSample(0, 10, -55, -55), CalibrationSample(0, 3, -70, -70)];
    assert s[1..][1..] == [s[2]] && s[1..][1..][1..] == [];
  }

  // ---------------------------------------------------------------- TestResult

  /** TestResult: the first timestamp recorded for each state. */
  datatype TestResult = TestResult(firstSeen: map<TagStatusState, int>)

  /** `record`: `putIfAbsent`, so only the first timestamp of a state is kept. */
  function Record(tr: TestResult, state: TagStatusState, ts: int): (r: TestResult)
    ensures state in r.firstSeen
    ensures state in tr.firstSeen ==> r == tr
    ensures state !in tr.firstSeen ==> r.firstSeen[state] == ts
    ensures forall s :: s != state ==>
              (s in r.firstSeen <==> s in tr.firstSeen) && (s in tr.firstSeen ==> r.firstSeen[s] == tr.firstSeen[s])
  {
    if state in tr.firstSeen then tr else TestResult(tr.firstSeen[state := ts])
  }

  /** Recording a state a second time changes nothing. */
  lemma RecordIdempotent(tr: TestResult, state: TagStatusState, t1: int, t2: int)
    ensures Record(Record(tr, state, t1), state, t2) == Record(tr, state, t1)
  {
  }

  /** `getOrX`: the decimal timestamp, or "X" when the state was never recorded. */
  function GetOrX(tr: TestResult, s: TagStatusState): (r: string)
    ensures r == "X" <==> s !in tr.firstSeen
    ensures s in tr.firstSeen ==> ParseDecimal(r) == Some(tr.firstSeen[s])
  {
    if s in tr.firstSeen then
      var t := IntToString(tr.firstSeen[s]);
      ParseIntToString(tr.firstSeen[s]);
      assert t[0] == '-' || IsDigit(t[0]);
      t
    else "X"
  }

  /** parseLongOrNull: null for null, "X" or anything `Long.parseLong` rejects. */
  function ParseLongOrNull(s: Option<string>): (r: Option<int>)
    ensures s.None? || s == Some("X") ==> r.None?
    ensures r.Some? ==> LONG_MIN <= r.value <= LONG_MAX && ParseDecimal(s.value) == r
    ensures s.Some? && s.value != "X" ==> r == ParseJavaLong(s.value)
  {
    if s.None? || s.value == "X" then None else ParseJavaLong(s.value)
  }

  /** What `getOrX` writes, `parseLongOrNull` reads back. */
  lemma GetOrXParsesBack(tr: TestResult, s: TagStatusState)
    requires s in tr.firstSeen ==> LONG_MIN <= tr.firstSeen[s] <= LONG_MAX
    ensures ParseLongOrNull(Some(GetOrX(tr, s))) == if s in tr.firstSeen then Some(tr.firstSeen[s]) else None
  {
    if s in tr.firstSeen {
      ParseJavaLongToString(tr.firstSeen[s]);
    }
  }

  // ---------------------------------------------------------------- transitions

  predicate Pinned(s: TagStatusState) { s == Approaching || s == Here || s == Logged }

  /** The recording loop's state: the previous handler state and the results so far. */
  datatype Tracker = Tracker(prev: TagStatusState, result: TestResult)

  /** The loop over a handler's returned states: starting from TOO_FAR, a state that differs
      from the previous one is recorded when it is APPROACHING, HERE or LOGGED. */
  function RecordTransitions(states: seq<TagStatusState>, ts: seq<int>): (r: Tracker)
    requires |states| == |ts|
    ensures |states| == 0 ==> r.prev == TooFar
    ensures |states| > 0 ==> r.prev == states[|states| - 1]
    ensures forall s :: s in r.result.firstSeen ==> Pinned(s)
    decreases |states|
  {
    if |states| == 0 then Tracker(TooFar, TestResult(map[]))
    else
      var n := |states|;
      var p := RecordTransitions(states[..n - 1], ts[..n - 1]);
      var cur := states[n - 1];
      if cur != p.prev then
        Tracker(cur, if Pinned(cur) then Record(p.result, cur, ts[n - 1]) else p.result)
      else p
  }

  function FirstIndex(states: seq<TagStatusState>, s: TagStatusState): (i: nat)
    requires s in states
    ensures i < |states| && states[i] == s
    ensures forall j :: 0 <= j < i ==> states[j] != s
  {
    if states[0] == s then 0 else 1 + FirstIndex(states[1..], s)
  }

  /** APPROACHING, HERE and LOGGED are recorded exactly when the handler returned them at
      least once, each with the timestamp of the first sample that returned it. */
  lemma {:induction false} TransitionsRecordFirstOccurrence(states: seq<TagStatusState>, ts: seq<int>, s: TagStatusState)
    requires |states| == |ts| && Pinned(s)
    ensures var tr := RecordTransitions(states, ts).result;
            && (s in tr.firstSeen <==> s in states)
            && (s in states ==> tr.firstSeen[s] == ts[FirstIndex(states, s)])
    decreases |states|
  {
    var n := |states|;
    if n > 0 {
      var ps, pt := states[..n - 1], ts[..n - 1];
      TransitionsRecordFirstOccurrence(ps, pt, s);
      RecordStep(states, ts, s);
      assert s in states <==> s in ps || states[n - 1] == s by {
        assert states == ps + [states[n - 1]];
      }
      if s in ps {
        FirstIndexPrefix(states, ps, s);
      } else if states[n - 1] == s {
        assert RecordTransitions(ps, pt).prev != s by {
          if n > 1 {
            assert ps[n - 2] in ps;
          }
        }
        FirstIndexLast(states, s);
      }
    }
  }

  /** One step of the recording loop: a state already recorded keeps its timestamp; one not
      yet recorded is recorded, with the last timestamp, exactly when the last state is it
      and differs from the previous one. */
  lemma RecordStep(states: seq<TagStatusState>, ts: seq<int>, s: TagStatusState)
    requires |states| == |ts| && |states| > 0 && Pinned(s)
    ensures var n := |states|;
            var p := RecordTransitions(states[..n - 1], ts[..n - 1]);
            var tr := RecordTransitions(states, ts).result;
            && (s in p.result.firstSeen ==> s in tr.firstSeen && tr.firstSeen[s] == p.result.firstSeen[s])
            && (s !in p.result.firstSeen ==>
                  (s in tr.firstSeen <==> states[n - 1] == s && p.prev != s)
                  && (s in tr.firstSeen ==> tr.firstSeen[s] == ts[n - 1]))
  {
  }

  lemma FirstIndexPrefix(states: seq<TagStatusState>, ps: seq<TagStatusState>, s: TagStatusState)
    requires |ps| <= |states| && ps == states[..|ps|] && s in ps
    ensures s in states && FirstIndex(states, s) == FirstIndex(ps, s)
  {
    var i := FirstIndex(ps, s);
    assert forall j :: 0 <= j <= i ==> states[j] == ps[j];
  }

  lemma FirstIndexLast(states: seq<TagStatusState>, s: TagStatusState)
    requires |states| > 0 && states[|states| - 1] == s && s !in states[..|states| - 1]
    ensures FirstIndex(states, s) == |states| - 1
  {
    assert forall j :: 0 <= j < |states| - 1 ==> states[j] == states[..|states| - 1][j];
  }

  // ---------------------------------------------------------------- handlers

  /** The calibration handlers the driver can run. */
  datatype Handler =
    | Threshold(nc: NonConsecutive)
    | TimeBased(te: TimeExit)
    | MedianWindow(md: MedianRssi)
    | RobustMedianEma(rb: Robust)

  predicate HandlerValid(h: Handler) {
    match h
    case Threshold(_) => true
    case TimeBased(_) => true
    case MedianWindow(m) => 1 <= m.window && |m.buf| <= m.window
    case RobustMedianEma(r) => RobustValid(r)
  }

  function StateOf(h: Handler): TagStatusState {
    match h
    case Threshold(nc) => nc.state
    case TimeBased(te) => te.state
    case MedianWindow(md) => md.fsm.state
    case RobustMedianEma(rb) => rb.state
  }

  /** `init()`: the handler as freshly constructed with the same tunables. */
  function Init(h: Handler): (r: Handler)
    requires HandlerValid(h)
    ensures HandlerValid(r) && StateOf(r) == TooFar
  {
    match h
    case Threshold(nc) => Threshold(ResetNonConsecutive(nc))
    case TimeBased(te) => TimeBased(NewTimeExit(te.alpha, te.threshold, te.delayMs))
    case MedianWindow(md) => MedianWindow(NewMedianRssi(md.window))
    case RobustMedianEma(rb) => RobustMedianEma(NewRobust(rb.cfg))
  }

  /** `acceptSample`. */
  function Accept(h: Handler, s: CalibrationSample): (r: Handler)
    requires HandlerValid(h)
    ensures HandlerValid(r)
    ensures Init(r) == Init(h)
  {
    match h
    case Threshold(nc) => Threshold(NonConsecutiveStep(nc, s))
    case TimeBased(te) => TimeBased(TimeExitStep(te, s))
    case MedianWindow(md) => MedianWindow(MedianStep(md, s))
    case RobustMedianEma(rb) => RobustMedianEma(RobustStep(rb, s))
  }

  function RunHandler(h: Handler, samples: seq<CalibrationSample>): (r: Handler)
    requires HandlerValid(h)
    ensures HandlerValid(r) && Init(r) == Init(h)
    decreases |samples|
  {
    if |samples| == 0 then h
    else Accept(RunHandler(h, samples[..|samples| - 1]), samples[|samples| - 1])
  }

  /** The state `acceptSample` returned for each sample, in order: the samples are fed to
      the one handler one after the other. */
  function StatesOf(h: Handler, samples: seq<CalibrationSample>): (r: seq<TagStatusState>)
    requires HandlerValid(h)
    ensures |r| == |samples|
    decreases |samples|
  {
    if |samples| == 0 then []
    else
      var g := Accept(h, samples[0]);
      [StateOf(g)] + StatesOf(g, samples[1..])
  }

  function Timestamps(samples: seq<CalibrationSample>): (r: seq<int>)
    ensures |r| == |samples|
    ensures forall i :: 0 <= i < |samples| ==> r[i] == samples[i].timestampMs
  {
    seq(|samples|, i requires 0 <= i < |samples| => samples[i].timestampMs)
  }

  // ---------------------------------------------------------------- peak

  /** The EMA weight detectPeakTs hands the peak finder. */
  const DETECT_ALPHA: real := 0.30

  /** The samples as one pass (track 0) for the peak finder. */
  function AsPass(samples: seq<CalibrationSample>): (d: seq<TagData>)
    ensures |d| == |samples|
    ensures forall i :: 0 <= i < |samples| ==> d[i] == TagData(0, samples[i].timestampMs, samples[i].rssi)
  {
    seq(|samples|, i requires 0 <= i < |samples| => TagData(0, samples[i].timestampMs, samples[i].rssi))
  }

  /** detectPeakTs: the peak finder run with alpha 0.30 over the samples (as pass 0); "X"
      when there are none or no peak is found. The answer is the timestamp of the first
      sample where the zero-phase EMA is largest. */
  function DetectPeakTs(samples: seq<CalibrationSample>): (r: string)
    ensures |samples| < MINIMUM_SAMPLES_FOR_ANALYSIS ==> r == "X"
    ensures r != "X" ==> exists k :: 0 <= k < |samples| && r == IntToString(samples[k].timestampMs)
    ensures |samples| >= MINIMUM_SAMPLES_FOR_ANALYSIS ==>
              var z := ZeroPhase(AsPass(samples), DETECT_ALPHA);
              && (r == "X" <==> forall j :: 0 <= j < |z| ==> z[j] <= -DOUBLE_MAX)
              && (r != "X" ==> exists k :: IsFirstMax(z, k) && r == IntToString(samples[k].timestampMs))
  {
    if |samples| == 0 then "X"
    else
      var data := AsPass(samples);
      var setting := DefaultSetting().(rssiAveragingAlpha := Some(DETECT_ALPHA));
      match FindPeak(data, setting)
      case Peak(d) =>
        var k :| IsFirstMax(ZeroPhase(data, DETECT_ALPHA), k) && d == TagPeakData(data[k].entryTimeMs, ZeroPhase(data, DETECT_ALPHA)[k]);
        var t := IntToString(d.peakTimeMs);
        assert t[0] == '-' || IsDigit(t[0]);
        t
      case _ => "X"
  }

  /** With three or more samples the peak is always found (the readings are Java ints). */
  lemma PeakFoundFromThreeSamples(samples: seq<CalibrationSample>)
    requires |samples| >= MINIMUM_SAMPLES_FOR_ANALYSIS
    requires forall i :: 0 <= i < |samples| ==> INT_MIN <= samples[i].rssi <= INT_MAX
    ensures DetectPeakTs(samples) != "X"
  {
    var data := AsPass(samples);
    var setting := DefaultSetting().(rssiAveragingAlpha := Some(DETECT_ALPHA));
    PeakFoundForIntReadings(data, setting, INT_MIN, INT_MAX);
  }

  // ---------------------------------------------------------------- timestamp lookup

  /** The timestamp -> rssi map: one key per distinct timestamp. */
  function TsMap(samples: seq<CalibrationSample>): (m: map<int, int>)
    ensures forall t :: t in m <==> t in Timestamps(samples)
    decreases |samples|
  {
    if |samples| == 0 then map[]
    else
      var n := |samples|;
      var p := TsMap(samples[..n - 1]);
      assert Timestamps(samples) == Timestamps(samples[..n - 1]) + [samples[n - 1].timestampMs];
      p[samples[n - 1].timestampMs := samples[n - 1].rssi]
  }

  /** A later sample with the same timestamp overwrites: each key maps to the reading of the
      last sample carrying it. */
  lemma {:induction false} TsMapLastWins(samples: seq<CalibrationSample>, i: nat)
    requires i < |samples|
    requires forall j :: i < j < |samples| ==> samples[j].timestampMs != samples[i].timestampMs
    ensures samples[i].timestampMs in TsMap(samples)
    ensures TsMap(samples)[samples[i].timestampMs] == samples[i].rssi
    decreases |samples|
  {
    var n := |samples|;
    assert samples[i].timestampMs == Timestamps(samples)[i];
    if i < n - 1 {
      TsMapLastWins(samples[..n - 1], i);
    }
  }

  predicate Ascending(xs: seq<int>) {
    forall i, j :: 0 <= i < j < |xs| ==> xs[i] <= xs[j]
  }

  function Dist(a: int, b: int): nat { if a < b then b - a else a - b }

  /** `Collections.binarySearch`'s insertion point for an absent key: the index of the first
      element greater than it. */
  function InsertionPoint(sorted: seq<int>, ts: int): (ins: nat)
    requires Ascending(sorted) && ts !in sorted
    ensures ins <= |sorted|
    ensures forall i :: 0 <= i < ins ==> sorted[i] < ts
    ensures forall i :: ins <= i < |sorted| ==> sorted[i] > ts
  {
    if |sorted| == 0 || sorted[0] > ts then 0
    else 1 + InsertionPoint(sorted[1..], ts)
  }

  /** The timestamp pinned to an absent `ts`: the first or last when `ts` lies outside,
      otherwise the closer neighbour, the earlier one on a tie. It is the nearest timestamp
      of all, and no equally near one is earlier. */
  function Nearest(sorted: seq<int>, ts: int): (best: int)
    requires |sorted| > 0 && Ascending(sorted) && ts !in sorted
    ensures best in sorted
    ensures forall x :: x in sorted ==> Dist(ts, best) <= Dist(ts, x)
    ensures forall x :: x in sorted && Dist(ts, x) == Dist(ts, best) ==> best <= x
  {
    var ins := InsertionPoint(sorted, ts);
    var n := |sorted|;
    var best :=
      if ins <= 0 then sorted[0]
      else if ins >= n then sorted[n - 1]
      else if Dist(ts, sorted[ins - 1]) <= Dist(ts, sorted[ins]) then sorted[ins - 1]
      else sorted[ins];
    assert forall x :: x in sorted ==> Dist(ts, best) <= Dist(ts, x) && (Dist(ts, x) == Dist(ts, best) ==> best <= x) by {
      forall x | x in sorted
        ensures Dist(ts, best) <= Dist(ts, x) && (Dist(ts, x) == Dist(ts, best) ==> best <= x)
      {
        var k :| 0 <= k < n && sorted[k] == x;
        if k < ins {
          assert x <= sorted[ins - 1] < ts;
        } else {
          assert x >= sorted[ins] > ts;
        }
      }
    }
    best
  }

  /** A pinned state: the offset from BASE_TS and the rssi, both null when unresolved. */
  datatype Point = Point(tsOffset: Option<int>, rssi: Option<int>)

  const NULL_POINT: Point := Point(None, None)

  /** pointForState: "X", null or an unparsable time gives the null point; a time present in
      the map gives its reading; otherwise the nearest listed timestamp is used. */
  function PointForState(tsStr: Option<string>, tsToRssi: map<int, int>, sortedTs: seq<int>): (p: Point)
    requires Ascending(sortedTs)
    ensures p.tsOffset.None? <==> p.rssi.None?
    ensures tsStr.None? || tsStr == Some("X") || ParseLongOrNull(tsStr).None? ==> p == NULL_POINT
    ensures var ts := ParseLongOrNull(tsStr);
            ts.Some? && ts.value in tsToRssi ==> p == Point(Some(ts.value - BASE_TS), Some(tsToRssi[ts.value]))
    ensures var ts := ParseLongOrNull(tsStr);
            ts.Some? && ts.value !in tsToRssi && ts.value !in sortedTs && |sortedTs| > 0 ==>
              var b := Nearest(sortedTs, ts.value);
              p == if b in tsToRssi then Point(Some(b - BASE_TS), Some(tsToRssi[b])) else NULL_POINT
    ensures p.rssi.Some? ==> exists t :: t in tsToRssi && p == Point(Some(t - BASE_TS), Some(tsToRssi[t]))
  {
    var ts := ParseLongOrNull(tsStr);
    if ts.None? then NULL_POINT
    else
      var t := ts.value;
      if t in tsToRssi then Point(Some(t - BASE_TS), Some(tsToRssi[t]))
      else if |sortedTs| == 0 || t in sortedTs then NULL_POINT
      else
        var b := Nearest(sortedTs, t);
        if b in tsToRssi then Point(Some(b - BASE_TS), Some(tsToRssi[b])) else NULL_POINT
  }

  /** With the map and the sorted list built from the same samples, every parsable time is
      pinned to a real reading. */
  lemma PointFoundForSamples(tsStr: string, samples: seq<CalibrationSample>)
    requires |samples| > 0 && ParseLongOrNull(Some(tsStr)).Some?
    ensures PointForState(Some(tsStr), TsMap(samples), SortInts(Timestamps(samples))).rssi.Some?
  {
    var stamps := Timestamps(samples);
    var sorted := SortInts(stamps);
    var m := TsMap(samples);
    var t := ParseLongOrNull(Some(tsStr)).value;
    if t !in m {
      SortedSameElements(stamps, t);
      var b := Nearest(sorted, t);
      SortedSameElements(stamps, b);
      assert b in m;
    }
  }

  lemma SortedSameElements(xs: seq<int>, x: int)
    ensures x in SortInts(xs) <==> x in xs
  {
    var s := SortInts(xs);
    assert x in s <==> x in multiset(s);
    assert x in xs <==> x in multiset(xs);
  }

  // ---------------------------------------------------------------- one handler, one file

  /** The four pins of one handler on one file. */
  datatype AlgoStates = AlgoStates(approaching: Point, here: Point, logged: Point, peak: Point)

  /** The first entries the driver recorded while running the handler over the samples. */
  function Recorded(h: Handler, samples: seq<CalibrationSample>): TestResult
    requires HandlerValid(h)
  {
    RecordTransitions(StatesOf(Init(h), samples), Timestamps(samples)).result
  }

  /** pointForState against the map and the sorted timestamps of the samples. */
  function Pin(samples: seq<CalibrationSample>, tsStr: string): Point {
    PointForState(Some(tsStr), TsMap(samples), SortInts(Timestamps(samples)))
  }

  /** The per-handler body of the driver loop, without the plotted value trace. */
  function EvaluateHandler(h: Handler, samples: seq<CalibrationSample>): (r: AlgoStates)
    requires HandlerValid(h)
    ensures Logged !in Recorded(h, samples).firstSeen ==> r.peak == NULL_POINT
  {
    var tr := Recorded(h, samples);
    var tLogged := GetOrX(tr, Logged);
    var tPeak :=
      match ParseLongOrNull(Some(tLogged))
      case None => "X"
      case Some(loggedTs) => DetectPeakTs(CutAtOrBefore(samples, loggedTs));
    AlgoStates(Pin(samples, GetOrX(tr, Approaching)), Pin(samples, GetOrX(tr, Here)), Pin(samples, tLogged), Pin(samples, tPeak))
  }

  /** Every timestamp is a Java long. */
  predicate LongStamps(samples: seq<CalibrationSample>) {
    forall i :: 0 <= i < |samples| ==> LONG_MIN <= samples[i].timestampMs <= LONG_MAX
  }

  /** The pin of a state the handler returned, at the timestamp of the first sample that
      returned it; the null point when it never did. */
  function FirstPin(states: seq<TagStatusState>, samples: seq<CalibrationSample>, s: TagStatusState): Point
    requires |states| == |samples|
  {
    if s in states then Pin(samples, IntToString(samples[FirstIndex(states, s)].timestampMs)) else NULL_POINT
  }

  /** What the recording loop keeps for a state is the timestamp of its first entry. */
  lemma RecordedFirstEntry(states: seq<TagStatusState>, samples: seq<CalibrationSample>, s: TagStatusState)
    requires |states| == |samples| && Pinned(s)
    ensures var tr := RecordTransitions(states, Timestamps(samples)).result;
            && (s in tr.firstSeen <==> s in states)
            && (s in states ==> tr.firstSeen[s] == samples[FirstIndex(states, s)].timestampMs)
  {
    TransitionsRecordFirstOccurrence(states, Timestamps(samples), s);
  }

  /** A state's pin, read back from what the recording loop wrote, is its first entry's. */
  lemma PinOfFirstEntry(states: seq<TagStatusState>, samples: seq<CalibrationSample>, s: TagStatusState)
    requires |states| == |samples| && LongStamps(samples) && Pinned(s)
    ensures var tr := RecordTransitions(states, Timestamps(samples)).result;
            && Pin(samples, GetOrX(tr, s)) == FirstPin(states, samples, s)
            && (s in states <==> FirstPin(states, samples, s).rssi.Some?)
            && (s in states ==> ParseLongOrNull(Some(GetOrX(tr, s))) == Some(samples[FirstIndex(states, s)].timestampMs))
            && (s !in states ==> GetOrX(tr, s) == "X")
  {
    var tr := RecordTransitions(states, Timestamps(samples)).result;
    RecordedFirstEntry(states, samples, s);
    if s in states {
      var t := samples[FirstIndex(states, s)].timestampMs;
      assert GetOrX(tr, s) == IntToString(t);
      ParseJavaLongToString(t);
      PointFoundForSamples(IntToString(t), samples);
    }
  }

  /** One pin of EvaluateHandler is its state's first entry, pinned to a real reading. */
  lemma EvaluatePin(h: Handler, samples: seq<CalibrationSample>, s: TagStatusState)
    requires HandlerValid(h) && LongStamps(samples) && Pinned(s)
    ensures var states := StatesOf(Init(h), samples);
            var tr := Recorded(h, samples);
            && Pin(samples, GetOrX(tr, s)) == FirstPin(states, samples, s)
            && (s in states <==> FirstPin(states, samples, s).rssi.Some?)
            && (s in states ==> ParseLongOrNull(Some(GetOrX(tr, s))) == Some(samples[FirstIndex(states, s)].timestampMs))
            && (s !in states ==> GetOrX(tr, s) == "X")
  {
    PinOfFirstEntry(StatesOf(Init(h), samples), samples, s);
  }

  /** The peak pin: searched only among the samples up to the first LOGGED entry, and
      null when the handler never logged. */
  lemma EvaluatePeakPin(h: Handler, samples: seq<CalibrationSample>)
    requires HandlerValid(h) && LongStamps(samples)
    ensures var states := StatesOf(Init(h), samples);
            EvaluateHandler(h, samples).peak ==
              if Logged in states then
                Pin(samples, DetectPeakTs(CutAtOrBefore(samples, samples[FirstIndex(states, Logged)].timestampMs)))
              else NULL_POINT
  {
    EvaluatePin(h, samples, Logged);
  }

  /** The approaching, here and logged pins are those states' first entries, each pinned to
      a real reading exactly when the handler returned the state; the peak is searched only
      among the samples up to the first LOGGED and is null when the handler never logged. */
  lemma EvaluatePinsFirstEntries(h: Handler, samples: seq<CalibrationSample>)
    requires HandlerValid(h) && LongStamps(samples)
    ensures var states := StatesOf(Init(h), samples);
            var r := EvaluateHandler(h, samples);
            && r.approaching == FirstPin(states, samples, Approaching)
            && r.here == FirstPin(states, samples, Here)
            && r.logged == FirstPin(states, samples, Logged)
            && (r.approaching.rssi.Some? <==> Approaching in states)
            && (r.here.rssi.Some? <==> Here in states)
            && (r.logged.rssi.Some? <==> Logged in states)
            && r.peak == if Logged in states then
                 Pin(samples, DetectPeakTs(CutAtOrBefore(samples, samples[FirstIndex(states, Logged)].timestampMs)))
               else NULL_POINT
  {
    var tr := Recorded(h, samples);
    assert EvaluateHandler(h, samples).approaching == Pin(samples, GetOrX(tr, Approaching));
    assert EvaluateHandler(h, samples).here == Pin(samples, GetOrX(tr, Here));
    assert EvaluateHandler(h, samples).logged == Pin(samples, GetOrX(tr, Logged));
    EvaluatePin(h, samples, Approaching);
    EvaluatePin(h, samples, Here);
    EvaluatePin(h, samples, Logged);
    EvaluatePeakPin(h, samples);
  }

  /** Running one file leaves nothing behind for the next: `init()` resets the handler. */
  lemma EvaluateForgetsHistory(h: Handler, earlier: seq<CalibrationSample>, samples: seq<CalibrationSample>)
    requires HandlerValid(h)
    ensures EvaluateHandler(RunHandler(h, earlier), samples) == EvaluateHandler(h, samples)
  {
  }
}
