/**
 * RSSI ingest filters. The production app has one stateless bound check
 * (MinMaxRssiFilter); the offline driver uses three filters of its own: a stateless range
 * (RssiRangeFilter), a step limiter that remembers the last accepted reading
 * (MinConsecutiveFilter) and a median-outlier rejecter over a sliding history
 * (OutlierDeltaFilter). A stateful filter is a value here: each decision returns the
 * filter's next state alongside the verdict.
 */
module IngestFilters {
  import opened Wrappers
  import opened Text
  import opened Medians
  import opened Samples
  import opened Ints

  // ---------------------------------------------------------------- production bound filter

  /** MinMaxRssiFilter: both bounds inclusive; the timestamp is ignored. */
  datatype MinMaxRssiFilter = MinMaxRssiFilter(minRssi: int, maxRssi: int)

  predicate MinMaxAccepts(f: MinMaxRssiFilter, timestampMs: int, rssi: int) {
    f.minRssi <= rssi <= f.maxRssi
  }

  /** The bound filter's verdict does not depend on the timestamp, both bounds are
      accepted, and an inverted range rejects every reading. */
  lemma MinMaxProperties(f: MinMaxRssiFilter, t1: int, t2: int, rssi: int)
    ensures MinMaxAccepts(f, t1, rssi) == MinMaxAccepts(f, t2, rssi)
    ensures f.minRssi <= f.maxRssi ==> MinMaxAccepts(f, t1, f.minRssi) && MinMaxAccepts(f, t1, f.maxRssi)
    ensures f.minRssi > f.maxRssi ==> !MinMaxAccepts(f, t1, rssi)
  {
  }

  // ---------------------------------------------------------------- driver filters

  datatype Filter =
    | RssiRange(minInclusive: int, maxInclusive: int)
    | MinConsecutive(maxStepDb: int, prevAccepted: Option<int>)
    | OutlierDelta(window: int, maxDeltaDb: int, hist: seq<int>)

  /** The states the constructors and `ShouldAccept` can produce: normalised knobs and a
      history no longer than the window. */
  predicate Valid(f: Filter) {
    match f
    case RssiRange(_, _) => true
    case MinConsecutive(k, _) => k >= 1
    case OutlierDelta(w, d, h) => w >= 1 && d >= 1 && |h| <= w
  }

  predicate AllValid(fs: seq<Filter>) {
    forall i :: 0 <= i < |fs| ==> Valid(fs[i])
  }

  /** `new MinConsecutiveFilter(maxStepDb)`: the step is raised to at least 1. */
  function NewMinConsecutive(maxStepDb: int): (f: Filter)
    ensures Valid(f) && f.MinConsecutive? && f.prevAccepted.None?
    ensures f.maxStepDb == if maxStepDb < 1 then 1 else maxStepDb
  {
    MinConsecutive(if maxStepDb < 1 then 1 else maxStepDb, None)
  }

  /** `new OutlierDeltaFilter(window, maxDeltaDb)`: both knobs raised to at least 1. */
  function NewOutlierDelta(window: int, maxDeltaDb: int): (f: Filter)
    ensures Valid(f) && f.OutlierDelta? && f.hist == []
    ensures f.window == if window < 1 then 1 else window
    ensures f.maxDeltaDb == if maxDeltaDb < 1 then 1 else maxDeltaDb
  {
    OutlierDelta(if window < 1 then 1 else window, if maxDeltaDb < 1 then 1 else maxDeltaDb, [])
  }

  datatype Decision = Decision(accepted: bool, next: Filter)

  /** `shouldAccept(rssi)` of each driver filter. */
  function ShouldAccept(f: Filter, rssi: int): (d: Decision)
    requires Valid(f)
    ensures Valid(d.next)
    ensures !d.accepted ==> d.next == f
    ensures f.RssiRange? ==>
      d.next == f && (d.accepted <==> f.minInclusive <= rssi <= f.maxInclusive)
    ensures f.MinConsecutive? ==>
      && (d.accepted <==> f.prevAccepted.None? || Abs(rssi - f.prevAccepted.value) <= f.maxStepDb)
      && (d.accepted ==> d.next == f.(prevAccepted := Some(rssi)))
    ensures f.OutlierDelta? ==>
      && (d.accepted <==> |f.hist| < f.window || Abs(rssi - FloorMedian(f.hist)) <= f.maxDeltaDb)
      && (d.accepted ==>
            && d.next.OutlierDelta? && d.next.window == f.window && d.next.maxDeltaDb == f.maxDeltaDb
            && |d.next.hist| == (if |f.hist| < f.window then |f.hist| + 1 else f.window)
            && d.next.hist == (f.hist + [rssi])[|f.hist| + 1 - |d.next.hist|..])
  {
    match f
    case RssiRange(lo, hi) => Decision(lo <= rssi <= hi, f)
    case MinConsecutive(k, prev) =>
      if prev.None? || Abs(rssi - prev.value) <= k then Decision(true, f.(prevAccepted := Some(rssi)))
      else Decision(false, f)
    case OutlierDelta(w, dmax, h) =>
      if |h| < w then Decision(true, f.(hist := h + [rssi]))
      else if Abs(rssi - FloorMedian(h)) <= dmax then Decision(true, f.(hist := (h + [rssi])[1..]))
      else Decision(false, f)
  }

  /** `toString()` of each driver filter. */
  function Describe(f: Filter): string {
    match f
    case RssiRange(lo, hi) => "RssiRangeFilter[" + IntToString(lo) + "," + IntToString(hi) + "]"
    case MinConsecutive(k, _) => "MinConsecutiveFilter[maxStep=" + IntToString(k) + "dB]"
    case OutlierDelta(w, d, _) => "OutlierDeltaFilter[win=" + IntToString(w) + ", maxΔ=" + IntToString(d) + "dB]"
  }

  const RANGE_PREFIX: string := "RssiRangeFilter["

  /** Reads the bounds back out of a range filter's description. */
  function ParseRangeDescription(s: string): Option<(int, int)> {
    if |s| >= |RANGE_PREFIX| + 1 && StartsWith(s, RANGE_PREFIX) && s[|s| - 1] == ']' then
      var parts := Split(s[|RANGE_PREFIX|..|s| - 1], ',');
      if |parts| == 2 then
        var lo := ParseDecimal(parts[0]);
        var hi := ParseDecimal(parts[1]);
        if lo.Some? && hi.Some? then Some((lo.value, hi.value)) else None
      else None
    else None
  }

  /** A range filter's description names both of its bounds. */
  lemma {:induction false} RangeDescriptionRoundTrip(lo: int, hi: int)
    ensures ParseRangeDescription(Describe(RssiRange(lo, hi))) == Some((lo, hi))
  {
    var a := IntToString(lo);
    var b := IntToString(hi);
    var s := Describe(RssiRange(lo, hi));
    assert s == RANGE_PREFIX + (a + "," + b) + "]";
    assert s[..|RANGE_PREFIX|] == RANGE_PREFIX;
    assert s[|RANGE_PREFIX|..|s| - 1] == a + [','] + b;
    NoCommaInNumber(lo);
    NoCommaInNumber(hi);
    SplitPrefix(a, ',', b);
    SplitNoSep(b, ',');
    ParseIntToString(lo);
    ParseIntToString(hi);
  }

  // ---------------------------------------------------------------- chains

  /** The sample passed every filter before index `i`. */
  predicate PassedBefore(fs: seq<Filter>, i: int, rssi: int)
    requires AllValid(fs) && 0 <= i <= |fs|
  {
    forall j :: 0 <= j < i ==> ShouldAccept(fs[j], rssi).accepted
  }

  datatype Verdict = Verdict(accepted: bool, next: seq<Filter>)

  /** One sample through a chain: filters are consulted in order and the first rejection
      ends the consultation. */
  function Consult(fs: seq<Filter>, rssi: int): (r: Verdict)
    requires AllValid(fs)
    ensures |r.next| == |fs| && AllValid(r.next)
  {
    if |fs| == 0 then Verdict(true, [])
    else
      var d := ShouldAccept(fs[0], rssi);
      if !d.accepted then Verdict(false, fs)
      else
        var rest := Consult(fs[1..], rssi);
        Verdict(rest.accepted, [d.next] + rest.next)
  }

  lemma PassedBeforeShift(fs: seq<Filter>, i: int, rssi: int)
    requires AllValid(fs) && 1 <= i <= |fs|
    ensures PassedBefore(fs, i, rssi) <==>
      ShouldAccept(fs[0], rssi).accepted && PassedBefore(fs[1..], i - 1, rssi)
  {
    if ShouldAccept(fs[0], rssi).accepted && PassedBefore(fs[1..], i - 1, rssi) {
      forall j | 0 <= j < i ensures ShouldAccept(fs[j], rssi).accepted {
        if j > 0 { assert fs[j] == fs[1..][j - 1]; }
      }
    }
    if PassedBefore(fs, i, rssi) {
      forall j | 0 <= j < i - 1 ensures ShouldAccept(fs[1..][j], rssi).accepted {
        assert fs[1..][j] == fs[j + 1];
      }
    }
  }

  /** A sample passes a chain exactly when every filter would accept it, and a filter's
      state advances exactly when every filter before it accepted: none after the first
      rejection is consulted. */
  lemma ConsultSpec(fs: seq<Filter>, rssi: int)
    requires AllValid(fs)
    ensures Consult(fs, rssi).accepted <==> PassedBefore(fs, |fs|, rssi)
    ensures forall i :: 0 <= i < |fs| ==>
      Consult(fs, rssi).next[i] == if PassedBefore(fs, i, rssi) then ShouldAccept(fs[i], rssi).next else fs[i]
  {
    ConsultAccepts(fs, rssi);
    forall i | 0 <= i < |fs|
      ensures Consult(fs, rssi).next[i] == if PassedBefore(fs, i, rssi) then ShouldAccept(fs[i], rssi).next else fs[i]
    {
      ConsultAt(fs, rssi, i);
    }
  }

  lemma {:induction false} ConsultAccepts(fs: seq<Filter>, rssi: int)
    requires AllValid(fs)
    ensures Consult(fs, rssi).accepted <==> PassedBefore(fs, |fs|, rssi)
  {
    if |fs| > 0 {
      PassedBeforeShift(fs, |fs|, rssi);
      if ShouldAccept(fs[0], rssi).accepted {
        ConsultAccepts(fs[1..], rssi);
      }
    }
  }

  lemma {:induction false} ConsultAt(fs: seq<Filter>, rssi: int, i: int)
    requires AllValid(fs) && 0 <= i < |fs|
    ensures Consult(fs, rssi).next[i] == if PassedBefore(fs, i, rssi) then ShouldAccept(fs[i], rssi).next else fs[i]
    decreases i
  {
    var d := ShouldAccept(fs[0], rssi);
    if i == 0 {
      assert PassedBefore(fs, 0, rssi);
    } else {
      PassedBeforeShift(fs, i, rssi);
      if d.accepted {
        ConsultUnfolds(fs, rssi);
        ConsultAt(fs[1..], rssi, i - 1);
        assert fs[i] == fs[1..][i - 1];
      }
    }
  }

  /** Past an accepting first filter, the chain's states are its next state followed by the
      rest of the chain's. */
  lemma ConsultUnfolds(fs: seq<Filter>, rssi: int)
    requires AllValid(fs) && |fs| > 0 && ShouldAccept(fs[0], rssi).accepted
    ensures Consult(fs, rssi).next == [ShouldAccept(fs[0], rssi).next] + Consult(fs[1..], rssi).next
  {
  }

  datatype Filtered = Filtered(kept: seq<CalibrationSample>, filters: seq<Filter>)

  /** The sample loop of the driver's `applyFilters` over a non-empty chain. */
  function RunChain(samples: seq<CalibrationSample>, fs: seq<Filter>): (r: Filtered)
    requires AllValid(fs)
    ensures |r.filters| == |fs| && AllValid(r.filters)
    ensures |r.kept| <= |samples|
  {
    if |samples| == 0 then Filtered([], fs)
    else
      var v := Consult(fs, samples[0].rssi);
      var rest := RunChain(samples[1..], v.next);
      Filtered((if v.accepted then [samples[0]] else []) + rest.kept, rest.filters)
  }

  /** DriverMain.applyFilters: a null or empty chain returns the input as it is; otherwise
      each sample is kept when every filter accepts it. The chain's states after the run
      are returned, since the driver reuses one chain across files. */
  function ApplyFilters(samples: seq<CalibrationSample>, fs: seq<Filter>): (r: Filtered)
    requires AllValid(fs)
    ensures |r.filters| == |fs| && AllValid(r.filters)
    ensures |fs| == 0 ==> r.kept == samples
  {
    if |fs| == 0 then Filtered(samples, fs) else RunChain(samples, fs)
  }

  /** The kept samples are some of the input samples, in their input order. */
  lemma {:induction false} RunChainSubsequence(samples: seq<CalibrationSample>, fs: seq<Filter>)
    requires AllValid(fs)
    ensures IsSubsequence(RunChain(samples, fs).kept, samples)
  {
    if |samples| > 0 {
      var v := Consult(fs, samples[0].rssi);
      RunChainSubsequence(samples[1..], v.next);
      var rest := RunChain(samples[1..], v.next).kept;
      var kept := RunChain(samples, fs).kept;
      assert kept == (if v.accepted then [samples[0]] else []) + rest;
      if !v.accepted {
        assert kept == rest;
        SubsequenceSkip(rest, samples);
      } else {
        assert kept[0] == samples[0] && kept[1..] == rest;
      }
    }
  }

  lemma {:induction false} SubsequenceSkip<T>(xs: seq<T>, ys: seq<T>)
    requires |ys| > 0 && IsSubsequence(xs, ys[1..])
    ensures IsSubsequence(xs, ys)
    decreases |ys|, 0
  {
    if |xs| > 0 && xs[0] == ys[0] {
      SubsequenceDrop(xs, ys[1..]);
    }
  }

  lemma {:induction false} SubsequenceDrop<T>(xs: seq<T>, ys: seq<T>)
    requires |xs| > 0 && IsSubsequence(xs, ys)
    ensures IsSubsequence(xs[1..], ys)
    decreases |ys|, 1
  {
    if xs[0] == ys[0] {
      SubsequenceSkip(xs[1..], ys);
    } else {
      SubsequenceDrop(xs, ys[1..]);
      SubsequenceSkip(xs[1..], ys);
    }
  }

  lemma ApplyFiltersSubsequence(samples: seq<CalibrationSample>, fs: seq<Filter>)
    requires AllValid(fs)
    ensures IsSubsequence(ApplyFilters(samples, fs).kept, samples)
  {
    if |fs| == 0 {
      SubsequenceRefl(samples);
    } else {
      RunChainSubsequence(samples, fs);
    }
  }

  lemma {:induction false} SubsequenceRefl<T>(xs: seq<T>)
    ensures IsSubsequence(xs, xs)
  {
    if |xs| > 0 {
      SubsequenceRefl(xs[1..]);
    }
  }

  /** Every filter of the chain is a range filter. */
  predicate AllRanges(fs: seq<Filter>) {
    forall i :: 0 <= i < |fs| ==> fs[i].RssiRange?
  }

  predicate InAllRanges(fs: seq<Filter>, rssi: int)
    requires AllRanges(fs)
  {
    forall i :: 0 <= i < |fs| ==> fs[i].minInclusive <= rssi <= fs[i].maxInclusive
  }

  /** Reference selection: the samples whose RSSI lies inside every range, in order. */
  function InRangeSamples(samples: seq<CalibrationSample>, fs: seq<Filter>): seq<CalibrationSample>
    requires AllRanges(fs)
  {
    if |samples| == 0 then []
    else (if InAllRanges(fs, samples[0].rssi) then [samples[0]] else []) + InRangeSamples(samples[1..], fs)
  }

  /** A chain of range filters keeps exactly the samples inside every range, and no filter's
      state changes. This is the driver's configuration. */
  lemma {:induction false} RangeChainSelects(samples: seq<CalibrationSample>, fs: seq<Filter>)
    requires AllRanges(fs) && |fs| > 0
    ensures ApplyFilters(samples, fs) == Filtered(InRangeSamples(samples, fs), fs)
  {
    assert AllValid(fs);
    if |samples| > 0 {
      RangeConsult(fs, samples[0].rssi);
      RangeChainSelects(samples[1..], fs);
    }
  }

  lemma {:induction false} RangeConsult(fs: seq<Filter>, rssi: int)
    requires AllRanges(fs)
    ensures AllValid(fs) && Consult(fs, rssi) == Verdict(InAllRanges(fs, rssi), fs)
  {
    if |fs| > 0 {
      assert AllRanges(fs[1..]);
      RangeConsult(fs[1..], rssi);
      assert fs == [fs[0]] + fs[1..];
      if InAllRanges(fs, rssi) {
        assert InAllRanges(fs[1..], rssi);
      } else if InAllRanges(fs[1..], rssi) {
        assert !(fs[0].minInclusive <= rssi <= fs[0].maxInclusive) by {
          forall i | 1 <= i < |fs| ensures fs[i].minInclusive <= rssi <= fs[i].maxInclusive {
            assert fs[i] == fs[1..][i - 1];
          }
        }
      }
    }
  }

  /** Neighbouring kept readings, and the first against `prev`, differ by at most `k`. */
  predicate StepBounded(prev: Option<int>, kept: seq<CalibrationSample>, k: int) {
    && (forall i :: 0 < i < |kept| ==> Abs(kept[i].rssi - kept[i - 1].rssi) <= k)
    && (prev.Some? && |kept| > 0 ==> Abs(kept[0].rssi - prev.value) <= k)
  }

  lemma StepBoundedCons(prev: Option<int>, s: CalibrationSample, rest: seq<CalibrationSample>, k: int)
    requires prev.Some? ==> Abs(s.rssi - prev.value) <= k
    requires StepBounded(Some(s.rssi), rest, k)
    ensures StepBounded(prev, [s] + rest, k)
  {
    var xs := [s] + rest;
    forall i | 0 < i < |xs| ensures Abs(xs[i].rssi - xs[i - 1].rssi) <= k {
      if i > 1 {
        assert xs[i] == rest[i - 1] && xs[i - 1] == rest[i - 2];
      }
    }
  }

  /** One step of the sample loop over a chain of one filter. */
  lemma RunChainSingle(samples: seq<CalibrationSample>, f: Filter)
    requires Valid(f) && |samples| > 0
    ensures var d := ShouldAccept(f, samples[0].rssi);
      var rest := RunChain(samples[1..], [d.next]);
      RunChain(samples, [f]) == Filtered((if d.accepted then [samples[0]] else []) + rest.kept, rest.filters)
  {
    ConsultSingle(f, samples[0].rssi);
  }

  /** A chain of one filter decides as that filter does. */
  lemma ConsultSingle(f: Filter, rssi: int)
    requires Valid(f)
    ensures Consult([f], rssi) == Verdict(ShouldAccept(f, rssi).accepted, [ShouldAccept(f, rssi).next])
  {
    var d := ShouldAccept(f, rssi);
    if d.accepted {
      assert [f][1..] == [];
    }
  }

  /** Through a lone MinConsecutiveFilter, neighbouring kept readings are at most the step
      apart, and the filter ends remembering the last kept reading. */
  lemma {:induction false} MinConsecutiveBoundsSteps(samples: seq<CalibrationSample>, k: int, prev: Option<int>)
    requires k >= 1
    ensures StepInvariant(prev, RunChain(samples, [MinConsecutive(k, prev)]), k)
  {
    if |samples| > 0 {
      var f := MinConsecutive(k, prev);
      var s0 := samples[0];
      var d := ShouldAccept(f, s0.rssi);
      RunChainSingle(samples, f);
      if d.accepted {
        MinConsecutiveBoundsSteps(samples[1..], k, Some(s0.rssi));
        StepInvariantCons(prev, s0, RunChain(samples[1..], [d.next]), k);
      } else {
        MinConsecutiveBoundsSteps(samples[1..], k, prev);
      }
    }
  }

  /** What a lone MinConsecutiveFilter that started from `prev` guarantees after a run. */
  predicate StepInvariant(prev: Option<int>, r: Filtered, k: int) {
    && StepBounded(prev, r.kept, k)
    && r.filters == [MinConsecutive(k, if |r.kept| == 0 then prev else Some(r.kept[|r.kept| - 1].rssi))]
  }

  lemma StepInvariantCons(prev: Option<int>, s0: CalibrationSample, rest: Filtered, k: int)
    requires prev.Some? ==> Abs(s0.rssi - prev.value) <= k
    requires StepInvariant(Some(s0.rssi), rest, k)
    ensures StepInvariant(prev, Filtered([s0] + rest.kept, rest.filters), k)
  {
    StepBoundedCons(prev, s0, rest.kept, k);
    var kept := [s0] + rest.kept;
    if |rest.kept| > 0 {
      assert kept[|kept| - 1] == rest.kept[|rest.kept| - 1];
    }
  }
}
