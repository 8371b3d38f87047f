/**
 * The decisions inside the BLE scanner service (BleScannerService), without the radio,
 * the worker thread, the notification manager or the repository: which advertisements
 * are tags, the filter gate, pruning of per-track handlers, the notification
 * de-duplication, the abandoned-tag sweep, the notification label and the mm:ss format,
 * and how a new settings row is applied.
 */
module ScannerService {
  import opened Wrappers
  import opened Text
  import opened Settings
  import opened TagStates
  import opened IngestFilters

  const TAG_PREFIX: string := "PT"
  const SERVICE_SWEEP_INTERVAL_MS: int := 1500
  const SERVICE_ABANDONED_TIMEOUT_MS: int := 5000

  // ---------------------------------------------------------------- tag ids

  /** The part of a BLE scan record the service reads. */
  datatype ScanRecord = ScanRecord(deviceName: Option<string>)

  /** getTagIdIfShouldHandle: the integer after "PT" and one separator character. A name
      of exactly "PT" makes `substring(3)` throw an exception the method does not catch,
      so callers must not pass one. */
  function TagIdOf(record: Option<ScanRecord>): (r: Option<int>)
    requires !(record.Some? && record.value.deviceName == Some(TAG_PREFIX))
    ensures r.Some? ==> record.Some? && record.value.deviceName.Some?
    ensures r.Some? ==>
      var name := record.value.deviceName.value;
      StartsWith(name, TAG_PREFIX) && |name| >= 3 && ParseDecimal(name[3..]) == r
      && INT_MIN <= r.value <= INT_MAX
    ensures record.Some? && record.value.deviceName.Some? && !StartsWith(record.value.deviceName.value, TAG_PREFIX) ==> r.None?
  {
    if record.None? || record.value.deviceName.None? then None
    else
      var name := record.value.deviceName.value;
      assert |name| == 2 ==> name == name[..2];
      if StartsWith(name, TAG_PREFIX) then ParseJavaInt(name[|TAG_PREFIX| + 1..]) else None
  }

  /** Any name "PT", one separator character and the decimal text of an int yields that
      int; the separator itself is never checked. */
  lemma TagIdRoundTrip(sep: char, id: int)
    requires INT_MIN <= id <= INT_MAX
    ensures TagIdOf(Some(ScanRecord(Some(TAG_PREFIX + [sep] + IntToString(id))))) == Some(id)
  {
    var name := TAG_PREFIX + [sep] + IntToString(id);
    assert name[3..] == IntToString(id);
    assert name[..2] == TAG_PREFIX;
    ParseIntToString(id);
  }

  // ---------------------------------------------------------------- filter gate

  /** The gate in onScanResultWork: filters are asked in order and the first refusal drops
      the reading. */
  function PassesAll(filters: seq<MinMaxRssiFilter>, nowMs: int, rssi: int): (r: bool)
    ensures r <==> forall i :: 0 <= i < |filters| ==> MinMaxAccepts(filters[i], nowMs, rssi)
  {
    if |filters| == 0 then true
    else if !MinMaxAccepts(filters[0], nowMs, rssi) then false
    else PassesAll(filters[1..], nowMs, rssi)
  }

  // ---------------------------------------------------------------- labels

  /** The name part of displayLabel: the friendly name when non-empty, else "PT-" and the id. */
  function DisplayName(s: TagStatus): string {
    if s.friendlyName.Some? && s.friendlyName.value != "" then s.friendlyName.value
    else "PT-" + IntToString(s.tagId)
  }

  /** displayLabel: "name (#tag)" or, once the pass has a track id, "name (#tag Pass:track)". */
  function DisplayLabel(s: Option<TagStatus>): (r: string)
    ensures s.None? ==> r == "Unknown Tag"
    ensures s.Some? ==> StartsWith(r, DisplayName(s.value) + " (#" + IntToString(s.value.tagId))
    ensures s.Some? && s.value.trackId == 0 ==> EndsWith(r, "(#" + IntToString(s.value.tagId) + ")")
    ensures s.Some? && s.value.trackId != 0 ==> EndsWith(r, " Pass:" + IntToString(s.value.trackId) + ")")
    // nothing else: the name, " (#", the tag, the optional pass part and ")"
    ensures s.Some? ==>
      |r| == |DisplayName(s.value)| + 3 + |IntToString(s.value.tagId)|
             + (if s.value.trackId != 0 then 6 + |IntToString(s.value.trackId)| else 0) + 1
  {
    if s.None? then "Unknown Tag"
    else
      var st := s.value;
      var head := DisplayName(st) + " (#" + IntToString(st.tagId);
      var r := head + (if st.trackId != 0 then " Pass:" + IntToString(st.trackId) else "") + ")";
      assert r[..|head|] == head;
      r
  }

  // ---------------------------------------------------------------- mm:ss

  /** `%02d` of a value below 100. */
  function TwoDigits(n: nat): (r: string)
    requires n < 100
    ensures |r| == 2 && AllDigits(r) && DigitsValue(r) == n
  {
    var r := [DigitChar(n / 10), DigitChar(n % 10)];
    assert r[..1] == [DigitChar(n / 10)] && r[..1][..0] == [];
    assert DigitsValue(r[..1]) == n / 10;
    r
  }

  /** formatMmSs: a placeholder for non-positive durations; otherwise minutes (modulo an
      hour, unpadded), a colon, and two-digit seconds. */
  function FormatMmSs(ms: int): (r: string)
    ensures ms <= 0 ==> r == "--:--.--"
    ensures ms > 0 ==>
      && |r| >= 4 && r[|r| - 3] == ':'
      && AllDigits(r[..|r| - 3]) && AllDigits(r[|r| - 2..])
      && DigitsValue(r[..|r| - 3]) == (ms / 60000) % 60
      && r[..|r| - 3] == NatToString((ms / 60000) % 60)
      && DigitsValue(r[|r| - 2..]) == (ms / 1000) % 60
  {
    if ms <= 0 then "--:--.--"
    else
      var m := NatToString((ms / 60000) % 60);
      var s := TwoDigits((ms / 1000) % 60);
      var r := m + ":" + s;
      assert r[..|r| - 3] == m && r[|r| - 2..] == s;
      r
  }

  /** Whole hours are dropped: a duration one hour longer prints the same. */
  lemma FormatDropsHours(ms: int)
    requires ms > 0
    ensures FormatMmSs(ms + 3600000) == FormatMmSs(ms)
  {
    HourShift(ms);
  }

  lemma HourShift(ms: int)
    ensures ((ms + 3600000) / 60000) % 60 == (ms / 60000) % 60
    ensures ((ms + 3600000) / 1000) % 60 == (ms / 1000) % 60
  {
    var q := ms / 60000;
    assert ms + 3600000 == (q + 60) * 60000 + ms % 60000;
    assert (ms + 3600000) / 60000 == q + 60;
    var p := ms / 1000;
    assert ms + 3600000 == (p + 3600) * 1000 + ms % 1000;
    assert (ms + 3600000) / 1000 == p + 3600;
  }

  // ---------------------------------------------------------------- notifications

  datatype UiUpdate = UiUpdate(lastNotified: map<int, TagStatusState>, message: Option<string>)

  /** handleUIUpdates: a track with an id is announced when it first approaches and each
      time it newly becomes HERE; the remembered state changes only when a message goes out. */
  function HandleUiUpdates(lastNotified: map<int, TagStatusState>, s: TagStatus): (r: UiUpdate)
    ensures r.message.Some? <==>
      && s.trackId != 0
      && ((s.state == Approaching && s.trackId !in lastNotified)
          || (s.state == Here && (s.trackId !in lastNotified || lastNotified[s.trackId] != Here)))
    ensures r.message.Some? ==> r.lastNotified == lastNotified[s.trackId := s.state]
    ensures r.message.None? ==> r.lastNotified == lastNotified
    ensures r.message.Some? && s.state == Approaching ==> r.message.value == DisplayLabel(Some(s)) + " approaching..."
    ensures r.message.Some? && s.state == Here ==> r.message.value == DisplayLabel(Some(s)) + " passing..."
  {
    var last := if s.trackId in lastNotified then Some(lastNotified[s.trackId]) else None;
    if s.trackId != 0 && last != Some(s.state) then
      var message :=
        if s.state == Approaching then (if last.None? then Some(DisplayLabel(Some(s)) + " approaching...") else None)
        else if s.state == Here then Some(DisplayLabel(Some(s)) + " passing...")
        else None;
      if message.Some? then UiUpdate(lastNotified[s.trackId := s.state], message) else UiUpdate(lastNotified, None)
    else UiUpdate(lastNotified, None)
  }

  /** Announcing the same status twice in a row produces one message at most. */
  lemma AnnouncedOnce(lastNotified: map<int, TagStatusState>, s: TagStatus)
    ensures HandleUiUpdates(HandleUiUpdates(lastNotified, s).lastNotified, s).message.None?
  {
  }

  /** Once any state of a track has been announced, its approach is never announced again. */
  lemma ApproachAnnouncedOnlyFirst(lastNotified: map<int, TagStatusState>, s: TagStatus)
    requires s.trackId in lastNotified && s.state == Approaching
    ensures HandleUiUpdates(lastNotified, s).message.None?
  {
  }

  // ---------------------------------------------------------------- abandoned-tag sweep

  /** A HERE pass not seen for strictly longer than the timeout. */
  predicate Abandoned(s: TagStatus, nowMs: int, timeoutMs: int) {
    s.state == Here && nowMs - s.lastSeenMs > timeoutMs
  }

  /** performSweepRunnable over the active passes: abandoned passes time out and exit now;
      every other pass is untouched. */
  function Sweep(statuses: seq<TagStatus>, nowMs: int, timeoutMs: int): (r: seq<TagStatus>)
    ensures |r| == |statuses|
    ensures forall i :: 0 <= i < |r| && Abandoned(statuses[i], nowMs, timeoutMs) ==>
      r[i] == statuses[i].(state := TimedOut, exitTimeMs := nowMs)
    ensures forall i :: 0 <= i < |r| && !Abandoned(statuses[i], nowMs, timeoutMs) ==> r[i] == statuses[i]
    ensures forall i :: 0 <= i < |r| ==> !Abandoned(r[i], nowMs, timeoutMs)
  {
    seq(|statuses|, i requires 0 <= i < |statuses| =>
      if Abandoned(statuses[i], nowMs, timeoutMs)
      then statuses[i].(state := TimedOut, exitTimeMs := nowMs)
      else statuses[i])
  }

  /** A second sweep at the same instant changes nothing. */
  lemma SweepIdempotent(statuses: seq<TagStatus>, nowMs: int, timeoutMs: int)
    ensures Sweep(Sweep(statuses, nowMs, timeoutMs), nowMs, timeoutMs) == Sweep(statuses, nowMs, timeoutMs)
  {
  }

  // ---------------------------------------------------------------- service state

  /** The knobs of the per-track handler, each a setting or its default. */
  datatype TcaConfig = TcaConfig(
    alpha: real, txPowerAt1mDbm: real, pathLossN: real, hereMeters: real,
    thresholdSec: real, windowSize: int, minPoints: int, approachMeters: real)

  /** newTcaHandler's arguments: every null knob falls back to its default. */
  function NewTcaConfig(s: Setting): (c: TcaConfig)
    ensures s.tcaAlpha.Some? ==> c.alpha == s.tcaAlpha.value
    ensures s.tcaAlpha.None? ==> c.alpha == DEFAULT_TCA_ALPHA
    ensures s.txPowerAt1mDbm.Some? ==> c.txPowerAt1mDbm == s.txPowerAt1mDbm.value
    ensures s.txPowerAt1mDbm.None? ==> c.txPowerAt1mDbm == DEFAULT_TX_POWER_AT_1M_DBM
    ensures s.pathLossN.Some? ==> c.pathLossN == s.pathLossN.value
    ensures s.pathLossN.None? ==> c.pathLossN == DEFAULT_PATH_LOSS_N
    ensures s.tcaHereMeters.Some? ==> c.hereMeters == s.tcaHereMeters.value
    ensures s.tcaHereMeters.None? ==> c.hereMeters == DEFAULT_TCA_HERE_METERS
    ensures s.tcaThresholdSec.Some? ==> c.thresholdSec == s.tcaThresholdSec.value
    ensures s.tcaThresholdSec.None? ==> c.thresholdSec == DEFAULT_TCA_THRESHOLD_SEC
    ensures s.tcaWindowSize.Some? ==> c.windowSize == s.tcaWindowSize.value
    ensures s.tcaWindowSize.None? ==> c.windowSize == DEFAULT_TCA_WINDOW_SIZE
    ensures s.tcaMinPoints.Some? ==> c.minPoints == s.tcaMinPoints.value
    ensures s.tcaMinPoints.None? ==> c.minPoints == DEFAULT_TCA_MIN_POINTS
    ensures s.tcaApproachMeters.Some? ==> c.approachMeters == s.tcaApproachMeters.value
    ensures s.tcaApproachMeters.None? ==> c.approachMeters == DEFAULT_TCA_APPROACH_METERS
  {
    TcaConfig(
      s.tcaAlpha.GetOr(DEFAULT_TCA_ALPHA),
      s.txPowerAt1mDbm.GetOr(DEFAULT_TX_POWER_AT_1M_DBM),
      s.pathLossN.GetOr(DEFAULT_PATH_LOSS_N),
      s.tcaHereMeters.GetOr(DEFAULT_TCA_HERE_METERS),
      s.tcaThresholdSec.GetOr(DEFAULT_TCA_THRESHOLD_SEC),
      s.tcaWindowSize.GetOr(DEFAULT_TCA_WINDOW_SIZE),
      s.tcaMinPoints.GetOr(DEFAULT_TCA_MIN_POINTS),
      s.tcaApproachMeters.GetOr(DEFAULT_TCA_APPROACH_METERS))
  }

  /** A row with every knob null configures the handler exactly as a fresh `Setting()`. */
  lemma NullKnobsMeanDefaults()
    ensures NewTcaConfig(NullSetting()) == NewTcaConfig(DefaultSetting())
  {
  }

  /** rebuildFiltersFromSettings: one bound filter from the row's bounds or their defaults. */
  function RebuildFilter(s: Setting): (f: MinMaxRssiFilter)
    ensures s.filterMinRssi.Some? ==> f.minRssi == s.filterMinRssi.value
    ensures s.filterMaxRssi.Some? ==> f.maxRssi == s.filterMaxRssi.value
    ensures s.filterMinRssi.None? ==> f.minRssi == DEFAULT_FILTER_MIN_RSSI
    ensures s.filterMaxRssi.None? ==> f.maxRssi == DEFAULT_FILTER_MAX_RSSI
  {
    MinMaxRssiFilter(s.filterMinRssi.GetOr(DEFAULT_FILTER_MIN_RSSI), s.filterMaxRssi.GetOr(DEFAULT_FILTER_MAX_RSSI))
  }

  /** The service state the modelled decisions read and write. `handlerTracks` are the
      tracks holding a live handler; the handlers themselves are not modelled. */
  datatype Service = Service(
    settings: Setting,
    filters: seq<MinMaxRssiFilter>,
    abandonedTimeoutMs: int,
    sweepIntervalMs: int,
    flushIntervalMs: int,
    handlerTracks: set<int>,
    lastNotified: map<int, TagStatusState>)

  /** A freshly created service: default settings and their bound filter, a 5 s timeout and
      a 1.5 s sweep. The repository's flush interval is its own and is given. */
  function NewService(flushIntervalMs: int): (svc: Service)
    ensures svc.filters == [RebuildFilter(DefaultSetting())]
    ensures svc.filters[0] == MinMaxRssiFilter(DEFAULT_FILTER_MIN_RSSI, DEFAULT_FILTER_MAX_RSSI)
    ensures svc.handlerTracks == {} && svc.lastNotified == map[]
  {
    Service(DefaultSetting(), [RebuildFilter(DefaultSetting())], SERVICE_ABANDONED_TIMEOUT_MS,
            SERVICE_SWEEP_INTERVAL_MS, flushIntervalMs, {}, map[])
  }

  /** applyRuntimeCadencesFromSettings: a non-null knob replaces the running value, a null
      one keeps it. */
  function ApplyCadences(svc: Service, s: Setting): (r: Service)
    ensures r.abandonedTimeoutMs == s.abandonedTimeoutMs.GetOr(svc.abandonedTimeoutMs)
    ensures r.sweepIntervalMs == s.sweepIntervalMs.GetOr(svc.sweepIntervalMs)
    ensures r.flushIntervalMs == s.tagdataFlushMs.GetOr(svc.flushIntervalMs)
    ensures r.(abandonedTimeoutMs := svc.abandonedTimeoutMs, sweepIntervalMs := svc.sweepIntervalMs,
               flushIntervalMs := svc.flushIntervalMs) == svc
  {
    svc.(abandonedTimeoutMs := s.abandonedTimeoutMs.GetOr(svc.abandonedTimeoutMs),
         sweepIntervalMs := s.sweepIntervalMs.GetOr(svc.sweepIntervalMs),
         flushIntervalMs := s.tagdataFlushMs.GetOr(svc.flushIntervalMs))
  }

  /** Applying the same row twice is applying it once; a row of nulls changes nothing. */
  lemma ApplyCadencesIdempotent(svc: Service, s: Setting)
    ensures ApplyCadences(ApplyCadences(svc, s), s) == ApplyCadences(svc, s)
    ensures ApplyCadences(svc, NullSetting()) == svc
  {
  }

  /** The settings observer: a null row is ignored; otherwise the row becomes current, the
      filter is rebuilt, cadences are applied and every handler is dropped so the next
      reading builds one from the new row. */
  function OnSettings(svc: Service, setting: Option<Setting>): (r: Service)
    ensures setting.None? ==> r == svc
    ensures setting.Some? ==> r.settings == setting.value && r.filters == [RebuildFilter(setting.value)]
    ensures setting.Some? ==> r.handlerTracks == {} && r.lastNotified == svc.lastNotified
  {
    if setting.None? then svc
    else ApplyCadences(svc.(settings := setting.value, filters := [RebuildFilter(setting.value)]), setting.value)
           .(handlerTracks := {})
  }

  /** After the handler has processed a reading of `trackId`: the track holds a handler
      unless the pass is LOGGED or TIMED_OUT, and the notification rule runs. */
  function FinishSample(svc: Service, trackId: int, processed: TagStatus): (r: (Service, Option<string>))
    requires processed.trackId == trackId
    ensures processed.state == Logged || processed.state == TimedOut ==> trackId !in r.0.handlerTracks
    ensures processed.state != Logged && processed.state != TimedOut ==> r.0.handlerTracks == svc.handlerTracks + {trackId}
    ensures r.0.handlerTracks - {trackId} == svc.handlerTracks - {trackId}
    ensures r.1 == HandleUiUpdates(svc.lastNotified, processed).message
  {
    var held := svc.handlerTracks + {trackId};
    var pruned := if processed.state == Logged || processed.state == TimedOut then held - {trackId} else held;
    var ui := HandleUiUpdates(svc.lastNotified, processed);
    (svc.(handlerTracks := pruned, lastNotified := ui.lastNotified), ui.message)
  }

  function TimedOutTracks(statuses: seq<TagStatus>, nowMs: int, timeoutMs: int): set<int> {
    set i | 0 <= i < |statuses| && Abandoned(statuses[i], nowMs, timeoutMs) :: statuses[i].trackId
  }

  /** One sweep of the service: abandoned passes time out and lose their handlers; a timed
      out pass is never announced, so the notification memory is untouched. */
  function SweepService(svc: Service, active: seq<TagStatus>, nowMs: int): (r: (Service, seq<TagStatus>))
    ensures r.1 == Sweep(active, nowMs, svc.abandonedTimeoutMs)
    ensures r.0.handlerTracks == svc.handlerTracks - TimedOutTracks(active, nowMs, svc.abandonedTimeoutMs)
    ensures r.0.lastNotified == svc.lastNotified
  {
    var swept := Sweep(active, nowMs, svc.abandonedTimeoutMs);
    (svc.(handlerTracks := svc.handlerTracks - TimedOutTracks(active, nowMs, svc.abandonedTimeoutMs)), swept)
  }

  /** Routing each timed-out pass through the notification rule, as the sweep does, never
      produces a message. */
  lemma TimedOutNeverAnnounced(lastNotified: map<int, TagStatusState>, s: TagStatus, nowMs: int)
    ensures HandleUiUpdates(lastNotified, s.(state := TimedOut, exitTimeMs := nowMs)) == UiUpdate(lastNotified, None)
  {
  }
}
