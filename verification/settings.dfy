/**
 * The persisted configuration row (Setting). Every knob is a boxed Java value that may be
 * null, so each field is an `Option`; a fresh `Setting()` carries the defaults below.
 * Java `float`/`double` knobs are reals.
 */
module Settings {
  import opened Wrappers

  const DEFAULT_RETAIN_SAMPLES: bool := true
  const DEFAULT_ARRIVED_THRESHOLD: int := -70
  const DEFAULT_APPROACHING_THRESHOLD: int := -90
  const DEFAULT_RSSI_AVERAGING_ALPHA: real := 0.3
  const DEFAULT_TCA_HERE_METERS: real := 4.0
  const DEFAULT_TCA_APPROACH_METERS: real := 12.0
  const DEFAULT_TCA_THRESHOLD_SEC: real := 1.5
  const DEFAULT_TCA_WINDOW_SIZE: int := 12
  const DEFAULT_TCA_MIN_POINTS: int := 6
  const DEFAULT_PATH_LOSS_N: real := 2.0
  const DEFAULT_TX_POWER_AT_1M_DBM: real := -70.0
  const DEFAULT_FILTER_MIN_RSSI: int := -105
  const DEFAULT_FILTER_MAX_RSSI: int := -25
  const DEFAULT_TAGDATA_FLUSH_MS: int := 200
  const DEFAULT_SWEEP_INTERVAL_MS: int := 1000
  const DEFAULT_ABANDONED_TIMEOUT_MS: int := 5000
  const DEFAULT_TCA_ALPHA: real := 0.3

  datatype Setting = Setting(
    retainSamples: Option<bool>,
    arrivedThreshold: Option<int>,
    approachingThreshold: Option<int>,
    rssiAveragingAlpha: Option<real>,
    tcaHereMeters: Option<real>,
    tcaApproachMeters: Option<real>,
    tcaThresholdSec: Option<real>,
    tcaWindowSize: Option<int>,
    tcaMinPoints: Option<int>,
    pathLossN: Option<real>,
    txPowerAt1mDbm: Option<real>,
    tcaAlpha: Option<real>,
    filterMinRssi: Option<int>,
    filterMaxRssi: Option<int>,
    tagdataFlushMs: Option<int>,
    sweepIntervalMs: Option<int>,
    abandonedTimeoutMs: Option<int>)

  /** `new Setting()`: every knob holds its default, none is null. */
  function DefaultSetting(): (s: Setting)
    ensures s.arrivedThreshold == Some(DEFAULT_ARRIVED_THRESHOLD)
    ensures s.approachingThreshold == Some(DEFAULT_APPROACHING_THRESHOLD)
    ensures s.filterMinRssi == Some(DEFAULT_FILTER_MIN_RSSI) && s.filterMaxRssi == Some(DEFAULT_FILTER_MAX_RSSI)
  {
    Setting(
      Some(DEFAULT_RETAIN_SAMPLES), Some(DEFAULT_ARRIVED_THRESHOLD), Some(DEFAULT_APPROACHING_THRESHOLD),
      Some(DEFAULT_RSSI_AVERAGING_ALPHA), Some(DEFAULT_TCA_HERE_METERS), Some(DEFAULT_TCA_APPROACH_METERS),
      Some(DEFAULT_TCA_THRESHOLD_SEC), Some(DEFAULT_TCA_WINDOW_SIZE), Some(DEFAULT_TCA_MIN_POINTS),
      Some(DEFAULT_PATH_LOSS_N), Some(DEFAULT_TX_POWER_AT_1M_DBM), Some(DEFAULT_TCA_ALPHA),
      Some(DEFAULT_FILTER_MIN_RSSI), Some(DEFAULT_FILTER_MAX_RSSI), Some(DEFAULT_TAGDATA_FLUSH_MS),
      Some(DEFAULT_SWEEP_INTERVAL_MS), Some(DEFAULT_ABANDONED_TIMEOUT_MS))
  }

  /** A setting whose knobs are all null. */
  function NullSetting(): Setting {
    Setting(None, None, None, None, None, None, None, None, None, None, None, None, None, None, None, None, None)
  }
}
