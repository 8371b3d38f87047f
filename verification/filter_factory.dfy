/**
 * FilterFactory: the production filter chain built from the settings and optional
 * overrides. It always holds exactly one bound filter, whose ceiling is raised to the
 * arrival threshold when that threshold lies above it.
 */
module FilterFactory {
  import opened Wrappers
  import opened Settings
  import opened IngestFilters

  const FACTORY_MIN_RSSI: int := -105
  const FACTORY_MAX_RSSI: int := -25

  /** FiltersConfig: optional bounds that take precedence over the factory defaults. */
  datatype FiltersConfig = FiltersConfig(minRssi: Option<int>, maxRssi: Option<int>)

  /** FiltersConfig.defaults(): overrides nothing. */
  function Defaults(): FiltersConfig {
    FiltersConfig(None, None)
  }

  /** The floor: the override's when present, else -105. */
  function RequestedMin(overrides: Option<FiltersConfig>): int {
    if overrides.Some? && overrides.value.minRssi.Some? then overrides.value.minRssi.value else FACTORY_MIN_RSSI
  }

  /** The ceiling before the arrival threshold is considered. */
  function RequestedMax(overrides: Option<FiltersConfig>): int {
    if overrides.Some? && overrides.value.maxRssi.Some? then overrides.value.maxRssi.value else FACTORY_MAX_RSSI
  }

  /** FilterFactory.build. */
  function Build(s: Setting, overrides: Option<FiltersConfig>): (r: seq<MinMaxRssiFilter>)
    ensures |r| == 1
    ensures r[0].minRssi == RequestedMin(overrides)
    ensures r[0].maxRssi >= RequestedMax(overrides)
    ensures s.arrivedThreshold.Some? ==> r[0].maxRssi >= s.arrivedThreshold.value
    ensures r[0].maxRssi == RequestedMax(overrides)
            || (s.arrivedThreshold.Some? && r[0].maxRssi == s.arrivedThreshold.value)
  {
    var maxRssi :=
      if s.arrivedThreshold.Some? && s.arrivedThreshold.value > RequestedMax(overrides)
      then s.arrivedThreshold.value
      else RequestedMax(overrides);
    [MinMaxRssiFilter(RequestedMin(overrides), maxRssi)]
  }

  /** The settings never move the floor, whatever they hold. */
  lemma BuildMinIgnoresSettings(s1: Setting, s2: Setting, overrides: Option<FiltersConfig>)
    ensures Build(s1, overrides)[0].minRssi == Build(s2, overrides)[0].minRssi
  {
  }

  /** Passing the default config is the same as passing none: bounds -105 and
      max(-25, arrived threshold). */
  lemma DefaultsBounds(s: Setting)
    ensures Build(s, Some(Defaults())) == Build(s, None)
    ensures Build(s, None)[0].minRssi == FACTORY_MIN_RSSI
    ensures s.arrivedThreshold.None? ==> Build(s, None)[0].maxRssi == FACTORY_MAX_RSSI
    ensures s.arrivedThreshold.Some? ==>
      Build(s, None)[0].maxRssi == if s.arrivedThreshold.value > FACTORY_MAX_RSSI then s.arrivedThreshold.value else FACTORY_MAX_RSSI
  {
  }

  /** A reading exactly at the arrival threshold, at or above the floor, is never cut off by
      the ceiling, so the chain cannot hide an arrival. */
  lemma ArrivalReadingPasses(s: Setting, overrides: Option<FiltersConfig>, timestampMs: int)
    requires s.arrivedThreshold.Some? && RequestedMin(overrides) <= s.arrivedThreshold.value
    ensures MinMaxAccepts(Build(s, overrides)[0], timestampMs, s.arrivedThreshold.value)
  {
  }
}
