/**
 * The lifecycle enum of a tag pass (TagStatus.TagStatusState) and the Room type converter
 * that stores it as its constant name (TagStatusStateConverter).
 */
module TagStates {
  import opened Wrappers

  datatype TagStatusState = FirstSample | TooFar | Approaching | Here | Logged | TimedOut

  /** `Enum.name()`: the constant's identifier as declared. */
  function Name(s: TagStatusState): string {
    match s
    case FirstSample => "FIRST_SAMPLE"
    case TooFar => "TOO_FAR"
    case Approaching => "APPROACHING"
    case Here => "HERE"
    case Logged => "LOGGED"
    case TimedOut => "TIMED_OUT"
  }

  /** `Enum.valueOf(name)`: `None` where Java throws IllegalArgumentException. */
  function ValueOf(v: string): (r: Option<TagStatusState>)
    ensures r.Some? ==> Name(r.value) == v
  {
    if v == "FIRST_SAMPLE" then Some(FirstSample)
    else if v == "TOO_FAR" then Some(TooFar)
    else if v == "APPROACHING" then Some(Approaching)
    else if v == "HERE" then Some(Here)
    else if v == "LOGGED" then Some(Logged)
    else if v == "TIMED_OUT" then Some(TimedOut)
    else None
  }

  /** Outcome of `fromString`: a (possibly null) state, or the exception `valueOf` raises. */
  datatype Conversion = Converted(state: Option<TagStatusState>) | IllegalArgument

  /** TagStatusStateConverter.toString: null stays null, a state becomes its name. */
  function StateToString(state: Option<TagStatusState>): (r: Option<string>)
    ensures r.None? <==> state.None?
    ensures state.Some? ==> r == Some(Name(state.value))
  {
    match state
    case None => None
    case Some(s) => Some(Name(s))
  }

  /** TagStatusStateConverter.fromString: null stays null, a name becomes its state, any
      other string raises. */
  function StateFromString(value: Option<string>): (r: Conversion)
    ensures value.None? ==> r == Converted(None)
    ensures r.IllegalArgument? <==> value.Some? && forall s :: Name(s) != value.value
    ensures r.Converted? && r.state.Some? ==> value == Some(Name(r.state.value))
  {
    match value
    case None => Converted(None)
    case Some(v) =>
      var s := ValueOf(v);
      if s.Some? then Converted(s)
      else
        assert forall t :: Name(t) != v by {
          forall t {
            ValueOfName(t);
          }
        }
        IllegalArgument
  }

  /** `valueOf` recognises every constant's own name. */
  lemma ValueOfName(t: TagStatusState)
    ensures ValueOf(Name(t)) == Some(t)
  {
  }

  /** Storing a state and reading it back gives the same state, for all six states and null. */
  lemma ConverterRoundTrip(state: Option<TagStatusState>)
    ensures StateFromString(StateToString(state)) == Converted(state)
  {
  }

  /** Distinct states are stored under distinct names. */
  lemma NameInjective(a: TagStatusState, b: TagStatusState)
    ensures Name(a) == Name(b) ==> a == b
  {
  }

  /** A tracked pass of one tag (TagStatus). The trend fields `previousEmaRssi` and
      `consecutiveRssiIncreases` are read by no modelled operation and are left out. */
  datatype TagStatus = TagStatus(
    trackId: int,
    tagId: int,
    friendlyName: Option<string>,
    entryTimeMs: int,
    peakTimeMs: int,
    exitTimeMs: int,
    peakRssi: real,
    emaRssi: real,
    state: TagStatusState,
    lastSeenMs: int)

  const INITIAL_PEAK_RSSI: real := -500.0

  /** The no-argument constructor: a FIRST_SAMPLE pass with an empty name and zero times. */
  function EmptyTagStatus(): TagStatus {
    TagStatus(0, 0, Some(""), 0, 0, 0, INITIAL_PEAK_RSSI, 0.0, FirstSample, 0)
  }

  /** The four-argument constructor: last seen at entry, peak at -500, EMA at 0, and no
      track id until the database assigns one. */
  function NewTagStatus(tagId: int, friendlyName: Option<string>, entryTimeMs: int, initialState: TagStatusState): (s: TagStatus)
    ensures s.lastSeenMs == s.entryTimeMs == entryTimeMs && s.state == initialState
    ensures s.peakRssi == INITIAL_PEAK_RSSI && s.emaRssi == 0.0
  {
    EmptyTagStatus().(tagId := tagId, friendlyName := friendlyName, entryTimeMs := entryTimeMs,
                      lastSeenMs := entryTimeMs, state := initialState)
  }

  /** `isInProcess`: every state but LOGGED, including TIMED_OUT. */
  predicate IsInProcess(s: TagStatus) { s.state != Logged }

  /** Position along the pass lifecycle FIRST_SAMPLE, APPROACHING, HERE, LOGGED; TOO_FAR
      and TIMED_OUT are off that line. */
  function Stage(s: TagStatusState): int {
    match s
    case FirstSample => 0
    case Approaching => 1
    case Here => 2
    case Logged => 3
    case TooFar => -1
    case TimedOut => -1
  }

  /** `b` is `a`, or lies further along the lifecycle than `a`. */
  predicate Advances(a: TagStatusState, b: TagStatusState) {
    a == b || (0 <= Stage(a) < Stage(b))
  }

  /** Position along the order the calibration handlers move through: TOO_FAR, APPROACHING,
      HERE, LOGGED. FIRST_SAMPLE and TIMED_OUT are off that line. */
  function HandlerRank(s: TagStatusState): int {
    match s
    case TooFar => 0
    case Approaching => 1
    case Here => 2
    case Logged => 3
    case FirstSample => -1
    case TimedOut => -1
  }

  /** `b` is `a`, or lies further along the handlers' order than `a`. */
  predicate HandlerAdvances(a: TagStatusState, b: TagStatusState) {
    a == b || (0 <= HandlerRank(a) < HandlerRank(b))
  }

  lemma AdvancesTransitive(a: TagStatusState, b: TagStatusState, c: TagStatusState)
    requires Advances(a, b) && Advances(b, c)
    ensures Advances(a, c)
  {
  }

  lemma HandlerAdvancesTransitive(a: TagStatusState, b: TagStatusState, c: TagStatusState)
    requires HandlerAdvances(a, b) && HandlerAdvances(b, c)
    ensures HandlerAdvances(a, c)
  {
  }
}
