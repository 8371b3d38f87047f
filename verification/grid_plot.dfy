/**
 * scripts/plot_result3.py: all result files on one 4 x 5 grid. The model keeps what decides
 * the picture: which item lands in which panel, which markers and lines each algorithm
 * contributes to its legend entry, the "miss" marker for a pass that never reached LOGGED,
 * the legend's order, and the show/hide toggle behind a click on a legend entry. A drawn
 * matplotlib artist is a record with its kind and its `visible` flag.
 */
module GridPlot {
  import opened Wrappers
  import opened PyValues
  import opened ResultPlots
  import opened Ints
  import Driver

  const N_COLS: nat := 5
  const N_ROWS: nat := 4
  const MAX_SLOTS: nat := 20
  const YMIN: int := -105
  const YMAX: int := -60

  // ---------------------------------------------------------------- panels

  /** Row and column of slot `idx`. */
  function Slot(idx: nat): (rc: (nat, nat))
    ensures rc.1 < N_COLS && rc.0 * N_COLS + rc.1 == idx
  {
    (idx / N_COLS, idx % N_COLS)
  }

  /** The 20 slots cover the 4 x 5 grid, each panel exactly once. */
  lemma SlotsCoverGrid(i: nat, j: nat, r: nat, c: nat)
    ensures i < MAX_SLOTS ==> Slot(i).0 < N_ROWS
    ensures Slot(i) == Slot(j) ==> i == j
    ensures r < N_ROWS && c < N_COLS ==> r * N_COLS + c < MAX_SLOTS && Slot(r * N_COLS + c) == (r, c)
  {
  }

  datatype Panel = Off | Shows(item: Item)

  /** Each slot shows the item of its index in the ordered list, or is switched off. */
  function Panels(ordered: seq<Item>): (ps: seq<Panel>)
    ensures |ps| == MAX_SLOTS
    ensures forall idx :: 0 <= idx < MAX_SLOTS ==> (ps[idx].Off? <==> idx >= |ordered|)
    ensures forall idx :: 0 <= idx < MAX_SLOTS && idx < |ordered| ==> ps[idx] == Shows(ordered[idx])
  {
    seq(MAX_SLOTS, idx requires 0 <= idx < MAX_SLOTS => if idx < |ordered| then Shows(ordered[idx]) else Off)
  }

  /** Items after the twentieth never reach a panel. */
  lemma PanelsIgnoreTail(ordered: seq<Item>, extra: seq<Item>)
    requires |ordered| >= MAX_SLOTS
    ensures Panels(ordered + extra) == Panels(ordered)
  {
    var a, b := Panels(ordered + extra), Panels(ordered);
    assert forall idx :: 0 <= idx < MAX_SLOTS ==> a[idx] == b[idx];
  }

  // ---------------------------------------------------------------- miss marker

  /** The right-edge miss tick of one algorithm in one panel, with its y value. It is drawn
      when LOGGED is `None` (missing or null), APPROACHING or HERE is truthy, and the series
      is not empty; its y is the last resolved marker's, else the last raw reading's, else
      YMIN + 5. */
  function MissMarkerY(s: States, series: seq<SeriesPoint>, events: seq<Event>): (y: Option<PyVal>)
    ensures y.Some? <==>
              StateNode(s, "LOGGED").Absent?
              && (NodeTruthy(StateNode(s, "APPROACHING")) || NodeTruthy(StateNode(s, "HERE")))
              && |series| > 0
    ensures y.Some? && |events| > 0 ==> y.value == events[|events| - 1].y
    ensures y.Some? && |events| == 0 ==> y.value == series[|series| - 1].rssi
  {
    var logged := StateNode(s, "LOGGED");
    var a := StateNode(s, "APPROACHING");
    var h := StateNode(s, "HERE");
    if logged.Absent? && (NodeTruthy(a) || NodeTruthy(h)) && |series| > 0 then
      Some(if |events| > 0 then events[|events| - 1].y
           else if |series| > 0 then series[|series| - 1].rssi
           else PNum((YMIN + 5) as real))
    else None
  }

  /** A pin as the driver writes it and `json.load` reads it back: a two-key dict, with
      `None` values for a state that was never reached. */
  function PointNode(p: Driver.Point): (n: Node)
    ensures NodeTruthy(n)
    ensures Get(n, "t") == FromOption(p.tsOffset) && Get(n, "rssi") == FromOption(p.rssi)
  {
    Dict(map["t" := FromOption(p.tsOffset), "rssi" := FromOption(p.rssi)])
  }

  /** An algorithm entry of a result file written by the driver, as loaded. */
  function LoadedStates(a: Driver.AlgoStates, line: seq<LinePt>): (s: States)
    ensures StateNode(s, "APPROACHING") == PointNode(a.approaching)
    ensures StateNode(s, "HERE") == PointNode(a.here)
    ensures StateNode(s, "LOGGED") == PointNode(a.logged)
    ensures StateNode(s, "PEAK") == PointNode(a.peak)
    ensures s.line == line
  {
    States(map["APPROACHING" := PointNode(a.approaching), "HERE" := PointNode(a.here),
               "LOGGED" := PointNode(a.logged), "PEAK" := PointNode(a.peak)], line)
  }

  /** The driver writes a missing LOGGED as `{"t":null,"rssi":null}`, which is not `None`:
      on result files from the driver the miss marker is never drawn. */
  lemma DriverFilesNeverMiss(a: Driver.AlgoStates, line: seq<LinePt>, series: seq<SeriesPoint>, events: seq<Event>)
    ensures MissMarkerY(LoadedStates(a, line), series, events).None?
  {
  }

  /** A state the driver wrote as null gives no marker either: its pin is truthy but has no time. */
  lemma NullPinGivesNoEvent(a: Driver.AlgoStates, line: seq<LinePt>, series: seq<SeriesPoint>, st: string, variant: Variant)
    requires st in STATE_ORDER && TimesTyped(series)
    requires StateNode(LoadedStates(a, line), st) == PointNode(Driver.NULL_POINT)
    ensures ResolveState(LoadedStates(a, line), series, st, variant).None?
  {
  }

  // ---------------------------------------------------------------- artists

  datatype ArtistKind = RawLine | RawPoints | AlgoLine | Marker | Star | Annotation | MissTick

  /** A drawn matplotlib artist: what it is and whether it is shown. */
  datatype Artist = Artist(kind: ArtistKind, visible: bool)

  /** The two artists of one state marker: a star for PEAK, the algorithm's marker for the
      others, each with its annotation. */
  function EventArtists(events: seq<Event>): (arts: seq<Artist>)
    ensures |arts| == 2 * |events|
    ensures forall a :: a in arts ==> a.visible
    ensures forall i :: 0 <= i < |events| ==>
              arts[2 * i] == Artist(if events[i].state == "PEAK" then Star else Marker, true)
              && arts[2 * i + 1] == Artist(Annotation, true)
  {
    var arts := seq(2 * |events|, k requires 0 <= k < 2 * |events| =>
                      if k % 2 == 0 then Artist(if events[k / 2].state == "PEAK" then Star else Marker, true)
                      else Artist(Annotation, true));
    assert forall i :: 0 <= i < |events| ==> (2 * i) % 2 == 0 && (2 * i) / 2 == i && (2 * i + 1) % 2 == 1;
    arts
  }

  /** Every series time is a number (`p["t"] / 1000.0` raises otherwise). */
  predicate SeriesTimed(series: seq<SeriesPoint>) {
    forall i :: 0 <= i < |series| ==> IsNumber(series[i].t)
  }

  /** An algorithm's artists in drawing order: the line, two per marker, the miss tick. */
  function ArtistsOf(lineDrawn: bool, events: seq<Event>, miss: bool): (arts: seq<Artist>)
    ensures |arts| == (if lineDrawn then 1 else 0) + 2 * |events| + (if miss then 1 else 0)
    ensures forall i :: 0 <= i < |arts| ==> arts[i].visible
  {
    var line := if lineDrawn then [Artist(AlgoLine, true)] else [];
    var marks := EventArtists(events);
    var tick := if miss then [Artist(MissTick, true)] else [];
    assert forall a :: a in marks ==> a.visible;
    (line + marks) + tick
  }

  /** One algorithm's artists in one panel: its dashed line, its state markers, its miss tick. */
  function AlgoArtists(s: States, series: seq<SeriesPoint>): (arts: seq<Artist>)
    requires StatesTyped(s) && TimesTyped(series)
    ensures var events := ResolveEvents(s, series, Grid);
            |arts| == (if LineDrawn(s.line) then 1 else 0) + 2 * |events|
                      + (if MissMarkerY(s, series, events).Some? then 1 else 0)
  {
    var events := ResolveEvents(s, series, Grid);
    ArtistsOf(LineDrawn(s.line), events, MissMarkerY(s, series, events).Some?)
  }

  // ---------------------------------------------------------------- label registry

  datatype Entry = Entry(name: string, artists: seq<Artist>)

  function LabelsOf(reg: seq<Entry>): (ls: seq<string>)
    ensures |ls| == |reg| && forall i :: 0 <= i < |reg| ==> ls[i] == reg[i].name
  {
    seq(|reg|, i requires 0 <= i < |reg| => reg[i].name)
  }

  predicate Distinct(ls: seq<string>) {
    forall i, j :: 0 <= i < j < |ls| ==> ls[i] != ls[j]
  }

  /** `label_to_artists.setdefault(label, []).extend(arts)`: a known label's list grows in
      place; a new label is added at the end. */
  function Register(reg: seq<Entry>, name: string, arts: seq<Artist>): (r: seq<Entry>)
    requires Distinct(LabelsOf(reg))
    ensures Distinct(LabelsOf(r))
    ensures name in LabelsOf(r)
    ensures forall l :: l in LabelsOf(r) <==> l in LabelsOf(reg) || l == name
    ensures name in LabelsOf(reg) ==>
              |r| == |reg|
              && forall i :: 0 <= i < |reg| ==>
                   r[i] == if reg[i].name == name then reg[i].(artists := reg[i].artists + arts) else reg[i]
    ensures name !in LabelsOf(reg) ==> r == reg + [Entry(name, arts)]
  {
    if name in LabelsOf(reg) then
      var r := seq(|reg|, i requires 0 <= i < |reg| =>
                     if reg[i].name == name then reg[i].(artists := reg[i].artists + arts) else reg[i]);
      assert LabelsOf(r) == LabelsOf(reg);
      r
    else
      var r := reg + [Entry(name, arts)];
      assert LabelsOf(r) == LabelsOf(reg) + [name];
      r
  }

  /** An algorithm of a panel draws something: a line, a marker or a miss tick. */
  predicate Draws(a: (string, States), series: seq<SeriesPoint>)
    requires StatesTyped(a.1) && TimesTyped(series)
  {
    |AlgoArtists(a.1, series)| > 0
  }

  /** The names of the algorithms that draw something. */
  function DrawingNames(algos: seq<(string, States)>, series: seq<SeriesPoint>): set<string>
    requires TimesTyped(series) && forall i :: 0 <= i < |algos| ==> StatesTyped(algos[i].1)
    decreases |algos|
  {
    if |algos| == 0 then {}
    else (if Draws(algos[0], series) then {algos[0].0} else {}) + DrawingNames(algos[1..], series)
  }

  /** A name is a drawing name exactly when some algorithm of that name draws something. */
  lemma {:induction false} DrawingNamesMeans(algos: seq<(string, States)>, series: seq<SeriesPoint>, l: string)
    requires TimesTyped(series) && forall i :: 0 <= i < |algos| ==> StatesTyped(algos[i].1)
    ensures l in DrawingNames(algos, series) <==>
              exists i :: 0 <= i < |algos| && algos[i].0 == l && Draws(algos[i], series)
    decreases |algos|
  {
    if |algos| > 0 {
      DrawingNamesMeans(algos[1..], series, l);
      if l in DrawingNames(algos[1..], series) {
        var k :| 0 <= k < |algos[1..]| && algos[1..][k].0 == l && Draws(algos[1..][k], series);
        assert algos[k + 1] == algos[1..][k];
      }
      if exists i :: 0 <= i < |algos| && algos[i].0 == l && Draws(algos[i], series) {
        var k :| 0 <= k < |algos| && algos[k].0 == l && Draws(algos[k], series);
        if k > 0 {
          assert algos[1..][k - 1] == algos[k];
        }
      }
    }
  }

  /** The algorithms of one panel, in file order; an algorithm that drew nothing is not registered. */
  function RegisterAlgos(reg: seq<Entry>, algos: seq<(string, States)>, series: seq<SeriesPoint>): (r: seq<Entry>)
    requires Distinct(LabelsOf(reg)) && TimesTyped(series)
    requires forall i :: 0 <= i < |algos| ==> StatesTyped(algos[i].1)
    ensures Distinct(LabelsOf(r))
    ensures forall l :: l in LabelsOf(r) <==> l in LabelsOf(reg) || l in DrawingNames(algos, series)
    decreases |algos|
  {
    if |algos| == 0 then reg
    else
      var reg1 := if Draws(algos[0], series) then Register(reg, algos[0].0, AlgoArtists(algos[0].1, series)) else reg;
      RegisterAlgos(reg1, algos[1..], series)
  }

  /** Everything one panel draws can be registered: series times are numbers and pins typed. */
  predicate PlottableItem(it: Item) {
    SeriesTimed(it.series) && forall i :: 0 <= i < |it.algos| ==> StatesTyped(it.algos[i].1)
  }

  lemma TimedIsTyped(series: seq<SeriesPoint>)
    requires SeriesTimed(series)
    ensures TimesTyped(series)
  {
  }

  /** A panel that registers "Measured": its series is not empty (or, oddly, one of its
      algorithms is called "Measured" and drew something). */
  predicate RegistersMeasured(it: Item)
    requires PlottableItem(it)
  {
    TimedIsTyped(it.series);
    |it.series| > 0 || "Measured" in DrawingNames(it.algos, it.series)
  }

  /** One panel: the raw line and points under "Measured" when the series is not empty,
      then the algorithms. */
  function RegisterPanel(reg: seq<Entry>, it: Item): (r: seq<Entry>)
    requires Distinct(LabelsOf(reg)) && PlottableItem(it)
    ensures Distinct(LabelsOf(r))
    ensures "Measured" in LabelsOf(r) <==> "Measured" in LabelsOf(reg) || RegistersMeasured(it)
  {
    TimedIsTyped(it.series);
    var reg1 := if |it.series| > 0 then Register(reg, "Measured", [Artist(RawLine, true), Artist(RawPoints, true)]) else reg;
    RegisterAlgos(reg1, it.algos, it.series)
  }

  /** The registry after the drawn panels, in slot order. */
  function RegisterPanels(reg: seq<Entry>, items: seq<Item>): (r: seq<Entry>)
    requires Distinct(LabelsOf(reg)) && forall it :: it in items ==> PlottableItem(it)
    ensures Distinct(LabelsOf(r))
    ensures "Measured" in LabelsOf(r) <==>
              "Measured" in LabelsOf(reg) || exists it :: it in items && RegistersMeasured(it)
    decreases |items|
  {
    if |items| == 0 then reg
    else
      assert forall x :: x in items <==> x == items[0] || x in items[1..];
      RegisterPanels(RegisterPanel(reg, items[0]), items[1..])
  }

  /** `plot_all`'s registry: the panels of the first twenty items of the ordered list. */
  function PlotRegistry(items: seq<Item>): (reg: seq<Entry>)
    requires forall it :: it in items ==> PlottableItem(it)
    ensures Distinct(LabelsOf(reg))
    ensures var ordered := SortGroups(items);
            "Measured" in LabelsOf(reg) <==>
              exists it :: it in ordered[..Min(MAX_SLOTS, |ordered|)] && RegistersMeasured(it)
  {
    var ordered := SortGroups(items);
    var drawn := ordered[..Min(MAX_SLOTS, |ordered|)];
    assert forall x :: x in drawn ==> x in ordered;
    RegisterPanels([], drawn)
  }

  // ---------------------------------------------------------------- legend

  /** Labels without `x`, in order. */
  function Without(ls: seq<string>, x: string): (r: seq<string>)
    ensures x !in r && |r| <= |ls|
    ensures forall l :: l in r <==> l in ls && l != x
    decreases |ls|
  {
    if |ls| == 0 then []
    else if ls[0] == x then Without(ls[1..], x)
    else [ls[0]] + Without(ls[1..], x)
  }

  /** The legend's labels: the registered labels in registration order, "Measured" moved first. */
  function LegendLabels(reg: seq<Entry>): (ls: seq<string>)
    ensures "Measured" in LabelsOf(reg) ==> |ls| > 0 && ls[0] == "Measured" && ls[1..] == Without(LabelsOf(reg), "Measured")
    ensures "Measured" !in LabelsOf(reg) ==> ls == LabelsOf(reg)
  {
    var labels := LabelsOf(reg);
    if "Measured" in labels then ["Measured"] + Without(labels, "Measured")
    else
      WithoutAbsent(labels, "Measured");
      labels
  }

  lemma {:induction false} WithoutAbsent(ls: seq<string>, x: string)
    requires x !in ls
    ensures Without(ls, x) == ls
    decreases |ls|
  {
    if |ls| > 0 {
      WithoutAbsent(ls[1..], x);
      assert ls == [ls[0]] + ls[1..];
    }
  }

  /** Removing a label that occurs once takes exactly that one occurrence out. */
  lemma {:induction false} WithoutOnce(ls: seq<string>, x: string)
    requires Distinct(ls) && x in ls
    ensures multiset(Without(ls, x)) + multiset{x} == multiset(ls)
    decreases |ls|
  {
    assert ls == [ls[0]] + ls[1..];
    if ls[0] == x {
      assert x !in ls[1..];
      WithoutAbsent(ls[1..], x);
    } else {
      assert Distinct(ls[1..]);
      WithoutOnce(ls[1..], x);
    }
  }

  /** The legend lists every registered label exactly once. */
  lemma LegendIsPermutation(reg: seq<Entry>)
    requires Distinct(LabelsOf(reg))
    ensures multiset(LegendLabels(reg)) == multiset(LabelsOf(reg))
  {
    var labels := LabelsOf(reg);
    if "Measured" in labels {
      WithoutOnce(labels, "Measured");
    }
  }

  /** Handle and text transparency for a shown or hidden entry. */
  function AlphaFor(visible: bool): real { if visible then 1.0 else 0.25 }

  function SetVisible(arts: seq<Artist>, v: bool): (r: seq<Artist>)
    ensures |r| == |arts|
    ensures forall i :: 0 <= i < |arts| ==> r[i] == arts[i].(visible := v)
  {
    seq(|arts|, i requires 0 <= i < |arts| => arts[i].(visible := v))
  }

  /** The legend's live state: the registry with current visibilities, and each label's
      handle/text transparency. */
  datatype Legend = Legend(entries: seq<Entry>, alpha: map<string, real>)

  /** `attach_interactive_legend`'s start: everything hidden except "Measured". */
  function InitLegend(reg: seq<Entry>): (lg: Legend)
    ensures |lg.entries| == |reg|
    ensures forall i :: 0 <= i < |reg| ==>
              lg.entries[i].name == reg[i].name
              && lg.entries[i].artists == SetVisible(reg[i].artists, reg[i].name == "Measured")
    ensures forall l :: l in lg.alpha <==> l in LabelsOf(reg)
    ensures forall l :: l in lg.alpha ==> lg.alpha[l] == AlphaFor(l == "Measured")
  {
    var entries := seq(|reg|, i requires 0 <= i < |reg| =>
                         Entry(reg[i].name, SetVisible(reg[i].artists, reg[i].name == "Measured")));
    Legend(entries, map l | l in LabelsOf(reg) :: AlphaFor(l == "Measured"))
  }

  predicate AnyVisible(arts: seq<Artist>) {
    exists i :: 0 <= i < |arts| && arts[i].visible
  }

  /** Index of a label's entry, when registered. */
  function EntryIndex(entries: seq<Entry>, name: string): (r: Option<nat>)
    ensures r.None? <==> name !in LabelsOf(entries)
    ensures r.Some? ==> r.value < |entries| && entries[r.value].name == name
    ensures r.Some? ==> forall j :: 0 <= j < r.value ==> entries[j].name != name
    decreases |entries|
  {
    if |entries| == 0 then None
    else if entries[0].name == name then Some(0)
    else
      var r := EntryIndex(entries[1..], name);
      assert LabelsOf(entries) == [entries[0].name] + LabelsOf(entries[1..]);
      if r.None? then None else Some(r.value + 1)
  }

  /** A click on a legend handle or text. `picked` is the label it belongs to, `None` for
      any other artist. An unknown label or one without artists changes nothing; otherwise
      every artist of the label becomes visible exactly when none of them was. */
  function Pick(lg: Legend, picked: Option<string>): (r: Legend)
    ensures picked.None? ==> r == lg
    ensures picked.Some? && EntryIndex(lg.entries, picked.value).None? ==> r == lg
    ensures picked.Some? && EntryIndex(lg.entries, picked.value).Some? ==>
              (|lg.entries[EntryIndex(lg.entries, picked.value).value].artists| == 0 ==> r == lg)
    ensures |r.entries| == |lg.entries|
    ensures forall i :: 0 <= i < |lg.entries| && (picked.None? || lg.entries[i].name != picked.value) ==>
              r.entries[i] == lg.entries[i]
    ensures forall l :: l in lg.alpha && (picked.None? || l != picked.value) ==> l in r.alpha && r.alpha[l] == lg.alpha[l]
  {
    if picked.None? then lg
    else
      var name := picked.value;
      var k := EntryIndex(lg.entries, name);
      if k.None? then lg
      else
        var arts := lg.entries[k.value].artists;
        if |arts| == 0 then lg
        else
          var make := !AnyVisible(arts);
          Legend(lg.entries[k.value := Entry(name, SetVisible(arts, make))], lg.alpha[name := AlphaFor(make)])
  }

  /** After a click the label's artists all agree: shown if none was shown before, hidden otherwise. */
  lemma PickAligns(lg: Legend, name: string)
    requires Distinct(LabelsOf(lg.entries))
    requires EntryIndex(lg.entries, name).Some?
    ensures var k := EntryIndex(lg.entries, name).value;
            var arts := lg.entries[k].artists;
            var r := Pick(lg, Some(name));
            |arts| > 0 ==>
              && r.entries[k].name == name
              && (forall a :: a in r.entries[k].artists ==> a.visible == !AnyVisible(arts))
              && r.alpha[name] == AlphaFor(!AnyVisible(arts))
  {
  }

  /** Each label's artists share one visibility, matched by the label's transparency. */
  predicate Uniform(lg: Legend) {
    && (forall i :: 0 <= i < |lg.entries| ==> lg.entries[i].name in lg.alpha)
    && forall i :: 0 <= i < |lg.entries| ==>
         forall a :: a in lg.entries[i].artists ==> lg.alpha[lg.entries[i].name] == AlphaFor(a.visible)
  }

  lemma AlphaForInjective(a: bool, b: bool)
    ensures AlphaFor(a) == AlphaFor(b) ==> a == b
  {
  }

  /** The starting legend is uniform. */
  lemma InitLegendUniform(reg: seq<Entry>)
    ensures Uniform(InitLegend(reg))
  {
    var lg := InitLegend(reg);
    forall i | 0 <= i < |lg.entries| ensures lg.entries[i].name in lg.alpha {
      assert LabelsOf(reg)[i] == reg[i].name;
    }
  }

  /** Flipping a group of artists that share one visibility twice gives them back. */
  lemma FlipTwice(arts: seq<Artist>, v: bool)
    requires |arts| > 0 && forall a :: a in arts ==> a.visible == v
    ensures !AnyVisible(arts) == !v
    ensures !AnyVisible(SetVisible(arts, !v)) == v
    ensures SetVisible(SetVisible(arts, !v), v) == arts
  {
    assert arts[0] in arts;
    var flipped := SetVisible(arts, !v);
    assert flipped[0].visible == !v;
  }

  /** Clicking a label whose artists share visibility `v` flips them all and its alpha. */
  lemma PickFlips(lg: Legend, name: string, k: nat, v: bool)
    requires EntryIndex(lg.entries, name) == Some(k)
    requires |lg.entries[k].artists| > 0 && forall a :: a in lg.entries[k].artists ==> a.visible == v
    ensures Pick(lg, Some(name)) ==
              Legend(lg.entries[k := Entry(name, SetVisible(lg.entries[k].artists, !v))], lg.alpha[name := AlphaFor(!v)])
  {
    FlipTwice(lg.entries[k].artists, v);
  }

  /** Clicking twice a label whose artists share visibility `v`, matched by its alpha,
      gives the legend back. */
  lemma PickTwiceAt(lg: Legend, name: string, k: nat, v: bool)
    requires EntryIndex(lg.entries, name) == Some(k)
    requires |lg.entries[k].artists| > 0 && forall a :: a in lg.entries[k].artists ==> a.visible == v
    requires name in lg.alpha && lg.alpha[name] == AlphaFor(v)
    ensures Pick(Pick(lg, Some(name)), Some(name)) == lg
  {
    var arts := lg.entries[k].artists;
    var flipped := SetVisible(arts, !v);
    var mid := Legend(lg.entries[k := Entry(name, flipped)], lg.alpha[name := AlphaFor(!v)]);
    PickFlips(lg, name, k, v);
    ReplaceKeepsIndex(lg.entries, name, k, Entry(name, flipped));
    PickFlips(mid, name, k, !v);
    FlipTwice(arts, v);
    UpdateTwice(lg, name, k, Entry(name, flipped), AlphaFor(!v), AlphaFor(v));
  }

  /** Replacing the entry a label was found at by another of the same label keeps it there. */
  lemma ReplaceKeepsIndex(entries: seq<Entry>, name: string, k: nat, e: Entry)
    requires EntryIndex(entries, name) == Some(k) && e.name == name
    ensures EntryIndex(entries[k := e], name) == Some(k)
  {
    assert LabelsOf(entries[k := e]) == LabelsOf(entries);
  }

  /** Overwriting an entry and an alpha, then writing the originals back, restores the legend. */
  lemma UpdateTwice(lg: Legend, name: string, k: nat, e: Entry, a1: real, a2: real)
    requires k < |lg.entries| && lg.entries[k].name == name
    requires name in lg.alpha && lg.alpha[name] == a2
    ensures var mid := Legend(lg.entries[k := e], lg.alpha[name := a1]);
            Legend(mid.entries[k := Entry(name, lg.entries[k].artists)], mid.alpha[name := a2]) == lg
  {
    var mid := Legend(lg.entries[k := e], lg.alpha[name := a1]);
    assert mid.entries[k := Entry(name, lg.entries[k].artists)] == lg.entries;
    assert mid.alpha[name := a2] == lg.alpha;
  }

  /** From a uniform legend, clicking the same entry twice gives the legend back. */
  lemma PickTwiceRestores(lg: Legend, picked: Option<string>)
    requires Distinct(LabelsOf(lg.entries)) && Uniform(lg)
    ensures Pick(Pick(lg, picked), picked) == lg
  {
    if picked.Some? {
      var name := picked.value;
      var k := EntryIndex(lg.entries, name);
      if k.Some? && |lg.entries[k.value].artists| > 0 {
        var arts := lg.entries[k.value].artists;
        var v := arts[0].visible;
        assert lg.alpha[name] == AlphaFor(v) by {
          assert arts[0] in arts;
        }
        forall a | a in arts ensures a.visible == v {
          AlphaForInjective(a.visible, v);
        }
        PickTwiceAt(lg, name, k.value, v);
      }
    }
  }

  /** A click keeps the legend uniform. */
  lemma PickKeepsUniform(lg: Legend, picked: Option<string>)
    requires Distinct(LabelsOf(lg.entries)) && Uniform(lg)
    ensures Uniform(Pick(lg, picked))
  {
    var r := Pick(lg, picked);
    if picked.Some? && EntryIndex(lg.entries, picked.value).Some? {
      var k := EntryIndex(lg.entries, picked.value).value;
      forall i | 0 <= i < |r.entries| ensures r.entries[i].name in r.alpha {
        if i != k {
          assert lg.entries[i].name != picked.value;
        }
      }
    }
  }
}
