/**
 * The decisions the two result-file plotters (scripts/plot_result3.py and
 * scripts/plot_result.py) share: loading a result file into an item, the speed and
 * proximity labels, the nearest raw sample to a time, where a state's marker goes, and the
 * grouping of items by speed and name. Drawing is not modelled.
 */
module ResultPlots {
  import opened Wrappers
  import opened Text
  import opened Sorting
  import opened PyValues

  // ---------------------------------------------------------------- labels

  const RUN_MAX_ROWS: int := 70
  const WALK_MIN_ROWS: int := 140
  const CLOSE_PEAK_DBM: int := -78

  /** `guess_speed`: few rows means the tag passed quickly. */
  function GuessSpeed(n: int): (s: string)
    ensures s == "Run" || s == "Jog" || s == "Walk"
  {
    if n <= RUN_MAX_ROWS then "Run"
    else if n >= WALK_MIN_ROWS then "Walk"
    else "Jog"
  }

  /** Position of a speed label from fastest to slowest. */
  function SpeedRank(s: string): nat { if s == "Run" then 0 else if s == "Jog" then 1 else 2 }

  /** Each label covers one interval of row counts, Run up to 70 inclusive and Walk from 140
      inclusive, and more rows never give a faster label. */
  lemma SpeedIntervals(n: int, m: int)
    ensures GuessSpeed(n) == "Run" <==> n <= 70
    ensures GuessSpeed(n) == "Walk" <==> n >= 140
    ensures GuessSpeed(n) == "Jog" <==> 70 < n < 140
    ensures n <= m ==> SpeedRank(GuessSpeed(n)) <= SpeedRank(GuessSpeed(m))
  {
  }

  lemma SpeedBoundaries()
    ensures GuessSpeed(70) == "Run" && GuessSpeed(71) == "Jog"
    ensures GuessSpeed(139) == "Jog" && GuessSpeed(140) == "Walk"
  {
  }

  /** `guess_distance`: "?" without a peak; Close when the peak reaches -78 dBm. */
  function GuessDistance(peak: Option<real>): (d: string)
    ensures d == "?" <==> peak.None?
    ensures d == "Close" <==> peak.Some? && peak.value >= CLOSE_PEAK_DBM as real
    ensures d == "Far" <==> peak.Some? && peak.value < CLOSE_PEAK_DBM as real
  {
    if peak.None? then "?" else if peak.value >= CLOSE_PEAK_DBM as real then "Close" else "Far"
  }

  // ---------------------------------------------------------------- loaded result files

  /** A `series` element; a key that is missing reads as `None`, like a JSON null. */
  datatype SeriesPoint = SeriesPoint(t: PyVal, rssi: PyVal)

  /** A state pin under an algorithm: missing or null (`None` for `.get`), or a dict. */
  datatype Node = Absent | Dict(entries: map<string, PyVal>)

  /** `node.get(k)`. */
  function Get(n: Node, k: string): PyVal
    requires n.Dict?
  {
    if k in n.entries then n.entries[k] else PNone
  }

  /** A dict is truthy when it is not empty. */
  predicate NodeTruthy(n: Node) { n.Dict? && |n.entries| > 0 }

  datatype LinePt = LinePt(t: PyVal, v: PyVal)

  /** One algorithm's entry: its state pins by name and its line (a missing line reads as
      an empty one; both are falsy). */
  datatype States = States(nodes: map<string, Node>, line: seq<LinePt>)

  /** `states.get(st)`. */
  function StateNode(s: States, st: string): Node {
    if st in s.nodes then s.nodes[st] else Absent
  }

  /** A parsed result file: `series`, `sampleFile` when present, and `algorithms` in file order. */
  datatype Doc = Doc(series: seq<SeriesPoint>, sampleFile: Option<string>, algorithms: seq<(string, States)>)

  /** `load_results`' record for one file. */
  datatype Item = Item(path: string, name: string, series: seq<SeriesPoint>, algos: seq<(string, States)>,
                       nrows: nat, peak: Option<real>, speed: string, dist: string)

  /** The numeric `rssi` values of a series, in order. */
  function NumericRssi(series: seq<SeriesPoint>): (r: seq<real>)
    ensures |r| <= |series|
    ensures |r| == 0 <==> forall i :: 0 <= i < |series| ==> !IsNumber(series[i].rssi)
    ensures forall x :: x in r <==> exists i :: 0 <= i < |series| && IsNumber(series[i].rssi) && NumValue(series[i].rssi) == x
    decreases |series|
  {
    if |series| == 0 then []
    else
      var rest := NumericRssi(series[1..]);
      assert forall i :: 1 <= i < |series| ==> series[i] == series[1..][i - 1];
      if IsNumber(series[0].rssi) then [NumValue(series[0].rssi)] + rest else rest
  }

  /** Python's `max` of a non-empty list. */
  function MaxReal(xs: seq<real>): (m: real)
    requires |xs| > 0
    ensures m in xs
    ensures forall i :: 0 <= i < |xs| ==> xs[i] <= m
    decreases |xs|
  {
    if |xs| == 1 then xs[0]
    else
      var m := MaxReal(xs[..|xs| - 1]);
      assert forall i :: 0 <= i < |xs| - 1 ==> xs[i] == xs[..|xs| - 1][i];
      if xs[|xs| - 1] > m then xs[|xs| - 1] else m
  }

  /** The peak: the greatest numeric `rssi`, or `None` when the series has none. */
  function PeakOf(series: seq<SeriesPoint>): (peak: Option<real>)
    ensures peak.None? <==> forall i :: 0 <= i < |series| ==> !IsNumber(series[i].rssi)
    ensures peak.Some? ==>
              && (exists i :: 0 <= i < |series| && IsNumber(series[i].rssi) && NumValue(series[i].rssi) == peak.value)
              && (forall i :: 0 <= i < |series| && IsNumber(series[i].rssi) ==> NumValue(series[i].rssi) <= peak.value)
  {
    var vals := NumericRssi(series);
    if |vals| == 0 then None
    else
      var m := MaxReal(vals);
      assert forall i :: 0 <= i < |series| && IsNumber(series[i].rssi) ==> NumValue(series[i].rssi) in vals;
      Some(m)
  }

  predicate IsPathSep(c: char) { c == '/' || c == '\\' }

  /** `os.path.basename` for the Windows paths the scripts run on: what follows the last
      slash or backslash. */
  function Basename(p: string): (b: string)
    ensures |b| <= |p| && b == p[|p| - |b|..]
    ensures forall i :: 0 <= i < |b| ==> !IsPathSep(b[i])
    ensures |b| < |p| ==> IsPathSep(p[|p| - |b| - 1])
    decreases |p|
  {
    if |p| == 0 || IsPathSep(p[|p| - 1]) then ""
    else
      var b := Basename(p[..|p| - 1]);
      b + [p[|p| - 1]]
  }

  /** The item of one parsed file. */
  function LoadItem(path: string, d: Doc): (it: Item)
    ensures it.path == path && it.series == d.series && it.algos == d.algorithms
    ensures it.name == if d.sampleFile.Some? then d.sampleFile.value else Basename(path)
    ensures it.nrows == |d.series| && it.peak == PeakOf(d.series)
    ensures it.speed == GuessSpeed(|d.series|) && it.dist == GuessDistance(PeakOf(d.series))
  {
    var peak := PeakOf(d.series);
    Item(path, d.sampleFile.GetOr(Basename(path)), d.series, d.algorithms, |d.series|, peak,
         GuessSpeed(|d.series|), GuessDistance(peak))
  }

  /** `load_results` over files in order; `None` is a file `json.load` could not read. */
  function LoadResults(files: seq<(string, Option<Doc>)>): (items: seq<Item>)
    ensures |items| <= |files|
    decreases |files|
  {
    if |files| == 0 then []
    else
      var rest := LoadResults(files[..|files| - 1]);
      var d := files[|files| - 1].1;
      if d.None? then rest
      else rest + [LoadItem(files[|files| - 1].0, d.value)]
  }

  /** Every loaded item's speed is the one its row count suggests. */
  lemma {:induction false} LoadedSpeeds(files: seq<(string, Option<Doc>)>)
    ensures forall x :: x in LoadResults(files) ==> x.speed == GuessSpeed(x.nrows)
    decreases |files|
  {
    if |files| > 0 {
      LoadedSpeeds(files[..|files| - 1]);
    }
  }

  /** A file that cannot be parsed yields no item; any other yields its item at the end. */
  lemma LoadResultsSnoc(files: seq<(string, Option<Doc>)>, p: string, d: Option<Doc>)
    ensures LoadResults(files + [(p, d)]) == if d.None? then LoadResults(files) else LoadResults(files) + [LoadItem(p, d.value)]
  {
    assert (files + [(p, d)])[..|files|] == files;
  }

  // ---------------------------------------------------------------- nearest sample

  /** Every `t` in the series is falsy or a number, as `p.get("t") or 0` minus a number needs. */
  predicate TimesTyped(series: seq<SeriesPoint>) {
    forall i :: 0 <= i < |series| ==> !Truthy(series[i].t) || IsNumber(series[i].t)
  }

  function Abs(x: real): real { if x < 0.0 then -x else x }

  /** `abs((p.get("t") or 0) - target)`. */
  function Gap(p: SeriesPoint, target: real): real
    requires !Truthy(p.t) || IsNumber(p.t)
  {
    Abs(OrZero(p.t) - target)
  }

  /** `k` is the first index of least gap to `target`: what Python's `min` picks. */
  predicate FirstNearest(series: seq<SeriesPoint>, target: real, k: int)
    requires TimesTyped(series)
  {
    && 0 <= k < |series|
    && (forall j :: 0 <= j < |series| ==> Gap(series[k], target) <= Gap(series[j], target))
    && (forall j :: 0 <= j < k ==> Gap(series[j], target) > Gap(series[k], target))
  }

  function ArgNearest(series: seq<SeriesPoint>, target: real): (k: nat)
    requires |series| > 0 && TimesTyped(series)
    ensures FirstNearest(series, target, k)
    decreases |series|
  {
    if |series| == 1 then 0
    else
      var init := series[..|series| - 1];
      assert forall i :: 0 <= i < |init| ==> init[i] == series[i];
      var k := ArgNearest(init, target);
      if Gap(series[|series| - 1], target) < Gap(series[k], target) then |series| - 1 else k
  }

  /** There is one first nearest index. */
  lemma FirstNearestUnique(series: seq<SeriesPoint>, target: real, k: int, l: int)
    requires TimesTyped(series) && FirstNearest(series, target, k) && FirstNearest(series, target, l)
    ensures k == l
  {
    assert Gap(series[k], target) <= Gap(series[l], target) && Gap(series[l], target) <= Gap(series[k], target);
  }

  /** `nearest_series_y`: `None` for an empty series, else the `rssi` of the first sample
      nearest in time to `target`, a missing time counting as 0. */
  function NearestSeriesY(series: seq<SeriesPoint>, target: real): (r: Option<PyVal>)
    requires TimesTyped(series)
    ensures r.None? <==> |series| == 0
    ensures forall k :: FirstNearest(series, target, k) ==> r == Some(series[k].rssi)
  {
    if |series| == 0 then None
    else
      var k := ArgNearest(series, target);
      assert forall l :: FirstNearest(series, target, l) ==> l == k by {
        forall l | FirstNearest(series, target, l) ensures l == k {
          FirstNearestUnique(series, target, k, l);
        }
      }
      Some(series[k].rssi)
  }

  // ---------------------------------------------------------------- state markers

  const STATE_ORDER: seq<string> := ["APPROACHING", "HERE", "LOGGED", "PEAK"]

  /** An algorithm's dashed line is drawn when some line point has both a time and a value. */
  predicate LineDrawn(line: seq<LinePt>) {
    exists i :: 0 <= i < |line| && !line[i].t.PNone? && !line[i].v.PNone?
  }

  /** Which plotter: scripts/plot_result3.py keeps a pin's own reading only inside
      [-120, -60]; scripts/plot_result.py only requires it not to exceed -60. */
  datatype Variant = Grid | Pages

  /** The pin's own `rssi` is drawn as it is. */
  predicate KeepsRssi(variant: Variant, y: PyVal) {
    IsNumber(y) && NumValue(y) <= -60.0 && (variant.Pages? || NumValue(y) >= -120.0)
  }

  /** Both plotters keep only numeric readings no stronger than -60 dBm; they differ exactly
      on the readings under -120 dBm, which only scripts/plot_result.py keeps. */
  lemma KeepsRssiVariants(y: PyVal)
    ensures KeepsRssi(Grid, y) ==> KeepsRssi(Pages, y)
    ensures KeepsRssi(Pages, y) ==> IsNumber(y) && NumValue(y) <= -60.0
    ensures KeepsRssi(Pages, y) && !KeepsRssi(Grid, y) <==> IsNumber(y) && NumValue(y) < -120.0
  {
  }

  /** A truthy pin whose `t` is not `None` has a numeric `t` (dividing it or subtracting it
      would raise otherwise). */
  predicate NodeTimeTyped(n: Node) {
    NodeTruthy(n) && !Get(n, "t").PNone? ==> IsNumber(Get(n, "t"))
  }

  predicate StatesTyped(s: States) {
    forall st :: st in STATE_ORDER ==> NodeTimeTyped(StateNode(s, st))
  }

  /** A drawn state marker: the state, the pin's time and the y value used. */
  datatype Event = Event(state: string, t: real, y: PyVal)

  /** One state of the marker loop. A falsy pin or one without a time is skipped; a pin's own
      reading is kept when `KeepsRssi`; otherwise the reading of the first nearest raw sample
      stands in, and the state is skipped when that is `None` too. */
  function ResolveState(s: States, series: seq<SeriesPoint>, st: string, variant: Variant): (e: Option<Event>)
    requires NodeTimeTyped(StateNode(s, st)) && TimesTyped(series)
    ensures e.Some? ==> NodeTruthy(StateNode(s, st)) && !Get(StateNode(s, st), "t").PNone?
    ensures e.Some? ==> e.value.state == st && e.value.t == NumValue(Get(StateNode(s, st), "t")) && !e.value.y.PNone?
    ensures NodeTruthy(StateNode(s, st)) && !Get(StateNode(s, st), "t").PNone? ==>
              var y := Get(StateNode(s, st), "rssi");
              && (KeepsRssi(variant, y) ==> e.Some? && e.value.y == y)
              && (!KeepsRssi(variant, y) && |series| == 0 ==> e.None?)
              && (forall k :: !KeepsRssi(variant, y) && FirstNearest(series, NumValue(Get(StateNode(s, st), "t")), k) ==>
                    e == if series[k].rssi.PNone? then None
                         else Some(Event(st, NumValue(Get(StateNode(s, st), "t")), series[k].rssi)))
  {
    var node := StateNode(s, st);
    if !NodeTruthy(node) then None
    else
      var tt := Get(node, "t");
      if tt.PNone? then None
      else
        var yy := Get(node, "rssi");
        var y := if KeepsRssi(variant, yy) then yy else NearestSeriesY(series, NumValue(tt)).GetOr(PNone);
        if y.PNone? then None else Some(Event(st, NumValue(tt), y))
  }

  function OptList(o: Option<Event>): (r: seq<Event>)
    ensures |r| <= 1 && (|r| == 1 <==> o.Some?) && (o.Some? ==> r[0] == o.value)
  {
    if o.Some? then [o.value] else []
  }

  /** The marker loop over a list of states: the states that resolve, in list order. */
  function ResolveList(s: States, series: seq<SeriesPoint>, states: seq<string>, variant: Variant): (r: seq<Event>)
    requires forall st :: st in states ==> NodeTimeTyped(StateNode(s, st))
    requires TimesTyped(series)
    requires forall i, j :: 0 <= i < j < |states| ==> StateRank(states[i]) < StateRank(states[j])
    ensures |r| <= |states|
    ensures forall i :: 0 <= i < |r| ==> r[i].state in states && ResolveState(s, series, r[i].state, variant) == Some(r[i])
    ensures forall i, j :: 0 <= i < j < |r| ==> StateRank(r[i].state) < StateRank(r[j].state)
    ensures forall st :: st in states && ResolveState(s, series, st, variant).Some? ==>
              ResolveState(s, series, st, variant).value in r
    decreases |states|
  {
    if |states| == 0 then []
    else
      var rest := ResolveList(s, series, states[1..], variant);
      assert forall e :: e in rest ==> e.state in states[1..];
      OptList(ResolveState(s, series, states[0], variant)) + rest
  }

  /** The marker loop over APPROACHING, HERE, LOGGED, PEAK: the resolved states, in that order. */
  function ResolveEvents(s: States, series: seq<SeriesPoint>, variant: Variant): (r: seq<Event>)
    requires StatesTyped(s) && TimesTyped(series)
    ensures |r| <= 4
    ensures forall i :: 0 <= i < |r| ==> r[i].state in STATE_ORDER && ResolveState(s, series, r[i].state, variant) == Some(r[i])
    ensures forall i, j :: 0 <= i < j < |r| ==> StateRank(r[i].state) < StateRank(r[j].state)
    ensures forall st :: st in STATE_ORDER && ResolveState(s, series, st, variant).Some? ==>
              ResolveState(s, series, st, variant).value in r
  {
    assert StateRank(STATE_ORDER[0]) == 0 && StateRank(STATE_ORDER[1]) == 1;
    assert StateRank(STATE_ORDER[2]) == 2 && StateRank(STATE_ORDER[3]) == 3;
    ResolveList(s, series, STATE_ORDER, variant)
  }

  /** Index of a state in STATE_ORDER. */
  function StateRank(st: string): nat {
    if st == "APPROACHING" then 0 else if st == "HERE" then 1 else if st == "LOGGED" then 2 else 3
  }

  // ---------------------------------------------------------------- grouping

  /** scripts/plot_result3.py: any speed starting with "run" in any case counts as Run. */
  function GroupSpeed(sp: string): (r: string)
    ensures r == "Run" || r == sp
    ensures r == "Run" <==> RunPrefix(sp)
  {
    LowerPrefix(sp, 3);
    if StartsWith(LowerAscii(sp), "run") then "Run" else sp
  }

  /** `sp` starts with "run" in any mix of ASCII case. */
  predicate RunPrefix(sp: string) {
    |sp| >= 3 && LowerChar(sp[0]) == 'r' && LowerChar(sp[1]) == 'u' && LowerChar(sp[2]) == 'n'
  }

  /** Lower-casing and taking a prefix commute. */
  lemma LowerPrefix(s: string, n: nat)
    ensures n <= |s| ==> LowerAscii(s)[..n] == LowerAscii(s[..n])
  {
  }

  /** scripts/plot_result.py: a speed that is not a group name is checked for a "run" prefix. */
  function PagedGroupSpeed(sp: string): (r: string)
    ensures r == "Run" || r == sp
    ensures r == "Run" <==> RunPrefix(sp)
  {
    if sp == "Walk" || sp == "Jog" || sp == "Run" then sp else GroupSpeed(sp)
  }

  /** Grouping is idempotent: a grouped speed groups to itself. */
  lemma GroupSpeedIdempotent(sp: string)
    ensures GroupSpeed(GroupSpeed(sp)) == GroupSpeed(sp)
  {
    if GroupSpeed(sp) == "Run" {
      assert RunPrefix("Run");
    }
  }

  /** The two scripts group every speed the same way. */
  lemma GroupSpeedsAgree(sp: string)
    ensures PagedGroupSpeed(sp) == GroupSpeed(sp)
  {
    if sp == "Walk" {
      assert LowerAscii(sp)[..3] != "run" by { assert LowerAscii(sp)[0] == 'w'; }
    } else if sp == "Jog" {
      assert LowerAscii(sp)[..3] != "run" by { assert LowerAscii(sp)[0] == 'j'; }
    } else if sp == "Run" {
      assert LowerAscii(sp) == "run";
    }
  }

  /** Items whose group is `g`, in input order. */
  function InGroup(items: seq<Item>, g: string): (r: seq<Item>)
    ensures |r| <= |items|
    ensures forall i :: 0 <= i < |r| ==> GroupSpeed(r[i].speed) == g
    decreases |items|
  {
    if |items| == 0 then []
    else
      var rest := InGroup(items[1..], g);
      if GroupSpeed(items[0].speed) == g then [items[0]] + rest else rest
  }

  function NameLe(a: Item, b: Item): bool { StrLe(a.name, b.name) }

  lemma NameLeTotalPreorder()
    ensures TotalPreorder(NameLe)
  {
    forall a: Item, b: Item ensures NameLe(a, b) || NameLe(b, a) {
      StrLeTotal(a.name, b.name);
    }
    forall a: Item, b: Item, c: Item | NameLe(a, b) && NameLe(b, c) ensures NameLe(a, c) {
      StrLeTrans(a.name, b.name, c.name);
    }
  }

  /** One group, sorted by name (stably: equal names keep their load order). */
  function SortedGroup(items: seq<Item>, g: string): (r: seq<Item>)
    ensures multiset(r) == multiset(InGroup(items, g))
    ensures SortedBy(r, NameLe)
    // items with the same name keep their load order
    ensures forall p :: KeyRun(r, p, NameLe) == KeyRun(InGroup(items, g), p, NameLe)
  {
    NameLeTotalPreorder();
    SortSorted(InGroup(items, g), NameLe);
    forall p ensures KeyRun(Sort(InGroup(items, g), NameLe), p, NameLe) == KeyRun(InGroup(items, g), p, NameLe) {
      SortStable(InGroup(items, g), p, NameLe);
    }
    Sort(InGroup(items, g), NameLe)
  }

  /** `sort_groups`' ordered list: the Run block, then Jog, then Walk, each by name. Items
      of any other group are left out. */
  function SortGroups(items: seq<Item>): (ordered: seq<Item>)
    ensures multiset(ordered) ==
            multiset(InGroup(items, "Run")) + multiset(InGroup(items, "Jog")) + multiset(InGroup(items, "Walk"))
    ensures forall x :: x in ordered ==> x in items
  {
    var ordered := SortedGroup(items, "Run") + SortedGroup(items, "Jog") + SortedGroup(items, "Walk");
    assert forall x :: x in ordered ==> x in items by {
      forall x | x in ordered ensures x in items {
        assert x in multiset(ordered);
        GroupMember(items, x);
      }
    }
    ordered
  }

  /** Members of the three groups are items. */
  lemma GroupMember(items: seq<Item>, x: Item)
    requires x in multiset(InGroup(items, "Run")) + multiset(InGroup(items, "Jog")) + multiset(InGroup(items, "Walk"))
    ensures x in items
  {
    if x in multiset(InGroup(items, "Run")) {
      InGroupMember(items, "Run", x);
    } else if x in multiset(InGroup(items, "Jog")) {
      InGroupMember(items, "Jog", x);
    } else {
      InGroupMember(items, "Walk", x);
    }
  }

  /** Members of a group are items. */
  lemma {:induction false} InGroupMember(items: seq<Item>, g: string, x: Item)
    requires x in InGroup(items, g)
    ensures x in items
    decreases |items|
  {
    if |items| > 0 && x != items[0] {
      InGroupMember(items[1..], g, x);
    }
  }


  /** Rank of an item's group in the ordered list. */
  function GroupRank(it: Item): nat { SpeedRank(GroupSpeed(it.speed)) }

  lemma SortedGroupMembers(items: seq<Item>, g: string, x: Item)
    requires x in SortedGroup(items, g)
    ensures GroupSpeed(x.speed) == g
  {
    assert x in multiset(SortedGroup(items, g));
    assert x in InGroup(items, g);
  }

  /** Every member of a sorted group has that group's rank. */
  lemma SortedGroupRank(items: seq<Item>, g: string)
    ensures forall x :: x in SortedGroup(items, g) ==> GroupRank(x) == SpeedRank(g)
  {
    forall x | x in SortedGroup(items, g) ensures GroupRank(x) == SpeedRank(g) {
      SortedGroupMembers(items, g, x);
    }
  }

  /** Three name-sorted blocks of ranks 0, 1 and 2, one after the other, run by rank and
      by name within a rank. */
  lemma BlocksInOrder(a: seq<Item>, b: seq<Item>, c: seq<Item>)
    requires SortedBy(a, NameLe) && SortedBy(b, NameLe) && SortedBy(c, NameLe)
    requires forall x :: x in a ==> GroupRank(x) == 0
    requires forall x :: x in b ==> GroupRank(x) == 1
    requires forall x :: x in c ==> GroupRank(x) == 2
    ensures var o := a + b + c;
            forall i, j :: 0 <= i < j < |o| ==>
              GroupRank(o[i]) < GroupRank(o[j]) || (GroupRank(o[i]) == GroupRank(o[j]) && NameLe(o[i], o[j]))
  {
    var o := a + b + c;
    forall i | 0 <= i < |o|
      ensures GroupRank(o[i]) == (if i < |a| then 0 else if i < |a| + |b| then 1 else 2)
    {
      if i < |a| {
        assert o[i] in a;
      } else if i < |a| + |b| {
        assert o[i] == b[i - |a|];
      } else {
        assert o[i] == c[i - |a| - |b|];
      }
    }
    forall i, j | 0 <= i < j < |o|
      ensures GroupRank(o[i]) < GroupRank(o[j]) || (GroupRank(o[i]) == GroupRank(o[j]) && NameLe(o[i], o[j]))
    {
      if j < |a| {
        assert NameLe(a[i], a[j]);
      } else if |a| <= i && j < |a| + |b| {
        assert NameLe(b[i - |a|], b[j - |a|]);
      } else if |a| + |b| <= i {
        assert NameLe(c[i - |a| - |b|], c[j - |a| - |b|]);
      }
    }
  }

  /** The ordered list runs by group (Run, Jog, Walk) and by name within a group. */
  lemma SortGroupsOrder(items: seq<Item>)
    ensures var o := SortGroups(items);
            forall i, j :: 0 <= i < j < |o| ==>
              GroupRank(o[i]) < GroupRank(o[j]) || (GroupRank(o[i]) == GroupRank(o[j]) && NameLe(o[i], o[j]))
  {
    SortedGroupRank(items, "Run");
    SortedGroupRank(items, "Jog");
    SortedGroupRank(items, "Walk");
    BlocksInOrder(SortedGroup(items, "Run"), SortedGroup(items, "Jog"), SortedGroup(items, "Walk"));
  }

  predicate InKnownGroup(it: Item) { GroupSpeed(it.speed) in {"Run", "Jog", "Walk"} }

  lemma {:induction false} GroupsPartition(items: seq<Item>)
    requires forall i :: 0 <= i < |items| ==> InKnownGroup(items[i])
    ensures multiset(InGroup(items, "Run")) + multiset(InGroup(items, "Jog")) + multiset(InGroup(items, "Walk")) == multiset(items)
    decreases |items|
  {
    if |items| > 0 {
      GroupsPartition(items[1..]);
      assert items == [items[0]] + items[1..];
    }
  }

  /** When every item belongs to Run, Jog or Walk, the ordered list is a permutation of the items. */
  lemma SortGroupsPermutation(items: seq<Item>)
    requires forall i :: 0 <= i < |items| ==> InKnownGroup(items[i])
    ensures multiset(SortGroups(items)) == multiset(items)
  {
    GroupsPartition(items);
  }

  /** Loaded items always carry one of the three speeds, so nothing is ever left out. */
  lemma LoadedItemsAllGrouped(files: seq<(string, Option<Doc>)>)
    ensures multiset(SortGroups(LoadResults(files))) == multiset(LoadResults(files))
  {
    var items := LoadResults(files);
    LoadedSpeeds(files);
    forall i | 0 <= i < |items| ensures InKnownGroup(items[i]) {
      assert items[i] in items;
      var sp := items[i].speed;
      GroupSpeedsAgree(sp);
    }
    SortGroupsPermutation(items);
  }
}
