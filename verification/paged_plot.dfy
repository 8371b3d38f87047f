/**
 * scripts/plot_result.py: result files grouped by speed and drawn four to a page. The model
 * keeps the y range of a panel, the split of a group into pages and their titles, the
 * three-digit id taken from a sample file name and the focus filter built on it, and the
 * algorithms a page's legend lists.
 */
module PagedPlot {
  import opened Wrappers
  import opened Text
  import opened Sorting
  import opened PyValues
  import opened ResultPlots
  import opened Ints

  const MAX_SUBPLOTS_PER_FIG: nat := 4

  // ---------------------------------------------------------------- y range

  /** Python's `min` of a non-empty list. */
  function MinReal(xs: seq<real>): (m: real)
    requires |xs| > 0
    ensures m in xs
    ensures forall i :: 0 <= i < |xs| ==> m <= xs[i]
    decreases |xs|
  {
    if |xs| == 1 then xs[0]
    else
      var m := MinReal(xs[..|xs| - 1]);
      assert forall i :: 0 <= i < |xs| - 1 ==> xs[i] == xs[..|xs| - 1][i];
      if xs[|xs| - 1] < m then xs[|xs| - 1] else m
  }

  function RMin(a: real, b: real): real { if a <= b then a else b }
  function RMax(a: real, b: real): real { if a >= b then a else b }

  /** `dynamic_ylim`: the panel's y range. Without numeric readings it is [-105, -70].
      Otherwise it reaches at least down to -105 and 2 dB below the lowest reading, and at
      least up to -70 and 2 dB above the highest reading, a reading above -60 counting as -60. */
  function DynamicYlim(series: seq<SeriesPoint>): (lim: (real, real))
    ensures NumericRssi(series) == [] ==> lim == (-105.0, -70.0)
    ensures lim.0 <= -105.0 && -70.0 <= lim.1 <= -58.0
    ensures forall i :: 0 <= i < |series| && IsNumber(series[i].rssi) ==>
              lim.0 <= NumValue(series[i].rssi) - 2.0 && RMin(NumValue(series[i].rssi), -60.0) + 2.0 <= lim.1
    ensures lim.0 == -105.0 || exists i :: 0 <= i < |series| && IsNumber(series[i].rssi) && lim.0 == NumValue(series[i].rssi) - 2.0
    // the top is the least value meeting those bounds: -70, or one reading's capped value + 2
    ensures lim.1 == -70.0
            || exists i :: 0 <= i < |series| && IsNumber(series[i].rssi) && lim.1 == RMin(NumValue(series[i].rssi), -60.0) + 2.0
  {
    var ys := NumericRssi(series);
    if |ys| == 0 then (-105.0, -70.0)
    else
      var yMin := MinReal(ys);
      var yMax := MaxReal(ys);
      assert forall i :: 0 <= i < |series| && IsNumber(series[i].rssi) ==> NumValue(series[i].rssi) in ys;
      var yMax' := if yMax > -60.0 then -60.0 else yMax;
      (RMin(yMin - 2.0, -105.0), RMax(yMax' + 2.0, -70.0))
  }

  // ---------------------------------------------------------------- pages

  /** Consecutive pieces of `xs` of `size` elements, the last one possibly shorter. */
  function Pieces<T>(xs: seq<T>, size: nat): (ps: seq<seq<T>>)
    requires size > 0
    ensures forall k :: 0 <= k < |ps| ==> 0 < |ps[k]| <= size
    ensures forall k :: 0 <= k < |ps| - 1 ==> |ps[k]| == size
    decreases |xs|
  {
    if |xs| == 0 then []
    else if |xs| <= size then [xs]
    else [xs[..size]] + Pieces(xs[size..], size)
  }

  function Flatten<T>(ps: seq<seq<T>>): seq<T> {
    if |ps| == 0 then [] else ps[0] + Flatten(ps[1..])
  }

  lemma {:induction false} FlattenAppend<T>(a: seq<seq<T>>, b: seq<seq<T>>)
    ensures Flatten(a + b) == Flatten(a) + Flatten(b)
    decreases |a|
  {
    if |a| > 0 {
      assert (a + b)[1..] == a[1..] + b;
      FlattenAppend(a[1..], b);
      calc {
        Flatten(a + b);
        a[0] + Flatten(a[1..] + b);
        a[0] + (Flatten(a[1..]) + Flatten(b));
        (a[0] + Flatten(a[1..])) + Flatten(b);
      }
    } else {
      assert a + b == b;
    }
  }

  /** The pieces, put back together, are the input. */
  lemma {:induction false} PiecesFlatten<T>(xs: seq<T>, size: nat)
    requires size > 0
    ensures Flatten(Pieces(xs, size)) == xs
    decreases |xs|
  {
    if |xs| > size {
      PiecesFlatten(xs[size..], size);
      assert ([xs[..size]] + Pieces(xs[size..], size))[1..] == Pieces(xs[size..], size);
    } else if |xs| > 0 {
      assert [xs][1..] == [];
    }
  }

  /** There are ceil(|xs| / 4) pages of four. */
  lemma {:induction false} PiecesCount<T>(xs: seq<T>)
    ensures |Pieces(xs, MAX_SUBPLOTS_PER_FIG)| == (|xs| + MAX_SUBPLOTS_PER_FIG - 1) / MAX_SUBPLOTS_PER_FIG
    decreases |xs|
  {
    if |xs| > MAX_SUBPLOTS_PER_FIG {
      PiecesCount(xs[MAX_SUBPLOTS_PER_FIG..]);
    }
  }

  /** Piece `k` holds the elements from position k * size on. */
  lemma {:induction false} PieceAt<T>(xs: seq<T>, size: nat, k: nat)
    requires size > 0 && k < |Pieces(xs, size)|
    ensures k * size < |xs|
    ensures Pieces(xs, size)[k] == xs[k * size .. Min(k * size + size, |xs|)]
    decreases |xs|
  {
    if |xs| > size && k > 0 {
      var rest := xs[size..];
      var j := (k - 1) * size;
      NextMultiple(k, size);
      assert Pieces(xs, size)[k] == Pieces(rest, size)[k - 1];
      PieceAt(rest, size, k - 1);
      var hi := Min(j + size, |rest|);
      assert |rest| + size == |xs| && j + size == k * size;
      assert hi + size == Min(k * size + size, |xs|);
      assert rest[j .. hi] == xs[k * size .. hi + size];
    }
  }

  lemma NextMultiple(k: nat, size: nat)
    requires k > 0
    ensures (k - 1) * size + size == k * size
  {
  }

  /** `chunks(seq, size)`: each piece with its 1-based number and the number of pieces. */
  function Chunks<T>(xs: seq<T>, size: nat): (cs: seq<(seq<T>, nat, nat)>)
    requires size > 0
    ensures |cs| == |Pieces(xs, size)|
    ensures forall k :: 0 <= k < |cs| ==> cs[k] == (Pieces(xs, size)[k], k + 1, (|xs| + size - 1) / size)
  {
    var ps := Pieces(xs, size);
    seq(|ps|, k requires 0 <= k < |ps| => (ps[k], k + 1, (|xs| + size - 1) / size))
  }

  /** One figure: its speed group, its items, its number and the group's page count. */
  datatype Page = Page(speed: string, items: seq<Item>, index: nat, count: nat)

  /** The pages of one group. */
  function GroupPages(speed: string, g: seq<Item>): (pages: seq<Page>)
    ensures |pages| == (|g| + MAX_SUBPLOTS_PER_FIG - 1) / MAX_SUBPLOTS_PER_FIG
    ensures forall k :: 0 <= k < |pages| ==>
              pages[k].speed == speed && pages[k].index == k + 1 && pages[k].count == |pages|
              && 0 < |pages[k].items| <= MAX_SUBPLOTS_PER_FIG
  {
    PiecesCount(g);
    var cs := Chunks(g, MAX_SUBPLOTS_PER_FIG);
    seq(|cs|, k requires 0 <= k < |cs| => Page(speed, cs[k].0, cs[k].1, (|g| + MAX_SUBPLOTS_PER_FIG - 1) / MAX_SUBPLOTS_PER_FIG))
  }

  /** The numbers in a page title: "samples start–end". */
  function TitleRange(p: Page): (int, int) {
    var start := (p.index - 1) * MAX_SUBPLOTS_PER_FIG + 1;
    (start, start + |p.items| - 1)
  }

  /** A page's title range is exactly its items' 1-based positions in the group. */
  lemma TitleRangeIsPositions(speed: string, g: seq<Item>, k: nat)
    requires k < |GroupPages(speed, g)|
    ensures var p := GroupPages(speed, g)[k];
            var (start, end) := TitleRange(p);
            1 <= start <= end <= |g| && p.items == g[start - 1 .. end]
  {
    PiecesCount(g);
    PieceAt(g, MAX_SUBPLOTS_PER_FIG, k);
  }

  function PageItems(pages: seq<Page>): seq<Item> {
    if |pages| == 0 then [] else pages[0].items + PageItems(pages[1..])
  }

  /** A group's pages hold its items, in order. */
  lemma {:induction false} GroupPagesCover(speed: string, g: seq<Item>)
    ensures PageItems(GroupPages(speed, g)) == g
  {
    var pages := GroupPages(speed, g);
    var ps := Pieces(g, MAX_SUBPLOTS_PER_FIG);
    PiecesFlatten(g, MAX_SUBPLOTS_PER_FIG);
    PageItemsIsFlatten(pages, ps);
  }

  lemma {:induction false} PageItemsIsFlatten(pages: seq<Page>, ps: seq<seq<Item>>)
    requires |pages| == |ps| && forall k :: 0 <= k < |ps| ==> pages[k].items == ps[k]
    ensures PageItems(pages) == Flatten(ps)
    decreases |ps|
  {
    if |ps| > 0 {
      PageItemsIsFlatten(pages[1..], ps[1..]);
    }
  }

  lemma {:induction false} PageItemsAppend(a: seq<Page>, b: seq<Page>)
    ensures PageItems(a + b) == PageItems(a) + PageItems(b)
    decreases |a|
  {
    if |a| > 0 {
      assert (a + b)[1..] == a[1..] + b;
      PageItemsAppend(a[1..], b);
      calc {
        PageItems(a + b);
        a[0].items + PageItems(a[1..] + b);
        a[0].items + (PageItems(a[1..]) + PageItems(b));
        (a[0].items + PageItems(a[1..])) + PageItems(b);
      }
    } else {
      assert a + b == b;
    }
  }

  /** `main`'s figures: Walk's pages, then Jog's, then Run's, each group sorted by name. */
  function AllPages(items: seq<Item>): (pages: seq<Page>)
    ensures forall p :: p in pages ==> p.speed in {"Walk", "Jog", "Run"} && 0 < |p.items| <= MAX_SUBPLOTS_PER_FIG
  {
    var w := GroupPages("Walk", SortedGroup(items, "Walk"));
    var j := GroupPages("Jog", SortedGroup(items, "Jog"));
    var r := GroupPages("Run", SortedGroup(items, "Run"));
    assert forall p :: p in w + j + r ==> p in w || p in j || p in r;
    w + j + r
  }

  /** Every loaded file is drawn exactly once, and each page holds only items of its group. */
  lemma AllPagesCoverLoaded(files: seq<(string, Option<Doc>)>)
    ensures var items := LoadResults(files);
            multiset(PageItems(AllPages(items))) == multiset(items)
  {
    var items := LoadResults(files);
    var w, j, r := GroupPages("Walk", SortedGroup(items, "Walk")), GroupPages("Jog", SortedGroup(items, "Jog")),
                   GroupPages("Run", SortedGroup(items, "Run"));
    PageItemsAppend(w + j, r);
    PageItemsAppend(w, j);
    GroupPagesCover("Walk", SortedGroup(items, "Walk"));
    GroupPagesCover("Jog", SortedGroup(items, "Jog"));
    GroupPagesCover("Run", SortedGroup(items, "Run"));
    LoadedItemsAllGrouped(files);
  }

  /** Each page holds only items of its own speed group. */
  lemma PagesHoldTheirGroup(items: seq<Item>, k: nat, x: Item)
    requires k < |AllPages(items)| && x in AllPages(items)[k].items
    ensures PagedGroupSpeed(x.speed) == AllPages(items)[k].speed
  {
    var p := AllPages(items)[k];
    assert p in AllPages(items);
    GroupSpeedsAgree(x.speed);
    if p in GroupPages("Walk", SortedGroup(items, "Walk")) {
      GroupPageMember("Walk", SortedGroup(items, "Walk"), p, x);
      SortedGroupMembers(items, "Walk", x);
    } else if p in GroupPages("Jog", SortedGroup(items, "Jog")) {
      GroupPageMember("Jog", SortedGroup(items, "Jog"), p, x);
      SortedGroupMembers(items, "Jog", x);
    } else {
      GroupPageMember("Run", SortedGroup(items, "Run"), p, x);
      SortedGroupMembers(items, "Run", x);
    }
  }

  lemma GroupPageMember(speed: string, g: seq<Item>, p: Page, x: Item)
    requires p in GroupPages(speed, g) && x in p.items
    ensures x in g && p.speed == speed
  {
    var k :| 0 <= k < |GroupPages(speed, g)| && GroupPages(speed, g)[k] == p;
    TitleRangeIsPositions(speed, g, k);
  }

  // ---------------------------------------------------------------- sample ids

  /** `$` also matches just before a final newline. */
  function DropFinalNewline(s: string): (b: string)
    ensures |s| > 0 && s[|s| - 1] == '\n' ==> b == s[..|s| - 1]
    ensures (|s| == 0 || s[|s| - 1] != '\n') ==> b == s
  {
    if |s| > 0 && s[|s| - 1] == '\n' then s[..|s| - 1] else s
  }

  /** The longest run of ASCII digits that ends `s`. */
  function TrailingDigits(s: string): (d: string)
    ensures |d| <= |s| && d == s[|s| - |d|..] && AllDigits(d)
    ensures |d| < |s| ==> !IsDigit(s[|s| - |d| - 1])
    decreases |s|
  {
    if |s| > 0 && IsDigit(s[|s| - 1]) then
      var d := TrailingDigits(s[..|s| - 1]) + [s[|s| - 1]];
      assert s[..|s| - 1][|s| - |d|..] + [s[|s| - 1]] == s[|s| - |d|..];
      d
    else ""
  }

  /** The digit run the id is taken from: the one ending just before a final ".csv"
      (`(\d+)\.csv$`), else the one ending the name (`(\d+)$`). */
  function IdRun(name: string): (run: string)
    ensures AllDigits(run)
  {
    var body := DropFinalNewline(name);
    var m := if EndsWith(body, ".csv") then TrailingDigits(body[..|body| - 4]) else "";
    if m != "" then m else TrailingDigits(body)
  }

  /** `last_three_digits_before_csv`: the last three digits of the id run, or all of it when
      shorter; `None` when the name has no such run. */
  function LastThreeDigitsBeforeCsv(name: string): (r: Option<string>)
    ensures r.None? <==> IdRun(name) == ""
    ensures r.Some? ==> AllDigits(r.value) && EndsWith(IdRun(name), r.value) && |r.value| == Min(3, |IdRun(name)|)
  {
    var digits := IdRun(name);
    if digits == "" then None else Some(LastUpToThree(digits))
  }

  /** The last three characters of a digit run, or all of it when shorter. */
  function LastUpToThree(digits: string): (r: string)
    requires AllDigits(digits)
    ensures AllDigits(r) && EndsWith(digits, r) && |r| == Min(3, |digits|)
  {
    var r := if |digits| >= 3 then digits[|digits| - 3..] else digits;
    assert AllDigits(r) by {
      forall i | 0 <= i < |r| ensures IsDigit(r[i]) {
        assert r[i] == digits[|digits| - |r| + i];
      }
    }
    r
  }

  /** `f"{i:03d}"`: at least three characters, zero-padded after any sign. */
  function Format03(i: int): (s: string)
    ensures |s| >= 3
  {
    if i >= 0 then
      var d := NatToString(i);
      (if |d| == 1 then "00" else if |d| == 2 then "0" else "") + d
    else
      var d := NatToString(-i);
      "-" + (if |d| == 1 then "0" else "") + d
  }

  /** The three digits of a number below 1000. */
  function Digits3(n: nat): string
    requires n < 1000
  {
    [DigitChar(n / 100), DigitChar(n / 10 % 10), DigitChar(n % 10)]
  }

  lemma NatToStringSmall(n: nat)
    ensures n < 10 ==> NatToString(n) == [DigitChar(n)]
    ensures 10 <= n < 100 ==> NatToString(n) == [DigitChar(n / 10), DigitChar(n % 10)]
  {
    if 10 <= n < 100 {
      assert NatToString(n / 10) == [DigitChar(n / 10)];
    }
  }

  /** A number below 1000 is formatted as its three digits. */
  lemma Format03Digits(n: nat)
    requires n < 1000
    ensures Format03(n) == Digits3(n)
  {
    NatToStringSmall(n);
    if n >= 100 {
      NatToStringSmall(n / 10);
      assert NatToString(n) == NatToString(n / 10) + [DigitChar(n % 10)];
      assert n / 10 / 10 == n / 100;
    }
  }

  lemma Digits3Injective(a: nat, b: nat)
    requires a < 1000 && b < 1000 && Digits3(a) == Digits3(b)
    ensures a == b
  {
    assert DigitValue(Digits3(a)[0]) == DigitValue(Digits3(b)[0]);
    assert DigitValue(Digits3(a)[1]) == DigitValue(Digits3(b)[1]);
    assert DigitValue(Digits3(a)[2]) == DigitValue(Digits3(b)[2]);
    ThreeDigits(a);
    ThreeDigits(b);
  }

  lemma ThreeDigits(a: nat)
    ensures a == 100 * (a / 100) + 10 * (a / 10 % 10) + a % 10
  {
    Div10(a / 10, a / 10 / 10, a / 10 % 10);
    assert a / 10 / 10 == a / 100;
  }

  lemma Div10(x: int, q: int, r: int)
    requires x == 10 * q + r && 0 <= r < 10
    ensures x / 10 == q && x % 10 == r
  {
  }

  lemma Div100(x: int, q: int, r: int)
    requires x == 100 * q + r && 0 <= r < 100
    ensures x / 100 == q && x % 100 == r
  {
  }

  /** The three lowest digits of `n` are the digits of `n % 1000`. */
  lemma LowDigits(n: nat)
    ensures n % 1000 / 100 == n / 100 % 10
    ensures n % 1000 / 10 % 10 == n / 10 % 10
    ensures n % 1000 % 10 == n % 10
  {
    var a, b := n / 1000, n % 1000;
    var c, d := b / 100, b % 100;
    Div100(n, 10 * a + c, d);
    Div10(10 * a + c, a, c);
    var e := b / 10;
    Div10(n, 100 * a + e, b % 10);
    Div10(100 * a + e, 10 * a + e / 10, e % 10);
  }

  /** The last three characters of the decimal text of a number from 100 up are its
      three lowest digits. */
  lemma LastThreeOfNumber(n: nat)
    requires n >= 100
    ensures |NatToString(n)| >= 3
    ensures var s := NatToString(n); s[|s| - 3..] == Digits3(n % 1000)
  {
    ThreeTail(n);
    LastDigitOf(n / 100);
    LowDigits(n);
  }

  lemma ThreeTail(n: nat)
    requires n >= 100
    ensures var s, q := NatToString(n), NatToString(n / 100);
            |s| >= 3 && s[|s| - 3..] == [q[|q| - 1], DigitChar(n / 10 % 10), DigitChar(n % 10)]
  {
    LastDigitOf(n);
    LastDigitOf(n / 10);
    assert n / 10 / 10 == n / 100;
    LastThreeOfAppended(NatToString(n), NatToString(n / 10), NatToString(n / 100), DigitChar(n / 10 % 10), DigitChar(n % 10));
  }

  lemma LastThreeOfAppended(s: string, p: string, q: string, b: char, c: char)
    requires s == p + [c] && p == q + [b] && |q| >= 1
    ensures |s| >= 3 && s[|s| - 3..] == [q[|q| - 1], b, c]
  {
  }

  /** The decimal text of a number ends in its lowest digit, after the text of the rest. */
  lemma LastDigitOf(m: nat)
    ensures var t := NatToString(m); t[|t| - 1] == DigitChar(m % 10)
    ensures m >= 10 ==> NatToString(m) == NatToString(m / 10) + [DigitChar(m % 10)]
  {
  }

  /** The id of a sample file named `<prefix><number>.csv`, the prefix not ending in a digit
      and the number at least 100, is the number's three lowest digits. */
  lemma SampleFileId(prefix: string, n: nat)
    requires n >= 100 && (|prefix| == 0 || !IsDigit(prefix[|prefix| - 1]))
    ensures LastThreeDigitsBeforeCsv(prefix + NatToString(n) + ".csv") == Some(Format03(n % 1000))
  {
    var digits := NatToString(n);
    IdRunOfSampleName(prefix, digits);
    LastThreeOfNumber(n);
    Format03Digits(n % 1000);
    assert LastThreeDigitsBeforeCsv(prefix + digits + ".csv") == Some(digits[|digits| - 3..]);
  }

  /** In `<prefix><digits>.csv` the id run is the digits. */
  lemma IdRunOfSampleName(prefix: string, digits: string)
    requires AllDigits(digits) && digits != "" && (|prefix| == 0 || !IsDigit(prefix[|prefix| - 1]))
    ensures IdRun(prefix + digits + ".csv") == digits
  {
    var name := prefix + digits + ".csv";
    assert DropFinalNewline(name) == name;
    assert EndsWith(name, ".csv");
    assert name[..|name| - 4] == prefix + digits;
    TrailingDigitsAfter(prefix, digits);
  }

  lemma {:induction false} TrailingDigitsAfter(prefix: string, digits: string)
    requires AllDigits(digits) && (|prefix| == 0 || !IsDigit(prefix[|prefix| - 1]))
    ensures TrailingDigits(prefix + digits) == digits
    decreases |digits|
  {
    var s := prefix + digits;
    if |digits| == 0 {
      assert s == prefix;
    } else {
      var init := digits[..|digits| - 1];
      var c := digits[|digits| - 1];
      assert s[|s| - 1] == c && IsDigit(c);
      assert s[..|s| - 1] == prefix + init;
      TrailingDigitsAfter(prefix, init);
      assert TrailingDigits(s) == TrailingDigits(prefix + init) + [c];
      assert init + [c] == digits;
    }
  }

  // ---------------------------------------------------------------- focus filter

  const FOCUS_IDS: seq<int> := [896, 291, 894, 352]

  /** `{f"{i:03d}" for i in FOCUS_IDS}`. */
  function Suffixes(ids: seq<int>): (s: set<string>)
    ensures forall x :: x in s <==> exists i :: i in ids && x == Format03(i)
  {
    set i | i in ids :: Format03(i)
  }

  /** An item survives when its id, or "" when it has none, is one of the suffixes. */
  predicate InFocus(it: Item, ids: seq<int>) {
    LastThreeDigitsBeforeCsv(it.name).GetOr("") in Suffixes(ids)
  }

  /** `main`'s focus filter: everything when the id list is empty, else the items in focus, in order. */
  function FocusFilter(items: seq<Item>, ids: seq<int>): (r: seq<Item>)
    ensures |ids| == 0 ==> r == items
    ensures |r| <= |items|
    ensures |ids| > 0 ==> forall x :: x in r <==> x in items && InFocus(x, ids)
    decreases |items|
  {
    if |ids| == 0 || |items| == 0 then items
    else
      var rest := FocusFilter(items[1..], ids);
      if InFocus(items[0], ids) then [items[0]] + rest else rest
  }

  /** The filter keeps order and multiplicity: it distributes over concatenation, and a
      single item survives exactly when it is in focus (or when there are no ids). */
  lemma {:induction false} FocusFilterAppend(a: seq<Item>, b: seq<Item>, ids: seq<int>)
    ensures FocusFilter(a + b, ids) == FocusFilter(a, ids) + FocusFilter(b, ids)
    ensures forall x :: FocusFilter([x], ids) == (if |ids| == 0 || InFocus(x, ids) then [x] else [])
    decreases |a|
  {
    if |ids| == 0 || |a| == 0 {
      assert a + b == b || |ids| == 0;
    } else {
      assert (a + b)[1..] == a[1..] + b;
      FocusFilterAppend(a[1..], b, ids);
    }
  }

  /** For sample files named `<prefix><number>.csv` and ids between 0 and 999, a file is in
      focus exactly when its number ends in one of the ids. */
  lemma FocusByNumber(it: Item, prefix: string, n: nat, ids: seq<int>)
    requires it.name == prefix + NatToString(n) + ".csv"
    requires n >= 100 && (|prefix| == 0 || !IsDigit(prefix[|prefix| - 1]))
    requires forall i :: i in ids ==> 0 <= i < 1000
    ensures InFocus(it, ids) <==> (n % 1000) in ids
  {
    SampleFileId(prefix, n);
    Format03Digits(n % 1000);
    if InFocus(it, ids) {
      var i :| i in ids && Format03(n % 1000) == Format03(i);
      Format03Digits(i);
      Digits3Injective(n % 1000, i);
    }
  }

  /** A name without any digit run is never in focus, whatever the ids. */
  lemma NoIdNoFocus(it: Item, ids: seq<int>)
    requires LastThreeDigitsBeforeCsv(it.name).None?
    ensures !InFocus(it, ids)
  {
  }

  // ---------------------------------------------------------------- page legend

  /** An algorithm shows in a page's legend when, in some panel of the page, it has a
      non-empty line or a truthy pin. */
  predicate HasArtwork(s: States) {
    |s.line| > 0 || exists st :: st in STATE_ORDER && NodeTruthy(StateNode(s, st))
  }

  /** `page_algorithms_present`. */
  function PageAlgorithmsPresent(page: seq<Item>): (present: set<string>)
    ensures forall alg :: alg in present <==>
              exists p, i :: 0 <= p < |page| && 0 <= i < |page[p].algos| && page[p].algos[i].0 == alg && HasArtwork(page[p].algos[i].1)
  {
    set p, i | 0 <= p < |page| && 0 <= i < |page[p].algos| && HasArtwork(page[p].algos[i].1) :: page[p].algos[i].0
  }

  /** Whatever an algorithm draws on a page, its name is in the page's legend. */
  lemma LegendCoversDrawn(page: seq<Item>, p: nat, i: nat)
    requires p < |page| && i < |page[p].algos|
    requires StatesTyped(page[p].algos[i].1) && TimesTyped(page[p].series)
    requires LineDrawn(page[p].algos[i].1.line) || |ResolveEvents(page[p].algos[i].1, page[p].series, Pages)| > 0
    ensures page[p].algos[i].0 in PageAlgorithmsPresent(page)
  {
    var s := page[p].algos[i].1;
    var events := ResolveEvents(s, page[p].series, Pages);
    if !LineDrawn(s.line) {
      assert ResolveState(s, page[p].series, events[0].state, Pages) == Some(events[0]);
      assert NodeTruthy(StateNode(s, events[0].state));
    }
  }
}
