/**
 * scripts/plot_samples.py and scripts/plot_samples_individual.py: raw calibration CSV files
 * read with a forgiving header, classified by speed and distance, Run files split into an
 * earlier "Hand" and a later "Shoe" half, and counted per facet of a 4 x 2 grid. Both
 * scripts share the reader (`read_csv_any_header`); the rows arrive already split into cells
 * by `csv.reader`.
 */
module SamplePlots {
  import opened Wrappers
  import opened Text
  import opened Sorting
  import opened ResultPlots
  import Driver
  import CsvIngest

  // ---------------------------------------------------------------- numbers

  function Pow10(k: nat): (p: nat)
    ensures p >= 1
  {
    if k == 0 then 1 else 10 * Pow10(k - 1)
  }

  /** Position of the first '.' in `s`, or |s|. */
  function DotAt(s: string): (i: nat)
    ensures i <= |s| && '.' !in s[..i]
    ensures i < |s| ==> s[i] == '.'
  {
    if |s| == 0 then 0
    else if s[0] == '.' then 0
    else
      var i := 1 + DotAt(s[1..]);
      assert s[..i] == [s[0]] + s[1..][..i - 1];
      i
  }

  /** Python's `float()` on a plain decimal literal: an optional sign, then digits with at
      most one '.', at least one digit in all. Anything else raises ValueError (`None`). */
  function ParsePyFloat(s: string): (r: Option<real>)
    ensures r.Some? ==> |s| > 0
  {
    var neg := |s| > 0 && s[0] == '-';
    var body := if |s| > 0 && (s[0] == '-' || s[0] == '+') then s[1..] else s;
    match UnsignedDecimal(body)
    case Some(x) => Some(if neg then -x else x)
    case None => None
  }

  /** The unsigned part: digits, at most one '.', and at least one digit. */
  function UnsignedDecimal(body: string): (r: Option<real>)
    ensures r.Some? ==> |body| > 0
  {
    var dot := DotAt(body);
    var whole := body[..dot];
    var frac := if dot < |body| then body[dot + 1..] else "";
    if AllDigits(whole) && AllDigits(frac) && |whole| + |frac| > 0 then Some(DecimalValue(whole, frac))
    else None
  }

  /** The value of `whole.frac`: the whole digits plus the fraction digits scaled down by
      ten to their count. */
  function DecimalValue(whole: string, frac: string): real
    requires AllDigits(whole) && AllDigits(frac)
  {
    DigitsValue(whole) as real + DigitsValue(frac) as real / Pow10(|frac|) as real
  }

  /** A printed integer reads back as that integer. */
  lemma ParseIntegerText(i: int)
    ensures ParsePyFloat(IntToString(i)) == Some(i as real)
  {
    var s := IntToString(i);
    var body := if i < 0 then NatToString(-i) else NatToString(i);
    assert s[0] != '+';
    assert i < 0 ==> s[1..] == body;
    assert DotAt(body) == |body| by {
      assert AllDigits(body);
      NoDot(body);
    }
    assert body[..|body|] == body;
  }

  lemma NoDot(s: string)
    requires AllDigits(s)
    ensures DotAt(s) == |s|
    decreases |s|
  {
    if |s| > 0 {
      NoDot(s[1..]);
    }
  }

  /** The value of `sign` applied to `x`: negated after "-", unchanged after "+" or nothing. */
  function Signed(sign: string, x: real): real {
    if sign == "-" then -x else x
  }

  /** A literal built from a sign, whole digits, '.' and fraction digits reads as the whole
      part plus the fraction scaled by its length; without the '.' it reads as its digits. */
  lemma DecimalLiteralValue(sign: string, whole: string, frac: string)
    requires sign == "" || sign == "-" || sign == "+"
    requires AllDigits(whole) && AllDigits(frac) && |whole| + |frac| > 0
    ensures ParsePyFloat(sign + whole + "." + frac) == Some(Signed(sign, DecimalValue(whole, frac)))
    ensures |whole| > 0 ==> ParsePyFloat(sign + whole) == Some(Signed(sign, DigitsValue(whole) as real))
  {
    SignedWithDot(sign, whole, frac);
    if |whole| > 0 {
      UnsignedWithoutDot(whole);
      assert whole[0] != '-' && whole[0] != '+';
      SignThenBody(sign, whole);
    }
  }

  lemma SignedWithDot(sign: string, whole: string, frac: string)
    requires sign == "" || sign == "-" || sign == "+"
    requires AllDigits(whole) && AllDigits(frac) && |whole| + |frac| > 0
    ensures ParsePyFloat(sign + whole + "." + frac) == Some(Signed(sign, DecimalValue(whole, frac)))
  {
    var body := whole + "." + frac;
    assert sign + whole + "." + frac == sign + body;
    assert body[0] == if |whole| > 0 then whole[0] else '.';
    UnsignedWithDot(whole, frac);
    SignThenBody(sign, body);
  }

  /** A sign in front of a body that does not itself start with a sign applies to its value. */
  lemma SignThenBody(sign: string, body: string)
    requires sign == "" || sign == "-" || sign == "+"
    requires |body| > 0 && body[0] != '-' && body[0] != '+'
    ensures ParsePyFloat(sign + body) == match UnsignedDecimal(body)
                                         case Some(x) => Some(Signed(sign, x))
                                         case None => None
  {
    var s := sign + body;
    assert (if |s| > 0 && (s[0] == '-' || s[0] == '+') then s[1..] else s) == body;
  }

  lemma UnsignedWithDot(whole: string, frac: string)
    requires AllDigits(whole) && AllDigits(frac) && |whole| + |frac| > 0
    ensures UnsignedDecimal(whole + "." + frac) == Some(DecimalValue(whole, frac))
  {
    var body := whole + "." + frac;
    assert body == whole + ("." + frac);
    DotAfterDigits(whole, "." + frac);
    var dot := DotAt(body);
    assert dot == |whole| < |body|;
    assert body[..dot] == whole && body[dot + 1..] == frac;
  }

  lemma UnsignedWithoutDot(whole: string)
    requires AllDigits(whole) && |whole| > 0
    ensures UnsignedDecimal(whole) == Some(DigitsValue(whole) as real)
  {
    NoDot(whole);
    assert whole[..|whole|] == whole;
    NoFraction(whole);
  }

  lemma NoFraction(whole: string)
    requires AllDigits(whole)
    ensures DecimalValue(whole, "") == DigitsValue(whole) as real
  {
    assert Pow10(0) == 1;
  }

  /** In digits followed by '.', the first '.' comes right after the digits. */
  lemma DotAfterDigits(whole: string, rest: string)
    requires AllDigits(whole) && |rest| > 0 && rest[0] == '.'
    ensures DotAt(whole + rest) == |whole|
  {
    var s := whole + rest;
    assert s[|whole|] == '.';
    assert forall k :: 0 <= k < |whole| ==> s[k] == whole[k];
  }

  /** The speed-test reading "-70.5" is -70.5. */
  lemma ReadsNegativeDecimal()
    ensures ParsePyFloat("-70.5") == Some(-70.5)
  {
    DigitsSeven();
    DecimalLiteralValue("-", "70", "5");
    assert "-" + "70" + "." + "5" == "-70.5";
    SeventyAndAHalf();
  }

  lemma SeventyAndAHalf()
    ensures DecimalValue("70", "5") == 70.5
  {
    DigitsSeven();
    assert Pow10(1) == 10;
  }

  lemma DigitsSeven()
    ensures AllDigits("70") && DigitsValue("70") == 70 && AllDigits("5") && DigitsValue("5") == 5
  {
    assert "70"[..1] == "7";
    assert "7"[..0] == "";
  }

  /** A text with a letter in it is not a plain decimal. */
  lemma LetterIsNotANumber(s: string, k: nat)
    requires k < |s| && 'a' <= s[k] <= 'z'
    ensures ParsePyFloat(s).None?
  {
    var body := if |s| > 0 && (s[0] == '-' || s[0] == '+') then s[1..] else s;
    var dot := DotAt(body);
    var off := |s| - |body|;
    assert k >= off;
    var j := k - off;
    assert body[j] == s[k];
    if j < dot {
      assert body[..dot][j] == s[k];
    } else if j > dot {
      assert body[dot + 1..][j - dot - 1] == s[k];
    }
  }

  // ---------------------------------------------------------------- header

  /** A row counts as the header when some cell is not blank. */
  predicate HasContent(row: seq<string>) {
    exists c :: c in row && PyStrip(c) != ""
  }

  /** Index of the header row: the first row with content, or |rows|. */
  function HeaderRow(rows: seq<seq<string>>): (h: nat)
    ensures h <= |rows|
    ensures h < |rows| ==> HasContent(rows[h])
    ensures forall k :: 0 <= k < h ==> !HasContent(rows[k])
    decreases |rows|
  {
    if |rows| == 0 then 0
    else if HasContent(rows[0]) then 0
    else 1 + HeaderRow(rows[1..])
  }

  /** `[c.strip().lower() for c in row]`. */
  function HeaderCells(row: seq<string>): (cells: seq<string>)
    ensures |cells| == |row| && forall k :: 0 <= k < |row| ==> cells[k] == LowerAscii(PyStrip(row[k]))
  {
    seq(|row|, k requires 0 <= k < |row| => LowerAscii(PyStrip(row[k])))
  }

  /** `header.index(n)`: the first position holding `n`. */
  function HeaderIndex(header: seq<string>, n: string): (i: nat)
    requires n in header
    ensures i < |header| && header[i] == n
    ensures forall k :: 0 <= k < i ==> header[k] != n
  {
    if header[0] == n then 0 else 1 + HeaderIndex(header[1..], n)
  }

  /** `idx(names)`: the first name of the list that the header holds, at its first position;
      -1 when it holds none of them. */
  function Idx(header: seq<string>, names: seq<string>): (i: int)
    ensures i == -1 <==> forall n :: n in names ==> n !in header
    ensures i >= 0 ==>
              i < |header|
              && exists k :: 0 <= k < |names| && header[i] == names[k]
                   && (forall m :: 0 <= m < k ==> names[m] !in header)
                   && (forall j :: 0 <= j < i ==> header[j] != names[k])
    decreases |names|
  {
    if |names| == 0 then -1
    else if names[0] in header then
      var i := HeaderIndex(header, names[0]);
      assert header[i] == names[0];
      i
    else
      var i := Idx(header, names[1..]);
      IdxSkipsAbsent(header, names, i);
      i
  }

  /** The answer for the list without its first name stands when that name is absent. */
  lemma IdxSkipsAbsent(header: seq<string>, names: seq<string>, i: int)
    requires |names| > 0 && names[0] !in header
    requires i == -1 <==> forall n :: n in names[1..] ==> n !in header
    requires i >= 0 ==>
               i < |header|
               && exists k :: 0 <= k < |names[1..]| && header[i] == names[1..][k]
                    && (forall m :: 0 <= m < k ==> names[1..][m] !in header)
                    && (forall j :: 0 <= j < i ==> header[j] != names[1..][k])
    ensures i == -1 <==> forall n :: n in names ==> n !in header
    ensures i >= 0 ==>
              i < |header|
              && exists k :: 0 <= k < |names| && header[i] == names[k]
                   && (forall m :: 0 <= m < k ==> names[m] !in header)
                   && (forall j :: 0 <= j < i ==> header[j] != names[k])
  {
    if i >= 0 {
      var k :| 0 <= k < |names[1..]| && header[i] == names[1..][k]
               && (forall m :: 0 <= m < k ==> names[1..][m] !in header)
               && (forall j :: 0 <= j < i ==> header[j] != names[1..][k]);
      assert header[i] == names[k + 1];
      forall m | 0 <= m < k + 1 ensures names[m] !in header {
        if m > 0 { assert names[m] == names[1..][m - 1]; }
      }
    } else {
      assert forall n :: n in names ==> n == names[0] || n in names[1..];
    }
  }

  const TS_NAMES: seq<string> := ["timestamp", "timestampms", "ts", "time"]

  // ---------------------------------------------------------------- rows

  /** The values read from one data row: skipped (`None`) when the row is too short for
      either column, when either field is blank after stripping, or when either does not
      parse; otherwise the time relative to BASE_TS and the rssi. */
  function RowValues(row: seq<string>, tsI: nat, rssiI: nat): (v: Option<(real, real)>)
    ensures v.Some? <==>
              |row| > tsI && |row| > rssiI
              && ParsePyFloat(PyStrip(row[tsI])).Some? && ParsePyFloat(PyStrip(row[rssiI])).Some?
    ensures v.Some? ==>
              v.value.0 == ParsePyFloat(PyStrip(row[tsI])).value - Driver.BASE_TS as real
              && v.value.1 == ParsePyFloat(PyStrip(row[rssiI])).value
  {
    if |row| == 0 then None
    else if |row| <= (if tsI >= rssiI then tsI else rssiI) then None
    else
      var tsS := PyStrip(row[tsI]);
      var rssiS := PyStrip(row[rssiI]);
      if tsS == "" || rssiS == "" then None
      else
        var t := ParsePyFloat(tsS);
        var r := ParsePyFloat(rssiS);
        if t.None? || r.None? then None
        else Some((t.value - Driver.BASE_TS as real, r.value))
  }

  /** A DataFrame with columns `time` and `rssi`. */
  datatype Frame = Frame(time: seq<real>, rssi: seq<real>)

  function Empty(): Frame { Frame([], []) }

  function AddRow(f: Frame, v: Option<(real, real)>): Frame {
    if v.None? then f else Frame(f.time + [v.value.0], f.rssi + [v.value.1])
  }

  /** The data rows' values in row order, skipped rows left out. */
  function ReadFrame(rows: seq<seq<string>>, tsI: nat, rssiI: nat): (f: Frame)
    ensures |f.time| == |f.rssi| <= |rows|
    decreases |rows|
  {
    if |rows| == 0 then Empty()
    else AddRow(ReadFrame(rows[..|rows| - 1], tsI, rssiI), RowValues(rows[|rows| - 1], tsI, rssiI))
  }

  function Concat(a: Frame, b: Frame): Frame { Frame(a.time + b.time, a.rssi + b.rssi) }

  /** Reading two blocks of rows one after the other gives the two frames end to end. */
  lemma {:induction false} ReadFrameAppend(a: seq<seq<string>>, b: seq<seq<string>>, tsI: nat, rssiI: nat)
    ensures ReadFrame(a + b, tsI, rssiI) == Concat(ReadFrame(a, tsI, rssiI), ReadFrame(b, tsI, rssiI))
    decreases |b|
  {
    if |b| == 0 {
      assert a + b == a;
    } else {
      var b' := b[..|b| - 1];
      var last := b[|b| - 1];
      assert (a + b)[..|a + b| - 1] == a + b' && (a + b)[|a + b| - 1] == last;
      ReadFrameAppend(a, b', tsI, rssiI);
      AddRowConcat(ReadFrame(a, tsI, rssiI), ReadFrame(b', tsI, rssiI), RowValues(last, tsI, rssiI));
    }
  }

  lemma AddRowConcat(fa: Frame, fb: Frame, v: Option<(real, real)>)
    ensures AddRow(Concat(fa, fb), v) == Concat(fa, AddRow(fb, v))
  {
    if v.Some? {
      assert (fa.time + fb.time) + [v.value.0] == fa.time + (fb.time + [v.value.0]);
      assert (fa.rssi + fb.rssi) + [v.value.1] == fa.rssi + (fb.rssi + [v.value.1]);
    }
  }

  /** The outcome of `read_csv_any_header`. The pandas fallback, taken when the header lacks
      a timestamp or an rssi column, is not modelled. */
  datatype ReadResult = Manual(frame: Frame) | PandasFallback

  /** `read_csv_any_header` on the rows of one file. */
  function ReadCsvAnyHeader(rows: seq<seq<string>>): (r: ReadResult)
    ensures HeaderRow(rows) == |rows| ==> r == Manual(Empty())
    ensures HeaderRow(rows) < |rows| ==>
              var header := HeaderCells(rows[HeaderRow(rows)]);
              (r.PandasFallback? <==> Idx(header, TS_NAMES) < 0 || Idx(header, ["rssi"]) < 0)
              && (r.Manual? ==> r.frame == ReadFrame(rows[HeaderRow(rows) + 1..], Idx(header, TS_NAMES), Idx(header, ["rssi"])))
  {
    var h := HeaderRow(rows);
    if h == |rows| then Manual(Empty())
    else
      var header := HeaderCells(rows[h]);
      var tsI := Idx(header, TS_NAMES);
      var rssiI := Idx(header, ["rssi"]);
      if tsI < 0 || rssiI < 0 then PandasFallback
      else Manual(ReadFrame(rows[h + 1..], tsI, rssiI))
  }

  /** The timestamp column is chosen by priority, not by position: with both "time" and
      "timestamp" present, "timestamp" wins wherever it stands. */
  lemma TimestampBeatsTime(header: seq<string>)
    requires "timestamp" in header
    ensures Idx(header, TS_NAMES) == HeaderIndex(header, "timestamp")
  {
  }

  /** The Java ingest of the same header takes the last timestamp-like column instead:
      for "timestamp,time" the two readers use different columns. */
  lemma JavaAndPythonDisagree()
    ensures Idx(HeaderCells(["timestamp", "time"]), TS_NAMES) == 0
    ensures CsvIngest.ScanHeader(["timestamp", "time"]).ts == 1
  {
    PythonTakesTimestamp();
    JavaTakesTime();
  }

  lemma PythonTakesTimestamp()
    ensures Idx(HeaderCells(["timestamp", "time"]), TS_NAMES) == 0
  {
    var cells := HeaderCells(["timestamp", "time"]);
    PlainStrip("timestamp");
    PlainStrip("time");
    assert LowerAscii("timestamp") == "timestamp";
    assert LowerAscii("time") == "time";
    assert cells == ["timestamp", "time"];
  }

  lemma JavaTakesTime()
    ensures CsvIngest.ScanHeader(["timestamp", "time"]).ts == 1
  {
    TimeNames();
    CsvIngest.ScanHeaderSnoc(["timestamp"], "time");
    assert ["timestamp"] + ["time"] == ["timestamp", "time"];
  }

  lemma TimeNames()
    ensures CsvIngest.HeaderName("timestamp") == "timestamp" && CsvIngest.HeaderName("time") == "time"
  {
    TrimUnspaced("timestamp");
    TrimUnspaced("time");
  }

  lemma PlainStrip(s: string)
    requires |s| > 0 && !IsPySpace(s[0]) && !IsPySpace(s[|s| - 1])
    ensures PyStrip(s) == s
  {
    assert LeadingCount(s, IsPySpace) == 0;
    assert s[0..] == s;
    assert TrailingCount(s, IsPySpace) == 0;
  }

  // ---------------------------------------------------------------- records

  const SAMPLE_RUN_MAX_ROWS: int := 70
  const SAMPLE_WALK_MIN_ROWS: int := 140
  const SAMPLE_CLOSE_PEAK_DBM: int := -78

  /** `classify_speed`. */
  function ClassifySpeed(n: int): (s: string)
    ensures s == "Run" <==> n <= SAMPLE_RUN_MAX_ROWS
    ensures s == "Walk" <==> n >= SAMPLE_WALK_MIN_ROWS
    ensures s == "Jog" <==> SAMPLE_RUN_MAX_ROWS < n < SAMPLE_WALK_MIN_ROWS
  {
    if n <= SAMPLE_RUN_MAX_ROWS then "Run" else if n >= SAMPLE_WALK_MIN_ROWS then "Walk" else "Jog"
  }

  /** The result plotters use the same speed bands. */
  lemma SpeedBandsShared(n: int)
    ensures ClassifySpeed(n) == GuessSpeed(n)
  {
  }

  /** `classify_distance`: there is always a peak here, so no "?" case. */
  function ClassifyDistance(peak: real): (d: string)
    ensures d == "Close" <==> peak >= SAMPLE_CLOSE_PEAK_DBM as real
    ensures d == "Far" <==> peak < SAMPLE_CLOSE_PEAK_DBM as real
  {
    if peak >= SAMPLE_CLOSE_PEAK_DBM as real then "Close" else "Far"
  }

  /** One file's record. */
  datatype Rec = Rec(file: string, n: nat, peak: real, firstTs: real, speed: string, distance: string)

  /** A record carries rows, and its labels are the ones its row count and peak give. */
  predicate Classified(r: Rec) {
    r.n > 0 && r.speed == ClassifySpeed(r.n) && r.distance == ClassifyDistance(r.peak)
  }

  /** Records for the files whose frames are not empty, in file order. */
  function LoadRecords(files: seq<(string, Frame)>): (recs: seq<Rec>)
    requires forall i :: 0 <= i < |files| ==> |files[i].1.time| == |files[i].1.rssi|
    ensures |recs| <= |files|
    ensures forall r :: r in recs ==> Classified(r)
    decreases |files|
  {
    if |files| == 0 then []
    else
      var init := files[..|files| - 1];
      assert forall i :: 0 <= i < |init| ==> init[i] == files[i];
      var rest := LoadRecords(init);
      var last := files[|files| - 1];
      if |last.1.rssi| == 0 then rest
      else
        var rec := FileRecord(last.0, last.1);
        assert Classified(rec);
        assert forall r :: r in rest + [rec] ==> Classified(r);
        rest + [rec]
  }

  /** The record of one file with rows: its base name, its row count, its strongest
      reading, its first time, and the labels those give. */
  function FileRecord(path: string, f: Frame): (r: Rec)
    requires |f.time| == |f.rssi| > 0
    ensures r.file == Basename(path) && r.n == |f.rssi| && r.firstTs == f.time[0]
    ensures r.peak in f.rssi && forall x :: x in f.rssi ==> x <= r.peak
    ensures Classified(r)
  {
    var n := |f.rssi|;
    var peak := MaxReal(f.rssi);
    Rec(Basename(path), n, peak, f.time[0], ClassifySpeed(n), ClassifyDistance(peak))
  }

  /** A file gives a record exactly when its frame has rows; the record's peak is the
      frame's greatest rssi and its first time the frame's first time. */
  lemma LoadRecordsSnoc(files: seq<(string, Frame)>, path: string, f: Frame)
    requires forall i :: 0 <= i < |files| ==> |files[i].1.time| == |files[i].1.rssi|
    requires |f.time| == |f.rssi|
    ensures var before := LoadRecords(files);
            var after := LoadRecords(files + [(path, f)]);
            && (|f.rssi| == 0 ==> after == before)
            && (|f.rssi| > 0 ==>
                  after[..|before|] == before && |after| == |before| + 1
                  && var r := after[|before|];
                     r.file == Basename(path) && r.n == |f.rssi| && r.firstTs == f.time[0]
                     && r.peak in f.rssi && forall x :: x in f.rssi ==> x <= r.peak)
  {
    assert (files + [(path, f)])[..|files|] == files;
  }

  // ---------------------------------------------------------------- run split

  function TsLe(a: (string, real), b: (string, real)): bool { a.1 <= b.1 }

  lemma TsLeTotalPreorder()
    ensures TotalPreorder(TsLe)
  {
  }

  /** The stable ordering by first timestamp. */
  function ByFirstTs(pairs: seq<(string, real)>): (s: seq<(string, real)>)
    ensures multiset(s) == multiset(pairs) && |s| == |pairs|
    ensures SortedBy(s, TsLe)
    // files with the same first timestamp keep their input order
    ensures forall p :: KeyRun(s, p, TsLe) == KeyRun(pairs, p, TsLe)
  {
    TsLeTotalPreorder();
    SortSorted(pairs, TsLe);
    forall p ensures KeyRun(Sort(pairs, TsLe), p, TsLe) == KeyRun(pairs, p, TsLe) {
      SortStable(pairs, p, TsLe);
    }
    Sort(pairs, TsLe)
  }

  /** `split_run_hand_shoe`: the names in the later half (from position n div 2) of the
      files ordered by first timestamp. */
  function SplitRunHandShoe(pairs: seq<(string, real)>): (shoe: set<string>)
    ensures |pairs| == 0 ==> shoe == {}
    ensures forall x :: x in shoe <==> exists j :: |pairs| / 2 <= j < |pairs| && ByFirstTs(pairs)[j].0 == x
  {
    if |pairs| == 0 then {}
    else
      var s := ByFirstTs(pairs);
      set j | |pairs| / 2 <= j < |pairs| :: s[j].0
  }

  predicate DistinctFileNames(pairs: seq<(string, real)>) {
    forall i, j :: 0 <= i < j < |pairs| ==> pairs[i].0 != pairs[j].0
  }

  /** With distinct file names, every Shoe file started no earlier than every Hand file. */
  lemma ShoeStartsLater(pairs: seq<(string, real)>, shoe: (string, real), hand: (string, real))
    requires DistinctFileNames(pairs)
    requires shoe in pairs && hand in pairs
    requires shoe.0 in SplitRunHandShoe(pairs) && hand.0 !in SplitRunHandShoe(pairs)
    ensures hand.1 <= shoe.1
  {
    var s := ByFirstTs(pairs);
    var mid := |pairs| / 2;
    var j :| mid <= j < |pairs| && s[j].0 == shoe.0;
    assert shoe in multiset(s) && hand in multiset(s);
    var a :| 0 <= a < |s| && s[a] == shoe;
    var b :| 0 <= b < |s| && s[b] == hand;
    SortedNamesDistinct(pairs, s, a, j);
    assert b < mid;
    assert TsLe(s[b], s[a]);
  }

  /** The ordering keeps names distinct, so a name sits at one position only. */
  lemma SortedNamesDistinct(pairs: seq<(string, real)>, s: seq<(string, real)>, a: nat, j: nat)
    requires DistinctFileNames(pairs) && multiset(s) == multiset(pairs)
    requires a < |s| && j < |s| && s[a].0 == s[j].0
    ensures a == j
  {
    if a != j {
      var lo, hi := if a < j then a else j, if a < j then j else a;
      var x, y := s[lo], s[hi];
      assert x in multiset(pairs) && y in multiset(pairs);
      var p :| 0 <= p < |pairs| && pairs[p] == x;
      var q :| 0 <= q < |pairs| && pairs[q] == y;
      if p == q {
        TwiceCounted(s, lo, hi);
        OnceInPairs(pairs, p);
      }
    }
  }

  /** An element at two positions is counted at least twice. */
  lemma TwiceCounted<T>(s: seq<T>, lo: nat, hi: nat)
    requires lo < hi < |s| && s[lo] == s[hi]
    ensures multiset(s)[s[lo]] >= 2
  {
    var x := s[lo];
    assert s == s[..lo] + [x] + s[lo + 1..hi] + [x] + s[hi + 1..];
  }

  lemma OnceInPairs(pairs: seq<(string, real)>, p: nat)
    requires DistinctFileNames(pairs) && p < |pairs|
    ensures multiset(pairs)[pairs[p]] == 1
  {
    var x := pairs[p];
    assert pairs == pairs[..p] + [x] + pairs[p + 1..];
    assert x !in pairs[..p] by {
      forall k | 0 <= k < p ensures pairs[..p][k] != x { assert pairs[k].0 != pairs[p].0; }
    }
    assert x !in pairs[p + 1..] by {
      forall k | p < k < |pairs| ensures pairs[k] != x { assert pairs[k].0 != pairs[p].0; }
    }
  }

  // ---------------------------------------------------------------- relabel and facets

  /** `(file, first_ts)` of the Run records, in record order. */
  function RunFiles(recs: seq<Rec>): (pairs: seq<(string, real)>)
    ensures forall p :: p in pairs <==> exists r :: r in recs && r.speed == "Run" && p == (r.file, r.firstTs)
    decreases |recs|
  {
    if |recs| == 0 then []
    else
      var rest := RunFiles(recs[1..]);
      assert forall r :: r in recs[1..] ==> r in recs;
      assert forall r :: r in recs ==> r == recs[0] || r in recs[1..];
      if recs[0].speed == "Run" then [(recs[0].file, recs[0].firstTs)] + rest else rest
  }

  /** The relabel loop: a record whose speed is exactly "Run" becomes "Run (Shoe)" or
      "Run (Hand)" by the split; every other record is left alone. */
  function Relabel(recs: seq<Rec>): (out: seq<Rec>)
    ensures |out| == |recs|
    ensures forall i :: 0 <= i < |recs| ==> out[i] == recs[i].(speed := out[i].speed)
    ensures forall i :: 0 <= i < |recs| && recs[i].speed != "Run" ==> out[i] == recs[i]
    ensures forall i :: 0 <= i < |recs| && recs[i].speed == "Run" ==>
              out[i].speed == if recs[i].file in SplitRunHandShoe(RunFiles(recs)) then "Run (Shoe)" else "Run (Hand)"
  {
    var shoe := SplitRunHandShoe(RunFiles(recs));
    seq(|recs|, i requires 0 <= i < |recs| =>
          if recs[i].speed == "Run" then recs[i].(speed := if recs[i].file in shoe then "Run (Shoe)" else "Run (Hand)")
          else recs[i])
  }

  /** Relabelling once more changes nothing: no record is "Run" any more. */
  lemma RelabelIdempotent(recs: seq<Rec>)
    ensures Relabel(Relabel(recs)) == Relabel(recs)
  {
    var once := Relabel(recs);
    assert forall i :: 0 <= i < |once| ==> once[i].speed != "Run";
  }

  const ROW_LABELS: seq<string> := ["Walk", "Jog", "Run (Hand)", "Run (Shoe)"]
  const COL_LABELS: seq<string> := ["Close", "Far"]

  /** Records in the facet (speed, distance). */
  function FacetCount(recs: seq<Rec>, speed: string, distance: string): (c: nat)
    ensures c <= |recs|
    decreases |recs|
  {
    if |recs| == 0 then 0
    else (if recs[0].speed == speed && recs[0].distance == distance then 1 else 0) + FacetCount(recs[1..], speed, distance)
  }

  /** `counts`: one entry per facet of the grid; a record outside the grid counts nowhere. */
  function Counts(recs: seq<Rec>): (m: map<(string, string), nat>)
    ensures forall k :: k in m <==> k.0 in ROW_LABELS && k.1 in COL_LABELS
    ensures forall k :: k in m ==> m[k] == FacetCount(recs, k.0, k.1)
  {
    var keys := set r, c | r in ROW_LABELS && c in COL_LABELS :: (r, c);
    map k | k in keys :: FacetCount(recs, k.0, k.1)
  }

  predicate InGrid(r: Rec) { r.speed in ROW_LABELS && r.distance in COL_LABELS }

  /** Sum of the eight facet counts. */
  function GridTotal(recs: seq<Rec>): nat {
    FacetCount(recs, "Walk", "Close") + FacetCount(recs, "Walk", "Far")
    + FacetCount(recs, "Jog", "Close") + FacetCount(recs, "Jog", "Far")
    + FacetCount(recs, "Run (Hand)", "Close") + FacetCount(recs, "Run (Hand)", "Far")
    + FacetCount(recs, "Run (Shoe)", "Close") + FacetCount(recs, "Run (Shoe)", "Far")
  }

  /** The facets partition the records that fall in the grid. */
  lemma {:induction false} GridTotalCountsGridRecords(recs: seq<Rec>)
    requires forall i :: 0 <= i < |recs| ==> InGrid(recs[i])
    ensures GridTotal(recs) == |recs|
    decreases |recs|
  {
    if |recs| > 0 {
      GridTotalCountsGridRecords(recs[1..]);
    }
  }

  /** After relabelling, every loaded record lies in the grid, so the facet counts add up
      to the number of records. */
  lemma FacetsCoverRecords(files: seq<(string, Frame)>)
    requires forall i :: 0 <= i < |files| ==> |files[i].1.time| == |files[i].1.rssi|
    ensures GridTotal(Relabel(LoadRecords(files))) == |LoadRecords(files)|
  {
    var recs := LoadRecords(files);
    var out := Relabel(recs);
    forall i | 0 <= i < |out| ensures InGrid(out[i]) {
      assert recs[i] in recs;
      assert recs[i].speed in {"Run", "Jog", "Walk"};
    }
    GridTotalCountsGridRecords(out);
  }

  // ---------------------------------------------------------------- per-file script

  /** What scripts/plot_samples_individual.py reports, in order. */
  datatype Message = NoCsvFiles | Skipping(file: string) | Stats(file: string, rows: nat, peak: real, avg: real)

  function Sum(xs: seq<real>): real {
    if |xs| == 0 then 0.0 else Sum(xs[..|xs| - 1]) + xs[|xs| - 1]
  }

  /** One file: skipped when its frame is empty, otherwise its row count, peak and mean. */
  function FileMessage(path: string, f: Frame): (m: Message)
    ensures |f.rssi| == 0 <==> m == Skipping(Basename(path))
    ensures |f.rssi| > 0 ==>
              m.Stats? && m.file == Basename(path) && m.rows == |f.rssi|
              && m.peak in f.rssi && (forall x :: x in f.rssi ==> x <= m.peak)
              && m.avg == Mean(f.rssi)
  {
    if |f.rssi| == 0 then Skipping(Basename(path))
    else Stats(Basename(path), |f.rssi|, MaxReal(f.rssi), Mean(f.rssi))
  }

  /** The arithmetic mean: the value which, counted once per element, makes up the sum. */
  function Mean(xs: seq<real>): (r: real)
    requires |xs| > 0
    ensures r * |xs| as real == Sum(xs)
  {
    Sum(xs) / |xs| as real
  }

  /** `main`: a single message when there are no files; else one message per file. */
  function IndividualMain(files: seq<(string, Frame)>): (msgs: seq<Message>)
    ensures |files| == 0 ==> msgs == [NoCsvFiles]
    ensures |files| > 0 ==> |msgs| == |files| && forall i :: 0 <= i < |files| ==> msgs[i] == FileMessage(files[i].0, files[i].1)
  {
    if |files| == 0 then [NoCsvFiles]
    else seq(|files|, i requires 0 <= i < |files| => FileMessage(files[i].0, files[i].1))
  }

  /** Both scripts skip exactly the files the other skips: a file gives a record in the
      grid script iff it gives statistics in the per-file script. */
  lemma SameFilesSkipped(path: string, f: Frame)
    requires |f.time| == |f.rssi|
    ensures |LoadRecords([(path, f)])| == 1 <==> FileMessage(path, f).Stats?
  {
    assert [(path, f)][..0] == [];
  }
}
