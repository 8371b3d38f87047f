/**
 * Reading recorded calibration passes from CSV text. Two readers exist: the driver's
 * (DriverMain.readSamplesFromResource), which locates its columns by header name, and
 * the older DataParser.readSamples, which takes the columns by position and clips RSSI to
 * [-127, 0]. Both take the file as its lines; reading the file is not modelled.
 */
module CsvIngest {
  import opened Wrappers
  import opened Text
  import opened Samples
  import opened Ints

  // ---------------------------------------------------------------- header

  /** A header cell as the driver compares it: trimmed and lower-cased. */
  function HeaderName(cell: string): string { LowerAscii(JavaTrim(cell)) }

  predicate IsTsName(h: string) { h == "timestamp" || h == "timestampms" || h == "time" || h == "ts" }
  predicate IsTagName(h: string) { h == "tagid" || h == "tag" || h == "id" }
  predicate IsRssiName(h: string) { h == "rssi" }
  predicate IsSmoothName(h: string) { h == "smoothedrssi" || h == "smoothed" || h == "rssi_smooth" }

  /** Column indices found in the header; -1 where a column is missing. */
  datatype Columns = Columns(ts: int, tag: int, rssi: int, smooth: int)

  const NO_COLUMNS: Columns := Columns(-1, -1, -1, -1)

  /** One turn of the header loop: the cell's name is compared with the four name lists in
      order and the first list that holds it takes index `i`. */
  function ScanCell(c: Columns, i: int, cell: string): Columns {
    var h := HeaderName(cell);
    if IsTsName(h) then c.(ts := i)
    else if IsTagName(h) then c.(tag := i)
    else if IsRssiName(h) then c.(rssi := i)
    else if IsSmoothName(h) then c.(smooth := i)
    else c
  }

  /** A header cell gives its index only to a column whose name list holds the cell's name;
      every other column keeps its index. */
  lemma ScanCellTakes(c: Columns, i: int, cell: string)
    ensures var r := ScanCell(c, i, cell);
            && (r.ts == c.ts || (r.ts == i && IsTsName(HeaderName(cell))))
            && (r.tag == c.tag || (r.tag == i && IsTagName(HeaderName(cell))))
            && (r.rssi == c.rssi || (r.rssi == i && IsRssiName(HeaderName(cell))))
            && (r.smooth == c.smooth || (r.smooth == i && IsSmoothName(HeaderName(cell))))
  {
  }

  /** The header loop over all cells, left to right. */
  function ScanHeader(cells: seq<string>): Columns
    decreases |cells|
  {
    if |cells| == 0 then NO_COLUMNS
    else ScanCell(ScanHeader(cells[..|cells| - 1]), |cells| - 1, cells[|cells| - 1])
  }

  /** The last cell whose name `isName` accepts, or -1 when no cell does. */
  function LastMatch(cells: seq<string>, isName: string -> bool): (i: int)
    ensures -1 <= i < |cells|
    ensures i >= 0 ==> isName(HeaderName(cells[i]))
    ensures forall k :: i < k < |cells| ==> !isName(HeaderName(cells[k]))
    decreases |cells|
  {
    if |cells| == 0 then -1
    else if isName(HeaderName(cells[|cells| - 1])) then |cells| - 1
    else
      var init := cells[..|cells| - 1];
      assert forall k :: 0 <= k < |init| ==> init[k] == cells[k];
      LastMatch(init, isName)
  }

  /** Because the four name lists share no name, the header loop gives every column the last
      cell carrying one of its names, and -1 when no cell does. */
  lemma {:induction false} ScanHeaderIsLastMatch(cells: seq<string>)
    ensures ScanHeader(cells) ==
            Columns(LastMatch(cells, IsTsName), LastMatch(cells, IsTagName),
                    LastMatch(cells, IsRssiName), LastMatch(cells, IsSmoothName))
    decreases |cells|
  {
    if |cells| > 0 {
      ScanHeaderIsLastMatch(cells[..|cells| - 1]);
    }
  }

  /** Index of the first line that is not blank once trimmed; `|lines|` when every line is. */
  function FirstNonBlank(lines: seq<string>): (h: nat)
    ensures h <= |lines|
    ensures forall k :: 0 <= k < h ==> JavaTrim(lines[k]) == ""
    ensures h < |lines| ==> JavaTrim(lines[h]) != ""
    decreases |lines|
  {
    if |lines| == 0 then 0
    else if JavaTrim(lines[0]) == "" then 1 + FirstNonBlank(lines[1..])
    else 0
  }

  // ---------------------------------------------------------------- rows

  /** An optional integer column: its value when the column exists in this row, is not
      blank and parses; `def` otherwise. */
  function OptionalInt(parts: seq<string>, idx: int, def: int): (v: int)
    ensures !(0 <= idx < |parts|) ==> v == def
    ensures v != def ==> 0 <= idx < |parts| && ParseJavaInt(JavaTrim(parts[idx])) == Some(v)
    ensures 0 <= idx < |parts| && ParseJavaInt(JavaTrim(parts[idx])).Some? ==>
              v == ParseJavaInt(JavaTrim(parts[idx])).value
  {
    if 0 <= idx < |parts| && JavaTrim(parts[idx]) != "" then ParseJavaInt(JavaTrim(parts[idx])).GetOr(def)
    else def
  }

  /** The cells of a data row (`split(",", -1)` of the trimmed line). */
  function Cells(line: string): seq<string> { Split(JavaTrim(line), ',') }

  /** One data row. A row is kept exactly when it is not blank, reaches both the timestamp
      and the RSSI column, and both of those parse (as a Java long and int); then the
      timestamp and RSSI are those numbers, and the tag id and smoothed RSSI default to 0
      and to the RSSI. */
  function ReadRow(line: string, c: Columns): (r: Option<CalibrationSample>)
    requires c.ts >= 0 && c.rssi >= 0
    ensures var parts := Cells(line);
            r.Some? <==>
              JavaTrim(line) != "" && |parts| > Max(c.ts, c.rssi)
              && ParseJavaLong(JavaTrim(parts[c.ts])).Some? && ParseJavaInt(JavaTrim(parts[c.rssi])).Some?
    ensures r.Some? ==>
              var parts := Cells(line);
              && ParseJavaLong(JavaTrim(parts[c.ts])) == Some(r.value.timestampMs)
              && ParseJavaInt(JavaTrim(parts[c.rssi])) == Some(r.value.rssi)
              && (!(0 <= c.tag < |parts|) ==> r.value.tagId == 0)
              && (!(0 <= c.smooth < |parts|) ==> r.value.smoothedRssi == r.value.rssi)
  {
    var t := JavaTrim(line);
    if t == "" then None
    else
      var parts := Split(t, ',');
      if |parts| <= Max(c.ts, c.rssi) then None
      else
        var ts := ParseJavaLong(JavaTrim(parts[c.ts]));
        var rssi := ParseJavaInt(JavaTrim(parts[c.rssi]));
        if ts.None? || rssi.None? then None
        else Some(CalibrationSample(OptionalInt(parts, c.tag, 0), ts.value, rssi.value,
                                    OptionalInt(parts, c.smooth, rssi.value)))
  }

  /** Every data row, in order, keeping the ones `ReadRow` accepts. */
  function ReadRows(rows: seq<string>, c: Columns): (r: seq<CalibrationSample>)
    requires c.ts >= 0 && c.rssi >= 0
    ensures |r| <= |rows|
    decreases |rows|
  {
    if |rows| == 0 then []
    else
      var rest := ReadRows(rows[1..], c);
      match ReadRow(rows[0], c)
      case Some(s) => [s] + rest
      case None => rest
  }

  /** `readSamplesFromResource`: `None` where the driver fails with "Expected header with at
      least timestamp and rssi", which includes a file without any non-blank line. */
  function ReadSamplesFromResource(lines: seq<string>): (r: Option<seq<CalibrationSample>>)
    ensures r.None? <==>
              var h := FirstNonBlank(lines);
              h == |lines| || LastMatch(Cells(lines[h]), IsTsName) < 0 || LastMatch(Cells(lines[h]), IsRssiName) < 0
    ensures r.Some? ==>
              var h := FirstNonBlank(lines);
              h < |lines| && |r.value| <= |lines| - h - 1
  {
    var h := FirstNonBlank(lines);
    if h == |lines| then None
    else
      var cells := Cells(lines[h]);
      ScanHeaderIsLastMatch(cells);
      var c := ScanHeader(cells);
      if c.ts < 0 || c.rssi < 0 then None
      else Some(ReadRows(lines[h + 1..], c))
  }

  /** The rows read one after the other: reading is line by line. */
  lemma {:induction false} ReadRowsAppend(a: seq<string>, b: seq<string>, c: Columns)
    requires c.ts >= 0 && c.rssi >= 0
    ensures ReadRows(a + b, c) == ReadRows(a, c) + ReadRows(b, c)
    decreases |a|
  {
    if |a| > 0 {
      assert (a + b)[1..] == a[1..] + b;
      ReadRowsAppend(a[1..], b, c);
    } else {
      assert a + b == b;
    }
  }

  lemma ReadRowsBlank(blank: string, c: Columns)
    requires c.ts >= 0 && c.rssi >= 0 && JavaTrim(blank) == ""
    ensures ReadRows([blank], c) == []
  {
    assert [blank][1..] == [];
  }

  /** A blank line anywhere among the data rows changes nothing. */
  lemma BlankRowIgnored(a: seq<string>, blank: string, b: seq<string>, c: Columns)
    requires c.ts >= 0 && c.rssi >= 0 && JavaTrim(blank) == ""
    ensures ReadRows(a + [blank] + b, c) == ReadRows(a + b, c)
  {
    ReadRowsAppend(a + [blank], b, c);
    ReadRowsAppend(a, [blank], c);
    ReadRowsAppend(a, b, c);
    ReadRowsBlank(blank, c);
    assert ReadRows(a, c) + [] == ReadRows(a, c);
  }

  // ---------------------------------------------------------------- writing rows back

  /** The header the calibration recordings carry. */
  const STANDARD_NAMES: seq<string> := ["timestamp", "tagid", "rssi", "smoothedrssi"]
  const STANDARD_HEADER: string := Join(STANDARD_NAMES, ",")

  /** The standard columns: timestamp, tag id, RSSI, smoothed RSSI. */
  const STANDARD_COLUMNS: Columns := Columns(0, 1, 2, 3)

  /** A sample as a row under the standard header. */
  function RowText(s: CalibrationSample): string {
    Join([IntToString(s.timestampMs), IntToString(s.tagId), IntToString(s.rssi), IntToString(s.smoothedRssi)], ",")
  }

  function RowsText(samples: seq<CalibrationSample>): (r: seq<string>)
    ensures |r| == |samples|
    ensures forall i :: 0 <= i < |samples| ==> r[i] == RowText(samples[i])
  {
    seq(|samples|, i requires 0 <= i < |samples| => RowText(samples[i]))
  }

  /** Java-representable fields: a long timestamp and int tag id and RSSI values. */
  predicate JavaSample(s: CalibrationSample) {
    LONG_MIN <= s.timestampMs <= LONG_MAX && INT_MIN <= s.tagId <= INT_MAX
    && INT_MIN <= s.rssi <= INT_MAX && INT_MIN <= s.smoothedRssi <= INT_MAX
  }

  lemma LowerAsciiOfLower(s: string)
    requires forall i :: 0 <= i < |s| ==> !('A' <= s[i] <= 'Z')
    ensures LowerAscii(s) == s
  {
  }

  /** A lower-case name without surrounding spaces is its own header name. */
  lemma PlainName(s: string)
    requires |s| > 0 && !IsJavaSpace(s[0]) && !IsJavaSpace(s[|s| - 1])
    requires forall i :: 0 <= i < |s| ==> !('A' <= s[i] <= 'Z')
    ensures HeaderName(s) == s
  {
    TrimUnspaced(s);
    LowerAsciiOfLower(s);
  }

  lemma ScanHeaderSnoc(cells: seq<string>, x: string)
    ensures ScanHeader(cells + [x]) == ScanCell(ScanHeader(cells), |cells|, x)
  {
    assert (cells + [x])[..|cells|] == cells;
  }

  lemma StandardNames()
    ensures HeaderName("timestamp") == "timestamp" && HeaderName("tagid") == "tagid"
    ensures HeaderName("rssi") == "rssi" && HeaderName("smoothedrssi") == "smoothedrssi"
  {
    PlainName("timestamp");
    PlainName("tagid");
    PlainName("rssi");
    PlainName("smoothedrssi");
  }

  /** The standard header's cells. */
  lemma StandardHeaderCells()
    ensures JavaTrim(STANDARD_HEADER) == STANDARD_HEADER
    ensures Cells(STANDARD_HEADER) == STANDARD_NAMES
  {
    var h := STANDARD_HEADER;
    Join4("timestamp", "tagid", "rssi", "smoothedrssi", ",");
    assert h == "timestamp" + "," + ("tagid" + "," + ("rssi" + "," + "smoothedrssi"));
    assert h[0] == 't' && h[|h| - 1] == 'i';
    TrimUnspaced(h);
    SplitJoin(STANDARD_NAMES, ',');
  }

  /** The columns the driver finds in the standard header. */
  lemma StandardHeaderColumns()
    ensures ScanHeader(Cells(STANDARD_HEADER)) == STANDARD_COLUMNS
  {
    StandardHeaderCells();
    StandardColumnsScan();
  }

  lemma StandardColumnsScan()
    ensures ScanHeader(STANDARD_NAMES) == STANDARD_COLUMNS
  {
    StandardNames();
    ScanThree();
    ScanHeaderSnoc(["timestamp", "tagid", "rssi"], "smoothedrssi");
    assert ["timestamp", "tagid", "rssi"] + ["smoothedrssi"] == STANDARD_NAMES;
    assert ScanCell(Columns(0, 1, 2, -1), 3, "smoothedrssi") == STANDARD_COLUMNS;
  }

  lemma ScanOne()
    ensures ScanHeader(["timestamp"]) == Columns(0, -1, -1, -1)
  {
    StandardNames();
    ScanHeaderSnoc([], "timestamp");
    assert [] + ["timestamp"] == ["timestamp"];
    assert ScanCell(NO_COLUMNS, 0, "timestamp") == Columns(0, -1, -1, -1);
  }

  lemma ScanTwo()
    ensures ScanHeader(["timestamp", "tagid"]) == Columns(0, 1, -1, -1)
  {
    StandardNames();
    ScanOne();
    ScanHeaderSnoc(["timestamp"], "tagid");
    assert ["timestamp"] + ["tagid"] == ["timestamp", "tagid"];
    assert ScanCell(Columns(0, -1, -1, -1), 1, "tagid") == Columns(0, 1, -1, -1);
  }

  lemma ScanThree()
    ensures ScanHeader(["timestamp", "tagid", "rssi"]) == Columns(0, 1, 2, -1)
  {
    StandardNames();
    ScanTwo();
    ScanHeaderSnoc(["timestamp", "tagid"], "rssi");
    assert ["timestamp", "tagid"] + ["rssi"] == ["timestamp", "tagid", "rssi"];
    assert ScanCell(Columns(0, 1, -1, -1), 2, "rssi") == Columns(0, 1, 2, -1);
  }

  /** A row's cells are the four printed fields, and the row needs no trimming. */
  lemma RowCells(s: CalibrationSample)
    ensures JavaTrim(RowText(s)) == RowText(s)
    ensures Cells(RowText(s)) ==
            [IntToString(s.timestampMs), IntToString(s.tagId), IntToString(s.rssi), IntToString(s.smoothedRssi)]
  {
    var a, b, c, d := IntToString(s.timestampMs), IntToString(s.tagId), IntToString(s.rssi), IntToString(s.smoothedRssi);
    var row := RowText(s);
    Join4(a, b, c, d, ",");
    assert row == a + "," + (b + "," + (c + "," + d));
    assert row[0] == a[0];
    assert row[|row| - 1] == d[|d| - 1];
    NumberChars(s.timestampMs);
    NumberChars(s.smoothedRssi);
    TrimUnspaced(row);
    NoCommaInNumber(s.timestampMs);
    NoCommaInNumber(s.tagId);
    NoCommaInNumber(s.rssi);
    NoCommaInNumber(s.smoothedRssi);
    SplitJoin([a, b, c, d], ',');
  }

  /** A printed row under the standard columns reads back as the sample. */
  lemma ReadRowText(s: CalibrationSample)
    requires JavaSample(s)
    ensures ReadRow(RowText(s), STANDARD_COLUMNS) == Some(s)
  {
    RowCells(s);
    TrimNumber(s.timestampMs);
    TrimNumber(s.tagId);
    TrimNumber(s.rssi);
    TrimNumber(s.smoothedRssi);
    ParseJavaLongToString(s.timestampMs);
    ParseIntToString(s.tagId);
    ParseIntToString(s.rssi);
    ParseIntToString(s.smoothedRssi);
    ReadRowOfFields(RowText(s), IntToString(s.timestampMs), IntToString(s.tagId),
                    IntToString(s.rssi), IntToString(s.smoothedRssi), s);
  }

  /** A trimmed line of four trimmed, parsable cells reads as the sample they print. */
  lemma ReadRowOfFields(line: string, a: string, b: string, c: string, d: string, s: CalibrationSample)
    requires JavaTrim(line) == line && line != "" && Cells(line) == [a, b, c, d]
    requires JavaTrim(a) == a && JavaTrim(b) == b && JavaTrim(c) == c && JavaTrim(d) == d
    requires ParseJavaLong(a) == Some(s.timestampMs) && ParseJavaInt(b) == Some(s.tagId)
    requires ParseJavaInt(c) == Some(s.rssi) && ParseJavaInt(d) == Some(s.smoothedRssi)
    ensures ReadRow(line, STANDARD_COLUMNS) == Some(s)
  {
    var parts := Cells(line);
    assert parts[0] == a && parts[1] == b && parts[2] == c && parts[3] == d;
  }

  lemma ReadRowsCons(rows: seq<string>, c: Columns, s: CalibrationSample)
    requires c.ts >= 0 && c.rssi >= 0 && |rows| > 0 && ReadRow(rows[0], c) == Some(s)
    ensures ReadRows(rows, c) == [s] + ReadRows(rows[1..], c)
  {
  }

  lemma {:induction false} ReadRowsText(samples: seq<CalibrationSample>)
    requires forall i :: 0 <= i < |samples| ==> JavaSample(samples[i])
    ensures ReadRows(RowsText(samples), STANDARD_COLUMNS) == samples
    decreases |samples|
  {
    if |samples| > 0 {
      assert RowsText(samples)[1..] == RowsText(samples[1..]);
      ReadRowsText(samples[1..]);
      ReadRowText(samples[0]);
      ReadRowsCons(RowsText(samples), STANDARD_COLUMNS, samples[0]);
    }
  }

  /** Writing samples under the standard header and reading the file back gives the samples. */
  lemma ResourceRoundTrip(samples: seq<CalibrationSample>)
    requires forall i :: 0 <= i < |samples| ==> JavaSample(samples[i])
    ensures ReadSamplesFromResource([STANDARD_HEADER] + RowsText(samples)) == Some(samples)
  {
    var lines := [STANDARD_HEADER] + RowsText(samples);
    StandardHeaderCells();
    StandardHeaderColumns();
    assert FirstNonBlank(lines) == 0;
    assert lines[1..] == RowsText(samples);
    ReadRowsText(samples);
  }

  // ---------------------------------------------------------------- DataParser

  /** `parseLongSafe`: the trimmed text as a Java long, 0 when it does not parse. */
  function ParseLongSafe(s: string): (v: int)
    ensures ParseJavaLong(JavaTrim(s)).Some? ==> v == ParseJavaLong(JavaTrim(s)).value
    ensures ParseJavaLong(JavaTrim(s)).None? ==> v == 0
  {
    ParseJavaLong(JavaTrim(s)).GetOr(0)
  }

  /** `parseIntSafe`: the trimmed text as a Java int, `def` when it does not parse. */
  function ParseIntSafe(s: string, def: int): (v: int)
    ensures ParseJavaInt(JavaTrim(s)).Some? ==> v == ParseJavaInt(JavaTrim(s)).value
    ensures ParseJavaInt(JavaTrim(s)).None? ==> v == def
  {
    ParseJavaInt(JavaTrim(s)).GetOr(def)
  }

  /** One trimmed, non-blank data line. `split(",")` drops trailing empty cells, so a row
      must still have three cells after that; the RSSI (default -127) must lie in [-127, 0];
      the timestamp defaults to 0 and the tag id to 0; the smoothed value is always 0. */
  function ParserRow(line: string): (r: Option<CalibrationSample>)
    ensures var parts := JavaSplit(line, ',');
            r.Some? <==> |parts| >= 3 && -127 <= ParseIntSafe(parts[2], -127) <= 0
    ensures r.Some? ==>
              var parts := JavaSplit(line, ',');
              && r.value.timestampMs == ParseLongSafe(parts[0])
              && r.value.tagId == ParseIntSafe(parts[1], 0)
              && r.value.rssi == ParseIntSafe(parts[2], -127)
              && -127 <= r.value.rssi <= 0
              && r.value.smoothedRssi == 0
  {
    var parts := JavaSplit(line, ',');
    if |parts| < 3 then None
    else
      var ts := ParseLongSafe(parts[0]);
      var tagId := ParseIntSafe(parts[1], 0);
      var rssi := ParseIntSafe(parts[2], -127);
      if rssi > 0 || rssi < -127 then None
      else Some(CalibrationSample(tagId, ts, rssi, 0))
  }

  /** The data lines after the header, in order. */
  function ParserRows(lines: seq<string>): (r: seq<CalibrationSample>)
    ensures |r| <= |lines|
    ensures forall i :: 0 <= i < |r| ==> -127 <= r[i].rssi <= 0 && r[i].smoothedRssi == 0
    decreases |lines|
  {
    if |lines| == 0 then []
    else
      var rest := ParserRows(lines[1..]);
      var t := JavaTrim(lines[0]);
      if t == "" then rest
      else match ParserRow(t)
        case Some(s) => [s] + rest
        case None => rest
  }

  /** `readSamples`: the loop with its `first` flag, which skips the first non-blank line as
      the header whatever it holds. */
  function ParserLoop(lines: seq<string>, first: bool): (r: seq<CalibrationSample>)
    ensures |r| <= |lines|
    ensures forall i :: 0 <= i < |r| ==> -127 <= r[i].rssi <= 0 && r[i].smoothedRssi == 0
    // while the header is still due, a file of blank lines gives nothing and the header
    // line itself is never a sample
    ensures first && FirstNonBlank(lines) == |lines| ==> r == []
    ensures first && |lines| > 0 ==> |r| < |lines|
    decreases |lines|
  {
    if |lines| == 0 then []
    else if JavaTrim(lines[0]) == "" then ParserLoop(lines[1..], first)
    else if first then ParserLoop(lines[1..], false)
    else
      var rest := ParserLoop(lines[1..], false);
      match ParserRow(JavaTrim(lines[0]))
      case Some(s) => [s] + rest
      case None => rest
  }

  function ReadSamples(lines: seq<string>): (r: seq<CalibrationSample>)
    ensures forall i :: 0 <= i < |r| ==> -127 <= r[i].rssi <= 0 && r[i].smoothedRssi == 0
    ensures FirstNonBlank(lines) == |lines| ==> r == []
    ensures |lines| > 0 ==> |r| < |lines|
  {
    ParserLoop(lines, true)
  }

  lemma {:induction false} ParserLoopRows(lines: seq<string>)
    ensures ParserLoop(lines, false) == ParserRows(lines)
    decreases |lines|
  {
    if |lines| > 0 {
      ParserLoopRows(lines[1..]);
    }
  }

  /** DataParser drops the first non-blank line unread, and reads every later line as data;
      a file without a non-blank line gives nothing. */
  lemma {:induction false} ReadSamplesSkipsHeader(lines: seq<string>)
    ensures var h := FirstNonBlank(lines);
            ReadSamples(lines) == if h == |lines| then [] else ParserRows(lines[h + 1..])
    decreases |lines|
  {
    if |lines| > 0 {
      if JavaTrim(lines[0]) == "" {
        ReadSamplesSkipsHeader(lines[1..]);
        var h := FirstNonBlank(lines[1..]);
        if h < |lines| - 1 {
          assert lines[1..][h + 1..] == lines[h + 2..];
        }
      } else {
        ParserLoopRows(lines[1..]);
      }
    }
  }

  lemma SplitCells3(line: string, x: string, y: string, z: string)
    requires line == x + "," + y + "," + z
    requires ',' !in x && ',' !in y && ',' !in z
    ensures Split(line, ',') == [x, y, z]
  {
    assert [x, y, z] == [x] + [y, z] && [y, z] == [y] + [z];
    JoinCons(x, [y, z], ",");
    JoinCons(y, [z], ",");
    assert line == Join([x, y, z], ",");
    SplitJoin([x, y, z], ',');
  }

  lemma SmallNumbers()
    ensures ParseLongSafe("5") == 5 && ParseIntSafe("2", 0) == 2 && ParseIntSafe("x", -127) == -127
  {
    TrimUnspaced("5");
    TrimUnspaced("2");
    TrimUnspaced("x");
    assert AllDigits("5") && DigitsValue("5") == 5;
    assert AllDigits("2") && DigitsValue("2") == 2;
    assert !AllDigits("x");
  }

  /** An RSSI cell that does not parse is read as -127 and the row is kept. */
  lemma UnparsedRssiKept()
    ensures ParserRow("5,2,x") == Some(CalibrationSample(2, 5, -127, 0))
  {
    SplitCells3("5,2,x", "5", "2", "x");
    assert JavaSplit("5,2,x", ',') == ["5", "2", "x"];
    SmallNumbers();
  }

  /** An empty RSSI cell at the end of the line is dropped by `split(",")`, so the row is
      skipped rather than read as -127. */
  lemma TrailingEmptyRssiSkipsRow()
    ensures ParserRow("5,2,") == None
  {
    SplitPrefix("5", ',', "2,");
    SplitPrefix("2", ',', "");
    assert "5" + [','] + "2," == "5,2,";
    assert "2" + [','] + "" == "2,";
    assert Split("5,2,", ',') == ["5", "2", ""];
    assert DropTrailingEmpty(["5", "2", ""]) == ["5", "2"];
  }

  /** For a row under the standard header whose RSSI lies in [-127, 0], DataParser reads the
      same sample as the driver except that its smoothed value is 0. */
  lemma ParserRowAgrees(s: CalibrationSample)
    requires JavaSample(s) && -127 <= s.rssi <= 0
    ensures ParserRow(RowText(s)) == Some(s.(smoothedRssi := 0))
  {
    RowCells(s);
    var row := RowText(s);
    var d := IntToString(s.smoothedRssi);
    NoCommaInNumber(s.timestampMs);
    assert ',' in row by {
      assert row[|IntToString(s.timestampMs)|] == ',';
    }
    assert Split(row, ',')[3] == d && d != "";
    assert JavaSplit(row, ',') == Split(row, ',');
    ReadRowText(s);
  }
}
