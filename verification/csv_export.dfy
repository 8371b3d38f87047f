/**
 * CsvExporter: the two export files (passes and readings) and the quoting of text fields.
 * Quoting follows rules 6 and 7 of section 2 of RFC 4180 for commas and double quotes; line
 * breaks are not quoted. A reader for the same format is defined here so that the export
 * can be read back field by field.
 *
 * The exporter reads fields that the stored entity classes do not declare (a pass's
 * `highestRssi`, a reading's `timestampMs`); the records below carry the fields the
 * exporter reads, with `highestRssi` taken to be an integer.
 */
module CsvExport {
  import opened Wrappers
  import opened Text
  import opened TagStates

  /** The column names of each file; each header line is these names joined by commas. */
  const SPLITS_HEADER_FIELDS: seq<string> :=
    ["trackId", "tagId", "friendlyName", "state", "entryTimeMs", "peakTimeMs", "exitTimeMs", "highestRssi"]
  const DATA_HEADER_FIELDS: seq<string> := ["dataId", "trackId", "tagId", "timestampMs", "rssi"]

  const SPLITS_CSV_HEADER: string := Join(SPLITS_HEADER_FIELDS, ",")
  const DATA_CSV_HEADER: string := Join(DATA_HEADER_FIELDS, ",")

  /** The fields of a pass the splits file reads. */
  datatype SplitRecord = SplitRecord(
    trackId: int, tagId: int, friendlyName: Option<string>, state: Option<TagStatusState>,
    entryTimeMs: int, peakTimeMs: int, exitTimeMs: int, highestRssi: int)

  /** The fields of a reading the data file reads. */
  datatype DataRecord = DataRecord(dataId: int, trackId: int, timestampMs: int, rssi: int)

  datatype CsvFile = CsvFile(filename: string, content: string, rowCount: nat)

  // ---------------------------------------------------------------- quoting

  predicate NeedsQuotes(s: string) { ',' in s || '"' in s }

  /** sanitize: null becomes empty; a value with a comma or a double quote is enclosed in
      double quotes with its own double quotes doubled; any other value is written as is. */
  function Sanitize(s: Option<string>): (r: string)
    ensures s.None? ==> r == ""
    ensures s.Some? && !NeedsQuotes(s.value) ==> r == s.value
    ensures s.Some? && NeedsQuotes(s.value) ==> |r| >= 2 && r[0] == '"' && r[|r| - 1] == '"'
  {
    if s.None? then ""
    else if NeedsQuotes(s.value) then "\"" + DoubleQuotes(s.value) + "\""
    else s.value
  }

  function DoubleQuotes(s: string): string { ReplaceChar(s, '"', "\"\"") }

  // ---------------------------------------------------------------- reading back

  /** The rest of a quoted field after its opening quote: a doubled quote stands for one
      quote and a single quote closes the field. None when the field is never closed. */
  function ParseQuoted(s: string): (r: Option<(string, string)>)
    ensures r.Some? ==> |r.value.1| < |s|
    decreases |s|
  {
    if |s| == 0 then None
    else if s[0] == '"' then
      if |s| >= 2 && s[1] == '"' then
        var t := ParseQuoted(s[2..]);
        if t.None? then None else Some(("\"" + t.value.0, t.value.1))
      else Some(("", s[1..]))
    else
      var t := ParseQuoted(s[1..]);
      if t.None? then None else Some(([s[0]] + t.value.0, t.value.1))
  }

  /** An unquoted field runs to the next comma or the end; it may not hold a double quote. */
  function ParseUnquoted(s: string): (r: Option<(string, string)>)
    ensures r.Some? ==> |r.value.1| <= |s| && (r.value.1 == "" || r.value.1[0] == ',')
  {
    if |s| == 0 then Some(("", ""))
    else if s[0] == ',' then Some(("", s))
    else if s[0] == '"' then None
    else
      var t := ParseUnquoted(s[1..]);
      if t.None? then None else Some(([s[0]] + t.value.0, t.value.1))
  }

  /** One field at the start of `s` and the text after it. */
  function ParseField(s: string): (r: Option<(string, string)>)
    ensures r.Some? ==> |r.value.1| <= |s|
  {
    if |s| > 0 && s[0] == '"' then ParseQuoted(s[1..]) else ParseUnquoted(s)
  }

  /** The fields of one record, or None when the line is not well formed. */
  function ParseLine(s: string): (r: Option<seq<string>>)
    ensures r.Some? ==> |r.value| >= 1
    decreases |s|
  {
    var f := ParseField(s);
    if f.None? then None
    else
      var (v, rest) := f.value;
      if rest == "" then Some([v])
      else if rest[0] == ',' then
        var tail := ParseLine(rest[1..]);
        if tail.None? then None else Some([v] + tail.value)
      else None
  }

  function ParseLines(lines: seq<string>): (r: Option<seq<seq<string>>>)
    ensures r.Some? ==> |r.value| == |lines|
  {
    if |lines| == 0 then Some([])
    else
      var head := ParseLine(lines[0]);
      var tail := ParseLines(lines[1..]);
      if head.None? || tail.None? then None else Some([head.value] + tail.value)
  }

  /** A whole file: records end with a line feed; the empty piece after the last line feed
      is not a record. */
  function ParseDocument(doc: string): Option<seq<seq<string>>> {
    var pieces := Split(doc, '\n');
    ParseLines(if pieces[|pieces| - 1] == "" then pieces[..|pieces| - 1] else pieces)
  }

  // ---------------------------------------------------------------- writing

  /** The fields of a record written through `sanitize` and separated by commas. */
  function EncodeLine(fields: seq<string>): string
    requires |fields| >= 1
  {
    if |fields| == 1 then Sanitize(Some(fields[0]))
    else Sanitize(Some(fields[0])) + "," + EncodeLine(fields[1..])
  }

  /** Records one per line, each line ended by a line feed. */
  function EncodeRows(rows: seq<seq<string>>): string
    requires forall i :: 0 <= i < |rows| ==> |rows[i]| >= 1
  {
    if |rows| == 0 then "" else EncodeLine(rows[0]) + "\n" + EncodeRows(rows[1..])
  }

  // ---------------------------------------------------------------- round trip

  lemma {:induction false} QuotedRoundTrip(f: string, rest: string)
    requires rest == "" || rest[0] != '"'
    ensures ParseQuoted(DoubleQuotes(f) + "\"" + rest) == Some((f, rest))
  {
    var s := DoubleQuotes(f) + "\"" + rest;
    if |f| == 0 {
      assert s == "\"" + rest;
      assert s[1..] == rest;
    } else if f[0] == '"' {
      QuotedRoundTrip(f[1..], rest);
      assert s == "\"\"" + (DoubleQuotes(f[1..]) + "\"" + rest);
      assert s[2..] == DoubleQuotes(f[1..]) + "\"" + rest;
      assert "\"" + f[1..] == f;
    } else {
      QuotedRoundTrip(f[1..], rest);
      assert s == [f[0]] + (DoubleQuotes(f[1..]) + "\"" + rest);
      assert s[1..] == DoubleQuotes(f[1..]) + "\"" + rest;
      assert [f[0]] + f[1..] == f;
    }
  }

  lemma {:induction false} UnquotedRoundTrip(f: string, rest: string)
    requires ',' !in f && '"' !in f
    requires rest == "" || rest[0] == ','
    ensures ParseUnquoted(f + rest) == Some((f, rest))
  {
    if |f| == 0 {
      assert f + rest == rest;
    } else {
      UnquotedRoundTrip(f[1..], rest);
      assert (f + rest)[1..] == f[1..] + rest;
      assert [f[0]] + f[1..] == f;
    }
  }

  /** Reading back a sanitized field gives the original text, whatever characters it holds. */
  lemma FieldRoundTrip(f: string, rest: string)
    requires rest == "" || rest[0] == ','
    ensures ParseField(Sanitize(Some(f)) + rest) == Some((f, rest))
  {
    if NeedsQuotes(f) {
      var s := Sanitize(Some(f)) + rest;
      assert s[1..] == DoubleQuotes(f) + "\"" + rest;
      QuotedRoundTrip(f, rest);
    } else {
      UnquotedRoundTrip(f, rest);
    }
  }

  lemma {:induction false} LineRoundTrip(fields: seq<string>)
    requires |fields| >= 1
    ensures ParseLine(EncodeLine(fields)) == Some(fields)
    decreases |fields|
  {
    if |fields| == 1 {
      FieldRoundTrip(fields[0], "");
      assert Sanitize(Some(fields[0])) + "" == Sanitize(Some(fields[0])) == EncodeLine(fields);
      assert ParseField(EncodeLine(fields)) == Some((fields[0], ""));
      assert fields == [fields[0]];
    } else {
      var tail := EncodeLine(fields[1..]);
      var rest := "," + tail;
      var s := EncodeLine(fields);
      assert s == Sanitize(Some(fields[0])) + rest;
      FieldRoundTrip(fields[0], rest);
      assert ParseField(s) == Some((fields[0], rest));
      assert rest[1..] == tail;
      LineRoundTrip(fields[1..]);
      assert ParseLine(s) == Some([fields[0]] + fields[1..]);
      assert [fields[0]] + fields[1..] == fields;
    }
  }

  /** Round trip of section 2 of RFC 4180 for one value: any text, commas, quotes and line
      breaks included, reads back as itself from its sanitized form. */
  lemma SanitizeRoundTrip(s: string)
    ensures ParseLine(Sanitize(Some(s))) == Some([s])
  {
    LineRoundTrip([s]);
  }

  lemma {:induction false} NoLineFeedEscaped(s: string)
    requires '\n' !in s
    ensures '\n' !in DoubleQuotes(s)
  {
    if |s| > 0 {
      NoLineFeedEscaped(s[1..]);
    }
  }

  lemma {:induction false} NoLineFeedInLine(fields: seq<string>)
    requires |fields| >= 1
    requires forall k :: 0 <= k < |fields| ==> '\n' !in fields[k]
    ensures '\n' !in EncodeLine(fields)
    decreases |fields|
  {
    NoLineFeedEscaped(fields[0]);
    if |fields| > 1 {
      NoLineFeedInLine(fields[1..]);
    }
  }

  predicate NoLineFeeds(rows: seq<seq<string>>) {
    forall i, k :: 0 <= i < |rows| && 0 <= k < |rows[i]| ==> '\n' !in rows[i][k]
  }

  lemma {:induction false} SplitRows(rows: seq<seq<string>>)
    requires forall i :: 0 <= i < |rows| ==> |rows[i]| >= 1
    requires NoLineFeeds(rows)
    ensures Split(EncodeRows(rows), '\n') == LinesOf(rows) + [""]
    decreases |rows|
  {
    if |rows| > 0 {
      SplitRows(rows[1..]);
      NoLineFeedInLine(rows[0]);
      SplitPrefix(EncodeLine(rows[0]), '\n', EncodeRows(rows[1..]));
    }
  }

  function LinesOf(rows: seq<seq<string>>): (lines: seq<string>)
    requires forall i :: 0 <= i < |rows| ==> |rows[i]| >= 1
    ensures |lines| == |rows|
    ensures forall i :: 0 <= i < |rows| ==> lines[i] == EncodeLine(rows[i])
  {
    if |rows| == 0 then [] else [EncodeLine(rows[0])] + LinesOf(rows[1..])
  }

  lemma {:induction false} ParseLinesOf(rows: seq<seq<string>>)
    requires forall i :: 0 <= i < |rows| ==> |rows[i]| >= 1
    ensures ParseLines(LinesOf(rows)) == Some(rows)
    decreases |rows|
  {
    if |rows| > 0 {
      var lines := LinesOf(rows);
      assert ParseLine(lines[0]) == Some(rows[0]) by {
        LineRoundTrip(rows[0]);
      }
      assert ParseLines(lines[1..]) == Some(rows[1..]) by {
        assert lines[1..] == LinesOf(rows[1..]);
        ParseLinesOf(rows[1..]);
      }
      assert [rows[0]] + rows[1..] == rows;
    }
  }

  /** A file of records whose values hold no line feed reads back as those records. */
  lemma DocumentRoundTrip(rows: seq<seq<string>>)
    requires forall i :: 0 <= i < |rows| ==> |rows[i]| >= 1
    requires NoLineFeeds(rows)
    ensures ParseDocument(EncodeRows(rows)) == Some(rows)
    ensures |Split(EncodeRows(rows), '\n')| == |rows| + 1
  {
    SplitRows(rows);
    var pieces := LinesOf(rows) + [""];
    assert pieces[..|pieces| - 1] == LinesOf(rows);
    ParseLinesOf(rows);
  }

  // ---------------------------------------------------------------- the splits file

  function StateText(state: Option<TagStatusState>): string {
    if state.Some? then Name(state.value) else ""
  }

  /** The text generateSplitsCsv appends for each column of a pass: numbers in decimal,
      the friendly name through `sanitize`, the state by name or empty. */
  function SplitCells(r: SplitRecord): seq<string> {
    [IntToString(r.trackId), IntToString(r.tagId), Sanitize(r.friendlyName), StateText(r.state),
     IntToString(r.entryTimeMs), IntToString(r.peakTimeMs), IntToString(r.exitTimeMs), IntToString(r.highestRssi)]
  }

  /** One pass's line: the cells separated by commas and ended by a line feed. */
  function SplitLine(r: SplitRecord): string {
    Join(SplitCells(r), ",") + "\n"
  }

  /** What a reader should find in each column of a pass's line: a null name or state
      reads as an empty field. */
  function SplitFields(r: SplitRecord): (fields: seq<string>)
    ensures |fields| == |SPLITS_HEADER_FIELDS|
  {
    [IntToString(r.trackId), IntToString(r.tagId), r.friendlyName.GetOr(""), StateText(r.state),
     IntToString(r.entryTimeMs), IntToString(r.peakTimeMs), IntToString(r.exitTimeMs), IntToString(r.highestRssi)]
  }

  function SplitLines(rows: seq<SplitRecord>): string {
    if |rows| == 0 then "" else SplitLine(rows[0]) + SplitLines(rows[1..])
  }

  /** generateSplitsCsv: the header line, then one line per pass; a null or empty list
      gives the header line alone. */
  function GenerateSplitsCsv(statuses: Option<seq<SplitRecord>>): (content: string)
    ensures StartsWith(content, SPLITS_CSV_HEADER + "\n")
    ensures statuses.None? || statuses.value == [] ==> content == SPLITS_CSV_HEADER + "\n"
  {
    SPLITS_CSV_HEADER + "\n" + (if statuses.None? then "" else SplitLines(statuses.value))
  }

  /** Decimal text needs no quoting and holds no line feed. */
  lemma NumberText(i: int)
    ensures !NeedsQuotes(IntToString(i)) && '\n' !in IntToString(i)
  {
    var s := IntToString(i);
    assert forall k :: 0 <= k < |s| ==> s[k] == '-' || IsDigit(s[k]) by {
      if i < 0 {
        assert s == "-" + NatToString(-i);
      }
    }
  }

  /** A state name needs no quoting and holds no line feed. */
  lemma StatePlain(state: Option<TagStatusState>)
    ensures !NeedsQuotes(StateText(state)) && '\n' !in StateText(state)
  {
  }

  predicate AllPlain(fields: seq<string>) {
    forall k :: 0 <= k < |fields| ==> !NeedsQuotes(fields[k]) && '\n' !in fields[k]
  }

  lemma SplitsHeaderPlain()
    ensures AllPlain(SPLITS_HEADER_FIELDS)
  {
  }

  lemma DataHeaderPlain()
    ensures AllPlain(DATA_HEADER_FIELDS)
  {
  }

  /** Fields that need no quoting are written joined by commas. */
  lemma {:induction false} EncodePlain(fields: seq<string>)
    requires |fields| >= 1 && AllPlain(fields)
    ensures EncodeLine(fields) == Join(fields, ",")
    decreases |fields|
  {
    if |fields| > 1 {
      EncodePlain(fields[1..]);
    }
  }

  /** Cells that are each the sanitized text of a field, joined by commas, are the
      encoded line of those fields. */
  lemma {:induction false} JoinSanitized(cells: seq<string>, fields: seq<string>)
    requires |cells| == |fields| >= 1
    requires forall k :: 0 <= k < |fields| ==> cells[k] == Sanitize(Some(fields[k]))
    ensures Join(cells, ",") == EncodeLine(fields)
    decreases |fields|
  {
    if |fields| > 1 {
      JoinSanitized(cells[1..], fields[1..]);
    }
  }

  lemma SplitLineEncodes(r: SplitRecord)
    ensures SplitLine(r) == EncodeLine(SplitFields(r)) + "\n"
  {
    NumberText(r.trackId);
    NumberText(r.tagId);
    NumberText(r.entryTimeMs);
    NumberText(r.peakTimeMs);
    NumberText(r.exitTimeMs);
    NumberText(r.highestRssi);
    StatePlain(r.state);
    JoinSanitized(SplitCells(r), SplitFields(r));
  }

  function SplitRowsFields(rows: seq<SplitRecord>): (r: seq<seq<string>>)
    ensures |r| == |rows|
    ensures forall i :: 0 <= i < |rows| ==> r[i] == SplitFields(rows[i])
  {
    if |rows| == 0 then [] else [SplitFields(rows[0])] + SplitRowsFields(rows[1..])
  }

  lemma {:induction false} SplitLinesEncode(rows: seq<SplitRecord>)
    ensures SplitLines(rows) == EncodeRows(SplitRowsFields(rows))
    decreases |rows|
  {
    if |rows| > 0 {
      SplitLineEncodes(rows[0]);
      SplitLinesEncode(rows[1..]);
      assert SplitRowsFields(rows)[1..] == SplitRowsFields(rows[1..]);
    }
  }

  lemma FieldsWithoutLineFeed(r: SplitRecord)
    requires r.friendlyName.Some? ==> '\n' !in r.friendlyName.value
    ensures forall k :: 0 <= k < |SplitFields(r)| ==> '\n' !in SplitFields(r)[k]
  {
    NumberText(r.trackId);
    NumberText(r.tagId);
    NumberText(r.entryTimeMs);
    NumberText(r.peakTimeMs);
    NumberText(r.exitTimeMs);
    NumberText(r.highestRssi);
    StatePlain(r.state);
  }

  predicate NamesWithoutLineFeed(rows: seq<SplitRecord>) {
    forall i :: 0 <= i < |rows| && rows[i].friendlyName.Some? ==> '\n' !in rows[i].friendlyName.value
  }

  /** The splits file is the encoding of its header and each pass's fields. */
  lemma SplitsHeaderLine()
    ensures EncodeLine(SPLITS_HEADER_FIELDS) == SPLITS_CSV_HEADER
  {
    SplitsHeaderPlain();
    EncodePlain(SPLITS_HEADER_FIELDS);
  }

  lemma SplitsCsvEncodes(rows: seq<SplitRecord>)
    ensures GenerateSplitsCsv(Some(rows)) == EncodeRows([SPLITS_HEADER_FIELDS] + SplitRowsFields(rows))
  {
    var all := [SPLITS_HEADER_FIELDS] + SplitRowsFields(rows);
    assert EncodeLine(all[0]) == SPLITS_CSV_HEADER by {
      SplitsHeaderLine();
    }
    assert EncodeRows(all[1..]) == SplitLines(rows) by {
      assert all[1..] == SplitRowsFields(rows);
      SplitLinesEncode(rows);
    }
    assert GenerateSplitsCsv(Some(rows)) == SPLITS_CSV_HEADER + "\n" + SplitLines(rows);
  }

  lemma SplitsWithoutLineFeed(rows: seq<SplitRecord>)
    requires NamesWithoutLineFeed(rows)
    ensures NoLineFeeds([SPLITS_HEADER_FIELDS] + SplitRowsFields(rows))
  {
    var all := [SPLITS_HEADER_FIELDS] + SplitRowsFields(rows);
    SplitsHeaderPlain();
    forall i, k | 0 <= i < |all| && 0 <= k < |all[i]|
      ensures '\n' !in all[i][k]
    {
      if i > 0 {
        assert all[i] == SplitFields(rows[i - 1]);
        FieldsWithoutLineFeed(rows[i - 1]);
      }
    }
  }

  /** The splits file reads back as its header followed by each pass's eight values in
      header order, provided no friendly name holds a line feed (the exporter does not
      quote line breaks). */
  lemma SplitsCsvRoundTrip(rows: seq<SplitRecord>)
    requires NamesWithoutLineFeed(rows)
    ensures ParseDocument(GenerateSplitsCsv(Some(rows))) == Some([SPLITS_HEADER_FIELDS] + SplitRowsFields(rows))
    ensures |Split(GenerateSplitsCsv(Some(rows)), '\n')| == |rows| + 2
  {
    var all := [SPLITS_HEADER_FIELDS] + SplitRowsFields(rows);
    SplitsCsvEncodes(rows);
    SplitsWithoutLineFeed(rows);
    DocumentRoundTrip(all);
  }

  // ---------------------------------------------------------------- all-numeric files

  function Texts(ns: seq<int>): (r: seq<string>)
    ensures |r| == |ns|
    ensures forall k :: 0 <= k < |ns| ==> r[k] == IntToString(ns[k])
  {
    seq(|ns|, k requires 0 <= k < |ns| => IntToString(ns[k]))
  }

  /** A record of numbers: decimal cells separated by commas, ended by a line feed. */
  function NumericLine(ns: seq<int>): string {
    Join(Texts(ns), ",") + "\n"
  }

  function NumericLines(rows: seq<seq<int>>): string {
    if |rows| == 0 then "" else NumericLine(rows[0]) + NumericLines(rows[1..])
  }

  function TextRows(rows: seq<seq<int>>): (r: seq<seq<string>>)
    ensures |r| == |rows|
    ensures forall i :: 0 <= i < |rows| ==> r[i] == Texts(rows[i])
  {
    if |rows| == 0 then [] else [Texts(rows[0])] + TextRows(rows[1..])
  }

  lemma TextsPlain(ns: seq<int>)
    ensures AllPlain(Texts(ns))
  {
    forall k | 0 <= k < |ns|
      ensures !NeedsQuotes(Texts(ns)[k]) && '\n' !in Texts(ns)[k]
    {
      NumberText(ns[k]);
    }
  }

  lemma {:induction false} NumericLinesEncode(rows: seq<seq<int>>)
    requires forall i :: 0 <= i < |rows| ==> |rows[i]| >= 1
    ensures NumericLines(rows) == EncodeRows(TextRows(rows))
    decreases |rows|
  {
    if |rows| > 0 {
      TextsPlain(rows[0]);
      EncodePlain(Texts(rows[0]));
      NumericLinesEncode(rows[1..]);
      assert TextRows(rows)[1..] == TextRows(rows[1..]);
    }
  }

  /** A file of a plain header line followed by records of numbers reads back as the header
      names followed by each record's decimal texts. */
  lemma NumericCsvRoundTrip(header: seq<string>, rows: seq<seq<int>>)
    requires |header| >= 1 && AllPlain(header)
    requires forall i :: 0 <= i < |rows| ==> |rows[i]| >= 1
    ensures ParseDocument(Join(header, ",") + "\n" + NumericLines(rows)) == Some([header] + TextRows(rows))
    ensures |Split(Join(header, ",") + "\n" + NumericLines(rows), '\n')| == |rows| + 2
  {
    var all := [header] + TextRows(rows);
    NumericDocEncodes(header, rows);
    NumericNoLineFeeds(header, rows);
    DocumentRoundTrip(all);
  }

  lemma NumericDocEncodes(header: seq<string>, rows: seq<seq<int>>)
    requires |header| >= 1 && AllPlain(header)
    requires forall i :: 0 <= i < |rows| ==> |rows[i]| >= 1
    ensures forall i :: 0 <= i < |[header] + TextRows(rows)| ==> |([header] + TextRows(rows))[i]| >= 1
    ensures Join(header, ",") + "\n" + NumericLines(rows) == EncodeRows([header] + TextRows(rows))
  {
    var all := [header] + TextRows(rows);
    EncodePlain(header);
    NumericLinesEncode(rows);
    assert all[1..] == TextRows(rows);
    assert EncodeRows(all) == EncodeLine(all[0]) + "\n" + EncodeRows(all[1..]);
  }

  lemma NumericNoLineFeeds(header: seq<string>, rows: seq<seq<int>>)
    requires AllPlain(header)
    ensures NoLineFeeds([header] + TextRows(rows))
  {
    var all := [header] + TextRows(rows);
    forall i, k | 0 <= i < |all| && 0 <= k < |all[i]|
      ensures '\n' !in all[i][k]
    {
      if i > 0 {
        assert all[i] == Texts(rows[i - 1]);
        TextsPlain(rows[i - 1]);
      }
    }
  }

  // ---------------------------------------------------------------- the data file

  /** The numbers generateDataCsv writes for a reading: dataId, trackId, timestampMs and
      rssi. No tagId is written, though the header names one. */
  function DataValues(d: DataRecord): (ns: seq<int>)
    ensures |ns| == 4
  {
    [d.dataId, d.trackId, d.timestampMs, d.rssi]
  }

  function DataRows(rows: seq<DataRecord>): (r: seq<seq<int>>)
    ensures |r| == |rows|
    ensures forall i :: 0 <= i < |rows| ==> r[i] == DataValues(rows[i])
  {
    if |rows| == 0 then [] else [DataValues(rows[0])] + DataRows(rows[1..])
  }

  /** generateDataCsv as written: the header line, then one four-number line per reading; a
      null or empty list gives the header line alone. */
  function GenerateDataCsv(data: Option<seq<DataRecord>>): (content: string)
    ensures StartsWith(content, DATA_CSV_HEADER + "\n")
    ensures data.None? || data.value == [] ==> content == DATA_CSV_HEADER + "\n"
  {
    DATA_CSV_HEADER + "\n" + (if data.None? then "" else NumericLines(DataRows(data.value)))
  }

  /** The data file as written is misaligned: its header names five columns, every reading
      line holds four values, and the column headed timestampMs holds the reading's rssi. */
  lemma DataRowsMisaligned(rows: seq<DataRecord>)
    ensures var p := ParseDocument(GenerateDataCsv(Some(rows)));
      && p.Some? && |p.value| == |rows| + 1
      && p.value[0] == DATA_HEADER_FIELDS && DATA_HEADER_FIELDS[3] == "timestampMs"
      && forall i :: 1 <= i < |p.value| ==>
           |p.value[i]| == 4 < |p.value[0]| && p.value[i][3] == IntToString(rows[i - 1].rssi)
  {
    DataHeaderPlain();
    NumericCsvRoundTrip(DATA_HEADER_FIELDS, DataRows(rows));
  }

  /** A reading together with the tag id of its pass, which the data file's header asks for. */
  datatype TaggedData = TaggedData(record: DataRecord, tagId: int)

  /** The five numbers of a reading in header order. */
  function TaggedValues(t: TaggedData): (ns: seq<int>)
    ensures |ns| == |DATA_HEADER_FIELDS|
  {
    [t.record.dataId, t.record.trackId, t.tagId, t.record.timestampMs, t.record.rssi]
  }

  function TaggedRows(rows: seq<TaggedData>): (r: seq<seq<int>>)
    ensures |r| == |rows|
    ensures forall i :: 0 <= i < |rows| ==> r[i] == TaggedValues(rows[i])
  {
    if |rows| == 0 then [] else [TaggedValues(rows[0])] + TaggedRows(rows[1..])
  }

  /** The data file with a tagId column, as its header promises. */
  function GenerateTaggedDataCsv(data: Option<seq<TaggedData>>): (content: string)
    ensures StartsWith(content, DATA_CSV_HEADER + "\n")
  {
    DATA_CSV_HEADER + "\n" + (if data.None? then "" else NumericLines(TaggedRows(data.value)))
  }

  /** With the tag id written, every reading line has exactly the header's five columns and
      each value sits under its own name. */
  lemma TaggedDataCsvRoundTrip(rows: seq<TaggedData>)
    ensures var p := ParseDocument(GenerateTaggedDataCsv(Some(rows)));
      && p.Some? && |p.value| == |rows| + 1 && p.value[0] == DATA_HEADER_FIELDS
      && forall i :: 1 <= i < |p.value| ==>
           |p.value[i]| == |DATA_HEADER_FIELDS|
           && p.value[i][2] == IntToString(rows[i - 1].tagId)
           && p.value[i][3] == IntToString(rows[i - 1].record.timestampMs)
           && p.value[i][4] == IntToString(rows[i - 1].record.rssi)
  {
    DataHeaderPlain();
    NumericCsvRoundTrip(DATA_HEADER_FIELDS, TaggedRows(rows));
  }

  // ---------------------------------------------------------------- both files

  function SizeOf<T>(xs: Option<seq<T>>): nat {
    if xs.None? then 0 else |xs.value|
  }

  /** generateCsvFiles: the splits file then the data file, both named with the same export
      timestamp (formatted by the caller's clock, here a parameter). */
  function GenerateCsvFiles(statuses: Option<seq<SplitRecord>>, data: Option<seq<DataRecord>>, timestamp: string): (files: seq<CsvFile>)
    ensures |files| == 2
    ensures files[0].filename == "patriotlogger_splits_" + timestamp + ".csv"
    ensures files[1].filename == "patriotlogger_data_" + timestamp + ".csv"
    ensures files[0].rowCount == SizeOf(statuses) && files[1].rowCount == SizeOf(data)
    ensures files[0].content == GenerateSplitsCsv(statuses) && files[1].content == GenerateDataCsv(data)
  {
    [CsvFile("patriotlogger_splits_" + timestamp + ".csv", GenerateSplitsCsv(statuses), SizeOf(statuses)),
     CsvFile("patriotlogger_data_" + timestamp + ".csv", GenerateDataCsv(data), SizeOf(data))]
  }

  /** Each file has one line per counted row after its header line (the final line feed
      leaves one empty piece), provided no friendly name holds a line feed. */
  lemma CsvFilesLineCounts(statuses: Option<seq<SplitRecord>>, data: Option<seq<DataRecord>>, timestamp: string)
    requires statuses.Some? ==> NamesWithoutLineFeed(statuses.value)
    ensures var files := GenerateCsvFiles(statuses, data, timestamp);
      |Split(files[0].content, '\n')| == files[0].rowCount + 2
    ensures var files := GenerateCsvFiles(statuses, data, timestamp);
      |Split(files[1].content, '\n')| == files[1].rowCount + 2
  {
    var files := GenerateCsvFiles(statuses, data, timestamp);
    var rows := if statuses.None? then [] else statuses.value;
    assert files[0].content == GenerateSplitsCsv(Some(rows)) && files[0].rowCount == |rows|;
    SplitsCsvRoundTrip(rows);
    var ds := if data.None? then [] else data.value;
    assert files[1].content == DATA_CSV_HEADER + "\n" + NumericLines(DataRows(ds)) && files[1].rowCount == |ds|;
    DataHeaderPlain();
    NumericCsvRoundTrip(DATA_HEADER_FIELDS, DataRows(ds));
  }
}
