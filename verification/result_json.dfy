/**
 * The result file DriverMain writes for one sample file: string quoting (`q`), the pin
 * objects (`pointJson`) and the document layout (`buildJson`). The document is described as
 * a JSON value tree; the string the driver assembles piece by piece is proved to be that
 * tree's rendering. The plotted value of each line point is produced by `fmt` (a `%.3f`
 * format) and is taken here as already formatted text.
 */
module ResultJson {
  import opened Wrappers
  import opened Text
  import opened Samples
  import opened Driver

  // ---------------------------------------------------------------- quoting

  /** The one-pass escape of a single character: backslash and quote get a backslash. */
  function EscapeChar(c: char): string {
    if c == '\\' then "\\\\" else if c == '"' then "\\\"" else [c]
  }

  /** `s` with every backslash and quote preceded by a backslash: text without either is
      left as it is, and the result is at most twice as long. */
  function Escape(s: string): (r: string)
    ensures '\\' !in s && '"' !in s ==> r == s
    ensures |s| <= |r| <= 2 * |s|
    ensures |r| == |s| ==> r == s
  {
    if |s| == 0 then "" else EscapeChar(s[0]) + Escape(s[1..])
  }

  lemma {:induction false} ReplaceCharAppend(a: string, b: string, c: char, repl: string)
    ensures ReplaceChar(a + b, c, repl) == ReplaceChar(a, c, repl) + ReplaceChar(b, c, repl)
  {
    if |a| > 0 {
      assert (a + b)[1..] == a[1..] + b;
      ReplaceCharAppend(a[1..], b, c, repl);
    } else {
      assert a + b == b;
    }
  }

  /** `replace("\\", "\\\\")` followed by `replace("\"", "\\\"")` is the one-pass escape: the
      backslashes the first pass adds contain no quote, so the second pass leaves them alone. */
  lemma {:induction false} TwoPassEscape(s: string)
    ensures ReplaceChar(ReplaceChar(s, '\\', "\\\\"), '"', "\\\"") == Escape(s)
  {
    if |s| > 0 {
      var head := if s[0] == '\\' then "\\\\" else [s[0]];
      assert ReplaceChar(s, '\\', "\\\\") == head + ReplaceChar(s[1..], '\\', "\\\\");
      ReplaceCharAppend(head, ReplaceChar(s[1..], '\\', "\\\\"), '"', "\\\"");
      TwoPassEscape(s[1..]);
      if s[0] == '\\' {
        ReplaceCharAbsent(head, '"', "\\\"");
      } else {
        assert ReplaceChar(head, '"', "\\\"") == EscapeChar(s[0]);
      }
    }
  }

  /** q: null becomes the bare word null; any other string is escaped and put in quotes. */
  function Q(s: Option<string>): (r: string)
    ensures s.None? ==> r == "null"
    ensures s.Some? ==> |r| >= 2 && r[0] == '"' && r[|r| - 1] == '"' && r[1..|r| - 1] == Escape(s.value)
  {
    match s
    case None => "null"
    case Some(v) =>
      var esc := ReplaceChar(ReplaceChar(v, '\\', "\\\\"), '"', "\\\"");
      TwoPassEscape(v);
      "\"" + esc + "\""
  }

  /** A string with neither a backslash nor a quote is quoted as it is. */
  lemma QPlain(s: string)
    requires '\\' !in s && '"' !in s
    ensures Q(Some(s)) == "\"" + s + "\""
  {
    ReplaceCharAbsent(s, '\\', "\\\\");
    ReplaceCharAbsent(s, '"', "\\\"");
  }

  // ---------------------------------------------------------------- reading a JSON string back

  /** A control character, which section 7 of RFC 8259 requires to be escaped inside a string. */
  predicate IsControl(c: char) { c < ' ' }

  /** The single-character escapes of section 7 of RFC 8259 (`\u` escapes are not read). */
  function UnescapeChar(c: char): Option<char> {
    match c
    case '"' => Some('"')
    case '\\' => Some('\\')
    case '/' => Some('/')
    case 'b' => Some('\U{8}')
    case 'f' => Some('\U{c}')
    case 'n' => Some('\n')
    case 'r' => Some('\r')
    case 't' => Some('\t')
    case _ => None
  }

  /** The characters between the quotes of a JSON string: an unescaped quote, a lone
      backslash or a raw control character makes it invalid. */
  function ReadBody(b: string): Option<string>
    decreases |b|
  {
    if |b| == 0 then Some("")
    else if b[0] == '\\' then
      if |b| < 2 then None
      else
        match UnescapeChar(b[1])
        case None => None
        case Some(c) =>
          match ReadBody(b[2..])
          case None => None
          case Some(rest) => Some([c] + rest)
    else if b[0] == '"' || IsControl(b[0]) then None
    else
      match ReadBody(b[1..])
      case None => None
      case Some(rest) => Some([b[0]] + rest)
  }

  function ReadJsonString(r: string): Option<string> {
    if |r| >= 2 && r[0] == '"' && r[|r| - 1] == '"' then ReadBody(r[1..|r| - 1]) else None
  }

  lemma {:induction false} ReadEscaped(s: string)
    requires forall i :: 0 <= i < |s| ==> !IsControl(s[i])
    ensures ReadBody(Escape(s)) == Some(s)
    decreases |s|
  {
    if |s| > 0 {
      ReadEscaped(s[1..]);
      var e := EscapeChar(s[0]);
      var rest := Escape(s[1..]);
      if s[0] == '\\' || s[0] == '"' {
        assert (e + rest)[2..] == rest;
      } else {
        assert (e + rest)[1..] == rest;
      }
      assert [s[0]] + s[1..] == s;
    }
  }

  /** A quoted name reads back as the name itself, provided it holds no control character. */
  lemma QRoundTrip(s: string)
    requires forall i :: 0 <= i < |s| ==> !IsControl(s[i])
    ensures ReadJsonString(Q(Some(s))) == Some(s)
  {
    ReadEscaped(s);
  }

  /** `q` leaves control characters as they are, so a name holding a line break gives text that
      is not a JSON string. */
  lemma ControlCharBreaksJson()
    ensures ReadJsonString(Q(Some("a\nb"))) == None
  {
    QPlain("a\nb");
    assert Q(Some("a\nb"))[1..4] == "a\nb";
    assert ReadBody("a\nb") == None by {
      assert "a\nb"[1..] == "\nb";
    }
  }

  // ---------------------------------------------------------------- the JSON value tree

  /** A JSON value. `JNum` holds a number already formatted as text. Objects keep their
      members in writing order. */
  datatype Json =
    | JNull
    | JInt(i: int)
    | JNum(text: string)
    | JStr(s: string)
    | JArr(items: seq<Json>)
    | JObj(members: seq<Member>)

  datatype Member = Member(key: string, value: Json)

  /** Compact JSON text: no spaces, members and items separated by commas. */
  function Render(j: Json): string
    decreases j
  {
    match j
    case JNull => "null"
    case JInt(i) => IntToString(i)
    case JNum(t) => t
    case JStr(s) => Q(Some(s))
    case JArr(items) =>
      "[" + Join(seq(|items|, k requires 0 <= k < |items| => Render(items[k])), ",") + "]"
    case JObj(ms) =>
      "{" + Join(seq(|ms|, k requires 0 <= k < |ms| => Q(Some(ms[k].key)) + ":" + Render(ms[k].value)), ",") + "}"
  }

  function ItemTexts(items: seq<Json>): (r: seq<string>)
    ensures |r| == |items| && forall k :: 0 <= k < |items| ==> r[k] == Render(items[k])
  {
    seq(|items|, k requires 0 <= k < |items| => Render(items[k]))
  }

  function MemberTexts(ms: seq<Member>): (r: seq<string>)
    ensures |r| == |ms| && forall k :: 0 <= k < |ms| ==> r[k] == Q(Some(ms[k].key)) + ":" + Render(ms[k].value)
  {
    seq(|ms|, k requires 0 <= k < |ms| => Q(Some(ms[k].key)) + ":" + Render(ms[k].value))
  }

  lemma RenderArr(items: seq<Json>)
    ensures Render(JArr(items)) == "[" + Join(ItemTexts(items), ",") + "]"
  {
    assert seq(|items|, k requires 0 <= k < |items| => Render(items[k])) == ItemTexts(items);
  }

  lemma RenderObj(ms: seq<Member>)
    ensures Render(JObj(ms)) == "{" + Join(MemberTexts(ms), ",") + "}"
  {
    assert seq(|ms|, k requires 0 <= k < |ms| => Q(Some(ms[k].key)) + ":" + Render(ms[k].value)) == MemberTexts(ms);
  }

  /** An object with two members, written out. */
  lemma RenderPair(k1: string, v1: Json, k2: string, v2: Json)
    ensures Render(JObj([Member(k1, v1), Member(k2, v2)]))
            == "{" + ((Q(Some(k1)) + ":" + Render(v1)) + "," + (Q(Some(k2)) + ":" + Render(v2))) + "}"
  {
    var ms := [Member(k1, v1), Member(k2, v2)];
    var a := Q(Some(k1)) + ":" + Render(v1);
    var b := Q(Some(k2)) + ":" + Render(v2);
    RenderObj(ms);
    assert MemberTexts(ms) == [a] + [b];
    JoinCons(a, [b], ",");
    assert Join([b], ",") == b;
  }

  function Keys(ms: seq<Member>): (r: seq<string>)
    ensures |r| == |ms| && forall k :: 0 <= k < |ms| ==> r[k] == ms[k].key
  {
    seq(|ms|, k requires 0 <= k < |ms| => ms[k].key)
  }

  /** A pin object: exactly the keys t and rssi, both null or both integers. */
  predicate IsPointDoc(j: Json) {
    j.JObj? && Keys(j.members) == ["t", "rssi"]
    && ((j.members[0].value.JNull? && j.members[1].value.JNull?)
        || (j.members[0].value.JInt? && j.members[1].value.JInt?))
  }

  // ---------------------------------------------------------------- the document

  /** One point of a handler's plotted line: offset time and the formatted value. */
  datatype LinePoint = LinePoint(t: int, v: string)

  /** One handler's entry in the `algorithms` map: its name, pins and line. */
  datatype AlgoEntry = AlgoEntry(name: string, states: AlgoStates, line: seq<LinePoint>)

  predicate DistinctNames(algos: seq<AlgoEntry>) {
    forall i, j :: 0 <= i < j < |algos| ==> algos[i].name != algos[j].name
  }

  /** The position of the entry named `name`, or the length when there is none. */
  function NameIndex(algos: seq<AlgoEntry>, name: string): (i: nat)
    ensures i <= |algos|
    ensures i < |algos| ==> algos[i].name == name
    ensures forall k :: 0 <= k < i ==> algos[k].name != name
  {
    if |algos| == 0 then 0
    else if algos[0].name == name then 0
    else 1 + NameIndex(algos[1..], name)
  }

  /** `put` on the driver's insertion-ordered maps: a name seen before keeps its place and
      takes the new value, a new name goes at the end. */
  function PutAlgo(algos: seq<AlgoEntry>, e: AlgoEntry): (r: seq<AlgoEntry>)
    requires DistinctNames(algos)
    ensures |r| == |algos| || |r| == |algos| + 1
    ensures DistinctNames(r)
    ensures forall i :: 0 <= i < |algos| ==> r[i] == if algos[i].name == e.name then e else algos[i]
    ensures (exists i :: 0 <= i < |algos| && algos[i].name == e.name) <==> |r| == |algos|
    ensures |r| == |algos| + 1 ==> r[|algos|] == e
  {
    var i := NameIndex(algos, e.name);
    if i < |algos| then algos[i := e] else algos + [e]
  }

  const STATE_KEYS: seq<string> := ["APPROACHING", "HERE", "LOGGED", "PEAK"]

  /** pointJson as a value: both fields null as soon as either is missing. */
  function PointDoc(p: Point): (j: Json)
    ensures IsPointDoc(j)
    ensures j.members[0].value.JNull? <==> p.tsOffset.None? || p.rssi.None?
    ensures p.tsOffset.Some? && p.rssi.Some? ==>
              j.members[0].value == JInt(p.tsOffset.value) && j.members[1].value == JInt(p.rssi.value)
  {
    if p.tsOffset.None? || p.rssi.None? then JObj([Member("t", JNull), Member("rssi", JNull)])
    else JObj([Member("t", JInt(p.tsOffset.value)), Member("rssi", JInt(p.rssi.value))])
  }

  function SampleDoc(s: CalibrationSample): Json {
    JObj([Member("t", JInt(s.timestampMs - BASE_TS)), Member("rssi", JInt(s.rssi))])
  }

  function LineDoc(lp: LinePoint): Json {
    JObj([Member("t", JInt(lp.t)), Member("v", JNum(lp.v))])
  }

  function LineDocs(line: seq<LinePoint>): seq<Json> {
    seq(|line|, k requires 0 <= k < |line| => LineDoc(line[k]))
  }

  function SeriesDocs(samples: seq<CalibrationSample>): seq<Json> {
    seq(|samples|, k requires 0 <= k < |samples| => SampleDoc(samples[k]))
  }

  /** One handler's object: the four pins in the fixed order, then the line. */
  function AlgoDoc(e: AlgoEntry): (j: Json)
    ensures j.JObj? && Keys(j.members) == STATE_KEYS + ["line"]
    ensures forall k :: 0 <= k < 4 ==> IsPointDoc(j.members[k].value)
    ensures j.members[4].value.JArr? && |j.members[4].value.items| == |e.line|
  {
    var line := LineDocs(e.line);
    JObj([Member("APPROACHING", PointDoc(e.states.approaching)),
          Member("HERE", PointDoc(e.states.here)),
          Member("LOGGED", PointDoc(e.states.logged)),
          Member("PEAK", PointDoc(e.states.peak)),
          Member("line", JArr(line))])
  }

  function AlgoMembers(algos: seq<AlgoEntry>): seq<Member> {
    seq(|algos|, k requires 0 <= k < |algos| => Member(algos[k].name, AlgoDoc(algos[k])))
  }

  /** The whole result document: file name, base time, the filtered series with times
      relative to BASE_TS, and one object per handler in insertion order. */
  function ResultDoc(sampleFile: string, samples: seq<CalibrationSample>, algos: seq<AlgoEntry>): Json
  {
    var series := SeriesDocs(samples);
    var members := AlgoMembers(algos);
    JObj([Member("sampleFile", JStr(sampleFile)),
          Member("baseTs", JInt(BASE_TS)),
          Member("series", JArr(series)),
          Member("algorithms", JObj(members))])
  }

  /** The layout of the result document: the four top-level keys in order, the series with
      times relative to BASE_TS, and one object per handler, in the given order, with the four
      pins and the line. */
  lemma ResultDocLayout(sampleFile: string, samples: seq<CalibrationSample>, algos: seq<AlgoEntry>)
    ensures var d := ResultDoc(sampleFile, samples, algos);
            d.JObj? && Keys(d.members) == ["sampleFile", "baseTs", "series", "algorithms"]
    ensures var d := ResultDoc(sampleFile, samples, algos);
            d.members[0].value == JStr(sampleFile) && d.members[1].value == JInt(BASE_TS)
    ensures var d := ResultDoc(sampleFile, samples, algos); var series := d.members[2].value;
            series.JArr? && |series.items| == |samples|
            && forall k :: 0 <= k < |samples| ==>
                 series.items[k].JObj? && Keys(series.items[k].members) == ["t", "rssi"]
                 && series.items[k].members[0].value == JInt(samples[k].timestampMs - BASE_TS)
                 && series.items[k].members[1].value == JInt(samples[k].rssi)
    ensures var d := ResultDoc(sampleFile, samples, algos); var a := d.members[3].value;
            a.JObj? && |a.members| == |algos|
            && forall k :: 0 <= k < |algos| ==>
                 a.members[k].key == algos[k].name && a.members[k].value.JObj?
                 && Keys(a.members[k].value.members) == STATE_KEYS + ["line"]
  {
  }

  // ---------------------------------------------------------------- the text DriverMain writes

  lemma PlainField(key: string)
    requires '\\' !in key && '"' !in key
    ensures Q(Some(key)) + ":" == "\"" + key + "\":"
  {
    QPlain(key);
  }

  /** A two-member object whose keys need no escaping: each member is the quoted key, a colon
      and the value. */
  lemma PairText(k1: string, v1: Json, k2: string, v2: Json)
    requires '\\' !in k1 && '"' !in k1 && '\\' !in k2 && '"' !in k2
    ensures Render(JObj([Member(k1, v1), Member(k2, v2)]))
            == "{" + (("\"" + k1 + "\":" + Render(v1)) + "," + ("\"" + k2 + "\":" + Render(v2))) + "}"
  {
    RenderPair(k1, v1, k2, v2);
    PlainField(k1);
    PlainField(k2);
  }

  /** pointJson: the null object when either field is missing, otherwise both numbers. */
  function PointJson(p: Point): (r: string)
    ensures r == Render(PointDoc(p))
  {
    assert "\"" + "t" + "\":" == "\"t\":";
    assert "\"" + "rssi" + "\":" == "\"rssi\":";
    if p.tsOffset.None? || p.rssi.None? then
      PairText("t", JNull, "rssi", JNull);
      "{" + (("\"t\":" + "null") + "," + ("\"rssi\":" + "null")) + "}"
    else
      PairText("t", JInt(p.tsOffset.value), "rssi", JInt(p.rssi.value));
      "{" + (("\"t\":" + IntToString(p.tsOffset.value)) + "," + ("\"rssi\":" + IntToString(p.rssi.value))) + "}"
  }

  /** A member name the driver writes literally: quoted, followed by a colon. */
  function Key(k: string): string { "\"" + k + "\":" }

  predicate PlainKeys(ms: seq<Member>) {
    forall k :: 0 <= k < |ms| ==> '\\' !in ms[k].key && '"' !in ms[k].key
  }

  lemma RenderPlainObj(ms: seq<Member>)
    requires PlainKeys(ms)
    ensures Render(JObj(ms))
            == "{" + Join(seq(|ms|, k requires 0 <= k < |ms| => Key(ms[k].key) + Render(ms[k].value)), ",") + "}"
  {
    RenderObj(ms);
    forall k | 0 <= k < |ms|
      ensures MemberTexts(ms)[k] == Key(ms[k].key) + Render(ms[k].value)
    {
      PlainField(ms[k].key);
    }
    assert MemberTexts(ms) == seq(|ms|, k requires 0 <= k < |ms| => Key(ms[k].key) + Render(ms[k].value));
  }

  /** The loop shape of the series and line arrays: each item, then a comma unless it was the
      last one. */
  method CommaAfter(items: seq<string>) returns (s: string)
    ensures s == Join(items, ",")
  {
    s := "";
    var i := 0;
    while i < |items|
      invariant 0 <= i <= |items|
      invariant s == Join(items[..i], ",") + (if 0 < i < |items| then "," else "")
    {
      if i > 0 {
        JoinSnoc(items[..i], items[i], ",");
        assert items[..i + 1] == items[..i] + [items[i]];
      } else {
        assert items[..1] == [items[0]];
      }
      s := s + items[i];
      if i + 1 < |items| {
        s := s + ",";
      }
      i := i + 1;
    }
    assert items[..i] == items;
  }

  /** The loop shape of the algorithms map: a comma before every entry but the first. */
  method CommaBefore(items: seq<string>) returns (s: string)
    ensures s == Join(items, ",")
  {
    s := "";
    var a := 0;
    while a < |items|
      invariant 0 <= a <= |items|
      invariant s == Join(items[..a], ",")
    {
      if a > 0 {
        s := s + ",";
        JoinSnoc(items[..a], items[a], ",");
      }
      assert items[..a + 1] == items[..a] + [items[a]];
      s := s + items[a];
      a := a + 1;
    }
    assert items[..a] == items;
  }

  /** One series element: the sample's time offset and rssi. */
  function SampleText(s: CalibrationSample): (r: string)
    ensures r == Render(SampleDoc(s))
  {
    PairText("t", JInt(s.timestampMs - BASE_TS), "rssi", JInt(s.rssi));
    "{" + ((Key("t") + IntToString(s.timestampMs - BASE_TS)) + "," + (Key("rssi") + IntToString(s.rssi))) + "}"
  }

  /** One line element: the offset time and the formatted value. */
  function LineText(lp: LinePoint): (r: string)
    ensures r == Render(LineDoc(lp))
  {
    PairText("t", JInt(lp.t), "v", JNum(lp.v));
    "{" + ((Key("t") + IntToString(lp.t)) + "," + (Key("v") + lp.v)) + "}"
  }

  predicate PlainKey(k: string) { '\\' !in k && '"' !in k }

  /** A five-member object whose keys need no escaping, written out. */
  lemma RenderObj5(k1: string, v1: Json, k2: string, v2: Json, k3: string, v3: Json,
                   k4: string, v4: Json, k5: string, v5: Json)
    requires PlainKey(k1) && PlainKey(k2) && PlainKey(k3) && PlainKey(k4) && PlainKey(k5)
    ensures Render(JObj([Member(k1, v1), Member(k2, v2), Member(k3, v3), Member(k4, v4), Member(k5, v5)]))
            == "{" + Join([Key(k1) + Render(v1), Key(k2) + Render(v2), Key(k3) + Render(v3),
                           Key(k4) + Render(v4), Key(k5) + Render(v5)], ",") + "}"
  {
    var ms := [Member(k1, v1), Member(k2, v2), Member(k3, v3), Member(k4, v4), Member(k5, v5)];
    RenderPlainObj(ms);
    assert seq(|ms|, k requires 0 <= k < |ms| => Key(ms[k].key) + Render(ms[k].value))
           == [Key(k1) + Render(v1), Key(k2) + Render(v2), Key(k3) + Render(v3), Key(k4) + Render(v4), Key(k5) + Render(v5)];
  }

  lemma RenderObj4(k1: string, v1: Json, k2: string, v2: Json, k3: string, v3: Json, k4: string, v4: Json)
    requires PlainKey(k1) && PlainKey(k2) && PlainKey(k3) && PlainKey(k4)
    ensures Render(JObj([Member(k1, v1), Member(k2, v2), Member(k3, v3), Member(k4, v4)]))
            == "{" + Join([Key(k1) + Render(v1), Key(k2) + Render(v2), Key(k3) + Render(v3), Key(k4) + Render(v4)], ",") + "}"
  {
    var ms := [Member(k1, v1), Member(k2, v2), Member(k3, v3), Member(k4, v4)];
    RenderPlainObj(ms);
    assert seq(|ms|, k requires 0 <= k < |ms| => Key(ms[k].key) + Render(ms[k].value))
           == [Key(k1) + Render(v1), Key(k2) + Render(v2), Key(k3) + Render(v3), Key(k4) + Render(v4)];
  }

  /** A handler's object from the texts of its parts: the four pins and the line's items. */
  lemma AlgoTextShape(e: AlgoEntry, pa: string, ph: string, pl: string, pp: string, line: string)
    requires pa == Render(PointDoc(e.states.approaching)) && ph == Render(PointDoc(e.states.here))
    requires pl == Render(PointDoc(e.states.logged)) && pp == Render(PointDoc(e.states.peak))
    requires line == Join(ItemTexts(LineDocs(e.line)), ",")
    ensures "{" + (Key("APPROACHING") + pa + "," + (Key("HERE") + ph + "," + (Key("LOGGED") + pl + ","
             + (Key("PEAK") + pp + "," + (Key("line") + ("[" + line + "]")))))) + "}"
            == Render(AlgoDoc(e))
  {
    RenderArr(LineDocs(e.line));
    RenderObj5("APPROACHING", PointDoc(e.states.approaching), "HERE", PointDoc(e.states.here),
               "LOGGED", PointDoc(e.states.logged), "PEAK", PointDoc(e.states.peak),
               "line", JArr(LineDocs(e.line)));
    Join5(Key("APPROACHING") + pa, Key("HERE") + ph, Key("LOGGED") + pl, Key("PEAK") + pp,
          Key("line") + ("[" + line + "]"), ",");
  }

  /** One handler's object as the driver writes it: the four pins by pointJson, then the line. */
  method AlgoText(e: AlgoEntry) returns (text: string)
    ensures text == Render(AlgoDoc(e))
  {
    var line := CommaAfter(seq(|e.line|, k requires 0 <= k < |e.line| => LineText(e.line[k])));
    assert seq(|e.line|, k requires 0 <= k < |e.line| => LineText(e.line[k])) == ItemTexts(LineDocs(e.line));
    var pa, ph, pl, pp := PointJson(e.states.approaching), PointJson(e.states.here),
                          PointJson(e.states.logged), PointJson(e.states.peak);
    text := "{" + (Key("APPROACHING") + pa + "," + (Key("HERE") + ph + "," + (Key("LOGGED") + pl + ","
             + (Key("PEAK") + pp + "," + (Key("line") + ("[" + line + "]")))))) + "}";
    AlgoTextShape(e, pa, ph, pl, pp, line);
  }

  lemma ResultDocMembers(sampleFile: string, samples: seq<CalibrationSample>, algos: seq<AlgoEntry>)
    ensures Render(ResultDoc(sampleFile, samples, algos))
            == "{" + Join([Key("sampleFile") + Q(Some(sampleFile)), Key("baseTs") + IntToString(BASE_TS),
                           Key("series") + Render(JArr(SeriesDocs(samples))),
                           Key("algorithms") + Render(JObj(AlgoMembers(algos)))], ",") + "}"
  {
    ResultKeysPlain();
    RenderObj4("sampleFile", JStr(sampleFile), "baseTs", JInt(BASE_TS),
               "series", JArr(SeriesDocs(samples)), "algorithms", JObj(AlgoMembers(algos)));
    assert Render(JStr(sampleFile)) == Q(Some(sampleFile));
    assert Render(JInt(BASE_TS)) == IntToString(BASE_TS);
  }

  lemma ResultKeysPlain()
    ensures PlainKey("sampleFile") && PlainKey("baseTs") && PlainKey("series") && PlainKey("algorithms")
  {
  }

  /** The result document from the texts of its parts. */
  lemma BuildShape(sampleFile: string, samples: seq<CalibrationSample>, algos: seq<AlgoEntry>,
                   file: string, series: string, body: string)
    requires file == Q(Some(sampleFile))
    requires series == Join(ItemTexts(SeriesDocs(samples)), ",")
    requires body == Join(MemberTexts(AlgoMembers(algos)), ",")
    ensures "{" + (Key("sampleFile") + file + "," + (Key("baseTs") + IntToString(BASE_TS) + ","
            + (Key("series") + ("[" + series + "]") + "," + (Key("algorithms") + ("{" + body + "}"))))) + "}"
            == Render(ResultDoc(sampleFile, samples, algos))
  {
    ResultDocMembers(sampleFile, samples, algos);
    RenderArr(SeriesDocs(samples));
    RenderObj(AlgoMembers(algos));
    Join4(Key("sampleFile") + file, Key("baseTs") + IntToString(BASE_TS),
          Key("series") + ("[" + series + "]"), Key("algorithms") + ("{" + body + "}"), ",");
  }

  /** The `series` array's items: one object per filtered sample, in order. */
  method SeriesText(samples: seq<CalibrationSample>) returns (series: string)
    ensures series == Join(ItemTexts(SeriesDocs(samples)), ",")
  {
    series := CommaAfter(seq(|samples|, k requires 0 <= k < |samples| => SampleText(samples[k])));
    assert seq(|samples|, k requires 0 <= k < |samples| => SampleText(samples[k])) == ItemTexts(SeriesDocs(samples));
  }

  lemma SliceSnoc<T>(s: seq<T>, a: nat)
    requires a < |s|
    ensures s[..a + 1] == s[..a] + [s[a]]
  {
  }

  lemma AlgoMemberText(algos: seq<AlgoEntry>, a: nat)
    requires a < |algos|
    ensures MemberTexts(AlgoMembers(algos))[a] == Q(Some(algos[a].name)) + ":" + Render(AlgoDoc(algos[a]))
  {
  }

  /** The `algorithms` object's members: each handler's quoted name and its object. */
  method AlgorithmsText(algos: seq<AlgoEntry>) returns (body: string)
    ensures body == Join(MemberTexts(AlgoMembers(algos)), ",")
  {
    ghost var texts := MemberTexts(AlgoMembers(algos));
    var entries: seq<string> := [];
    var a := 0;
    while a < |algos|
      invariant 0 <= a <= |algos|
      invariant entries == texts[..a]
    {
      var text := AlgoText(algos[a]);
      AlgoMemberText(algos, a);
      SliceSnoc(texts, a);
      entries := entries + [Q(Some(algos[a].name)) + ":" + text];
      a := a + 1;
    }
    assert texts[..a] == texts;
    body := CommaBefore(entries);
  }

  /** buildJson: the text the driver writes for one sample file is the rendering of the
      result document, so it carries that document's layout. */
  method BuildJson(sampleFile: string, samples: seq<CalibrationSample>, algos: seq<AlgoEntry>) returns (json: string)
    ensures json == Render(ResultDoc(sampleFile, samples, algos))
  {
    var file := Q(Some(sampleFile));
    var series := SeriesText(samples);
    var body := AlgorithmsText(algos);
    json := "{" + (Key("sampleFile") + file + "," + (Key("baseTs") + IntToString(BASE_TS) + ","
            + (Key("series") + ("[" + series + "]") + "," + (Key("algorithms") + ("{" + body + "}"))))) + "}";
    BuildShape(sampleFile, samples, algos, file, series, body);
  }
}
