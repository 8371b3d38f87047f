/**
 * Character and string helpers shared by the Java and Python parts of the model:
 * decimal printing and parsing (Java's Long/Integer parse and toString), Java `trim`,
 * Python `strip`, ASCII lower-casing, splitting on a separator and joining back,
 * prefix/suffix tests and lexicographic string order.
 */
module Text {
  import opened Wrappers

  // ---------------------------------------------------------------- digits

  predicate IsDigit(c: char) { '0' <= c <= '9' }

  predicate AllDigits(s: string) {
    forall i :: 0 <= i < |s| ==> IsDigit(s[i])
  }

  function DigitValue(c: char): nat
    requires IsDigit(c)
  {
    c as int - '0' as int
  }

  function DigitChar(d: nat): (c: char)
    requires d < 10
    ensures IsDigit(c) && DigitValue(c) == d
  {
    ('0' as int + d) as char
  }

  /** Value of a run of ASCII digits, most significant digit first. */
  function DigitsValue(s: string): nat
    requires AllDigits(s)
  {
    if |s| == 0 then 0 else 10 * DigitsValue(s[..|s| - 1]) + DigitValue(s[|s| - 1])
  }

  /** Decimal text of a natural number, without leading zeros. */
  function NatToString(n: nat): (s: string)
    ensures 1 <= |s| && AllDigits(s)
    ensures DigitsValue(s) == n
    ensures |s| > 1 ==> s[0] != '0'
  {
    if n < 10 then [DigitChar(n)]
    else
      var p := NatToString(n / 10);
      var s := p + [DigitChar(n % 10)];
      assert s[..|s| - 1] == p;
      s
  }

  /** Decimal text of an integer, as Java's `Long.toString` and `StringBuilder.append(long)` write it. */
  function IntToString(i: int): (s: string)
    ensures 1 <= |s|
    ensures i < 0 <==> s[0] == '-'
  {
    if i < 0 then "-" + NatToString(-i) else NatToString(i)
  }

  /** Every character of a printed integer is a digit or the leading minus sign. */
  lemma NumberChars(i: int)
    ensures forall k :: 0 <= k < |IntToString(i)| ==> IsDigit(IntToString(i)[k]) || (k == 0 && i < 0 && IntToString(i)[k] == '-')
  {
    var s := IntToString(i);
    if i < 0 {
      var d := NatToString(-i);
      assert s == "-" + d;
      assert forall k :: 1 <= k < |s| ==> s[k] == d[k - 1];
    }
  }

  lemma NoCommaInNumber(i: int)
    ensures ',' !in IntToString(i)
  {
    NumberChars(i);
  }

  // ---------------------------------------------------------------- parsing

  const INT_MIN: int := -0x8000_0000
  const INT_MAX: int := 0x7fff_ffff
  const LONG_MIN: int := -0x8000_0000_0000_0000
  const LONG_MAX: int := 0x7fff_ffff_ffff_ffff

  /** An optional sign followed by at least one ASCII digit and nothing else. */
  function ParseDecimal(s: string): Option<int> {
    if |s| > 0 && (s[0] == '-' || s[0] == '+') then
      if |s| > 1 && AllDigits(s[1..]) then
        var d: int := DigitsValue(s[1..]);
        Some(if s[0] == '-' then -d else d)
      else None
    else if |s| > 0 && AllDigits(s) then Some(DigitsValue(s))
    else None
  }

  /** Java's `Long.parseLong`: `None` where it throws NumberFormatException. */
  function ParseJavaLong(s: string): (r: Option<int>)
    ensures r.Some? ==> LONG_MIN <= r.value <= LONG_MAX
    ensures r.Some? ==> ParseDecimal(s) == r
    ensures ParseDecimal(s).Some? && LONG_MIN <= ParseDecimal(s).value <= LONG_MAX ==> r == ParseDecimal(s)
  {
    var v := ParseDecimal(s);
    if v.Some? && LONG_MIN <= v.value <= LONG_MAX then v else None
  }

  /** Java's `Integer.parseInt`: `None` where it throws NumberFormatException. */
  function ParseJavaInt(s: string): (r: Option<int>)
    ensures r.Some? ==> INT_MIN <= r.value <= INT_MAX
    ensures r.Some? ==> ParseDecimal(s) == r
    ensures ParseDecimal(s).Some? && INT_MIN <= ParseDecimal(s).value <= INT_MAX ==> r == ParseDecimal(s)
  {
    var v := ParseDecimal(s);
    if v.Some? && INT_MIN <= v.value <= INT_MAX then v else None
  }

  /** Printing an integer and parsing it back gives the integer. */
  lemma ParseIntToString(i: int)
    ensures ParseDecimal(IntToString(i)) == Some(i)
  {
    if i < 0 {
      var s := IntToString(i);
      assert s[1..] == NatToString(-i);
    }
  }

  lemma ParseJavaLongToString(i: int)
    requires LONG_MIN <= i <= LONG_MAX
    ensures ParseJavaLong(IntToString(i)) == Some(i)
  {
    ParseIntToString(i);
  }

  // ---------------------------------------------------------------- whitespace

  /** Characters Java's `String.trim` removes: every code point up to U+0020. */
  predicate IsJavaSpace(c: char) { c <= ' ' }

  /** Characters Python's `str.strip()` removes (those for which `str.isspace` holds). */
  predicate IsPySpace(c: char) {
    c == ' ' || '\t' <= c <= '\r' || '\U{1c}' <= c <= '\U{1f}' || c == '\U{85}' || c == '\U{a0}'
    || c == '\U{1680}' || '\U{2000}' <= c <= '\U{200a}' || c == '\U{2028}' || c == '\U{2029}'
    || c == '\U{202f}' || c == '\U{205f}' || c == '\U{3000}'
  }

  /** Number of leading characters of `s` satisfying `drop`. */
  function LeadingCount(s: string, drop: char -> bool): (n: nat)
    ensures n <= |s|
    ensures forall i :: 0 <= i < n ==> drop(s[i])
    ensures n < |s| ==> !drop(s[n])
  {
    if |s| > 0 && drop(s[0]) then 1 + LeadingCount(s[1..], drop) else 0
  }

  /** Number of trailing characters of `s` satisfying `drop`. */
  function TrailingCount(s: string, drop: char -> bool): (n: nat)
    ensures n <= |s|
    ensures forall i :: |s| - n <= i < |s| ==> drop(s[i])
    ensures n < |s| ==> !drop(s[|s| - n - 1])
  {
    if |s| > 0 && drop(s[|s| - 1]) then 1 + TrailingCount(s[..|s| - 1], drop) else 0
  }

  /** `s` without its leading and trailing characters satisfying `drop`. */
  function Strip(s: string, drop: char -> bool): (r: string)
    // what is left neither starts nor ends with a dropped character ...
    ensures |r| > 0 ==> !drop(r[0]) && !drop(r[|r| - 1])
    // ... and sits in `s` right after the leading run, with only dropped characters after it
    ensures var n := LeadingCount(s, drop);
            && n + |r| <= |s| && r == s[n..n + |r|]
            && forall k :: n + |r| <= k < |s| ==> drop(s[k])
  {
    var n := LeadingCount(s, drop);
    var a := s[n..];
    var m := TrailingCount(a, drop);
    var r := a[..|a| - m];
    assert r == s[n..n + |r|];
    assert forall k :: n + |r| <= k < |s| ==> s[k] == a[k - n];
    r
  }

  /** Java's `String.trim()`: drops every leading and trailing character up to U+0020. */
  function JavaTrim(s: string): (r: string)
    ensures |r| > 0 ==> !IsJavaSpace(r[0]) && !IsJavaSpace(r[|r| - 1])
    ensures var n := LeadingCount(s, IsJavaSpace);
            && n + |r| <= |s| && r == s[n..n + |r|]
            && forall k :: n + |r| <= k < |s| ==> IsJavaSpace(s[k])
  {
    Strip(s, IsJavaSpace)
  }

  /** Trimming a string that neither starts nor ends with a space changes nothing. */
  lemma TrimUnspaced(s: string)
    requires |s| > 0 && !IsJavaSpace(s[0]) && !IsJavaSpace(s[|s| - 1])
    ensures JavaTrim(s) == s
  {
    assert LeadingCount(s, IsJavaSpace) == 0;
    assert s[0..] == s;
    assert TrailingCount(s, IsJavaSpace) == 0;
  }

  /** A printed integer is its own trim. */
  lemma TrimNumber(i: int)
    ensures JavaTrim(IntToString(i)) == IntToString(i)
  {
    NumberChars(i);
    TrimUnspaced(IntToString(i));
  }

  /** Python's `str.strip()`. */
  function PyStrip(s: string): (r: string)
    ensures |r| > 0 ==> !IsPySpace(r[0]) && !IsPySpace(r[|r| - 1])
    ensures var n := LeadingCount(s, IsPySpace);
            && n + |r| <= |s| && r == s[n..n + |r|]
            && forall k :: n + |r| <= k < |s| ==> IsPySpace(s[k])
  {
    Strip(s, IsPySpace)
  }

  /** A string is blank for Python exactly when stripping leaves nothing. */
  lemma PyStripEmptyIffAllSpace(s: string)
    ensures PyStrip(s) == "" <==> forall i :: 0 <= i < |s| ==> IsPySpace(s[i])
  {
    var n := LeadingCount(s, IsPySpace);
    if n < |s| {
      var a := s[n..];
      var m := TrailingCount(a, IsPySpace);
      assert !IsPySpace(a[0]);
      assert m < |a|;
      assert |PyStrip(s)| == |a| - m > 0;
    }
  }

  // ---------------------------------------------------------------- case

  function LowerChar(c: char): char {
    if 'A' <= c <= 'Z' then (c as int + 32) as char else c
  }

  /** Lower-casing of ASCII letters; every other character is kept. */
  function LowerAscii(s: string): (r: string)
    ensures |r| == |s|
    ensures forall i :: 0 <= i < |s| ==> r[i] == LowerChar(s[i])
  {
    seq(|s|, i requires 0 <= i < |s| => LowerChar(s[i]))
  }

  // ---------------------------------------------------------------- affixes

  predicate StartsWith(s: string, p: string) {
    |p| <= |s| && s[..|p|] == p
  }

  predicate EndsWith(s: string, p: string) {
    |p| <= |s| && s[|s| - |p|..] == p
  }

  // ---------------------------------------------------------------- split / join

  /** All pieces of `s` between occurrences of `sep`, empty pieces included
      (Java's `split(",", -1)`). */
  function Split(s: string, sep: char): (parts: seq<string>)
    ensures |parts| >= 1
    ensures forall k :: 0 <= k < |parts| ==> sep !in parts[k]
  {
    if |s| == 0 then [""]
    else
      var rest := Split(s[1..], sep);
      if s[0] == sep then [""] + rest
      else [[s[0]] + rest[0]] + rest[1..]
  }

  /** The pieces separated by `sep`. */
  function Join(parts: seq<string>, sep: string): string {
    if |parts| == 0 then ""
    else if |parts| == 1 then parts[0]
    else parts[0] + sep + Join(parts[1..], sep)
  }

  lemma JoinCons(x: string, parts: seq<string>, sep: string)
    requires |parts| >= 1
    ensures Join([x] + parts, sep) == x + sep + Join(parts, sep)
  {
    assert ([x] + parts)[1..] == parts;
  }

  lemma Join4(a: string, b: string, c: string, d: string, sep: string)
    ensures Join([a, b, c, d], sep) == a + sep + (b + sep + (c + sep + d))
  {
    assert [a, b, c, d] == [a] + [b, c, d] && [b, c, d] == [b] + [c, d] && [c, d] == [c] + [d];
    JoinCons(a, [b, c, d], sep);
    JoinCons(b, [c, d], sep);
    JoinCons(c, [d], sep);
  }

  lemma Join5(a: string, b: string, c: string, d: string, e: string, sep: string)
    ensures Join([a, b, c, d, e], sep) == a + sep + (b + sep + (c + sep + (d + sep + e)))
  {
    assert [a, b, c, d, e] == [a] + [b, c, d, e];
    JoinCons(a, [b, c, d, e], sep);
    Join4(b, c, d, e, sep);
  }

  /** Appending one more part adds one separator and the part at the end. */
  lemma {:induction false} JoinSnoc(parts: seq<string>, x: string, sep: string)
    requires |parts| >= 1
    ensures Join(parts + [x], sep) == Join(parts, sep) + sep + x
    decreases |parts|
  {
    if |parts| == 1 {
      assert parts + [x] == [parts[0]] + [x];
      JoinCons(parts[0], [x], sep);
    } else {
      assert parts + [x] == [parts[0]] + (parts[1..] + [x]);
      JoinCons(parts[0], parts[1..] + [x], sep);
      JoinSnoc(parts[1..], x, sep);
      assert parts == [parts[0]] + parts[1..];
      JoinCons(parts[0], parts[1..], sep);
    }
  }

  /** Splitting and joining back with the same separator gives the input. */
  lemma {:induction false} JoinSplit(s: string, sep: char)
    ensures Join(Split(s, sep), [sep]) == s
  {
    if |s| > 0 {
      var rest := Split(s[1..], sep);
      JoinSplit(s[1..], sep);
      if s[0] == sep {
        assert s == [sep] + s[1..];
      } else {
        var parts := Split(s, sep);
        if |rest| == 1 {
          assert parts == [[s[0]] + rest[0]];
          assert s == [s[0]] + s[1..];
        } else {
          assert parts[1..] == rest[1..];
          assert Join(rest, [sep]) == rest[0] + [sep] + Join(rest[1..], [sep]);
          assert s == [s[0]] + s[1..];
        }
      }
    }
  }

  /** Joining pieces that do not contain the separator and splitting again gives the pieces. */
  lemma {:induction false} SplitJoin(parts: seq<string>, sep: char)
    requires |parts| >= 1
    requires forall k :: 0 <= k < |parts| ==> sep !in parts[k]
    ensures Split(Join(parts, [sep]), sep) == parts
  {
    if |parts| == 1 {
      SplitNoSep(parts[0], sep);
    } else {
      SplitJoin(parts[1..], sep);
      SplitPrefix(parts[0], sep, Join(parts[1..], [sep]));
      assert [parts[0]] + parts[1..] == parts;
    }
  }

  lemma {:induction false} SplitNoSep(s: string, sep: char)
    requires sep !in s
    ensures Split(s, sep) == [s]
  {
    if |s| > 0 {
      SplitNoSep(s[1..], sep);
      assert [s[0]] + s[1..] == s;
    }
  }

  lemma {:induction false} SplitPrefix(p: string, sep: char, t: string)
    requires sep !in p
    ensures Split(p + [sep] + t, sep) == [p] + Split(t, sep)
  {
    var s := p + [sep] + t;
    if |p| == 0 {
      assert s[1..] == t;
    } else {
      assert s[1..] == p[1..] + [sep] + t;
      SplitPrefix(p[1..], sep, t);
      assert [p[0]] + p[1..] == p;
    }
  }

  /** Java's `split(",")` (limit 0): trailing empty pieces are discarded, except that
      a string without any separator is returned whole. */
  function JavaSplit(s: string, sep: char): (parts: seq<string>)
    ensures |parts| <= |Split(s, sep)|
    ensures parts == Split(s, sep)[..|parts|]
  {
    if sep !in s then
      SplitNoSep(s, sep);
      [s]
    else DropTrailingEmpty(Split(s, sep))
  }

  function DropTrailingEmpty(parts: seq<string>): (r: seq<string>)
    ensures |r| <= |parts| && r == parts[..|r|]
    ensures |r| > 0 ==> r[|r| - 1] != ""
    ensures forall k :: |r| <= k < |parts| ==> parts[k] == ""
  {
    if |parts| > 0 && parts[|parts| - 1] == "" then DropTrailingEmpty(parts[..|parts| - 1]) else parts
  }

  // ---------------------------------------------------------------- replace / count

  /** Every occurrence of `c` replaced by `by` (Java's `String.replace` with a one-character target). */
  function ReplaceChar(s: string, c: char, repl: string): string {
    if |s| == 0 then ""
    else (if s[0] == c then repl else [s[0]]) + ReplaceChar(s[1..], c, repl)
  }

  lemma {:induction false} ReplaceCharAbsent(s: string, c: char, repl: string)
    requires c !in s
    ensures ReplaceChar(s, c, repl) == s
  {
    if |s| > 0 {
      ReplaceCharAbsent(s[1..], c, repl);
      assert [s[0]] + s[1..] == s;
    }
  }

  function CountChar(s: string, c: char): nat {
    if |s| == 0 then 0 else (if s[0] == c then 1 else 0) + CountChar(s[1..], c)
  }

  lemma {:induction false} CountCharAppend(a: string, b: string, c: char)
    ensures CountChar(a + b, c) == CountChar(a, c) + CountChar(b, c)
  {
    if |a| > 0 {
      assert (a + b)[1..] == a[1..] + b;
      CountCharAppend(a[1..], b, c);
    } else {
      assert a + b == b;
    }
  }

  lemma {:induction false} CountCharAbsent(s: string, c: char)
    requires c !in s
    ensures CountChar(s, c) == 0
  {
    if |s| > 0 {
      CountCharAbsent(s[1..], c);
    }
  }

  // ---------------------------------------------------------------- order

  /** Lexicographic order by character code, as Python compares `str` values. */
  predicate StrLe(a: string, b: string) {
    if |a| == 0 then true
    else if |b| == 0 then false
    else if a[0] != b[0] then a[0] < b[0]
    else StrLe(a[1..], b[1..])
  }

  lemma {:induction false} StrLeTotal(a: string, b: string)
    ensures StrLe(a, b) || StrLe(b, a)
  {
    if |a| > 0 && |b| > 0 && a[0] == b[0] {
      StrLeTotal(a[1..], b[1..]);
    }
  }

  lemma {:induction false} StrLeTrans(a: string, b: string, c: string)
    requires StrLe(a, b) && StrLe(b, c)
    ensures StrLe(a, c)
  {
    if |a| > 0 && |b| > 0 && |c| > 0 && a[0] == b[0] && b[0] == c[0] {
      StrLeTrans(a[1..], b[1..], c[1..]);
    }
  }
}
