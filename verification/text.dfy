/**
 * The Python text primitives the scoreboard pipeline relies on, over ASCII text:
 * `bytes.decode("ascii")`, `str.encode("ascii")`, `str.strip()`, `int(str)` and the
 * integer formats `str(n)`, `f"{n:2d}"` and `f"{n:02d}"`.
 */
module PyText {

  newtype byte = b: int | 0 <= b < 256

  datatype Option<+T> = None | Some(value: T)

  /** A value stored in one of the Python dicts the pipeline builds. */
  datatype Json =
    | JInt(i: int)
    | JStr(s: string)
    | JBool(b: bool)
    | JNull
    | JInts(xs: seq<int>)
    | JObject(fields: map<string, Json>)

  // ---------------------------------------------------------------- ASCII

  predicate IsAscii(bs: seq<byte>) {
    forall i :: 0 <= i < |bs| ==> bs[i] < 128
  }

  predicate IsAsciiText(s: string) {
    forall i :: 0 <= i < |s| ==> s[i] as int < 128
  }

  /** ASCII text joined to ASCII text is ASCII. */
  lemma AsciiJoin(a: string, b: string)
    requires IsAsciiText(a) && IsAsciiText(b)
    ensures IsAsciiText(a + b)
  {
    forall i | 0 <= i < |a + b| ensures (a + b)[i] as int < 128 {
      if i >= |a| { assert (a + b)[i] == b[i - |a|]; }
    }
  }

  /** `bs.decode("ascii")`; None stands for the UnicodeDecodeError raised on a byte above 127. */
  function AsciiDecode(bs: seq<byte>): (r: Option<string>)
    ensures r.Some? <==> IsAscii(bs)
    ensures r.Some? ==> |r.value| == |bs| && forall i :: 0 <= i < |bs| ==> r.value[i] as int == bs[i] as int
  {
    if IsAscii(bs) then Some(seq(|bs|, i requires 0 <= i < |bs| => bs[i] as char)) else None
  }

  /** `s.encode("ascii")` of text that holds only ASCII characters. */
  function AsciiEncode(s: string): (r: seq<byte>)
    requires IsAsciiText(s)
    ensures AsciiDecode(r) == Some(s)
  {
    var r := seq(|s|, i requires 0 <= i < |s| => s[i] as int as byte);
    assert AsciiDecode(r).value == s;
    r
  }

  // ---------------------------------------------------------------- strip

  /** Python's `str.isspace` on ASCII: tab, line feed, vertical tab, form feed, carriage return,
      the four information separators 0x1C..0x1F, and space. */
  predicate IsSpace(c: char) {
    9 <= c as int <= 13 || 28 <= c as int <= 32
  }

  /** The index of the first non-whitespace character of `s` at or after `i` (or |s|). */
  function SkipSpaces(s: string, i: nat): (k: nat)
    requires i <= |s|
    ensures i <= k <= |s|
    ensures forall j :: i <= j < k ==> IsSpace(s[j])
    ensures k == |s| || !IsSpace(s[k])
    decreases |s| - i
  {
    if i < |s| && IsSpace(s[i]) then SkipSpaces(s, i + 1) else i
  }

  /** The index just past the last non-whitespace character of `s[lo..hi]` (or lo). */
  function SkipSpacesBack(s: string, lo: nat, hi: nat): (k: nat)
    requires lo <= hi <= |s|
    ensures lo <= k <= hi
    ensures forall j :: k <= j < hi ==> IsSpace(s[j])
    ensures k == lo || !IsSpace(s[k - 1])
    decreases hi
  {
    if hi > lo && IsSpace(s[hi - 1]) then SkipSpacesBack(s, lo, hi - 1) else hi
  }

  /** Where `s.strip()` starts: the first non-whitespace position. */
  function StripStart(s: string): nat {
    SkipSpaces(s, 0)
  }

  /** Where `s.strip()` ends: just past the last non-whitespace position. */
  function StripEnd(s: string): (k: nat)
    ensures StripStart(s) <= k <= |s|
  {
    SkipSpacesBack(s, StripStart(s), |s|)
  }

  /** `s.strip()`: the text without its leading and trailing whitespace. */
  function Strip(s: string): (r: string)
    ensures |r| <= |s|
    ensures r == [] || (!IsSpace(r[0]) && !IsSpace(r[|r| - 1]))
  {
    s[StripStart(s)..StripEnd(s)]
  }

  /** Every non-whitespace character of `s` survives `strip()`, at its place in the kept slice. */
  lemma StripKeeps(s: string, i: nat)
    requires i < |s| && !IsSpace(s[i])
    ensures StripStart(s) <= i < StripEnd(s)
    ensures Strip(s)[i - StripStart(s)] == s[i]
  {
  }

  /** `strip()` leaves nothing exactly when the text is all whitespace. */
  lemma StripBlank(s: string)
    ensures Strip(s) == [] <==> forall i :: 0 <= i < |s| ==> IsSpace(s[i])
  {
  }

  /** Text that neither starts nor ends with whitespace is left as it is. */
  lemma StripNoop(s: string)
    requires s == [] || (!IsSpace(s[0]) && !IsSpace(s[|s| - 1]))
    ensures Strip(s) == s
  {
    if s != [] {
      StripKeeps(s, 0);
      StripKeeps(s, |s| - 1);
    }
  }

  /** `strip()` keeps the whole text exactly when it neither starts nor ends with whitespace. */
  lemma StripWhole(s: string)
    ensures |Strip(s)| == |s| <==> s == [] || (!IsSpace(s[0]) && !IsSpace(s[|s| - 1]))
    ensures |Strip(s)| == |s| ==> Strip(s) == s
  {
    if s == [] || (!IsSpace(s[0]) && !IsSpace(s[|s| - 1])) {
      StripNoop(s);
    } else if IsSpace(s[0]) {
      assert StripStart(s) >= 1;
    } else {
      assert StripEnd(s) <= |s| - 1;
    }
  }

  /** A single character is kept by `strip()` unless it is whitespace. */
  lemma StripOne(c: char)
    ensures Strip([c]) == if IsSpace(c) then [] else [c]
  {
    if !IsSpace(c) { StripNoop([c]); }
  }

  /** Stripping twice is stripping once. */
  lemma StripIdempotent(s: string)
    ensures Strip(Strip(s)) == Strip(s)
  {
    StripNoop(Strip(s));
  }

  // ---------------------------------------------------------------- int()

  /** The whitespace `int()` skips around a number (C's `isspace`): tab, line feed, vertical tab,
      form feed, carriage return and space. Unlike `str.strip()` it keeps 0x1C..0x1F. */
  predicate IsIntSpace(c: char) {
    9 <= c as int <= 13 || c == ' '
  }

  /** The index of the first character at or after `i` that `int()` does not skip (or |s|). */
  function SkipIntSpaces(s: string, i: nat): (k: nat)
    requires i <= |s|
    ensures i <= k <= |s|
    ensures forall j :: i <= j < k ==> IsIntSpace(s[j])
    ensures k == |s| || !IsIntSpace(s[k])
    decreases |s| - i
  {
    if i < |s| && IsIntSpace(s[i]) then SkipIntSpaces(s, i + 1) else i
  }

  /** The index just past the last character of `s[lo..hi]` that `int()` does not skip (or lo). */
  function SkipIntSpacesBack(s: string, lo: nat, hi: nat): (k: nat)
    requires lo <= hi <= |s|
    ensures lo <= k <= hi
    ensures forall j :: k <= j < hi ==> IsIntSpace(s[j])
    ensures k == lo || !IsIntSpace(s[k - 1])
    decreases hi
  {
    if hi > lo && IsIntSpace(s[hi - 1]) then SkipIntSpacesBack(s, lo, hi - 1) else hi
  }

  /** Where the number read by `int()` starts. */
  function IntStart(s: string): nat {
    SkipIntSpaces(s, 0)
  }

  /** Where the number read by `int()` ends. */
  function IntEnd(s: string): (k: nat)
    ensures IntStart(s) <= k <= |s|
  {
    SkipIntSpacesBack(s, IntStart(s), |s|)
  }

  /** The text `int()` reads as a number: `s` without the whitespace it skips at either end. */
  function IntStrip(s: string): (r: string)
    ensures |r| <= |s|
    ensures r == [] || (!IsIntSpace(r[0]) && !IsIntSpace(r[|r| - 1]))
  {
    s[IntStart(s)..IntEnd(s)]
  }

  /** Every character `int()` does not skip is read, at its place in the kept slice. */
  lemma IntStripKeeps(s: string, i: nat)
    requires i < |s| && !IsIntSpace(s[i])
    ensures IntStart(s) <= i < IntEnd(s)
    ensures IntStrip(s)[i - IntStart(s)] == s[i]
  {
  }

  /** Text that neither starts nor ends with whitespace `int()` skips is read whole. */
  lemma IntStripNoop(s: string)
    requires s == [] || (!IsIntSpace(s[0]) && !IsIntSpace(s[|s| - 1]))
    ensures IntStrip(s) == s
  {
    if s != [] {
      IntStripKeeps(s, 0);
      IntStripKeeps(s, |s| - 1);
    }
  }

  predicate IsDigit(c: char) {
    '0' <= c <= '9'
  }

  function DigitValue(c: char): (d: nat)
    requires IsDigit(c)
    ensures d < 10
  {
    c as int - '0' as int
  }

  function DigitChar(d: nat): (c: char)
    requires d < 10
    ensures IsDigit(c) && DigitValue(c) == d
  {
    ('0' as int + d) as char
  }

  /** The digits of an integer literal as Python's `int()` accepts them after the sign:
      ASCII digits, with single underscores allowed between two digits. */
  predicate IsDigitRun(t: string) {
    && |t| > 0
    && IsDigit(t[0])
    && IsDigit(t[|t| - 1])
    && (forall i :: 0 <= i < |t| ==> IsDigit(t[i]) || t[i] == '_')
    && (forall i :: 0 <= i < |t| - 1 ==> t[i] == '_' ==> t[i + 1] != '_')
  }

  /** The value of a run of digits and underscores, read in base 10, underscores ignored. */
  function DigitsValue(t: string): nat
    requires forall i :: 0 <= i < |t| ==> IsDigit(t[i]) || t[i] == '_'
  {
    if t == [] then 0
    else if t[|t| - 1] == '_' then DigitsValue(t[..|t| - 1])
    else DigitsValue(t[..|t| - 1]) * 10 + DigitValue(t[|t| - 1])
  }

  /** The number written with the digits `hi` and `lo`. */
  function TwoDigits(hi: nat, lo: nat): nat {
    hi * 10 + lo
  }

  /** Characters that can occur in text Python's `int()` accepts: digits, signs, underscores. */
  predicate IsNumeral(c: char) {
    IsDigit(c) || c == '+' || c == '-' || c == '_'
  }

  /** `int(s)` in base 10 on ASCII text: whitespace in the sense of `IsIntSpace` at either end,
      an optional sign, then digits with single underscores between them. None stands for the
      ValueError it raises. */
  function PyInt(s: string): (r: Option<int>)
    ensures r.Some? ==> IntStrip(s) != []
  {
    var t := IntStrip(s);
    if |t| > 0 && (t[0] == '+' || t[0] == '-') then
      if IsDigitRun(t[1..]) then
        var v: int := DigitsValue(t[1..]);
        Some(if t[0] == '-' then -v else v)
      else None
    else if IsDigitRun(t) then
      Some(DigitsValue(t))
    else None
  }

  /** `int()` refuses text whose number part holds a character that is neither a digit,
      a sign nor an underscore. */
  lemma PyIntRejects(s: string, i: nat)
    requires i < |IntStrip(s)| && !IsNumeral(IntStrip(s)[i])
    ensures PyInt(s) == None
  {
    var t := IntStrip(s);
    if |t| > 0 && (t[0] == '+' || t[0] == '-') {
      assert i > 0;
      assert t[1..][i - 1] == t[i];
    }
  }

  /** `int()` of a non-empty run of plain digits is their value. */
  lemma PyIntDigits(s: string)
    requires s != [] && forall i :: 0 <= i < |s| ==> IsDigit(s[i])
    ensures PyInt(s) == Some(DigitsValue(s))
  {
    IntStripNoop(s);
  }

  /** `int()` refuses text holding, anywhere, a character that is neither whitespace it skips
      nor a digit, sign or underscore; the separators 0x1C..0x1F are such characters. */
  lemma PyIntStray(s: string, i: nat)
    requires i < |s| && !IsIntSpace(s[i]) && !IsNumeral(s[i])
    ensures PyInt(s) == None
  {
    IntStripKeeps(s, i);
    PyIntRejects(s, i - IntStart(s));
  }

  /** A separator at the end of a number is removed by `strip()` but refused by `int()`. */
  lemma StripWiderThanInt(d: char)
    requires IsDigit(d)
    ensures Strip([d, 28 as char]) == [d]
    ensures PyInt([d, 28 as char]) == None
  {
    var s := [d, 28 as char];
    StripKeeps(s, 0);
    PyIntStray(s, 1);
  }

  /** Two digits read as a number. */
  lemma TwoDigitsValue(t: string)
    requires |t| == 2 && IsDigit(t[0]) && IsDigit(t[1])
    ensures DigitsValue(t) == TwoDigits(DigitValue(t[0]), DigitValue(t[1]))
  {
    var head := t[..1];
    assert head[..0] == [] && head[0] == t[0];
    assert DigitsValue(head) == DigitValue(t[0]);
  }

  // ---------------------------------------------------------------- formatting

  /** The decimal digits of a natural number, without leading zeros. */
  function Decimal(n: nat): (r: string)
    ensures |r| > 0 && forall i :: 0 <= i < |r| ==> IsDigit(r[i])
    ensures DigitsValue(r) == n
    ensures |r| == 1 <==> n < 10
    ensures |r| == 2 <==> 10 <= n < 100
  {
    if n < 10 then
      [DigitChar(n)]
    else
      var prefix := Decimal(n / 10);
      var r := prefix + [DigitChar(n % 10)];
      assert r[..|r| - 1] == prefix;
      r
  }

  /** `str(n)`. */
  function IntToString(n: int): (r: string)
    ensures |r| > 0 && (IsDigit(r[0]) || r[0] == '-')
    ensures forall i :: 0 < i < |r| ==> IsDigit(r[i])
    ensures IsAsciiText(r)
    ensures 0 <= n < 10 ==> r == [DigitChar(n)]
  {
    if n < 0 then "-" + Decimal(-n) else Decimal(n)
  }

  /** `f"{n:2d}"`: right-aligned in two columns, padded with a space. */
  function SpacePad2(n: int): (r: string)
    ensures IsAsciiText(r)
    ensures forall i :: 0 <= i < |r| ==> IsDigit(r[i]) || r[i] == '-' || r[i] == ' '
  {
    var s := IntToString(n);
    if |s| < 2 then " " + s else s
  }

  /** Left-pads a run of digits with zeros to `width` columns, as `f"{n:0Wd}"` does. */
  function PadZeros(s: string, width: nat): (r: string)
    requires forall i :: 0 <= i < |s| ==> IsDigit(s[i])
    ensures |r| == if |s| >= width then |s| else width
    ensures forall i :: 0 <= i < |r| ==> IsDigit(r[i])
    ensures DigitsValue(r) == DigitsValue(s)
    decreases width - |s|
  {
    if |s| >= width then s
    else
      LeadingZero(s);
      PadZeros("0" + s, width)
  }

  /** `f"{n:0Wd}"` for a natural number. */
  function ZeroPadded(n: nat, width: nat): (r: string)
    ensures forall i :: 0 <= i < |r| ==> IsDigit(r[i])
    ensures DigitsValue(r) == n
  {
    PadZeros(Decimal(n), width)
  }

  /** `f"{n:02d}"`: zero-padded to two columns after the sign. */
  function ZeroPad2(n: int): (r: string)
    ensures IsAsciiText(r)
  {
    if n < 0 then IntToString(n) else ZeroPadded(n, 2)
  }

  // ---------------------------------------------------------------- lemmas

  lemma {:induction false} LeadingZero(s: string)
    requires forall i :: 0 <= i < |s| ==> IsDigit(s[i])
    ensures DigitsValue("0" + s) == DigitsValue(s)
    decreases |s|
  {
    if s != [] {
      var s' := s[..|s| - 1];
      assert ("0" + s)[..|s|] == "0" + s';
      LeadingZero(s');
    }
  }

  /** A two-column natural number is its own two digits. */
  lemma ZeroPad2Digits(n: int)
    requires 0 <= n < 100
    ensures |ZeroPad2(n)| == 2
    ensures IsDigit(ZeroPad2(n)[0]) && IsDigit(ZeroPad2(n)[1])
    ensures TwoDigits(DigitValue(ZeroPad2(n)[0]), DigitValue(ZeroPad2(n)[1])) == n
  {
    var r := ZeroPadded(n, 2);
    assert |Decimal(n)| <= 2;
    TwoDigitsValue(r);
  }

  /** The score layout `f"{n:2d}"` reads back through `int(text.strip() or "0")`. */
  lemma SpacePad2RoundTrip(n: int)
    requires -9 <= n <= 99
    ensures |SpacePad2(n)| == 2
    ensures Strip(SpacePad2(n)) != []
    ensures PyInt(Strip(SpacePad2(n))) == Some(n)
  {
    var s := SpacePad2(n);
    if n < 0 {
      var d := Decimal(-n);
      assert s == ['-', d[0]];
      StripNoop(s);
      IntStripNoop(s);
      OneDigit(d);
      assert s[1..] == d;
    } else if n < 10 {
      var d := Decimal(n);
      assert s == [' ', d[0]];
      StripSpaceThen(d[0]);
      StripNoop(d);
      OneDigit(d);
      PyIntDigits(d);
    } else {
      StripNoop(s);
      PyIntDigits(s);
    }
  }

  lemma OneDigit(d: string)
    requires |d| == 1 && IsDigit(d[0])
    ensures DigitsValue(d) == DigitValue(d[0])
  {
    assert d[..0] == [];
  }

  /** A space followed by a character that is not whitespace strips to that character. */
  lemma StripSpaceThen(c: char)
    requires !IsSpace(c)
    ensures Strip([' ', c]) == [c]
  {
    var s := [' ', c];
    assert SkipSpaces(s, 0) == 1;
    assert SkipSpacesBack(s, 1, 2) == 2;
  }
}
