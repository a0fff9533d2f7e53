/**
 * The Trans-Lux FairPlay MP-70 serial protocol: STX..ETX framing of a byte stream,
 * decoding of the clock ('C') and full-state ('H') packets, and the stateful parser
 * that keeps the last clock value between packets.
 */
module MP70 {
  import opened PyText

  const STX: byte := 0x02
  const ETX: byte := 0x03
  const MinPacketLength: nat := 80
  /** The type byte of a clock packet, 'C'. */
  const ClockType: byte := 0x43
  /** The type byte of a full-state packet, 'H'. */
  const ScoreType: byte := 0x48
  /** The sticky clock before any clock packet has been seen. */
  const InitialClock: string := "20:00"

  datatype GameData = GameData(
    homeScore: int,
    awayScore: int,
    period: string,
    clock: string,
    homePenalties: seq<int>,  // seconds remaining
    awayPenalties: seq<int>)
  {
    /** The dict handed to the event detector and the graphics client. */
    function ToDict(): (r: map<string, Json>)
      ensures r.Keys == {"home", "away", "period", "clock", "home_penalties", "away_penalties"}
      ensures r["home"].JInt? && r["away"].JInt? && r["period"].JStr? && r["clock"].JStr?
    {
      map[
        "home" := JInt(homeScore),
        "away" := JInt(awayScore),
        "period" := JStr(period),
        "clock" := JStr(clock),
        "home_penalties" := JInts(homePenalties),
        "away_penalties" := JInts(awayPenalties)]
    }
  }

  // ---------------------------------------------------------------- framing

  /** `buffer.index(x, from)`: the first position at or after `from` holding `x`, if any. */
  function Find(buf: seq<byte>, x: byte, from: nat): (r: Option<nat>)
    ensures r.None? <==> forall i :: from <= i < |buf| ==> buf[i] != x
    ensures r.Some? ==> from <= r.value < |buf| && buf[r.value] == x
    ensures r.Some? ==> forall i :: from <= i < r.value ==> buf[i] != x
    decreases |buf| - from
  {
    if from >= |buf| then None
    else if buf[from] == x then Some(from)
    else Find(buf, x, from + 1)
  }

  /** A complete frame: STX first, ETX last, and no other ETX. */
  predicate IsFrame(p: seq<byte>) {
    && |p| >= 2
    && p[0] == STX
    && p[|p| - 1] == ETX
    && forall i :: 0 <= i < |p| - 1 ==> p[i] != ETX
  }

  /** The buffer holds a complete frame: an STX, and an ETX at or after the first STX. */
  predicate HasFrame(buf: seq<byte>) {
    match Find(buf, STX, 0)
    case None => false
    case Some(start) => Find(buf, ETX, start).Some?
  }

  lemma NoMarkerNoFrame(buf: seq<byte>)
    ensures STX !in buf || ETX !in buf ==> !HasFrame(buf)
  {
    if STX !in buf {
      assert forall i :: 0 <= i < |buf| ==> buf[i] != STX;
    } else if ETX !in buf {
      assert forall i :: 0 <= i < |buf| ==> buf[i] != ETX;
    }
  }

  /** What `extract_packets` returns: the frames in stream order and the unconsumed rest. */
  function Extract(buf: seq<byte>): (r: (seq<seq<byte>>, seq<byte>))
    ensures !HasFrame(buf) ==> r == ([], buf)
    ensures HasFrame(buf) ==> |r.0| > 0
    decreases |buf|
  {
    match Find(buf, STX, 0)
    case None => ([], buf)
    case Some(start) =>
      match Find(buf, ETX, start)
      case None => ([], buf)
      case Some(end) =>
        var (more, rest) := Extract(buf[end + 1..]);
        ([buf[start..end + 1]] + more, rest)
  }

  /** One round of the extraction loop: the first STX, the first ETX after it, and the frame between. */
  lemma ExtractStep(buf: seq<byte>, start: nat, end: nat)
    requires Find(buf, STX, 0) == Some(start) && Find(buf, ETX, start) == Some(end)
    ensures IsFrame(buf[start..end + 1])
    ensures Extract(buf) == ([buf[start..end + 1]] + Extract(buf[end + 1..]).0, Extract(buf[end + 1..]).1)
  {
    var frame := buf[start..end + 1];
    forall i | 0 <= i < |frame| - 1 ensures frame[i] != ETX {
      assert frame[i] == buf[start + i];
    }
  }

  /** The first round of extraction on a buffer that holds a frame. */
  lemma FirstFrame(buf: seq<byte>) returns (start: nat, end: nat)
    requires HasFrame(buf)
    ensures Find(buf, STX, 0) == Some(start) && Find(buf, ETX, start) == Some(end)
    ensures start <= end < |buf|
    ensures forall j :: 0 <= j < start ==> buf[j] != STX
    ensures IsFrame(buf[start..end + 1])
    ensures Extract(buf) == ([buf[start..end + 1]] + Extract(buf[end + 1..]).0, Extract(buf[end + 1..]).1)
    ensures Skipped(buf) == [buf[..start]] + Skipped(buf[end + 1..])
  {
    start := Find(buf, STX, 0).value;
    end := Find(buf, ETX, start).value;
    ExtractStep(buf, start, end);
  }

  /** Every extracted packet is a complete frame. */
  lemma {:induction false} ExtractFramesAreFrames(buf: seq<byte>)
    ensures var frames := Extract(buf).0; forall i :: 0 <= i < |frames| ==> IsFrame(frames[i])
    decreases |buf|
  {
    if HasFrame(buf) {
      var start, end := FirstFrame(buf);
      var tail := buf[end + 1..];
      ExtractFramesAreFrames(tail);
      var frames := Extract(buf).0;
      assert frames == [buf[start..end + 1]] + Extract(tail).0;
      forall i | 0 <= i < |frames| ensures IsFrame(frames[i]) {
        if i > 0 { assert frames[i] == Extract(tail).0[i - 1]; }
      }
    }
  }

  /** The remainder is a suffix of the buffer that holds no complete frame. */
  lemma {:induction false} ExtractRest(buf: seq<byte>)
    ensures var rest := Extract(buf).1; !HasFrame(rest) && |rest| <= |buf| && rest == buf[|buf| - |rest|..]
    decreases |buf|
  {
    if HasFrame(buf) {
      var start, end := FirstFrame(buf);
      var tail := buf[end + 1..];
      ExtractRest(tail);
      var rest := Extract(tail).1;
      assert Extract(buf).1 == rest;
      SuffixOfSuffix(buf, end + 1, |rest|);
    } else {
      assert Extract(buf).1 == buf;
      assert buf[0..] == buf;
    }
  }

  lemma SuffixOfSuffix(buf: seq<byte>, k: nat, n: nat)
    requires k <= |buf| && n <= |buf| - k
    ensures buf[k..][|buf| - k - n..] == buf[|buf| - n..]
  {
  }

  /** The bytes `extract_packets` drops in front of each frame (everything before its STX). */
  ghost function Skipped(buf: seq<byte>): (r: seq<seq<byte>>)
    ensures |r| == |Extract(buf).0|
    decreases |buf|
  {
    match Find(buf, STX, 0)
    case None => []
    case Some(start) =>
      match Find(buf, ETX, start)
      case None => []
      case Some(end) => [buf[..start]] + Skipped(buf[end + 1..])
  }

  /** Dropped bytes and frames, alternating, in stream order. */
  function Weave(skipped: seq<seq<byte>>, frames: seq<seq<byte>>): seq<byte>
    requires |skipped| == |frames|
  {
    if skipped == [] then [] else skipped[0] + frames[0] + Weave(skipped[1..], frames[1..])
  }

  /** Nothing is lost or reordered: the buffer is, in order, each dropped stretch followed by
      its frame, then the remainder. */
  lemma {:induction false} ExtractTiles(buf: seq<byte>)
    ensures buf == Weave(Skipped(buf), Extract(buf).0) + Extract(buf).1
    decreases |buf|
  {
    if HasFrame(buf) {
      var start, end := FirstFrame(buf);
      var pre, frame, tail := buf[..start], buf[start..end + 1], buf[end + 1..];
      ExtractTiles(tail);
      var w, rest := Weave(Skipped(tail), Extract(tail).0), Extract(tail).1;
      WeaveCons(pre, frame, Skipped(tail), Extract(tail).0);
      assert Weave(Skipped(buf), Extract(buf).0) == pre + frame + w;
      assert Extract(buf).1 == rest;
      Cut3(buf, start, end + 1);
      Assoc(pre + frame, w, rest);
    } else {
      assert Skipped(buf) == [];
    }
  }

  lemma Cut3(buf: seq<byte>, i: nat, j: nat)
    requires i <= j <= |buf|
    ensures buf[..i] + buf[i..j] + buf[j..] == buf
  {
  }

  lemma Assoc(a: seq<byte>, b: seq<byte>, c: seq<byte>)
    ensures a + b + c == a + (b + c)
  {
  }

  lemma WeaveCons(pre: seq<byte>, frame: seq<byte>, skipped: seq<seq<byte>>, frames: seq<seq<byte>>)
    requires |skipped| == |frames|
    ensures Weave([pre] + skipped, [frame] + frames) == pre + frame + Weave(skipped, frames)
  {
    assert ([pre] + skipped)[1..] == skipped;
    assert ([frame] + frames)[1..] == frames;
  }

  /** A dropped stretch never holds an STX: only bytes before a frame's start are discarded. */
  lemma {:induction false} SkippedHasNoStart(buf: seq<byte>)
    ensures var skipped := Skipped(buf); forall i :: 0 <= i < |skipped| ==> STX !in skipped[i]
    decreases |buf|
  {
    if HasFrame(buf) {
      var start, end := FirstFrame(buf);
      var tail := buf[end + 1..];
      SkippedHasNoStart(tail);
      var skipped := Skipped(buf);
      forall i | 0 <= i < |skipped| ensures STX !in skipped[i] {
        if i > 0 {
          assert skipped[i] == Skipped(tail)[i - 1];
        } else {
          assert forall j :: 0 <= j < start ==> buf[..start][j] == buf[j];
        }
      }
    }
  }

  /** A complete frame followed by more bytes: the frame comes out first. */
  lemma ExtractFrameFirst(frame: seq<byte>, tail: seq<byte>)
    requires IsFrame(frame)
    ensures Extract(frame + tail) == ([frame] + Extract(tail).0, Extract(tail).1)
  {
    var buf := frame + tail;
    assert buf[0] == STX;
    assert Find(buf, STX, 0) == Some(0);
    var e := Find(buf, ETX, 0);
    assert buf[|frame| - 1] == ETX;
    assert e.Some?;
    assert forall i :: 0 <= i < |frame| - 1 ==> buf[i] != ETX;
    assert e.value == |frame| - 1;
    assert buf[0..|frame|] == frame;
    assert buf[|frame|..] == tail;
  }

  /** Frames written back to back come out as exactly those frames, with nothing left over. */
  lemma {:induction false} ExtractConcatenation(frames: seq<seq<byte>>)
    requires forall i :: 0 <= i < |frames| ==> IsFrame(frames[i])
    ensures Extract(Concat(frames)) == (frames, [])
  {
    if frames != [] {
      ExtractConcatenation(frames[1..]);
      ExtractFrameFirst(frames[0], Concat(frames[1..]));
      assert [frames[0]] + frames[1..] == frames;
    }
  }

  function Concat(frames: seq<seq<byte>>): seq<byte> {
    if frames == [] then [] else frames[0] + Concat(frames[1..])
  }

  // ---------------------------------------------------------------- fields

  /** A byte that can occur neither in whitespace nor in text `int()` accepts. */
  predicate IsStray(b: byte) {
    b < 128 && !IsSpace(b as char) && !IsNumeral(b as char)
  }

  predicate IsBlank(raw: seq<byte>) {
    forall i :: 0 <= i < |raw| ==> raw[i] < 128 && IsSpace(raw[i] as char)
  }

  predicate IsDigitByte(b: byte) {
    '0' as int <= b as int <= '9' as int
  }

  function DigitOf(b: byte): nat
    requires IsDigitByte(b)
  {
    b as int - '0' as int
  }

  /** `_parse_mmss`: a four-byte MMSS time field as seconds; None when the field is
      blank, not ASCII, or not numbers. */
  function ParseMmss(raw: seq<byte>): (r: Option<int>)
    ensures !IsAscii(raw) ==> r == None
    ensures r.Some? ==> Strip(AsciiDecode(raw).value) != []
  {
    match AsciiDecode(raw)
    case None => None
    case Some(s) =>
      var text := Strip(s);
      if text == [] then None
      else
        var cut := if |text| < 2 then |text| else 2;  // text[:2] and text[2:]
        match (PyInt(text[..cut]), PyInt(text[cut..]))
        case (Some(minutes), Some(seconds)) => Some(minutes * 60 + seconds)
        case _ => None
  }

  /** An all-whitespace time field is an empty penalty slot. */
  lemma ParseMmssBlank(raw: seq<byte>)
    requires IsBlank(raw)
    ensures ParseMmss(raw) == None
  {
    assert IsAscii(raw);
    var s := AsciiDecode(raw).value;
    StripBlank(s);
  }

  /** A character that is neither whitespace nor part of a number makes the time field unreadable. */
  lemma ParseMmssStray(raw: seq<byte>, i: nat)
    requires i < |raw| && IsStray(raw[i])
    ensures ParseMmss(raw) == None
  {
    if !IsAscii(raw) { return; }
    var s := AsciiDecode(raw).value;
    var c := s[i];
    StripKeeps(s, i);
    var text := Strip(s);
    var j := i - StripStart(s);
    assert text[j] == c;
    CutRejects(text, j);
    ParseMmssPartFails(raw, s, if |text| < 2 then |text| else 2);
  }

  /** A character `int()` neither skips nor reads, anywhere in the stripped text, lands in the
      minutes or in the seconds part and makes that part fail. */
  lemma CutRejects(text: string, j: nat)
    requires j < |text| && !IsIntSpace(text[j]) && !IsNumeral(text[j])
    ensures var cut := if |text| < 2 then |text| else 2;
      PyInt(text[..cut]).None? || PyInt(text[cut..]).None?
  {
    var c := text[j];
    var cut := if |text| < 2 then |text| else 2;
    if j < cut {
      var part := text[..cut];
      assert part[j] == c;
      PyIntStray(part, j);
    } else {
      var part := text[cut..];
      assert part[j - cut] == c;
      PyIntStray(part, j - cut);
    }
  }

  /** An information separator (0x1C..0x1F) that `strip()` removes at the ends of a field
      but `int()` refuses inside a number. */
  predicate IsSeparator(b: byte) {
    28 <= b as int <= 31
  }

  /** A separator with non-whitespace on both sides survives `strip()` and makes the time
      field unreadable. */
  lemma ParseMmssSeparator(raw: seq<byte>, lo: nat, i: nat, hi: nat)
    requires lo < i < hi < |raw| && IsSeparator(raw[i])
    requires raw[lo] < 128 && !IsSpace(raw[lo] as char)
    requires raw[hi] < 128 && !IsSpace(raw[hi] as char)
    ensures ParseMmss(raw) == None
  {
    if !IsAscii(raw) { return; }
    var s := AsciiDecode(raw).value;
    StripKeeps(s, lo);
    StripKeeps(s, hi);
    var text := Strip(s);
    var j := i - StripStart(s);
    assert text[j] == s[i];
    CutRejects(text, j);
    ParseMmssPartFails(raw, s, if |text| < 2 then |text| else 2);
  }

  /** If either part of the cut text is no number, the time field is unreadable. */
  lemma ParseMmssPartFails(raw: seq<byte>, s: string, cut: nat)
    requires AsciiDecode(raw) == Some(s) && Strip(s) != []
    requires cut == if |Strip(s)| < 2 then |Strip(s)| else 2
    requires PyInt(Strip(s)[..cut]).None? || PyInt(Strip(s)[cut..]).None?
    ensures ParseMmss(raw) == None
  {
  }

  /** The seconds in MM minutes and SS seconds, given the four digits of MMSS. */
  function MmssValue(m1: nat, m0: nat, s1: nat, s0: nat): int {
    TwoDigits(m1, m0) * 60 + TwoDigits(s1, s0)
  }

  /** Four ASCII digits are cut after the second: `int(text[:2]) * 60 + int(text[2:])`. */
  lemma ParseMmssSplit(raw: seq<byte>) returns (m: string, n: string)
    requires |raw| == 4 && forall i :: 0 <= i < 4 ==> IsDigitByte(raw[i])
    ensures |m| == 2 && |n| == 2
    ensures IsDigit(m[0]) && IsDigit(m[1]) && IsDigit(n[0]) && IsDigit(n[1])
    ensures DigitValue(m[0]) == DigitOf(raw[0]) && DigitValue(m[1]) == DigitOf(raw[1])
    ensures DigitValue(n[0]) == DigitOf(raw[2]) && DigitValue(n[1]) == DigitOf(raw[3])
    ensures ParseMmss(raw) == Some(DigitsValue(m) * 60 + DigitsValue(n))
  {
    var s := AsciiDecode(raw).value;
    assert forall i :: 0 <= i < 4 ==> IsDigit(s[i]) && DigitValue(s[i]) == DigitOf(raw[i]);
    StripNoop(s);
    m := s[..2];
    n := s[2..];
    assert m[0] == s[0] && m[1] == s[1] && n[0] == s[2] && n[1] == s[3];
    PyIntDigits(m);
    PyIntDigits(n);
    ParseMmssCut(raw, s, DigitsValue(m), DigitsValue(n));
  }

  lemma ParseMmssCut(raw: seq<byte>, s: string, minutes: int, seconds: int)
    requires AsciiDecode(raw) == Some(s) && Strip(s) == s && |s| == 4
    requires PyInt(s[..2]) == Some(minutes) && PyInt(s[2..]) == Some(seconds)
    ensures ParseMmss(raw) == Some(minutes * 60 + seconds)
  {
  }

  /** Four digits MMSS read as MM minutes and SS seconds. */
  lemma ParseMmssDigits(raw: seq<byte>)
    requires |raw| == 4 && forall i :: 0 <= i < 4 ==> IsDigitByte(raw[i])
    ensures ParseMmss(raw) == Some(MmssValue(DigitOf(raw[0]), DigitOf(raw[1]), DigitOf(raw[2]), DigitOf(raw[3])))
  {
    var m, n := ParseMmssSplit(raw);
    TwoDigitsValue(m);
    TwoDigitsValue(n);
  }

  /** `_format_clock`: a four-byte clock field as "MM:SS"; None when it is not ASCII or has
      fewer than four characters once whitespace is stripped. The digits are not checked. */
  function FormatClockField(raw: seq<byte>): (r: Option<string>)
    ensures |raw| == 4 ==>
      (r.Some? <==> IsAscii(raw) && !IsSpace(raw[0] as char) && !IsSpace(raw[3] as char))
    ensures |raw| == 4 && r.Some? ==>
      r.value == [raw[0] as char, raw[1] as char, ':', raw[2] as char, raw[3] as char]
  {
    match AsciiDecode(raw)
    case None => None
    case Some(s) =>
      var text := Strip(s);
      StripWhole(s);
      if text == [] || |text| < 4 then None
      else
        Some(text[..|text| - 2] + ":" + text[|text| - 2..])
  }

  /** `int(field.decode("ascii").strip() or "0")` for a score field. */
  function ScoreField(raw: seq<byte>): (r: Option<int>)
    ensures !IsAscii(raw) ==> r == None
  {
    match AsciiDecode(raw)
    case None => None
    case Some(s) =>
      var text := Strip(s);
      if text == [] then Some(0) else PyInt(text)
  }

  /** A blank score field reads as zero. */
  lemma ScoreFieldBlank(raw: seq<byte>)
    requires IsBlank(raw)
    ensures ScoreField(raw) == Some(0)
  {
    assert IsAscii(raw);
    StripBlank(AsciiDecode(raw).value);
  }

  /** A character that is neither whitespace nor part of a number makes the score unreadable. */
  lemma ScoreFieldStray(raw: seq<byte>, i: nat)
    requires i < |raw| && IsStray(raw[i])
    ensures ScoreField(raw) == None
  {
    if !IsAscii(raw) { return; }
    var s := AsciiDecode(raw).value;
    StripKeeps(s, i);
    var text := Strip(s);
    var j := i - StripStart(s);
    PyIntStray(text, j);
  }

  /** A separator with non-whitespace on both sides survives `strip()` and makes the score
      unreadable. */
  lemma ScoreFieldSeparator(raw: seq<byte>, lo: nat, i: nat, hi: nat)
    requires lo < i < hi < |raw| && IsSeparator(raw[i])
    requires raw[lo] < 128 && !IsSpace(raw[lo] as char)
    requires raw[hi] < 128 && !IsSpace(raw[hi] as char)
    ensures ScoreField(raw) == None
  {
    if !IsAscii(raw) { return; }
    var s := AsciiDecode(raw).value;
    StripKeeps(s, lo);
    StripKeeps(s, hi);
    var text := Strip(s);
    var j := i - StripStart(s);
    assert text[j] == s[i];
    PyIntStray(text, j);
  }

  /** `field.decode("ascii").strip() or "1"` for the one-byte period field. */
  function PeriodField(raw: seq<byte>): (r: Option<string>)
    requires |raw| == 1
    ensures raw[0] >= 128 ==> r == None
    ensures raw[0] < 128 && IsSpace(raw[0] as char) ==> r == Some("1")
    ensures raw[0] < 128 && !IsSpace(raw[0] as char) ==> r == Some([raw[0] as char])
  {
    match AsciiDecode(raw)
    case None => None
    case Some(s) =>
      var text := Strip(s);
      assert s == [raw[0] as char];
      StripOne(s[0]);
      if text == [] then Some("1") else Some(text)
  }

  /** The values of the fields that parsed, in field order (`[p for p in ... if p is not None]`). */
  function Present(fields: seq<Option<int>>): (r: seq<int>)
    ensures |r| <= |fields|
    ensures forall i :: 0 <= i < |fields| && fields[i].Some? ==> fields[i].value in r
    ensures (forall i :: 0 <= i < |fields| ==> fields[i].Some?) ==> |r| == |fields|
  {
    if fields == [] then []
    else (if fields[0].Some? then [fields[0].value] else []) + Present(fields[1..])
  }

  /** Only parsed values appear: every entry of the list is the value of some slot. */
  lemma {:induction false} PresentOnlyParsed(fields: seq<Option<int>>)
    ensures forall k :: 0 <= k < |Present(fields)| ==> Some(Present(fields)[k]) in fields
    decreases |fields|
  {
    if fields != [] {
      var tail := fields[1..];
      PresentOnlyParsed(tail);
      var head: seq<int> := if fields[0].Some? then [fields[0].value] else [];
      var rest := Present(tail);
      var r := Present(fields);
      assert r == head + rest;
      forall k | 0 <= k < |r| ensures Some(r[k]) in fields {
        if k >= |head| {
          assert r[k] == rest[k - |head|];
          var j :| 0 <= j < |tail| && tail[j] == Some(rest[k - |head|]);
          assert fields[j + 1] == tail[j];
        }
      }
    }
  }

  /** Absent slots are dropped and present ones keep their order: the parsed values of two
      stretches of slots, joined. */
  lemma {:induction false} PresentConcat(a: seq<Option<int>>, b: seq<Option<int>>)
    ensures Present(a + b) == Present(a) + Present(b)
    decreases |a|
  {
    if a == [] {
      assert a + b == b;
    } else {
      PresentConcat(a[1..], b);
      var head: seq<int> := if a[0].Some? then [a[0].value] else [];
      assert (a + b)[0] == a[0] && (a + b)[1..] == a[1..] + b;
      assert Present(a + b) == head + (Present(a[1..]) + Present(b));
      assert Present(a) == head + Present(a[1..]);
    }
  }

  // ---------------------------------------------------------------- packets

  /** The `GameData` that `parse` returns for a packet, given the sticky clock before it. */
  function Decoded(packet: seq<byte>, clock: string): (r: Option<GameData>)
    ensures |packet| < MinPacketLength ==> r == None
    ensures |packet| >= MinPacketLength && packet[1] != ScoreType ==> r == None
    ensures r.Some? ==> r.value.clock == clock
    ensures r.Some? ==> |r.value.homePenalties| <= 2 && |r.value.awayPenalties| <= 2
    ensures |packet| >= MinPacketLength && packet[1] == ScoreType ==>
      (r.Some? <==> ScoreField(packet[13..15]).Some? && ScoreField(packet[29..31]).Some?
                    && packet[45] < 128)
  {
    if |packet| < MinPacketLength then None
    else if packet[1] == ScoreType then
      match (ScoreField(packet[13..15]), ScoreField(packet[29..31]), PeriodField(packet[45..46]))
      case (Some(home), Some(away), Some(period)) =>
        Some(GameData(
          home, away, period, clock,
          Present([ParseMmss(packet[52..56]), ParseMmss(packet[57..61])]),
          Present([ParseMmss(packet[62..66]), ParseMmss(packet[67..71])])))
      case _ => None
    else None
  }

  /** A full-state packet whose score and period fields read decodes to those fields and
      its penalty slots. */
  lemma DecodedFields(packet: seq<byte>, clock: string, home: int, away: int, period: string)
    requires |packet| >= MinPacketLength && packet[1] == ScoreType
    requires ScoreField(packet[13..15]) == Some(home) && ScoreField(packet[29..31]) == Some(away)
    requires PeriodField(packet[45..46]) == Some(period)
    ensures Decoded(packet, clock) == Some(GameData(home, away, period, clock,
      Present([ParseMmss(packet[52..56]), ParseMmss(packet[57..61])]),
      Present([ParseMmss(packet[62..66]), ParseMmss(packet[67..71])])))
  {
  }

  /** The sticky clock after `parse` has seen a packet. */
  function NextClock(packet: seq<byte>, clock: string): (r: string)
    ensures r != clock ==> |packet| >= MinPacketLength && packet[1] == ClockType
    ensures |packet| >= MinPacketLength && packet[1] == ClockType && FormatClockField(packet[2..6]).Some? ==>
      r == FormatClockField(packet[2..6]).value
    ensures |packet| >= MinPacketLength && packet[1] == ClockType && FormatClockField(packet[2..6]).None? ==>
      r == clock
  {
    if |packet| >= MinPacketLength && packet[1] == ClockType then
      match FormatClockField(packet[2..6])
      case Some(text) => text
      case None => clock
    else clock
  }

  /** Only a clock packet moves the sticky clock. */
  lemma KeepsClock(packet: seq<byte>, clock: string)
    requires |packet| < MinPacketLength || packet[1] != ClockType
    ensures NextClock(packet, clock) == clock
  {
  }

  /** A clock packet never yields game data, and a full-state packet never moves the clock. */
  lemma PacketKindsDisjoint(packet: seq<byte>, clock: string)
    ensures Decoded(packet, clock).Some? ==> NextClock(packet, clock) == clock
    ensures NextClock(packet, clock) != clock ==> Decoded(packet, clock).None?
  {
  }

  /** A score field holding a character that is neither whitespace nor part of a number
      drops the whole full-state packet. */
  lemma BadScoreDropsPacket(packet: seq<byte>, clock: string, i: nat)
    requires |packet| >= MinPacketLength && packet[1] == ScoreType
    requires 13 <= i < 15 || 29 <= i < 31
    requires IsStray(packet[i])
    ensures Decoded(packet, clock) == None
  {
    if i < 15 {
      ScoreFieldStray(packet[13..15], i - 13);
    } else {
      ScoreFieldStray(packet[29..31], i - 29);
    }
  }

  // ---------------------------------------------------------------- the parser

  lemma AppendFrame(packets: seq<seq<byte>>, frame: seq<byte>, more: seq<seq<byte>>)
    ensures packets + ([frame] + more) == (packets + [frame]) + more
  {
  }

  /** `MP70Parser`: the stateful decoder that owns the sticky clock. */
  class Parser {
    var lastClock: string

    constructor ()
      ensures lastClock == InitialClock
    {
      lastClock := InitialClock;
    }

    /** The `last_clock` setter. */
    method SetLastClock(value: string)
      modifies this
      ensures lastClock == value
    {
      lastClock := value;
    }

    /** `parse`: decodes one packet; a clock packet updates the sticky clock and yields nothing. */
    method Parse(packet: seq<byte>) returns (data: Option<GameData>)
      modifies this
      ensures data == Decoded(packet, old(lastClock))
      ensures lastClock == NextClock(packet, old(lastClock))
    {
      if |packet| < MinPacketLength {
        return None;
      }
      var packetType := packet[1];
      if packetType == ClockType {
        var clock := FormatClockField(packet[2..6]);
        if clock.Some? {
          lastClock := clock.value;
        }
        return None;
      }
      if packetType == ScoreType {
        var home := ScoreField(packet[13..15]);
        var away := ScoreField(packet[29..31]);
        var period := PeriodField(packet[45..46]);
        if home.None? || away.None? || period.None? {
          return None;
        }
        var homePenalties := Present([ParseMmss(packet[52..56]), ParseMmss(packet[57..61])]);
        var awayPenalties := Present([ParseMmss(packet[62..66]), ParseMmss(packet[67..71])]);
        return Some(GameData(home.value, away.value, period.value, lastClock, homePenalties, awayPenalties));
      }
      return None;
    }

    /** `extract_packets`: cuts every complete frame out of the buffer, in order. */
    method ExtractPackets(buffer: seq<byte>) returns (packets: seq<seq<byte>>, rest: seq<byte>)
      ensures (packets, rest) == Extract(buffer)
    {
      packets := [];
      rest := buffer;
      assert packets + Extract(rest).0 == Extract(rest).0;
      while STX in rest && ETX in rest
        invariant Extract(buffer).0 == packets + Extract(rest).0
        invariant Extract(buffer).1 == Extract(rest).1
        decreases |rest|
      {
        var start := Find(rest, STX, 0).value;
        var end := Find(rest, ETX, start);
        if end.None? {
          assert !HasFrame(rest);
          break;
        }
        ExtractStep(rest, start, end.value);
        var frame := rest[start..end.value + 1];
        var tail := rest[end.value + 1..];
        AppendFrame(packets, frame, Extract(tail).0);
        packets := packets + [frame];
        rest := tail;
      }
      NoMarkerNoFrame(rest);
      assert Extract(rest).0 == [];
      assert packets + [] == packets;
    }
  }
}
