/** Local pack filenames: source, parties, common name and count, read from the right. */
module TurnkeyFilename {
  import opened Wrappers
  import opened Bytes
  import opened Filename
  import Decimal
  import Utf8

  const MINUS: byte := 45
  const PLUS: byte := 43
  const ZERO: byte := 48

  // ---------------------------------------------------------------- signed 32-bit counts

  /** Octets as characters of the same number. */
  function Chars(b: bytes): (s: string)
    ensures |s| == |b|
  {
    seq(|b|, i requires 0 <= i < |b| => b[i] as char)
  }

  function InRange(n: int): Option<i32> {
    if -0x8000_0000 <= n < 0x8000_0000 then Some(n) else None
  }

  /** `str::parse::<i32>`: an optional sign and at least one digit, within range. */
  function ParseI32(b: bytes): Option<i32> {
    var signed := b != [] && (b[0] == MINUS || b[0] == PLUS);
    var digits := Chars(if signed then b[1..] else b);
    if digits == "" || !Decimal.AllDigits(digits) then None
    else if signed && b[0] == MINUS then InRange(-(Decimal.Value(digits) as int))
    else InRange(Decimal.Value(digits))
  }

  function Magnitude(n: int): nat { if n < 0 then -n else n }

  function RenderI32(n: i32): bytes {
    (if n < 0 then [MINUS] else []) + Utf8.Encode(Decimal.Render(Magnitude(n)))
  }

  /** No plus sign, no leading zero, no negative zero. */
  predicate CanonicalCount(b: bytes) {
    b != [] && (b == [ZERO] || if b[0] == MINUS then |b| > 1 && b[1] != ZERO else b[0] != PLUS && b[0] != ZERO)
  }

  lemma CharsOfDigits(s: string)
    requires Decimal.AllDigits(s)
    ensures Chars(Utf8.Encode(s)) == s
  {
    assert Utf8.IsAscii(s);
    Utf8.EncodeAscii(s);
  }

  lemma EncodeChars(b: bytes)
    requires Decimal.AllDigits(Chars(b))
    ensures Utf8.Encode(Chars(b)) == b
  {
    assert Utf8.IsAscii(Chars(b));
    Utf8.EncodeAscii(Chars(b));
  }

  lemma DigitsHaveNoSign(s: string)
    requires Decimal.AllDigits(s) && s != ""
    ensures var b := Utf8.Encode(s); b != [] && ZERO <= b[0] < 58 && UNDERSCORE !in b && b[0] == s[0] as int
  {
    assert Utf8.IsAscii(s);
    Utf8.EncodeAscii(s);
  }

  lemma ParseRendered(n: i32)
    ensures ParseI32(RenderI32(n)) == Some(n) && UNDERSCORE !in RenderI32(n)
  {
    var magnitude := Magnitude(n);
    var s := Decimal.Render(magnitude);
    Decimal.RenderValue(magnitude);
    CharsOfDigits(s);
    DigitsHaveNoSign(s);
    hide Utf8.Encode, Decimal.Render, Chars, Decimal.Value;
    if n < 0 {
      assert RenderI32(n)[1..] == Utf8.Encode(s);
    } else {
      assert RenderI32(n) == Utf8.Encode(s);
    }
  }

  lemma OnlyZero(tail: bytes)
    ensures Chars(tail) == "0" <==> tail == [ZERO]
    ensures tail == [ZERO] ==> Decimal.Value(Chars(tail)) == 0
  {
    assert "0"[..0] == "";
    if Chars(tail) == "0" {
      assert Chars(tail)[0] == '0' && tail == [tail[0]];
    }
  }

  /** A count is written back unchanged exactly when it is canonical. */
  lemma CountExactly(b: bytes)
    requires ParseI32(b).Some?
    ensures RenderI32(ParseI32(b).value) == b <==> CanonicalCount(b)
  {
    hide Utf8.Encode, Decimal.Render, Chars, Decimal.Value;
    var signed := b[0] == MINUS || b[0] == PLUS;
    var tail := if signed then b[1..] else b;
    var digits := Chars(tail);
    EncodeChars(tail);
    DigitsHaveNoSign(digits);
    Decimal.ValueRender(digits);
    var n := ParseI32(b).value;
    var magnitude := Decimal.Value(digits);
    var s := Decimal.Render(magnitude);
    DigitsHaveNoSign(s);
    if Utf8.Encode(s) == tail {
      Utf8.EncodeInjective(s, digits);
    }
    OnlyZero(tail);
    if b[0] == MINUS {
      NegativeExactly(b, n, s, digits);
    } else {
      assert RenderI32(n) == Utf8.Encode(s);
    }
  }

  lemma NegativeExactly(b: bytes, n: i32, s: string, digits: string)
    requires b != [] && b[0] == MINUS && b[1..] == Utf8.Encode(digits) && n <= 0
    requires Decimal.AllDigits(digits) && digits != "" && Magnitude(n) == Decimal.Value(digits)
    requires s == Decimal.Render(Magnitude(n))
    ensures RenderI32(n) == b <==> CanonicalCount(b)
  {
    var magnitude := Magnitude(n);
    Decimal.ValueRender(digits);
    DigitsHaveNoSign(digits);
    DigitsHaveNoSign(s);
    assert b == [MINUS] + Utf8.Encode(digits);
    if digits[0] == '0' && magnitude > 0 {
      assert s[0] != '0';
    }
    if digits == "0" {
      assert "0"[..0] == "" && magnitude == 0;
    }
    hide Utf8.Encode, Decimal.Render, Decimal.Value;
    if magnitude > 0 {
      assert RenderI32(n)[1..] == Utf8.Encode(s);
      if RenderI32(n) == b {
        Utf8.EncodeInjective(s, digits);
      }
    } else {
      assert RenderI32(n) == Utf8.Encode(s);
    }
  }

  // ---------------------------------------------------------------- splitting from the right

  /** The position of the last `c`, or the length when there is none. */
  function LastIndexOf(s: bytes, c: byte): (n: nat)
    ensures n <= |s|
    ensures n < |s| ==> s[n] == c && c !in s[n + 1..]
    ensures n == |s| ==> c !in s
    decreases |s|
  {
    if s == [] then 0
    else
      var last := |s| - 1;
      if s[last] == c then last
      else
        var n := LastIndexOf(s[..last], c);
        assert s == s[..last] + [s[last]];
        if n < last then
          assert s[n + 1..] == s[..last][n + 1..] + [s[last]];
          n
        else |s|
  }

  /** What follows the last underscore, and what precedes it. */
  function CutLast(s: bytes): (r: Option<(bytes, bytes)>)
    ensures r.Some? ==> s == r.value.0 + [UNDERSCORE] + r.value.1 && UNDERSCORE !in r.value.1
    ensures r.None? <==> UNDERSCORE !in s
  {
    var n := LastIndexOf(s, UNDERSCORE);
    if n == |s| then None else Some((s[..n], s[n + 1..]))
  }

  lemma CutLastInverts(before: bytes, after: bytes)
    requires UNDERSCORE !in after
    ensures CutLast(before + [UNDERSCORE] + after) == Some((before, after))
  {
    var s := before + [UNDERSCORE] + after;
    assert s[|before|] == UNDERSCORE;
    var n := LastIndexOf(s, UNDERSCORE);
    assert forall i :: n < i < |s| ==> s[n + 1..][i - n - 1] == s[i];
    assert forall i :: |before| < i < |s| ==> s[i] == after[i - |before| - 1];
    assert n == |before|;
    assert s[..|before|] == before && s[|before| + 1..] == after;
    hide LastIndexOf;
  }

  function ParsePack(value: bytes): Result<PackFilename, FilenameError> {
    match CutLast(value)
    case None => Failure(InvalidPackFilename)
    case Some((s1, count)) =>
    match CutLast(s1)
    case None => Failure(InvalidPackFilename)
    case Some((s2, common)) =>
    match CutLast(s2)
    case None => Failure(InvalidPackFilename)
    case Some((s3, toParty)) =>
    match CutLast(s3)
    case None => Failure(InvalidPackFilename)
    case Some((sourceName, fromParty)) => BuildPack(sourceName, fromParty, toParty, common, count)
  }

  function BuildPack(sourceName: bytes, fromParty: bytes, toParty: bytes, common: bytes, count: bytes)
      : Result<PackFilename, FilenameError> {
    if sourceName == [] then Failure(InvalidPackFilename)
    else
      var packCount := ParseI32(count);
      if packCount.None? then Failure(InvalidPackCount)
      else
        var commonName :- ParseCommon(common);
        Success(PackFilename(sourceName, fromParty, toParty, commonName, packCount.value))
  }

  function Joined(sourceName: bytes, fromParty: bytes, toParty: bytes, common: bytes, count: bytes): bytes {
    sourceName + [UNDERSCORE] + fromParty + [UNDERSCORE] + toParty + [UNDERSCORE] + common + [UNDERSCORE] + count
  }

  function RenderPack(v: PackFilename): bytes {
    Joined(v.sourceName, v.fromParty, v.toParty, RenderCommon(v.commonName), RenderI32(v.packCount))
  }

  function RemoteFilename(v: PackFilename): bytes { RenderCommon(v.commonName) }

  /** The fields a parsed filename has; only the source name may hold underscores. */
  predicate ValidPack(v: PackFilename) {
    && v.sourceName != [] && UNDERSCORE !in v.fromParty && UNDERSCORE !in v.toParty
    && ValidCommon(v.commonName) && UNDERSCORE !in RenderCommon(v.commonName)
  }

  lemma ParseJoined(sourceName: bytes, fromParty: bytes, toParty: bytes, common: bytes, count: bytes)
    requires UNDERSCORE !in fromParty && UNDERSCORE !in toParty && UNDERSCORE !in common && UNDERSCORE !in count
    ensures ParsePack(Joined(sourceName, fromParty, toParty, common, count)) ==
            BuildPack(sourceName, fromParty, toParty, common, count)
  {
    var s3 := sourceName + [UNDERSCORE] + fromParty;
    var s2 := s3 + [UNDERSCORE] + toParty;
    var s1 := s2 + [UNDERSCORE] + common;
    CutLastInverts(s1, count);
    CutLastInverts(s2, common);
    CutLastInverts(s3, toParty);
    CutLastInverts(sourceName, fromParty);
    hide CutLast, BuildPack;
  }

  /** The count text of a filename: what follows its last underscore. */
  function CountText(s: bytes): bytes {
    s[if LastIndexOf(s, UNDERSCORE) < |s| then LastIndexOf(s, UNDERSCORE) + 1 else |s|..]
  }

  lemma ParsedParts(s: bytes) returns (common: bytes, count: bytes)
    requires ParsePack(s).Success?
    ensures var v := ParsePack(s).value;
            && s == Joined(v.sourceName, v.fromParty, v.toParty, common, count) && count == CountText(s)
            && ParseCommon(common) == Success(v.commonName) && ParseI32(count) == Some(v.packCount)
            && v.sourceName != [] && UNDERSCORE !in v.fromParty && UNDERSCORE !in v.toParty && UNDERSCORE !in common
  {
    var (s1, c) := CutLast(s).value;
    count := c;
    assert count == CountText(s);
    var (s2, d) := CutLast(s1).value;
    common := d;
    hide CutLast, ParseCommon, ParseI32, CountText;
  }

  // ---------------------------------------------------------------- main results

  /** Parsing returns a rendered filename exactly when its fields are those of a parsed one. */
  lemma ParseInvertsPackExactly(v: PackFilename)
    ensures ParsePack(RenderPack(v)) == Success(v) <==> ValidPack(v)
  {
    hide ParsePack, Joined, RenderI32, ParseI32, RenderCommon, ParseCommon, ValidCommon;
    if ValidPack(v) {
      ParseRendered(v.packCount);
      ParseInvertsCommonExactly(v.commonName);
      ParseJoined(v.sourceName, v.fromParty, v.toParty, RenderCommon(v.commonName), RenderI32(v.packCount));
    }
    if ParsePack(RenderPack(v)) == Success(v) {
      ParsedIsValid(RenderPack(v));
    }
  }

  lemma ParsedIsValid(s: bytes)
    requires ParsePack(s).Success?
    ensures ValidPack(ParsePack(s).value)
  {
    var common, count := ParsedParts(s);
    RenderInvertsCommon(common);
    hide ParsePack, ParseCommon, RenderCommon, ValidCommon, Joined;
  }

  /** Whatever underscores the source name holds, a parsed filename survives rendering and parsing. */
  lemma ParsedPackSurvives(s: bytes)
    ensures ParsePack(s).Success? ==> ParsePack(RenderPack(ParsePack(s).value)) == ParsePack(s)
  {
    if ParsePack(s).Success? {
      ParsedIsValid(s);
      ParseInvertsPackExactly(ParsePack(s).value);
    }
  }

  /** Rendering gives the text back exactly when the count was written canonically. */
  lemma RenderInvertsPackExactly(s: bytes)
    ensures ParsePack(s).Success? ==> (RenderPack(ParsePack(s).value) == s <==> CanonicalCount(CountText(s)))
  {
    if ParsePack(s).Success? {
      RenderedParts(s);
    }
  }

  lemma RenderedParts(s: bytes)
    requires ParsePack(s).Success?
    ensures RenderPack(ParsePack(s).value) == s <==> CanonicalCount(CountText(s))
  {
    var common, count := ParsedParts(s);
    var v := ParsePack(s).value;
    RenderInvertsCommon(common);
    CountExactly(count);
    hide ParsePack, ParseCommon, RenderCommon, ValidCommon, ParseI32, RenderI32, CanonicalCount, CountText;
    var head := v.sourceName + [UNDERSCORE] + v.fromParty + [UNDERSCORE] + v.toParty + [UNDERSCORE]
                + common + [UNDERSCORE];
    assert s == head + count && RenderPack(v) == head + RenderI32(v.packCount);
    assert s[|head|..] == count && RenderPack(v)[|head|..] == RenderI32(v.packCount);
  }

  /** The remote name is the common name alone, its five fields joined by hyphens. */
  lemma RemoteNameFields(v: PackFilename)
    ensures var c := v.commonName;
            RemoteFilename(v) ==
            c.migVersion + [45] + c.messageType + [45] + c.date + [45] + c.time + [45] + c.uuid
  {
    var c := v.commonName;
    FiveJoined(c.migVersion, c.messageType, c.date, c.time, c.uuid);
  }

  // ---------------------------------------------------------------- refusals

  /** What a text of at least five sections is answered, section by section. */
  lemma SectionsAnswered(sourceName: bytes, fromParty: bytes, toParty: bytes, common: bytes, count: bytes)
    requires UNDERSCORE !in fromParty && UNDERSCORE !in toParty && UNDERSCORE !in common && UNDERSCORE !in count
    ensures var r := ParsePack(sourceName + [95] + fromParty + [95] + toParty + [95] + common + [95] + count);
            var counted := sourceName != [] && ParseI32(count).Some?;
            && (r == Failure(InvalidPackFilename) <==> sourceName == [])
            && (r == Failure(InvalidPackCount) <==> sourceName != [] && ParseI32(count).None?)
            && (counted && ParseCommon(common).Failure? ==> r == Failure(ParseCommon(common).error))
            && (counted && ParseCommon(common).Success? ==>
                  r == Success(PackFilename(sourceName, fromParty, toParty, ParseCommon(common).value,
                                            ParseI32(count).value)))
  {
    hide ParseI32, ParsePack;
    ParseJoined(sourceName, fromParty, toParty, common, count);
    CommonErrors(common);
    hide ParseCommon;
  }

  lemma CommonErrors(s: bytes)
    ensures ParseCommon(s).Failure? ==>
              ParseCommon(s).error != InvalidPackFilename && ParseCommon(s).error != InvalidPackCount
  {
    hide RenderCommon;
  }

  predicate Sections(s: bytes, sourceName: bytes, fromParty: bytes, toParty: bytes, common: bytes, count: bytes) {
    && s == sourceName + [95] + fromParty + [95] + toParty + [95] + common + [95] + count
    && 95 !in fromParty && 95 !in toParty && 95 !in common && 95 !in count
  }

  /** A text of fewer sections is refused as no filename. */
  lemma TooFewSections(s: bytes)
    ensures ParsePack(s) == Failure(InvalidPackFilename) || exists a, f, t, c, n :: Sections(s, a, f, t, c, n)
  {
    if CutLast(s).Some? {
      var (s1, n) := CutLast(s).value;
      if CutLast(s1).Some? {
        var (s2, c) := CutLast(s1).value;
        if CutLast(s2).Some? {
          var (s3, t) := CutLast(s2).value;
          if CutLast(s3).Some? {
            var (a, f) := CutLast(s3).value;
            assert Sections(s, a, f, t, c, n);
          }
        }
      }
    }
  }
}
