/** Base64 of RFC 4648, section 4, with padding and without stray bits. */
module Base64 {
  import opened Wrappers
  import opened Bytes

  function Digit(n: int): char
    requires 0 <= n < 64
  {
    if n < 26 then ('A' as int + n) as char
    else if n < 52 then ('a' as int + (n - 26)) as char
    else if n < 62 then ('0' as int + (n - 52)) as char
    else if n == 62 then '+' else '/'
  }

  /** The alphabet of table 1: capital letters, small letters and figures in their order, plus and slash. */
  lemma Alphabet()
    ensures [Digit(0), Digit(25), Digit(26), Digit(51), Digit(52), Digit(61), Digit(62), Digit(63)] == "AZaz09+/"
    ensures forall n :: 0 <= n < 61 && n != 25 && n != 51 ==> Digit(n + 1) as int == Digit(n) as int + 1
  {
  }

  function DigitValue(c: char): (r: Option<nat>)
    ensures forall n :: 0 <= n < 64 ==> (r == Some(n) <==> c == Digit(n))
    ensures r.Some? ==> r.value < 64
  {
    if 'A' <= c <= 'Z' then Some(c as int - 'A' as int)
    else if 'a' <= c <= 'z' then Some(c as int - 'a' as int + 26)
    else if '0' <= c <= '9' then Some(c as int - '0' as int + 52)
    else if c == '+' then Some(62)
    else if c == '/' then Some(63)
    else None
  }

  /** Four characters for up to three octets. */
  function Group(b: bytes): (s: string)
    requires 1 <= |b| <= 3
    ensures |s| == 4
  {
    if |b| == 1 then [Digit(b[0] / 4), Digit(b[0] % 4 * 16), '=', '=']
    else if |b| == 2 then [Digit(b[0] / 4), Digit(b[0] % 4 * 16 + b[1] / 16), Digit(b[1] % 16 * 4), '=']
    else [Digit(b[0] / 4), Digit(b[0] % 4 * 16 + b[1] / 16), Digit(b[1] % 16 * 4 + b[2] / 64), Digit(b[2] % 64)]
  }

  function Encode(b: bytes): (s: string)
    ensures |s| == 4 * ((|b| + 2) / 3)
  {
    if b == [] then ""
    else if |b| <= 3 then Group(b)
    else Group(b[..3]) + Encode(b[3..])
  }

  /** The octets of one group; only the last group may be padded. */
  function Ungroup(s: string, last: bool): (r: Option<bytes>)
    requires |s| == 4
    ensures r.Some? ==> 1 <= |r.value| <= 3 && (|r.value| < 3 ==> last)
  {
    var v0 :- DigitValue(s[0]);
    var v1 :- DigitValue(s[1]);
    if s[2] == '=' then
      if last && s[3] == '=' && v1 % 16 == 0 then Some([v0 * 4 + v1 / 16]) else None
    else
      var v2 :- DigitValue(s[2]);
      if s[3] == '=' then
        if last && v2 % 4 == 0 then Some([v0 * 4 + v1 / 16, v1 % 16 * 16 + v2 / 4]) else None
      else
        var v3 :- DigitValue(s[3]);
        Some([v0 * 4 + v1 / 16, v1 % 16 * 16 + v2 / 4, v2 % 4 * 64 + v3])
  }

  function Decode(s: string): Option<bytes> {
    if s == "" then Some([])
    else if |s| < 4 then None
    else
      var first :- Ungroup(s[..4], |s| == 4);
      var rest :- Decode(s[4..]);
      Some(first + rest)
  }

  /** The octets recombined from the six-bit values they were split into. */
  lemma Rejoined(a: byte, b: byte, c: byte)
    ensures var (v0, v1, v2, v3) := (a / 4, a % 4 * 16 + b / 16, b % 16 * 4 + c / 64, c % 64);
            && 0 <= v0 < 64 && 0 <= v1 < 64 && 0 <= v2 < 64 && 0 <= v3 < 64
            && v0 * 4 + v1 / 16 == a && v1 % 16 * 16 + v2 / 4 == b && v2 % 4 * 64 + v3 == c
  {
  }

  lemma DigitIsNotPadding(n: int)
    requires 0 <= n < 64
    ensures Digit(n) != '='
  {
  }

  lemma UngroupInverts(b: bytes, last: bool)
    requires 1 <= |b| <= 3 && (|b| < 3 ==> last)
    ensures Ungroup(Group(b), last) == Some(b)
  {
    hide Digit, DigitValue;
    var b1, b2 := if |b| > 1 then b[1] else 0, if |b| > 2 then b[2] else 0;
    Rejoined(b[0], b1, b2);
    DigitIsNotPadding(b1 % 16 * 4 + b2 / 64);
    DigitIsNotPadding(b2 % 64);
    if |b| == 1 {
      assert b == [b[0]];
    } else if |b| == 2 {
      assert b == [b[0], b[1]];
    } else {
      assert b == [b[0], b[1], b[2]];
    }
  }

  /** The six-bit values recombined from the octets they were packed into. */
  lemma Repacked(v0: int, v1: int, v2: int, v3: int)
    requires 0 <= v0 < 64 && 0 <= v1 < 64 && 0 <= v2 < 64 && 0 <= v3 < 64
    ensures var a, b, c := v0 * 4 + v1 / 16, v1 % 16 * 16 + v2 / 4, v2 % 4 * 64 + v3;
            && 0 <= a < 256 && 0 <= b < 256 && 0 <= c < 256
            && a / 4 == v0 && a % 4 * 16 + b / 16 == v1 && b % 16 * 4 + c / 64 == v2 && c % 64 == v3
            && a % 4 == v1 / 16 && b % 16 == v2 / 4
  {
  }

  /** Regrouping the octets of recombined digits. */
  lemma Regroup(v0: int, v1: int, v2: int, v3: int)
    requires 0 <= v0 < 64 && 0 <= v1 < 64 && 0 <= v2 < 64 && 0 <= v3 < 64
    ensures var a, b, c := v0 * 4 + v1 / 16, v1 % 16 * 16 + v2 / 4, v2 % 4 * 64 + v3;
            && 0 <= a < 256 && 0 <= b < 256 && 0 <= c < 256
            && (v1 % 16 == 0 ==> Group([a]) == [Digit(v0), Digit(v1), '=', '='])
            && (v2 % 4 == 0 ==> Group([a, b]) == [Digit(v0), Digit(v1), Digit(v2), '='])
            && Group([a, b, c]) == [Digit(v0), Digit(v1), Digit(v2), Digit(v3)]
  {
    hide Digit;
    Repacked(v0, v1, v2, v3);
  }

  lemma GroupInverts(s: string, last: bool)
    requires |s| == 4 && Ungroup(s, last).Some?
    ensures Group(Ungroup(s, last).value) == s
  {
    hide DigitValue, Digit, Group;
    var v0, v1 := DigitValue(s[0]).value, DigitValue(s[1]).value;
    var v2 := if s[2] == '=' then 0 else DigitValue(s[2]).value;
    var v3 := if s[3] == '=' then 0 else DigitValue(s[3]).value;
    Regroup(v0, v1, v2, v3);
    assert s[0] == Digit(v0) && s[1] == Digit(v1);
    assert s[2] == '=' || s[2] == Digit(v2);
    assert s[3] == '=' || s[3] == Digit(v3);
    assert s == [s[0], s[1], s[2], s[3]];
    var r := Ungroup(s, last).value;
    if s[2] == '=' {
      assert r == [v0 * 4 + v1 / 16];
    } else if s[3] == '=' {
      assert r == [v0 * 4 + v1 / 16, v1 % 16 * 16 + v2 / 4];
    } else {
      assert r == [v0 * 4 + v1 / 16, v1 % 16 * 16 + v2 / 4, v2 % 4 * 64 + v3];
    }
  }

  lemma {:induction false} DecodeInverts(b: bytes)
    ensures Decode(Encode(b)) == Some(b)
    decreases |b|
  {
    hide Group, Ungroup;
    if b == [] {
    } else if |b| <= 3 {
      UngroupInverts(b, true);
      assert Group(b)[..4] == Group(b) && Group(b)[4..] == "";
      assert b + [] == b;
    } else {
      var s := Encode(b);
      assert s[..4] == Group(b[..3]) && s[4..] == Encode(b[3..]);
      UngroupInverts(b[..3], |s| == 4);
      DecodeInverts(b[3..]);
      assert b[..3] + b[3..] == b;
    }
  }

  /** The decoder accepts exactly what the encoder writes. */
  lemma {:induction false} DecodeExact(s: string, b: bytes)
    ensures Decode(s) == Some(b) <==> s == Encode(b)
    decreases |s|
  {
    hide Group, Ungroup;
    if s == Encode(b) {
      DecodeInverts(b);
    }
    if Decode(s) == Some(b) && s != "" {
      var first := Ungroup(s[..4], |s| == 4).value;
      GroupInverts(s[..4], |s| == 4);
      DecodeExact(s[4..], Decode(s[4..]).value);
      assert b[..|first|] == first && b[|first|..] == Decode(s[4..]).value;
      assert s == s[..4] + s[4..];
      if |s| == 4 {
        assert s[4..] == "" && b == first;
      } else {
        assert |first| == 3;
        assert |Encode(b[3..])| > 0;
      }
    }
  }

  lemma GroupHasNoLineFeed(b: bytes)
    requires 1 <= |b| <= 3
    ensures '\n' !in Group(b)
  {
    assert forall n :: 0 <= n < 64 ==> Digit(n) != '\n';
  }

  lemma {:induction false} EncodeHasNoLineFeed(b: bytes)
    ensures '\n' !in Encode(b)
    decreases |b|
  {
    if b == [] {
    } else if |b| <= 3 {
      GroupHasNoLineFeed(b);
    } else {
      GroupHasNoLineFeed(b[..3]);
      EncodeHasNoLineFeed(b[3..]);
    }
  }
}
