/** UTF-8 (RFC 3629, section 3): Rust's `str` to bytes and `str::from_utf8` back. */
module Utf8 {
  import opened Wrappers
  import opened Bytes

  function EncodeChar(c: char): (b: bytes)
    ensures 1 <= |b| <= 4
    ensures |b| == 1 <==> c as int < 0x80
    ensures c as int < 0x80 ==> b == [c as int]
  {
    var n := c as int;
    var m := n / 0x40;
    var h := m / 0x40;
    if n < 0x80 then [n]
    else if n < 0x800 then [0xC0 + m, 0x80 + n % 0x40]
    else if n < 0x1_0000 then [0xE0 + h, 0x80 + m % 0x40, 0x80 + n % 0x40]
    else [0xF0 + h / 0x40, 0x80 + h % 0x40, 0x80 + m % 0x40, 0x80 + n % 0x40]
  }

  function Encode(s: string): (b: bytes)
    ensures s == "" <==> b == []
    ensures |b| >= |s|
  {
    if s == "" then [] else EncodeChar(s[0]) + Encode(s[1..])
  }

  predicate IsContinuation(b: byte) { 0x80 <= b < 0xC0 }

  predicate IsScalar(n: int) { 0 <= n < 0xD800 || 0xE000 <= n < 0x11_0000 }

  /** Append the six payload bits of a continuation octet. */
  function Join(high: int, octet: int): int { high * 0x40 + (octet - 0x80) }

  lemma JoinSplits(high: int, octet: int)
    requires 0x80 <= octet < 0xC0
    ensures Join(high, octet) / 0x40 == high && Join(high, octet) % 0x40 == octet - 0x80
  {
  }

  /** The scalar value at the start of `b` and the octets it occupies, shortest form only. */
  function DecodeChar(b: bytes): (r: Option<(char, nat)>)
    requires b != []
    ensures r.Some? ==> 1 <= r.value.1 <= |b|
  {
    if b[0] < 0x80 then
      Some((b[0] as char, 1))
    else if 0xC0 <= b[0] < 0xE0 && |b| >= 2 && IsContinuation(b[1]) then
      var n := Join(b[0] - 0xC0, b[1]);
      if 0x80 <= n && IsScalar(n) then Some((n as char, 2)) else None
    else if 0xE0 <= b[0] < 0xF0 && |b| >= 3 && IsContinuation(b[1]) && IsContinuation(b[2]) then
      var n := Join(Join(b[0] - 0xE0, b[1]), b[2]);
      if 0x800 <= n && IsScalar(n) then Some((n as char, 3)) else None
    else if 0xF0 <= b[0] < 0xF8 && |b| >= 4 && IsContinuation(b[1]) && IsContinuation(b[2]) && IsContinuation(b[3]) then
      var n := Join(Join(Join(b[0] - 0xF0, b[1]), b[2]), b[3]);
      if 0x1_0000 <= n && IsScalar(n) then Some((n as char, 4)) else None
    else None
  }

  lemma EncodeInvertsChar(b: bytes)
    requires b != [] && DecodeChar(b).Some?
    ensures var (c, n) := DecodeChar(b).value; b[..n] == EncodeChar(c)
  {
    if 0xC0 <= b[0] < 0xE0 {
      JoinSplits(b[0] - 0xC0, b[1]);
    } else if 0xE0 <= b[0] < 0xF0 {
      JoinSplits(b[0] - 0xE0, b[1]);
      JoinSplits(Join(b[0] - 0xE0, b[1]), b[2]);
    } else if 0xF0 <= b[0] {
      JoinSplits(b[0] - 0xF0, b[1]);
      JoinSplits(Join(b[0] - 0xF0, b[1]), b[2]);
      JoinSplits(Join(Join(b[0] - 0xF0, b[1]), b[2]), b[3]);
    }
  }

  function Decode(b: bytes): (r: Option<string>)
    decreases |b|
  {
    if b == [] then Some("")
    else
      var (c, n) :- DecodeChar(b);
      var rest :- Decode(b[n..]);
      Some([c] + rest)
  }

  lemma DecodeCharInverts(c: char, rest: bytes)
    ensures DecodeChar(EncodeChar(c) + rest) == Some((c, |EncodeChar(c)|))
  {
    var n, e := c as int, EncodeChar(c);
    var b := e + rest;
    assert b[..|e|] == e && b[0] == e[0];
    if 0x80 <= n < 0x800 {
      assert b[1] == e[1] && Join(e[0] - 0xC0, e[1]) == n;
    } else if 0x800 <= n < 0x1_0000 {
      assert b[1] == e[1] && b[2] == e[2];
      assert Join(e[0] - 0xE0, e[1]) == n / 0x40;
    } else if 0x1_0000 <= n {
      assert b[1] == e[1] && b[2] == e[2] && b[3] == e[3];
      assert Join(e[0] - 0xF0, e[1]) == n / 0x40 / 0x40;
      assert Join(Join(e[0] - 0xF0, e[1]), e[2]) == n / 0x40;
    }
  }

  lemma {:induction false} DecodeInverts(s: string)
    ensures Decode(Encode(s)) == Some(s)
  {
    if s != "" {
      DecodeCharInverts(s[0], Encode(s[1..]));
      assert (EncodeChar(s[0]) + Encode(s[1..]))[|EncodeChar(s[0])|..] == Encode(s[1..]);
      DecodeInverts(s[1..]);
      assert [s[0]] + s[1..] == s;
    }
  }

  /** `from_utf8` accepts exactly the encodings of character strings. */
  lemma {:induction false} DecodeExact(b: bytes, s: string)
    ensures Decode(b) == Some(s) <==> b == Encode(s)
    decreases |b|
  {
    if b == Encode(s) {
      DecodeInverts(s);
    }
    if Decode(b) == Some(s) && b != [] {
      var (c, n) := DecodeChar(b).value;
      EncodeInvertsChar(b);
      DecodeExact(b[n..], s[1..]);
      assert b == b[..n] + b[n..];
    }
  }

  lemma EncodeInjective(s: string, t: string)
    requires Encode(s) == Encode(t)
    ensures s == t
  {
    DecodeInverts(s);
    DecodeInverts(t);
  }

  lemma {:induction false} EncodeConcat(s: string, t: string)
    ensures Encode(s + t) == Encode(s) + Encode(t)
  {
    if s == "" {
      assert s + t == t;
    } else {
      assert (s + t)[1..] == s[1..] + t;
      EncodeConcat(s[1..], t);
    }
  }

  predicate IsAscii(s: string) { forall i :: 0 <= i < |s| ==> s[i] as int < 0x80 }

  lemma {:induction false} EncodeAscii(s: string)
    requires IsAscii(s)
    ensures |Encode(s)| == |s|
    ensures forall i :: 0 <= i < |s| ==> Encode(s)[i] == s[i] as int
  {
    if s != "" {
      EncodeAscii(s[1..]);
    }
  }
}
