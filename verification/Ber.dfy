/**
  BER of X.690: identifier, definite and indefinite length, contents (section 8.1),
  and integers (section 8.3).  Only low tag numbers occur.
 */
module Ber {
  import opened Wrappers
  import opened Bytes

  /** Lengths are machine words of 64 bits. */
  const WORD := 0x1_0000_0000_0000_0000

  const EOC: bytes := [0, 0]

  // ---------------------------------------------------------------- writing

  /** `to_be_bytes` for a word of `size` octets. */
  function BigEndian(n: nat, size: nat): (b: bytes)
    ensures |b| == size
  {
    if size == 0 then [] else BigEndian(n / 256, size - 1) + [n % 256]
  }

  /** The position of the first octet that is not zero. */
  function FirstNonzero(b: bytes): (k: nat)
    ensures k <= |b| && (k < |b| ==> b[k] != 0)
    ensures forall i :: 0 <= i < k ==> b[i] == 0
  {
    if b == [] || b[0] != 0 then 0 else 1 + FirstNonzero(b[1..])
  }

  /** The number an octet string denotes, most significant octet first. */
  function Unsigned(b: bytes): nat {
    if b == [] then 0 else 256 * Unsigned(b[..|b| - 1]) + b[|b| - 1]
  }

  function Power256(k: nat): (r: nat)
    ensures r >= 1
  {
    if k == 0 then 1 else 256 * Power256(k - 1)
  }

  /** The octets of `n` without leading zeros. */
  function Significant(n: nat): (b: bytes)
    requires n < WORD
    ensures n > 0 ==> b != [] && b[0] != 0
    ensures |b| <= 8 && Unsigned(b) == n
  {
    var word := BigEndian(n, 8);
    BigEndianValue(n, 8);
    StripZeros(word, FirstNonzero(word));
    assert Power256(8) == WORD;
    word[FirstNonzero(word)..]
  }

  lemma {:induction false} BigEndianValue(n: nat, size: nat)
    requires n < Power256(size)
    ensures Unsigned(BigEndian(n, size)) == n
    decreases size
  {
    if size > 0 {
      var b := BigEndian(n, size);
      assert b[..size - 1] == BigEndian(n / 256, size - 1);
      BigEndianValue(n / 256, size - 1);
    }
  }

  lemma UnsignedStep(b: bytes)
    requires b != []
    ensures Unsigned(b) == 256 * Unsigned(b[..|b| - 1]) + b[|b| - 1] as nat
  {
  }

  lemma NothingIsZero()
    ensures Unsigned([]) == 0
  {
  }

  lemma {:induction false} StripZeros(b: bytes, k: nat)
    requires k <= |b| && forall i :: 0 <= i < k ==> b[i] == 0
    ensures Unsigned(b[k..]) == Unsigned(b)
    decreases |b|
  {
    hide Unsigned;
    if b != [] {
      var init := b[..|b| - 1];
      UnsignedStep(b);
      if k == |b| {
        StripZeros(init, k - 1);
        assert b[k..] == init[k - 1..] == [];
        NothingIsZero();
      } else {
        StripZeros(init, k);
        UnsignedStep(b[k..]);
        assert b[k..][..|b| - k - 1] == init[k..];
      }
    }
  }

  function LengthOctets(n: nat): (b: bytes)
    requires n < WORD
    ensures 1 <= |b| <= 9
  {
    if n < 128 then [n] else [0x80 + |Significant(n)|] + Significant(n)
  }

  function EncodedLengthSize(n: nat): nat
    requires n < WORD
  {
    if n < 128 then 1 else 1 + 8 - FirstNonzero(BigEndian(n, 8))
  }

  /** The capacity reserved for a length is the length of what is written. */
  lemma EncodedLengthSizeExact(n: nat)
    requires n < WORD
    ensures EncodedLengthSize(n) == |LengthOctets(n)|
  {
    assert Unsigned([]) == 0;
    if n >= 128 {
      assert Significant(n) != [];
    }
  }

  method WriteLength(length: nat, out: ByteBuffer)
    requires length < WORD
    modifies out
    ensures out.data == old(out.data) + LengthOctets(length)
  {
    if length < 128 {
      out.Extend([length]);
      return;
    }
    var word := BigEndian(length, 8);
    var significant := word[FirstNonzero(word)..];
    assert significant == Significant(length);
    hide Significant, BigEndian, FirstNonzero;
    out.Extend([0x80 + |significant|]);
    out.Extend(significant);
    assert old(out.data) + [0x80 + |significant|] + significant ==
           old(out.data) + ([0x80 + |significant|] + significant);
  }

  function Tlv(tag: byte, body: bytes): (b: bytes)
    requires |body| < WORD
    ensures |body| + 2 <= |b| <= |body| + 10
  {
    [tag] + LengthOctets(|body|) + body
  }

  method EncodeTlv(tag: byte, body: bytes) returns (encoded: bytes)
    requires |body| < WORD
    ensures encoded == Tlv(tag, body)
  {
    hide LengthOctets;
    var out := new ByteBuffer();
    out.Extend([tag]);
    WriteLength(|body|, out);
    out.Extend(body);
    encoded := out.data;
  }

  method EncodeConstructed(tag: byte, elements: seq<bytes>) returns (encoded: bytes)
    requires |Flatten(elements)| < WORD
    ensures encoded == Tlv(tag, Flatten(elements))
  {
    hide Tlv;
    var body := new ByteBuffer();
    for i := 0 to |elements|
      invariant body.data == Flatten(elements[..i])
    {
      assert elements[..i + 1] == elements[..i] + [elements[i]];
      FlattenAppend(elements[..i], elements[i]);
      body.Extend(elements[i]);
    }
    assert elements[..|elements|] == elements;
    encoded := EncodeTlv(tag, body.data);
  }

  /** A container of indefinite length around complete encodings. */
  function Indefinite(tag: byte, elements: seq<bytes>): (b: bytes) { [tag, 0x80] + Flatten(elements) + EOC }

  // ---------------------------------------------------------------- integers

  /** The contents octets `positive_integer` writes: no redundant zeros, and a clear sign bit. */
  function IntegerBody(magnitude: bytes): (b: bytes)
    ensures 1 <= |b| <= |magnitude| + 1
    ensures b[0] < 0x80
    ensures |b| > 1 && b[0] == 0 ==> b[1] >= 0x80
  {
    var first := FirstNonzero(magnitude);
    var body := if first < |magnitude| then magnitude[first..] else [0];
    if body[0] >= 0x80 then [0] + body else body
  }

  method PositiveInteger(magnitude: bytes) returns (encoded: bytes)
    requires |magnitude| + 1 < WORD
    ensures encoded == Tlv(0x02, IntegerBody(magnitude))
  {
    var body: bytes;
    if magnitude == [] {
      body := [0];
    } else {
      var first := FirstNonzero(magnitude);
      if first == |magnitude| {
        first := |magnitude| - 1;
      }
      body := magnitude[first..];
    }
    if body[0] >= 0x80 {
      body := [0] + body;
    }
    encoded := EncodeTlv(0x02, body);
  }

  /** The value of contents octets in two's complement (section 8.3.3). */
  function Signed(b: bytes): int
    requires b != []
  {
    if b[0] >= 0x80 then Unsigned(b) - Power256(|b|) else Unsigned(b)
  }

  /** The first nine bits are neither all zero nor all one (section 8.3.2). */
  predicate Minimal(b: bytes) {
    |b| > 1 ==> !(b[0] == 0 && b[1] < 0x80) && !(b[0] == 0xFF && b[1] >= 0x80)
  }

  lemma {:induction false} LeadingZero(b: bytes)
    ensures Unsigned([0] + b) == Unsigned(b)
  {
    StripZeros([0] + b, 1);
    assert ([0] + b)[1..] == b;
  }

  /** The integer written for a magnitude has that magnitude as its value, in the shortest form. */
  lemma IntegerBodyExact(magnitude: bytes)
    ensures Signed(IntegerBody(magnitude)) == Unsigned(magnitude)
    ensures Minimal(IntegerBody(magnitude))
  {
    var first := FirstNonzero(magnitude);
    StripZeros(magnitude, first);
    if first < |magnitude| {
      LeadingZero(magnitude[first..]);
    } else {
      assert [0][..0] == [] && Unsigned([0]) == 0 && magnitude[first..] == [];
    }
  }

  // ---------------------------------------------------------------- reading

  /** One element with the octets it was read from. */
  datatype Element = Element(raw: bytes, tag: byte, body: Body)

  datatype Body = Octets(content: bytes) | Elements(indefinite: bool, children: seq<Element>)

  datatype Length = Definite(n: nat) | IndefiniteLength

  predicate IsConstructed(tag: byte) { tag % 64 >= 32 }
  predicate IsLowTag(tag: byte) { tag % 32 != 31 && tag != 0 }

  /** Length octets (sections 8.1.3.3 to 8.1.3.6) and what follows them. */
  function ReadLength(b: bytes): (r: Option<(Length, bytes)>)
    ensures r.Some? ==> |r.value.1| < |b|
  {
    if b == [] || b[0] == 0xFF then None
    else if b[0] < 0x80 then Some((Definite(b[0]), b[1..]))
    else if b[0] == 0x80 then Some((IndefiniteLength, b[1..]))
    else
      var size := b[0] - 0x80;
      if |b| < 1 + size then None else Some((Definite(Unsigned(b[1..1 + size])), b[1 + size..]))
  }

  function ReadElement(b: bytes): (r: Option<(Element, bytes)>)
    ensures r.Some? ==> |r.value.1| < |b|
    decreases |b|, 0
  {
    if b == [] || !IsLowTag(b[0]) then None
    else
      var (length, inside) :- ReadLength(b[1..]);
      match length
      case Definite(n) => ReadDefinite(b, inside, n)
      case IndefiniteLength =>
        if !IsConstructed(b[0]) then None
        else
          var (children, rest) :- ReadToEnd(inside);
          Some((Element(b[..|b| - |rest|], b[0], Elements(true, children)), rest))
  }

  /** The element whose contents are the first `n` octets of `inside`. */
  function ReadDefinite(b: bytes, inside: bytes, n: nat): (r: Option<(Element, bytes)>)
    requires |inside| < |b|
    ensures r.Some? ==> |r.value.1| < |b|
    decreases |inside|, 2
  {
    if n > |inside| then None
    else
      var raw := b[..|b| - (|inside| - n)];
      if IsConstructed(b[0]) then
        var children :- ReadAll(inside[..n]);
        Some((Element(raw, b[0], Elements(false, children)), inside[n..]))
      else Some((Element(raw, b[0], Octets(inside[..n])), inside[n..]))
  }

  /** Elements up to the end of the input. */
  function ReadAll(b: bytes): Option<seq<Element>>
    decreases |b|, 1
  {
    if b == [] then Some([])
    else
      var (first, rest) :- ReadElement(b);
      var others :- ReadAll(rest);
      Some([first] + others)
  }

  /** Elements up to the end-of-contents octets (section 8.1.5). */
  function ReadToEnd(b: bytes): (r: Option<(seq<Element>, bytes)>)
    ensures r.Some? ==> |r.value.1| < |b|
    decreases |b|, 1
  {
    if |b| >= 2 && b[0] == 0 && b[1] == 0 then Some(([], b[2..]))
    else
      var (first, after) :- ReadElement(b);
      var (others, rest) :- ReadToEnd(after);
      Some(([first] + others, rest))
  }

  // ---------------------------------------------------------------- the reader inverts the writer

  /** `b` is one complete element, whatever follows it. */
  ghost predicate ReadsAs(b: bytes, e: Element) {
    b != [] && b[0] != 0 && forall rest: bytes :: ReadElement(b + rest) == Some((e, rest))
  }

  ghost predicate AllReadAs(parts: seq<bytes>, es: seq<Element>) {
    |parts| == |es| && forall i :: 0 <= i < |parts| ==> ReadsAs(parts[i], es[i])
  }

  lemma LengthInverts(n: nat, rest: bytes)
    requires n < WORD
    ensures LengthOctets(n)[0] != 0x80
    ensures ReadLength(LengthOctets(n) + rest) == Some((Definite(n), rest))
  {
    var b := LengthOctets(n) + rest;
    if n < 128 {
      assert b[1..] == rest;
    } else {
      var s := Significant(n);
      assert b[1..1 + |s|] == s && b[1 + |s|..] == rest;
      hide Significant, Unsigned;
    }
  }

  lemma TakeDrop(a: bytes, b: bytes)
    ensures (a + b)[..|a|] == a && (a + b)[|a|..] == b
  {
  }

  /** Where the pieces of an encoded element are. */
  lemma TlvParts(tag: byte, body: bytes, rest: bytes)
    requires |body| < WORD
    ensures var b := Tlv(tag, body) + rest;
            b[0] == tag && b[1..] == LengthOctets(|body|) + (body + rest)
            && b[..|b| - |rest|] == Tlv(tag, body)
  {
    hide LengthOctets;
  }

  lemma PrimitiveReads(tag: byte, body: bytes)
    requires |body| < WORD && IsLowTag(tag) && !IsConstructed(tag)
    ensures ReadsAs(Tlv(tag, body), Element(Tlv(tag, body), tag, Octets(body)))
  {
    forall rest: bytes
      ensures ReadElement(Tlv(tag, body) + rest) == Some((Element(Tlv(tag, body), tag, Octets(body)), rest))
    {
      TlvParts(tag, body, rest);
      LengthInverts(|body|, body + rest);
      TakeDrop(body, rest);
      hide Tlv, LengthOctets, ReadLength;
    }
  }

  lemma ConstructedReads(tag: byte, parts: seq<bytes>, es: seq<Element>)
    requires |Flatten(parts)| < WORD && IsLowTag(tag) && IsConstructed(tag) && AllReadAs(parts, es)
    ensures var b := Tlv(tag, Flatten(parts)); ReadsAs(b, Element(b, tag, Elements(false, es)))
  {
    var body := Flatten(parts);
    ReadAllInverts(parts, es);
    forall rest: bytes
      ensures ReadElement(Tlv(tag, body) + rest) == Some((Element(Tlv(tag, body), tag, Elements(false, es)), rest))
    {
      TlvParts(tag, body, rest);
      LengthInverts(|body|, body + rest);
      TakeDrop(body, rest);
      hide Tlv, LengthOctets, ReadLength, ReadAll;
    }
  }

  lemma {:induction false} ReadAllInverts(parts: seq<bytes>, es: seq<Element>)
    requires AllReadAs(parts, es)
    ensures ReadAll(Flatten(parts)) == Some(es)
    decreases |parts|
  {
    if parts != [] {
      ReadAllInverts(parts[1..], es[1..]);
      assert ReadsAs(parts[0], es[0]);
      hide ReadElement;
      assert [es[0]] + es[1..] == es;
    }
  }

  lemma {:induction false} ReadToEndInverts(parts: seq<bytes>, es: seq<Element>, rest: bytes)
    requires AllReadAs(parts, es)
    ensures ReadToEnd(Flatten(parts) + (EOC + rest)) == Some((es, rest))
    decreases |parts|
  {
    hide ReadElement;
    if parts == [] {
      assert [] + (EOC + rest) == EOC + rest && (EOC + rest)[2..] == rest;
    } else {
      ReadToEndInverts(parts[1..], es[1..], rest);
      assert ReadsAs(parts[0], es[0]);
      var after := Flatten(parts[1..]) + (EOC + rest);
      assert Flatten(parts) + (EOC + rest) == parts[0] + after;
      assert (parts[0] + after)[0] != 0;
      assert [es[0]] + es[1..] == es;
    }
  }

  lemma IndefiniteReads(tag: byte, parts: seq<bytes>, es: seq<Element>)
    requires IsLowTag(tag) && IsConstructed(tag) && AllReadAs(parts, es)
    ensures var b := Indefinite(tag, parts); ReadsAs(b, Element(b, tag, Elements(true, es)))
  {
    var body, whole := Flatten(parts), Indefinite(tag, parts);
    forall rest: bytes
      ensures ReadElement(whole + rest) == Some((Element(whole, tag, Elements(true, es)), rest))
    {
      var b := whole + rest;
      var inside := body + (EOC + rest);
      assert b[1..] == [0x80] + inside;
      assert ([0x80] + inside)[1..] == inside;
      assert b[..|b| - |rest|] == whole;
      ReadToEndInverts(parts, es, rest);
      hide ReadToEnd, Flatten, Indefinite;
    }
  }

  lemma DefiniteStable(b: bytes, inside: bytes, n: nat, more: bytes)
    requires |inside| < |b| && ReadDefinite(b, inside, n).Some?
    ensures var (e, rest) := ReadDefinite(b, inside, n).value;
            ReadDefinite(b + more, inside + more, n) == Some((e, rest + more))
  {
    hide ReadAll;
    var cut := |b| - (|inside| - n);
    assert (inside + more)[..n] == inside[..n] && (inside + more)[n..] == inside[n..] + more;
    assert (b + more)[..cut] == b[..cut];
  }

  /** What follows one complete element does not change how it is read. */
  lemma {:induction false} ReadElementStable(b: bytes, more: bytes)
    requires ReadElement(b).Some?
    ensures var (e, rest) := ReadElement(b).value; ReadElement(b + more) == Some((e, rest + more))
    decreases |b|, 0
  {
    hide ReadToEnd, ReadLength, ReadDefinite;
    var (length, inside) := ReadLength(b[1..]).value;
    assert (b + more)[1..] == b[1..] + more && (b + more)[0] == b[0];
    ReadLengthStable(b[1..], more);
    if length.Definite? {
      DefiniteStable(b, inside, length.n, more);
    } else {
      ReadToEndStable(inside, more);
      var rest := ReadToEnd(inside).value.1;
      assert (b + more)[..|b| - |rest|] == b[..|b| - |rest|];
    }
  }

  lemma ReadLengthStable(b: bytes, more: bytes)
    requires ReadLength(b).Some?
    ensures var (length, rest) := ReadLength(b).value; ReadLength(b + more) == Some((length, rest + more))
  {
    assert (b + more)[1..] == b[1..] + more;
    if b[0] > 0x80 {
      var size := b[0] - 0x80;
      assert (b + more)[1..1 + size] == b[1..1 + size];
      assert (b + more)[1 + size..] == b[1 + size..] + more;
      hide Unsigned;
    }
  }

  lemma {:induction false} ReadToEndStable(b: bytes, more: bytes)
    requires ReadToEnd(b).Some?
    ensures var (es, rest) := ReadToEnd(b).value; ReadToEnd(b + more) == Some((es, rest + more))
    decreases |b|, 1
  {
    if |b| >= 2 && b[0] == 0 && b[1] == 0 {
      assert (b + more)[2..] == b[2..] + more;
    } else {
      ReadElementStable(b, more);
      var after := ReadElement(b).value.1;
      assert b != [] && b[0] != 0;
      hide ReadElement;
      ReadToEndStable(after, more);
    }
  }

  /** Octets that are exactly one element read as that element in any context. */
  lemma WholeElementReads(b: bytes)
    requires ReadElement(b).Some? && ReadElement(b).value.1 == []
    ensures ReadsAs(b, ReadElement(b).value.0)
    ensures ReadElement(b).value.0.raw == b
  {
    var e := ReadElement(b).value.0;
    forall rest: bytes
      ensures ReadElement(b + rest) == Some((e, rest))
    {
      ReadElementStable(b, rest);
      assert [] + rest == rest;
    }
    RawIsConsumed(b);
  }

  lemma RawIsConsumed(b: bytes)
    requires ReadElement(b).Some?
    ensures var (e, rest) := ReadElement(b).value; e.raw + rest == b
  {
    hide ReadLength, ReadAll, ReadToEnd;
    RestIsSuffix(b);
    var (e, rest) := ReadElement(b).value;
    assert e.raw == b[..|b| - |rest|];
  }

  lemma LengthRestIsSuffix(b: bytes)
    requires ReadLength(b).Some?
    ensures var (_, rest) := ReadLength(b).value; rest == b[|b| - |rest|..]
  {
  }

  lemma {:induction false} RestIsSuffix(b: bytes)
    requires ReadElement(b).Some?
    ensures var (_, rest) := ReadElement(b).value; rest == b[|b| - |rest|..]
    decreases |b|, 0
  {
    hide ReadLength, ReadAll, ReadToEnd;
    LengthRestIsSuffix(b[1..]);
    var (length, inside) := ReadLength(b[1..]).value;
    assert inside == b[|b| - |inside|..];
    if length.Definite? {
      assert inside[length.n..] == b[|b| - |inside| + length.n..];
    } else {
      EndRestIsSuffix(inside);
    }
  }

  lemma {:induction false} EndRestIsSuffix(b: bytes)
    requires ReadToEnd(b).Some?
    ensures var (_, rest) := ReadToEnd(b).value; rest == b[|b| - |rest|..]
    decreases |b|, 1
  {
    if !(|b| >= 2 && b[0] == 0 && b[1] == 0) {
      RestIsSuffix(b);
      var after := ReadElement(b).value.1;
      EndRestIsSuffix(after);
      hide ReadElement;
    }
  }

  // ---------------------------------------------------------------- every element read is whole

  /** Octets that are exactly one element. */
  predicate OneElement(b: bytes) { ReadElement(b).Some? && ReadElement(b).value.1 == [] }

  /** The octets kept of an element, and of everything inside it, are one element each. */
  predicate Whole(e: Element)
    decreases e
  {
    OneElement(e.raw) && (e.body.Elements? ==> forall c | c in e.body.children :: Whole(c))
  }

  lemma LengthAlone(b: bytes, k: nat)
    requires ReadLength(b).Some? && k <= |ReadLength(b).value.1|
    ensures var (length, rest) := ReadLength(b).value; ReadLength(b[..|b| - k]) == Some((length, rest[..|rest| - k]))
  {
    hide Unsigned;
    var cut := b[..|b| - k];
    if b[0] > 0x80 {
      var size := b[0] - 0x80;
      assert cut[1..1 + size] == b[1..1 + size];
      assert cut[1 + size..] == b[1 + size..][..|b| - 1 - size - k];
    } else {
      assert cut[1..] == b[1..][..|b| - 1 - k];
    }
  }

  /** What an element was read from reads as that element without what followed it. */
  lemma {:induction false} ElementAlone(b: bytes)
    requires ReadElement(b).Some?
    ensures var (e, rest) := ReadElement(b).value; e.raw == b[..|b| - |rest|] && ReadElement(e.raw) == Some((e, []))
    decreases |b|, 0
  {
    hide ReadLength, ReadAll, ReadToEnd;
    var (e, rest) := ReadElement(b).value;
    var (length, inside) := ReadLength(b[1..]).value;
    RawIsConsumed(b);
    RestIsSuffix(b);
    LengthRestIsSuffix(b[1..]);
    var raw := b[..|b| - |rest|];
    assert raw[1..] == b[1..][..|b| - 1 - |rest|];
    LengthAlone(b[1..], |rest|);
    if length.Definite? {
      assert inside[..|inside| - |rest|] == inside[..length.n];
      assert inside[..length.n][..length.n] == inside[..length.n];
      assert raw[..|raw|] == raw;
    } else {
      EndAlone(inside);
      assert raw[..|raw|] == raw;
    }
  }

  lemma ElementStarts(b: bytes)
    requires ReadElement(b).Some?
    ensures b != [] && b[0] != 0
  {
    hide ReadLength, ReadDefinite, ReadToEnd;
  }

  /** One element in front of others that end with the input. */
  lemma OneInFront(raw: bytes, first: Element, tail: bytes, others: seq<Element>)
    requires ReadElement(raw) == Some((first, [])) && ReadToEnd(tail) == Some((others, []))
    ensures ReadToEnd(raw + tail) == Some(([first] + others, []))
  {
    ElementStarts(raw);
    ReadElementStable(raw, tail);
    assert [] + tail == tail && (raw + tail)[0] == raw[0];
    hide ReadElement;
  }

  lemma SliceJoin(b: bytes, i: nat, k: nat)
    requires i <= |b| && k <= |b| - i
    ensures b[..|b| - k] == b[..i] + b[i..][..|b| - i - k]
  {
  }

  lemma FirstOfMany(b: bytes)
    requires ReadToEnd(b).Some? && !(|b| >= 2 && b[0] == 0 && b[1] == 0)
    ensures ReadElement(b).Some? && ReadToEnd(ReadElement(b).value.1).Some?
    ensures var (first, after) := ReadElement(b).value;
            var (others, rest) := ReadToEnd(after).value;
            ReadToEnd(b) == Some(([first] + others, rest))
  {
    hide ReadElement;
  }

  lemma MoreAlone(b: bytes, first: Element, tail: bytes, others: seq<Element>, n: nat, k: nat)
    requires n <= |b| && k <= |b| - n && tail == b[n..][..|b| - n - k]
    requires first.raw == b[..n] && ReadElement(first.raw) == Some((first, []))
    requires ReadToEnd(tail) == Some((others, []))
    ensures ReadToEnd(b[..|b| - k]) == Some(([first] + others, []))
  {
    hide ReadElement, ReadToEnd;
    SliceJoin(b, n, k);
    OneInFront(first.raw, first, tail, others);
  }

  lemma {:induction false} EndAlone(b: bytes)
    requires ReadToEnd(b).Some?
    ensures var (es, rest) := ReadToEnd(b).value; ReadToEnd(b[..|b| - |rest|]) == Some((es, []))
    decreases |b|, 1
  {
    if |b| >= 2 && b[0] == 0 && b[1] == 0 {
      assert b[..2] == [0, 0];
    } else {
      EndAloneStep(b);
    }
  }

  lemma {:induction false} EndAloneStep(b: bytes)
    requires ReadToEnd(b).Some? && !(|b| >= 2 && b[0] == 0 && b[1] == 0)
    ensures var (es, rest) := ReadToEnd(b).value; ReadToEnd(b[..|b| - |rest|]) == Some((es, []))
    decreases |b|, 1, 0
  {
    hide ReadElement, ReadToEnd;
    FirstOfMany(b);
    var (first, after) := ReadElement(b).value;
    var (others, rest) := ReadToEnd(after).value;
    ElementAlone(b);
    RestIsSuffix(b);
    EndAlone(after);
    MoreAlone(b, first, after[..|after| - |rest|], others, |b| - |after|, |rest|);
  }

  /** Whatever is read, each element in it is whole. */
  lemma {:induction false} ElementIsWhole(b: bytes)
    requires ReadElement(b).Some?
    ensures Whole(ReadElement(b).value.0)
    decreases |b|, 0
  {
    hide ReadLength, ReadAll, ReadToEnd;
    ElementAlone(b);
    var (length, inside) := ReadLength(b[1..]).value;
    if length.IndefiniteLength? {
      EndIsWhole(inside);
    } else if IsConstructed(b[0]) {
      AllIsWhole(inside[..length.n]);
    }
  }

  lemma {:induction false} AllIsWhole(b: bytes)
    requires ReadAll(b).Some?
    ensures forall c | c in ReadAll(b).value :: Whole(c)
    decreases |b|, 1
  {
    hide ReadElement, Whole;
    if b != [] {
      ElementIsWhole(b);
      AllIsWhole(ReadElement(b).value.1);
    }
  }

  lemma {:induction false} EndIsWhole(b: bytes)
    requires ReadToEnd(b).Some?
    ensures forall c | c in ReadToEnd(b).value.0 :: Whole(c)
    decreases |b|, 1
  {
    hide ReadElement, Whole;
    if !(|b| >= 2 && b[0] == 0 && b[1] == 0) {
      ElementIsWhole(b);
      EndIsWhole(ReadElement(b).value.1);
    }
  }
}
