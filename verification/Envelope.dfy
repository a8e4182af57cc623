/** The invoice envelope, its text in the Turnkey wire profile, and the parser of that text. */
module Envelope {
  import opened Wrappers
  import opened Bytes
  import opened Xml
  import opened XmlTree
  import opened LineEnds
  import Decimal
  import Utf8

  const XSI_NAMESPACE := "http://www.w3.org/2001/XMLSchema-instance"
  const ENVELOPE_NAMESPACE := "urn:GEINV:InvoiceEnvelope:4.1"
  const ENVELOPE_SCHEMA := "InvoiceEnvelope.xsd"
  const VERSION_TOKEN := "v41"
  const MAX_PAYLOADS := 1_000

  /** A party or a routing entry; both have these two fields. */
  datatype Principal = Principal(identifier: string, description: Option<string>)

  datatype Routing = Routing(from: Principal, fromVac: Principal, to: Principal, toVac: Principal)

  type MigPayload = b: bytes | b != [] witness [0]

  datatype InvoiceEnvelope = InvoiceEnvelope(routing: Routing, messageType: string, payloads: seq<MigPayload>)

  datatype EnvelopeError = EmptyPayload | NoPayloads | TooManyPayloads(count: nat, max: nat)

  function NewPayload(data: bytes): Result<MigPayload, EnvelopeError> {
    if data == [] then Failure(EmptyPayload) else Success(data)
  }

  /** The cardinality that `InvoiceEnvelope::new` enforces. */
  predicate Constructed(e: InvoiceEnvelope) { 1 <= |e.payloads| <= MAX_PAYLOADS }

  function NewEnvelope(routing: Routing, messageType: string, payloads: seq<MigPayload>)
      : (r: Result<InvoiceEnvelope, EnvelopeError>)
    ensures r.Success? <==> Constructed(InvoiceEnvelope(routing, messageType, payloads))
    ensures r.Success? <==> 1 <= |payloads| <= 1_000
    ensures r.Success? ==> r.value == InvoiceEnvelope(routing, messageType, payloads)
    ensures r.Failure? ==> r.error == (if payloads == [] then NoPayloads else TooManyPayloads(|payloads|, 1_000))
  {
    if payloads == [] then Failure(NoPayloads)
    else if |payloads| > MAX_PAYLOADS then Failure(TooManyPayloads(|payloads|, MAX_PAYLOADS))
    else Success(InvoiceEnvelope(routing, messageType, payloads))
  }

  // ---------------------------------------------------------------- the text, grouped as a parser meets it

  function Opening(): string {
    "\n<InvoiceEnvelope xmlns=\"" + (Escape(ENVELOPE_NAMESPACE) + ("\" xmlns:xsi=\"" + (Escape(XSI_NAMESPACE) +
    ("\" xsi:schemaLocation=\"" + (Escape(ENVELOPE_NAMESPACE) + (" " + (Escape(ENVELOPE_SCHEMA) + "\">\n")))))))
  }

  function OpenPrincipal(tag: string, idTag: string): string { "  <" + (tag + (">\n    <" + idTag + ">")) }
  function CloseId(idTag: string): string { "</" + idTag + ">\n" }
  function ClosePrincipal(tag: string): string { "  </" + (tag + ">\n") }

  function DescriptionOnto(description: Option<string>, rest: string): string {
    if description.None? then rest
    else "    <Description>" + (EscapeText(description.value) + ("</Description>\n" + rest))
  }

  function PrincipalOnto(tag: string, idTag: string, p: Principal, rest: string): string {
    OpenPrincipal(tag, idTag) +
    (EscapeText(p.identifier) + (CloseId(idTag) + DescriptionOnto(p.description, ClosePrincipal(tag) + rest)))
  }

  function PackOnto(count: nat, messageType: string, rest: string): string {
    "  <InvoicePack count=\"" + (Decimal.Render(count) + ("\" messageType=\"" + (Escape(messageType) +
    ("\" version=\"" + (Escape(VERSION_TOKEN) + ("\">\n" + rest))))))
  }

  function RoutingOnto(r: Routing, rest: string): string {
    PrincipalOnto("From", "PartyId", r.from, PrincipalOnto("FromVAC", "RoutingId", r.fromVac,
    PrincipalOnto("To", "PartyId", r.to, PrincipalOnto("ToVAC", "RoutingId", r.toVac, rest))))
  }

  function Closing(): string { "</InvoicePack>\n</InvoiceEnvelope>\n" }

  function EnvelopeText(r: Routing, count: nat, messageType: string, middle: string): string {
    Opening() + RoutingOnto(r, PackOnto(count, messageType, middle + Closing()))
  }

  /** The line-normalised payloads, one after the other. */
  function Middle(texts: seq<string>): string {
    if texts == [] then "" else Appended(texts[0]) + Middle(texts[1..])
  }

  lemma {:induction false} MiddleAppend(texts: seq<string>, last: string)
    ensures Middle(texts + [last]) == Middle(texts) + Appended(last)
  {
    if texts == [] {
      assert texts + [last] == [last];
      assert Middle([last]) == Appended(last) + Middle([last][1..]);
    } else {
      assert (texts + [last])[1..] == texts[1..] + [last];
      MiddleAppend(texts[1..], last);
      Assoc(Appended(texts[0]), Middle(texts[1..]), Appended(last));
    }
  }

  // ---------------------------------------------------------------- refusals

  datatype SerializeError = PayloadNotUtf8(index: nat) | EmbeddedXmlDeclaration(index: nat)

  /** The Unicode White_Space property, which `trim_start` removes. */
  predicate IsWhitespace(c: char) {
    var n := c as int;
    || 0x09 <= n <= 0x0D || n == 0x20 || n == 0x85 || n == 0xA0 || n == 0x1680 || 0x2000 <= n <= 0x200A
    || n == 0x2028 || n == 0x2029 || n == 0x202F || n == 0x205F || n == 0x3000
  }

  function TrimStart(s: string): string {
    if s != "" && IsWhitespace(s[0]) then TrimStart(s[1..]) else s
  }

  predicate Embeds(text: string) { StartsWith(TrimStart(text), "<?xml") }

  function Offence(payload: MigPayload, index: nat): Option<SerializeError> {
    match Utf8.Decode(payload)
    case None => Some(PayloadNotUtf8(index))
    case Some(text) => if Embeds(text) then Some(EmbeddedXmlDeclaration(index)) else None
  }

  /** The characters of the Unicode property White_Space. */
  const WHITE_SPACE := "\t\n\U{B}\U{C}\r \U{85}\U{A0}\U{1680}\U{2000}\U{2001}\U{2002}\U{2003}\U{2004}\U{2005}\U{2006}"
                       + "\U{2007}\U{2008}\U{2009}\U{200A}\U{2028}\U{2029}\U{202F}\U{205F}\U{3000}"

  lemma WhitespaceExactly(c: char)
    ensures IsWhitespace(c) <==> c in WHITE_SPACE
  {
  }

  /** From `k` on, after white space only, the text begins an XML declaration. */
  predicate DeclaredAt(text: string, k: nat) {
    && k + 5 <= |text| && text[k..k + 5] == ['<', '?', 'x', 'm', 'l']
    && forall i :: 0 <= i < k ==> text[i] in WHITE_SPACE
  }

  lemma {:induction false} EmbedsExactly(text: string)
    ensures Embeds(text) <==> exists k: nat :: DeclaredAt(text, k)
  {
    WhitespaceExactly('<');
    assert !IsWhitespace('<');
    hide WHITE_SPACE, IsWhitespace;
    if text != "" && IsWhitespace(text[0]) {
      WhitespaceExactly(text[0]);
      EmbedsExactly(text[1..]);
      forall k: nat
        ensures DeclaredAt(text[1..], k) <==> DeclaredAt(text, k + 1)
      {
        DeclaredLater(text, k);
      }
      if k: nat :| DeclaredAt(text, k) {
        assert k > 0 && DeclaredAt(text[1..], k - 1);
      }
    } else {
      forall k: nat | DeclaredAt(text, k)
        ensures k == 0
      {
        if k > 0 {
          WhitespaceExactly(text[0]);
        }
      }
      assert Embeds(text) <==> DeclaredAt(text, 0);
    }
  }

  lemma DeclaredLater(text: string, k: nat)
    requires text != "" && text[0] in WHITE_SPACE
    ensures DeclaredAt(text[1..], k) <==> DeclaredAt(text, k + 1)
  {
    hide WHITE_SPACE;
    if k + 6 <= |text| {
      assert text[1..][k..k + 5] == text[k + 1..k + 6];
    }
    assert forall i :: 0 <= i < |text| - 1 ==> text[1..][i] == text[i + 1];
    if DeclaredAt(text[1..], k) {
      forall i | 0 <= i < k + 1
        ensures text[i] in WHITE_SPACE
      {
        assert i > 0 ==> text[1..][i - 1] == text[i];
      }
    }
  }

  /**
    What a payload is refused for: octets that encode no text, or a text that begins an XML
    declaration after white space; everything else is embedded.
   */
  lemma OffenceExactly(payload: MigPayload, index: nat)
    ensures Offence(payload, index) == Some(PayloadNotUtf8(index)) <==> forall text :: Utf8.Encode(text) != payload
    ensures Offence(payload, index) == Some(EmbeddedXmlDeclaration(index)) <==>
            exists text, k: nat :: Utf8.Encode(text) == payload && DeclaredAt(text, k)
    ensures Offence(payload, index).None? <==>
            exists text :: Utf8.Encode(text) == payload && forall k: nat :: !DeclaredAt(text, k)
  {
    hide Embeds, DeclaredAt, Utf8.Decode, Utf8.Encode;
    forall text
      ensures Utf8.Decode(payload) == Some(text) <==> Utf8.Encode(text) == payload
      ensures Embeds(text) <==> exists k: nat :: DeclaredAt(text, k)
    {
      Utf8.DecodeExact(payload, text);
      EmbedsExactly(text);
    }
    if Utf8.Decode(payload).Some? {
      assert Utf8.Encode(Utf8.Decode(payload).value) == payload;
    }
  }

  predicate Clean(payloads: seq<MigPayload>) {
    forall i :: 0 <= i < |payloads| ==> Offence(payloads[i], i).None?
  }

  function TextOf(payload: MigPayload): string
    requires Offence(payload, 0).None?
  {
    Utf8.Decode(payload).value
  }

  lemma CleanInit(payloads: seq<MigPayload>)
    requires Clean(payloads) && payloads != []
    ensures Clean(payloads[..|payloads| - 1])
  {
    hide Utf8.Decode, Embeds;
    var init := payloads[..|payloads| - 1];
    forall i | 0 <= i < |init|
      ensures Offence(init[i], i).None?
    {
      assert Offence(payloads[i], i).None?;
    }
  }

  lemma LastText(payloads: seq<MigPayload>)
    requires Clean(payloads) && payloads != []
    ensures var payload := payloads[|payloads| - 1];
            Offence(payload, 0).None? && TextOf(payload) != "" && Utf8.Encode(TextOf(payload)) == payload
  {
    hide Utf8.Decode, Embeds;
    var last := |payloads| - 1;
    assert Offence(payloads[last], last).None?;
    Utf8.DecodeExact(payloads[last], TextOf(payloads[last]));
  }

  function Texts(payloads: seq<MigPayload>): (texts: seq<string>)
    requires Clean(payloads)
    ensures |texts| == |payloads|
    ensures forall i :: 0 <= i < |texts| ==> texts[i] != "" && Utf8.Encode(texts[i]) == payloads[i]
  {
    hide Utf8.Decode, Utf8.Encode, Offence, TextOf, Clean;
    if payloads == [] then []
    else
      var last := |payloads| - 1;
      CleanInit(payloads);
      LastText(payloads);
      Texts(payloads[..last]) + [TextOf(payloads[last])]
  }

  // ---------------------------------------------------------------- the parser

  datatype Parsed = Parsed(routing: Routing, count: nat, messageType: string, middle: string)

  function ParseText(s: string): (r: Option<(string, string)>)
  {
    var n := IndexOf(s, '<');
    var value :- Unescape(s[..n]);
    Some((value, s[n..]))
  }

  function ParseDescription(s: string): Option<(Option<string>, string)> {
    if StartsWith(s, "    <Description>") then
      var (value, s1) :- ParseText(s[|"    <Description>"|..]);
      var s2 :- After("</Description>\n", s1);
      Some((Some(value), s2))
    else Some((None, s))
  }

  function ParsePrincipal(s: string, tag: string, idTag: string): Option<(Principal, string)> {
    var s1 :- After(OpenPrincipal(tag, idTag), s);
    var (identifier, s2) :- ParseText(s1);
    var s3 :- After(CloseId(idTag), s2);
    var (description, s4) :- ParseDescription(s3);
    var s5 :- After(ClosePrincipal(tag), s4);
    Some((Principal(identifier, description), s5))
  }

  function ParseRouting(s: string): Option<(Routing, string)> {
    var (from, s1) :- ParsePrincipal(s, "From", "PartyId");
    var (fromVac, s2) :- ParsePrincipal(s1, "FromVAC", "RoutingId");
    var (to, s3) :- ParsePrincipal(s2, "To", "PartyId");
    var (toVac, s4) :- ParsePrincipal(s3, "ToVAC", "RoutingId");
    Some((Routing(from, fromVac, to, toVac), s4))
  }

  function ParseCount(s: string): Option<(nat, string)> {
    var n := IndexOf(s, '"');
    if Decimal.AllDigits(s[..n]) then Some((Decimal.Value(s[..n]), s[n..])) else None
  }

  function ParseQuoted(s: string): Option<(string, string)> {
    var n := IndexOf(s, '"');
    var value :- Unescape(s[..n]);
    Some((value, s[n..]))
  }

  function ParsePack(s: string): Option<(nat, string, string)> {
    var s1 :- After("  <InvoicePack count=\"", s);
    var (count, s2) :- ParseCount(s1);
    var s3 :- After("\" messageType=\"", s2);
    var (messageType, s4) :- ParseQuoted(s3);
    var s5 :- After("\" version=\"", s4);
    var (version, s6) :- ParseQuoted(s5);
    var s7 :- After("\">\n", s6);
    if version == VERSION_TOKEN then Some((count, messageType, s7)) else None
  }

  /** What precedes the closing tags at the very end. */
  function Before(s: string, ending: string): Option<string> {
    if |s| >= |ending| && s[|s| - |ending|..] == ending then Some(s[..|s| - |ending|]) else None
  }

  function ParseBetween(opening: string, closing: string, s: string): Option<Parsed> {
    var s1 :- After(opening, s);
    var (routing, s2) :- ParseRouting(s1);
    var (count, messageType, s3) :- ParsePack(s2);
    var middle :- Before(s3, closing);
    Some(Parsed(routing, count, messageType, middle))
  }

  function ParseEnvelope(s: string): Option<Parsed> { ParseBetween(Opening(), Closing(), s) }

  // ---------------------------------------------------------------- the parser inverts the text

  lemma ParseTextInverts(value: string, rest: string)
    requires rest != "" && rest[0] == '<'
    ensures ParseText(EscapeText(value) + rest) == Some((value, rest))
  {
    IndexOfFirst(EscapeText(value), '<', rest);
    Split(EscapeText(value), rest);
    UnescapeInvertsText(value);
    hide EscapeText, Unescape, IndexOf;
  }

  lemma ParseQuotedInverts(value: string, rest: string)
    requires rest != "" && rest[0] == '"'
    ensures ParseQuoted(Escape(value) + rest) == Some((value, rest))
  {
    IndexOfFirst(Escape(value), '"', rest);
    Split(Escape(value), rest);
    UnescapeInverts(value);
    hide Escape, Unescape, IndexOf;
  }

  lemma ParseCountInverts(count: nat, rest: string)
    requires rest != "" && rest[0] == '"'
    ensures ParseCount(Decimal.Render(count) + rest) == Some((count, rest))
  {
    IndexOfFirst(Decimal.Render(count), '"', rest);
    Split(Decimal.Render(count), rest);
    Decimal.RenderValue(count);
    hide Decimal.Render, Decimal.Value, IndexOf;
  }

  lemma ParseDescriptionInverts(description: Option<string>, tag: string, rest: string)
    ensures ParseDescription(DescriptionOnto(description, ClosePrincipal(tag) + rest)) ==
            Some((description, ClosePrincipal(tag) + rest))
  {
    var after := ClosePrincipal(tag) + rest;
    assert after[2] == '<';
    hide ClosePrincipal;
    if description.None? {
      assert "    <Description>"[2] == ' ';
    } else {
      var body := EscapeText(description.value) + ("</Description>\n" + after);
      Split("    <Description>", body);
      ParseTextInverts(description.value, "</Description>\n" + after);
      AfterInverts("</Description>\n", after);
      hide ParseText, EscapeText, After;
    }
  }

  lemma ParsePrincipalInverts(tag: string, idTag: string, p: Principal, rest: string)
    ensures ParsePrincipal(PrincipalOnto(tag, idTag, p, rest), tag, idTag) == Some((p, rest))
  {
    var s4 := ClosePrincipal(tag) + rest;
    var s3 := DescriptionOnto(p.description, s4);
    var s2 := CloseId(idTag) + s3;
    var s1 := EscapeText(p.identifier) + s2;
    AfterInverts(OpenPrincipal(tag, idTag), s1);
    assert s2[0] == '<';
    hide OpenPrincipal, CloseId, ClosePrincipal, DescriptionOnto, ParseDescription, EscapeText;
    ParseTextInverts(p.identifier, s2);
    AfterInverts(CloseId(idTag), s3);
    ParseDescriptionInverts(p.description, tag, rest);
    AfterInverts(ClosePrincipal(tag), rest);
    hide ParseText, After;
  }

  lemma ParseRoutingInverts(r: Routing, rest: string)
    ensures ParseRouting(RoutingOnto(r, rest)) == Some((r, rest))
  {
    hide ParsePrincipal, PrincipalOnto;
    var s3 := PrincipalOnto("ToVAC", "RoutingId", r.toVac, rest);
    var s2 := PrincipalOnto("To", "PartyId", r.to, s3);
    var s1 := PrincipalOnto("FromVAC", "RoutingId", r.fromVac, s2);
    ParsePrincipalInverts("ToVAC", "RoutingId", r.toVac, rest);
    ParsePrincipalInverts("To", "PartyId", r.to, s3);
    ParsePrincipalInverts("FromVAC", "RoutingId", r.fromVac, s2);
    ParsePrincipalInverts("From", "PartyId", r.from, s1);
  }

  lemma ParsePackInverts(count: nat, messageType: string, rest: string)
    ensures ParsePack(PackOnto(count, messageType, rest)) == Some((count, messageType, rest))
  {
    var s6 := "\">\n" + rest;
    var s5 := Escape(VERSION_TOKEN) + s6;
    var s4 := "\" version=\"" + s5;
    var s3 := Escape(messageType) + s4;
    var s2 := "\" messageType=\"" + s3;
    var s1 := Decimal.Render(count) + s2;
    AfterInverts("  <InvoicePack count=\"", s1);
    assert s2[0] == '"' && s4[0] == '"' && s6[0] == '"';
    hide Escape, Decimal.Render;
    ParseCountInverts(count, s2);
    AfterInverts("\" messageType=\"", s3);
    ParseQuotedInverts(messageType, s4);
    AfterInverts("\" version=\"", s5);
    ParseQuotedInverts(VERSION_TOKEN, s6);
    AfterInverts("\">\n", rest);
    hide ParseCount, ParseQuoted, After;
  }

  /**
    The text determines routing (an absent description and an empty one included),
    message type, payload count and the middle section, whatever the middle contains.
   */
  lemma ParseEnvelopeInverts(r: Routing, count: nat, messageType: string, middle: string)
    ensures ParseEnvelope(EnvelopeText(r, count, messageType, middle)) == Some(Parsed(r, count, messageType, middle))
  {
    hide Opening, RoutingOnto, PackOnto, ParseRouting, ParsePack, Closing;
    var s3 := middle + Closing();
    var s2 := PackOnto(count, messageType, s3);
    AfterInverts(Opening(), RoutingOnto(r, s2));
    ParseRoutingInverts(r, s2);
    ParsePackInverts(count, messageType, s3);
    Split(middle, Closing());
    hide After;
  }
}
