/** `InvoiceEnvelope::to_turnkey_xml`: the text is pushed piece by piece into one buffer. */
module EnvelopeWire {
  import opened Wrappers
  import opened Bytes
  import opened Xml
  import opened XmlTree
  import opened XmlWriter
  import opened LineEnds
  import opened Envelope
  import Decimal
  import Utf8

  method PushDescription(out: TextBuffer, description: Option<string>, ghost rest: string)
    modifies out
    ensures out.text + rest == old(out.text) + DescriptionOnto(description, rest)
  {
    if description.Some? {
      hide EscapeText;
      Put(out, "    <Description>", EscapeText(description.value) + ("</Description>\n" + rest));
      PutTextEscaped(out, description.value, "</Description>\n" + rest);
      Put(out, "</Description>\n", rest);
    }
  }

  method PushPrincipal(out: TextBuffer, tag: string, idTag: string, p: Principal, ghost rest: string)
    modifies out
    ensures out.text + rest == old(out.text) + PrincipalOnto(tag, idTag, p, rest)
  {
    hide EscapeText, DescriptionOnto;
    ghost var s4 := ClosePrincipal(tag) + rest;
    ghost var s3 := DescriptionOnto(p.description, s4);
    ghost var s2 := CloseId(idTag) + s3;
    ghost var s1 := EscapeText(p.identifier) + s2;
    OpenPrincipalOnto(tag, idTag, s1);
    ClosePrincipalOnto(tag, rest);
    hide OpenPrincipal, ClosePrincipal, CloseId;
    Put(out, "  <", tag + ((">\n    <" + idTag + ">") + s1));
    Put(out, tag, (">\n    <" + idTag + ">") + s1);
    Put(out, ">\n    <" + idTag + ">", s1);
    PutTextEscaped(out, p.identifier, s2);
    Put(out, CloseId(idTag), s3);
    PushDescription(out, p.description, s4);
    Put(out, "  </", tag + (">\n" + rest));
    Put(out, tag, ">\n" + rest);
    Put(out, ">\n", rest);
  }

  lemma OpenPrincipalOnto(tag: string, idTag: string, rest: string)
    ensures OpenPrincipal(tag, idTag) + rest == "  <" + (tag + ((">\n    <" + idTag + ">") + rest))
  {
    var id := ">\n    <" + idTag + ">";
    Assoc("  <", tag + id, rest);
    Assoc(tag, id, rest);
  }

  lemma ClosePrincipalOnto(tag: string, rest: string)
    ensures ClosePrincipal(tag) + rest == "  </" + (tag + (">\n" + rest))
  {
    Assoc("  </", tag + ">\n", rest);
    Assoc(tag, ">\n", rest);
  }

  method PushAllRouting(out: TextBuffer, r: Routing, ghost rest: string)
    modifies out
    ensures out.text + rest == old(out.text) + RoutingOnto(r, rest)
  {
    hide PrincipalOnto;
    ghost var s3 := PrincipalOnto("ToVAC", "RoutingId", r.toVac, rest);
    ghost var s2 := PrincipalOnto("To", "PartyId", r.to, s3);
    ghost var s1 := PrincipalOnto("FromVAC", "RoutingId", r.fromVac, s2);
    PushPrincipal(out, "From", "PartyId", r.from, s1);
    PushPrincipal(out, "FromVAC", "RoutingId", r.fromVac, s2);
    PushPrincipal(out, "To", "PartyId", r.to, s3);
    PushPrincipal(out, "ToVAC", "RoutingId", r.toVac, rest);
  }

  method PushOpening(out: TextBuffer)
    modifies out
    ensures out.text == old(out.text) + Opening()
  {
    hide Escape;
    ghost var s8 := "\">\n";
    ghost var s7 := Escape(ENVELOPE_SCHEMA) + s8;
    ghost var s6 := " " + s7;
    ghost var s5 := Escape(ENVELOPE_NAMESPACE) + s6;
    ghost var s4 := "\" xsi:schemaLocation=\"" + s5;
    ghost var s3 := Escape(XSI_NAMESPACE) + s4;
    ghost var s2 := "\" xmlns:xsi=\"" + s3;
    ghost var s1 := Escape(ENVELOPE_NAMESPACE) + s2;
    Put(out, "\n<InvoiceEnvelope xmlns=\"", s1);
    PutEscaped(out, ENVELOPE_NAMESPACE, s2);
    Put(out, "\" xmlns:xsi=\"", s3);
    PutEscaped(out, XSI_NAMESPACE, s4);
    Put(out, "\" xsi:schemaLocation=\"", s5);
    PutEscaped(out, ENVELOPE_NAMESPACE, s6);
    Put(out, " ", s7);
    PutEscaped(out, ENVELOPE_SCHEMA, s8);
    out.PushStr("\">\n");
  }

  method PushPack(out: TextBuffer, count: nat, messageType: string, ghost rest: string)
    modifies out
    ensures out.text + rest == old(out.text) + PackOnto(count, messageType, rest)
  {
    hide Escape, Decimal.Render;
    ghost var s6 := "\">\n" + rest;
    ghost var s5 := Escape(VERSION_TOKEN) + s6;
    ghost var s4 := "\" version=\"" + s5;
    ghost var s3 := Escape(messageType) + s4;
    ghost var s2 := "\" messageType=\"" + s3;
    ghost var s1 := Decimal.Render(count) + s2;
    Put(out, "  <InvoicePack count=\"", s1);
    Put(out, Decimal.Render(count), s2);
    Put(out, "\" messageType=\"", s3);
    PutEscaped(out, messageType, s4);
    Put(out, "\" version=\"", s5);
    PutEscaped(out, VERSION_TOKEN, s6);
    Put(out, "\">\n", rest);
  }

  /** The first payload that cannot be embedded decides the error. */
  ghost predicate Refused(payloads: seq<MigPayload>, error: SerializeError) {
    exists i :: 0 <= i < |payloads| && Clean(payloads[..i]) && Offence(payloads[i], i) == Some(error)
  }

  lemma CleanPrefix(payloads: seq<MigPayload>, i: nat)
    requires i < |payloads| && Clean(payloads[..i]) && Offence(payloads[i], i).None?
    ensures Clean(payloads[..i + 1])
    ensures Texts(payloads[..i + 1]) == Texts(payloads[..i]) + [TextOf(payloads[i])]
  {
    var longer := payloads[..i + 1];
    assert longer[..i] == payloads[..i];
    forall j | 0 <= j < |longer|
      ensures Offence(longer[j], j).None?
    {
      if j < i {
        assert payloads[..i][j] == longer[j];
      }
    }
  }

  /** Splice the payloads, or stop at the first one that cannot be embedded. */
  method PushPayloads(out: TextBuffer, payloads: seq<MigPayload>) returns (error: Option<SerializeError>)
    modifies out
    ensures error.None? <==> Clean(payloads)
    ensures error.None? ==> out.text == old(out.text) + Middle(Texts(payloads))
    ensures error.Some? ==> Refused(payloads, error.value)
  {
    for i := 0 to |payloads|
      invariant Clean(payloads[..i]) && out.text == old(out.text) + Middle(Texts(payloads[..i]))
    {
      var decoded := Utf8.Decode(payloads[i]);
      if decoded.None? {
        return Some(PayloadNotUtf8(i));
      }
      if Embeds(decoded.value) {
        return Some(EmbeddedXmlDeclaration(i));
      }
      CleanPrefix(payloads, i);
      MiddleAppend(Texts(payloads[..i]), TextOf(payloads[i]));
      Assoc(old(out.text), Middle(Texts(payloads[..i])), Appended(TextOf(payloads[i])));
      hide Appended, Middle, Texts;
      AppendLikeJavaReadLine(out, decoded.value);
    }
    assert payloads[..|payloads|] == payloads;
    return None;
  }

  /** The bytes of a serialised envelope. */
  function Serialized(e: InvoiceEnvelope): bytes
    requires Clean(e.payloads)
  {
    hide Utf8.Encode, EnvelopeText, Middle, Texts, Offence;
    Utf8.Encode(EnvelopeText(e.routing, |e.payloads|, e.messageType, Middle(Texts(e.payloads))))
  }

  /** The bytes of an envelope whose payloads all embed; otherwise the first that does not. */
  ghost predicate SerializedAs(e: InvoiceEnvelope, r: Result<bytes, SerializeError>) {
    hide Clean, Serialized, Refused;
    if Clean(e.payloads) then r == Success(Serialized(e)) else r.Failure? && Refused(e.payloads, r.error)
  }

  method ToTurnkeyXml(e: InvoiceEnvelope) returns (r: Result<bytes, SerializeError>)
    ensures SerializedAs(e, r)
  {
    hide Opening, RoutingOnto, PackOnto, Clean, Closing, Middle, Texts, Offence, Refused, Utf8.Encode;
    ghost var ending := if Clean(e.payloads) then Middle(Texts(e.payloads)) + Closing() else "";
    var out := new TextBuffer();
    PushOpening(out);
    ghost var pack := PackOnto(|e.payloads|, e.messageType, ending);
    assert out.text == Opening();
    PushAllRouting(out, e.routing, pack);
    PushPack(out, |e.payloads|, e.messageType, ending);
    ghost var head := out.text;
    var error := PushPayloads(out, e.payloads);
    if error.Some? {
      return Failure(error.value);
    }
    Assoc(head, Middle(Texts(e.payloads)), Closing());
    out.PushStr(Closing());
    r := Success(Utf8.Encode(out.text));
  }
}
