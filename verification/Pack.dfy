/**
  `pack_and_sign`: envelope, CMS and armor composed, and the reader of an upload that undoes
  all of them, down to the invoices.
 */
module Pack {
  import opened Wrappers
  import opened Bytes
  import opened F0401Document
  import opened F0401Xml
  import opened InvoiceLines
  import opened NormalizedInvoices
  import opened LineEnds
  import opened Envelope
  import opened EnvelopeWire
  import opened Ber
  import opened SignedData
  import opened SignedDataReader
  import opened Armor
  import Utf8
  import F0401Printer

  /** A signing identity; the private-key operation itself is a parameter. */
  datatype Signer = Signer(certificate: bytes, issuer: bytes, serial: bytes, algorithm: SignatureAlgorithm,
                           sign: bytes -> Option<bytes>)

  datatype SignedArtifact = SignedArtifact(uploadBytes: bytes, envelopeSize: nat, algorithm: SignatureAlgorithm)

  datatype PackError = EnvelopeRefused(reason: SerializeError) | SigningFailed

  function PartsFor(signer: Signer, content: bytes, signature: bytes): CmsParts {
    CmsParts(content, signer.certificate, signer.issuer, signer.serial, signer.algorithm, signature)
  }

  /** What is signed and encoded fits in memory. */
  predicate Packable(e: InvoiceEnvelope, signer: Signer) {
    Clean(e.payloads) ==>
      var content := Serialized(e);
      signer.sign(content).Some? ==> InMemory(PartsFor(signer, content, signer.sign(content).value))
  }

  /** The bytes handed to `SendFile`. */
  function UploadOf(p: CmsParts): bytes
    requires InMemory(p)
  {
    Utf8.Encode(Armored(Encoded(p)))
  }

  /** What packing produces. */
  function ArtifactOf(e: InvoiceEnvelope, signer: Signer): SignedArtifact
    requires Clean(e.payloads) && signer.sign(Serialized(e)).Some?
    requires InMemory(PartsFor(signer, Serialized(e), signer.sign(Serialized(e)).value))
  {
    var content := Serialized(e);
    SignedArtifact(UploadOf(PartsFor(signer, content, signer.sign(content).value)), |content|, signer.algorithm)
  }

  /** What packing answers: it fails exactly on a payload that cannot be embedded, or on signing. */
  ghost predicate PackedAs(e: InvoiceEnvelope, signer: Signer, r: Result<SignedArtifact, PackError>)
    requires Packable(e, signer)
  {
    && (!Clean(e.payloads) ==> r.Failure? && r.error.EnvelopeRefused? && Refused(e.payloads, r.error.reason))
    && (Clean(e.payloads) ==> PackedContent(e, signer, r))
  }

  ghost predicate PackedContent(e: InvoiceEnvelope, signer: Signer, r: Result<SignedArtifact, PackError>)
    requires Packable(e, signer) && Clean(e.payloads)
  {
    if signer.sign(Serialized(e)).Some? then r == Success(ArtifactOf(e, signer)) else r == Failure(SigningFailed)
  }

  method PackAndSign(e: InvoiceEnvelope, signer: Signer) returns (r: Result<SignedArtifact, PackError>)
    requires Packable(e, signer)
    ensures PackedAs(e, signer, r)
    ensures Attested(e, signer, r)
  {
    hide Clean, Serialized, Refused, Encoded, Armored, Utf8.Encode, Attested, OneElement;
    var serialized := ToTurnkeyXml(e);
    if serialized.Failure? {
      r := Failure(EnvelopeRefused(serialized.error));
      FailureIsAttested(e, signer, r);
      return;
    }
    var content := serialized.value;
    var signature := signer.sign(content);
    if signature.None? {
      r := Failure(SigningFailed);
      FailureIsAttested(e, signer, r);
      return;
    }
    var cms := EncodeTurnkeySignedData(PartsFor(signer, content, signature.value));
    var text := ToTurnkeyArmored(cms);
    r := Success(SignedArtifact(Utf8.Encode(text), |content|, signer.algorithm));
    ArtifactIsAttested(e, signer, r.value);
  }

  // ---------------------------------------------------------------- reading an upload

  datatype DecodedUpload = DecodedUpload(routing: Routing, messageType: string, invoices: seq<Invoice>, signed: Signed)

  /** UTF-8, armor, Base64 and BER. */
  function DecodeSigned(upload: bytes): Option<Signed> {
    var text :- Utf8.Decode(upload);
    var cms :- Dearmor(text);
    DecodeSignedData(cms)
  }

  /** Envelope and invoices of the signed content. */
  function DecodeContent(content: bytes): Option<(Parsed, seq<Invoice>)> {
    hide ParseEnvelope, ReadInvoices, Utf8.Decode;
    var text :- Utf8.Decode(content);
    var parsed :- ParseEnvelope(text);
    var invoices :- ReadInvoices(parsed.middle);
    if |invoices| == parsed.count then Some((parsed, invoices)) else None
  }

  /** What a reader of the signed data finds, field by field. */
  predicate SignedBy(s: Signed, signer: Signer, content: bytes, signature: bytes) {
    && s.version == 1 && s.content == content && s.certificate == signer.certificate
    && s.signer.version == 1 && s.signer.issuer == signer.issuer && s.signer.serial == Unsigned(signer.serial)
    && s.signer.signatureAlgorithm == signer.algorithm && s.signer.signature == signature
  }

  /**
    The artifact of a signer whose certificate and issuer are one element each reads as the
    serialised envelope, with the certificate, issuer, serial number and algorithm of the
    signer, and the signature it made of exactly these bytes.
   */
  ghost predicate Attested(e: InvoiceEnvelope, signer: Signer, r: Result<SignedArtifact, PackError>) {
    hide Clean, Serialized, DecodeSigned, OneElement, SignedBy;
    r.Success? ==>
      && Clean(e.payloads) && signer.sign(Serialized(e)).Some?
      && r.value.envelopeSize == |Serialized(e)| && r.value.algorithm == signer.algorithm
      && (OneElement(signer.certificate) && OneElement(signer.issuer) ==>
            var s := DecodeSigned(r.value.uploadBytes);
            s.Some? && SignedBy(s.value, signer, Serialized(e), signer.sign(Serialized(e)).value))
  }

  lemma FailureIsAttested(e: InvoiceEnvelope, signer: Signer, r: Result<SignedArtifact, PackError>)
    requires r.Failure?
    ensures Attested(e, signer, r)
  {
  }

  lemma PartsAreSigned(signer: Signer, content: bytes, signature: bytes)
    ensures SignedBy(SignedOf(PartsFor(signer, content, signature)), signer, content, signature)
  {
  }

  lemma ArtifactIsAttested(e: InvoiceEnvelope, signer: Signer, artifact: SignedArtifact)
    requires Clean(e.payloads) && signer.sign(Serialized(e)).Some?
    requires InMemory(PartsFor(signer, Serialized(e), signer.sign(Serialized(e)).value))
    requires artifact == ArtifactOf(e, signer)
    ensures Attested(e, signer, Success(artifact))
  {
    hide Clean, Serialized, DecodeSigned, OneElement, SignedBy, SignedOf, UploadOf, InMemory, DecodeSignedData, Encoded;
    var content := Serialized(e);
    var signature := signer.sign(content).value;
    var p := PartsFor(signer, content, signature);
    if OneElement(signer.certificate) && OneElement(signer.issuer) {
      DecodeText(p);
      DecodesExactly(p);
      PartsAreSigned(signer, content, signature);
    }
  }

  function DecodeUpload(upload: bytes): Option<DecodedUpload> {
    hide DecodeSigned, DecodeContent;
    var signed :- DecodeSigned(upload);
    var (parsed, invoices) :- DecodeContent(signed.content);
    Some(DecodedUpload(parsed.routing, parsed.messageType, invoices, signed))
  }

  // ---------------------------------------------------------------- invoices as payloads

  function PayloadOf(v: Invoice): MigPayload {
    F0401Printer.XmlTextEnds(v);
    Utf8.Encode(XmlText(v))
  }

  function PayloadsOf(invoices: seq<Invoice>): seq<MigPayload> { Each(invoices, PayloadOf) }

  function EnvelopeOf(routing: Routing, messageType: string, invoices: seq<Invoice>): InvoiceEnvelope {
    InvoiceEnvelope(routing, messageType, PayloadsOf(invoices))
  }

  /** The text of an invoice can be embedded. */
  lemma InvoiceIsClean(v: Invoice, index: nat)
    ensures Offence(PayloadOf(v), index).None? && Utf8.Decode(PayloadOf(v)) == Some(XmlText(v))
  {
    Utf8.DecodeInverts(XmlText(v));
    F0401Printer.XmlTextEnds(v);
    hide XmlText, Utf8.Encode, Utf8.Decode;
    assert "<?xml"[1] == '?';
  }

  /** Packing invoices is never refused by the envelope. */
  lemma InvoicesAreClean(invoices: seq<Invoice>)
    ensures Clean(PayloadsOf(invoices)) && Texts(PayloadsOf(invoices)) == XmlTexts(invoices)
  {
    hide XmlText, Offence, PayloadOf, Utf8.Encode, Utf8.Decode;
    var payloads := PayloadsOf(invoices);
    forall i | 0 <= i < |payloads|
      ensures Offence(payloads[i], i).None?
    {
      InvoiceIsClean(invoices[i], i);
    }
    var texts := Texts(payloads);
    forall i | 0 <= i < |texts|
      ensures texts[i] == XmlTexts(invoices)[i]
    {
      InvoiceIsClean(invoices[i], i);
      Utf8.DecodeInverts(texts[i]);
    }
  }

  // ---------------------------------------------------------------- main results

  lemma DecodeText(p: CmsParts)
    requires InMemory(p)
    ensures DecodeSigned(UploadOf(p)) == DecodeSignedData(Encoded(p))
  {
    hide Utf8.Decode, Utf8.Encode, Dearmor, Armored, Encoded, DecodeSignedData;
    Utf8.DecodeInverts(Armored(Encoded(p)));
    DearmorInverts(Encoded(p));
  }

  /** The envelope text of a list of invoices. */
  function EnvelopeTextOf(routing: Routing, messageType: string, invoices: seq<Invoice>): string {
    EnvelopeText(routing, |invoices|, messageType, Middle(XmlTexts(invoices)))
  }

  /** Packing invoices is never refused by the envelope, and signs the bytes of that text. */
  lemma InvoicesSerialize(routing: Routing, messageType: string, invoices: seq<Invoice>)
    ensures Clean(EnvelopeOf(routing, messageType, invoices).payloads)
    ensures Serialized(EnvelopeOf(routing, messageType, invoices)) ==
            Utf8.Encode(EnvelopeTextOf(routing, messageType, invoices))
  {
    InvoicesAreClean(invoices);
    hide Clean, Utf8.Encode, EnvelopeText, Middle, Texts, XmlTexts;
  }

  lemma EncodableIsInMemory(p: CmsParts)
    requires Encodable(p)
    ensures InMemory(p)
  {
  }

  lemma SignedContent(p: CmsParts)
    ensures SignedOf(p).content == p.content
  {
  }

  /** An upload decodes to what its signed envelope text says. */
  lemma DecodeSteps(p: CmsParts, text: string, parsed: Parsed)
    requires Encodable(p)
    requires p.content == Utf8.Encode(text) && ParseEnvelope(text) == Some(parsed)
    ensures var invoices := ReadInvoices(parsed.middle);
            DecodeUpload(UploadOf(p)) ==
            if invoices.Some? && |invoices.value| == parsed.count
            then Some(DecodedUpload(parsed.routing, parsed.messageType, invoices.value, SignedOf(p)))
            else None
  {
    hide Utf8.Decode, Utf8.Encode, DecodeSigned, ParseEnvelope, ReadInvoices, UploadOf, SignedOf, Encodable;
    hide DecodeSignedData, Encoded;
    EncodableIsInMemory(p);
    DecodeText(p);
    DecodeInverts(p);
    Utf8.DecodeInverts(text);
    SignedContent(p);
  }

  /** The upload decodes to this routing, this message type and these invoices. */
  predicate Carries(upload: bytes, routing: Routing, messageType: string, invoices: seq<Invoice>) {
    hide DecodeUpload;
    var d := DecodeUpload(upload);
    d.Some? && d.value.routing == routing && d.value.messageType == messageType && d.value.invoices == invoices
  }

  lemma UploadCarries(routing: Routing, messageType: string, invoices: seq<Invoice>, p: CmsParts)
    requires Encodable(p) && p.content == Utf8.Encode(EnvelopeTextOf(routing, messageType, invoices))
    ensures Carries(UploadOf(p), routing, messageType, LineFeedsOnly(invoices))
    ensures Carries(UploadOf(p), routing, messageType, invoices) <==> NoCarriageReturn(invoices)
  {
    hide Encodable, Utf8.Encode, EnvelopeTextOf, DecodeUpload, UploadOf, SignedOf, NoCarriageReturn, LineFeedsOnly;
    UploadReads(routing, messageType, invoices, p);
    LineFeedsOnlyExactly(invoices);
  }

  /** An upload always reads as its invoices with their line ends normalised. */
  lemma UploadReads(routing: Routing, messageType: string, invoices: seq<Invoice>, p: CmsParts)
    requires Encodable(p) && p.content == Utf8.Encode(EnvelopeTextOf(routing, messageType, invoices))
    ensures DecodeUpload(UploadOf(p)) ==
            Some(DecodedUpload(routing, messageType, LineFeedsOnly(invoices), SignedOf(p)))
  {
    hide Encodable, Utf8.Encode, ParseEnvelope, ReadInvoices, Middle, XmlTexts, WithLineFeeds;
    hide EnvelopeText, DecodeUpload, UploadOf, SignedOf;
    var middle := Middle(XmlTexts(invoices));
    ParseEnvelopeInverts(routing, |invoices|, messageType, middle);
    DecodeSteps(p, EnvelopeText(routing, |invoices|, messageType, middle),
                Parsed(routing, |invoices|, messageType, middle));
    MiddleReads(invoices);
  }

  /** Certificate and issuer of whatever upload decodes are one element each. */
  lemma SignedIsWhole(upload: bytes)
    requires DecodeUpload(upload).Some?
    ensures var s := DecodeUpload(upload).value.signed; OneElement(s.certificate) && OneElement(s.signer.issuer)
  {
    hide DecodeContent, DecodeSignedData, OneElement, Utf8.Decode, Dearmor;
    DecodedIsWhole(Dearmor(Utf8.Decode(upload).value).value);
  }

  /** The upload reads as this pack, signed by this signer over these bytes. */
  predicate ReadsAsPack(upload: bytes, routing: Routing, messageType: string, invoices: seq<Invoice>, signer: Signer,
                        content: bytes, signature: bytes) {
    hide DecodeUpload;
    var d := DecodeUpload(upload);
    && d.Some? && d.value.routing == routing && d.value.messageType == messageType && d.value.invoices == invoices
    && SignedBy(d.value.signed, signer, content, signature)
  }

  /**
    From F0401 to the upload and back.  For every list of invoices, decoding the upload
    (UTF-8, armor, Base64, BER, envelope, XML) yields the routing, the message type, the
    invoices with their line ends normalised, as the line profile rewrites them, and content,
    certificate, issuer, serial number, algorithm and signature, exactly when certificate and
    issuer are one element each; so it yields the invoices exactly when, besides, no text
    field holds a carriage return.
   */
  lemma UploadDecodesExactly(routing: Routing, messageType: string, invoices: seq<Invoice>, signer: Signer,
                             signature: bytes)
    ensures var content := Utf8.Encode(EnvelopeTextOf(routing, messageType, invoices));
            var p := PartsFor(signer, content, signature);
            InMemory(p) ==> DecodesWhenWhole(UploadOf(p), routing, messageType, invoices, signer, content, signature)
  {
    hide InMemory, Encodable, Utf8.Encode, EnvelopeTextOf, DecodeUpload, UploadOf, NoCarriageReturn;
    hide LineFeedsOnly, OneElement, SignedOf, SignedBy;
    var content := Utf8.Encode(EnvelopeTextOf(routing, messageType, invoices));
    var p := PartsFor(signer, content, signature);
    if InMemory(p) {
      WholeIsEncodable(p);
      PartsAreSigned(signer, content, signature);
      LineFeedsOnlyExactly(invoices);
      if Encodable(p) {
        UploadReads(routing, messageType, invoices, p);
      } else if DecodeUpload(UploadOf(p)).Some? {
        SignedIsWhole(UploadOf(p));
        var d := DecodeUpload(UploadOf(p)).value;
        if SignedBy(d.signed, signer, content, signature) {
          SignedFields(d.signed, signer, content, signature);
        }
      }
    }
  }

  lemma SignedFields(s: Signed, signer: Signer, content: bytes, signature: bytes)
    requires SignedBy(s, signer, content, signature)
    ensures s.certificate == signer.certificate && s.signer.issuer == signer.issuer
  {
  }

  lemma WholeIsEncodable(p: CmsParts)
    requires InMemory(p)
    ensures Encodable(p) <==> OneElement(p.certificate) && OneElement(p.issuer)
  {
  }

  /** When the upload decodes to normalised invoices, and when to the invoices themselves. */
  predicate DecodesWhenWhole(upload: bytes, routing: Routing, messageType: string, invoices: seq<Invoice>,
                             signer: Signer, content: bytes, signature: bytes) {
    hide NoCarriageReturn, LineFeedsOnly, OneElement, ReadsAsPack;
    var whole := OneElement(signer.certificate) && OneElement(signer.issuer);
    && (ReadsAsPack(upload, routing, messageType, LineFeedsOnly(invoices), signer, content, signature) <==> whole)
    && (ReadsAsPack(upload, routing, messageType, invoices, signer, content, signature) <==>
        whole && NoCarriageReturn(invoices))
  }

  /** One to a thousand invoices always give an envelope. */
  lemma InvoicesAlwaysPack(routing: Routing, messageType: string, invoices: seq<Invoice>)
    requires 1 <= |invoices| <= MAX_PAYLOADS
    ensures NewEnvelope(routing, messageType, PayloadsOf(invoices)) ==
            Success(EnvelopeOf(routing, messageType, invoices))
    ensures Clean(EnvelopeOf(routing, messageType, invoices).payloads)
    ensures forall v :: v in invoices ==> NewPayload(Utf8.Encode(XmlText(v))) == Success(PayloadOf(v))
  {
    InvoicesAreClean(invoices);
    hide Clean, XmlText, Utf8.Encode;
  }

  /** The upload text is ASCII, so its size is its number of characters. */
  lemma UploadSize(p: CmsParts)
    requires InMemory(p)
    ensures |UploadOf(p)| == |Armored(Encoded(p))|
  {
    ArmoredIsAscii(Encoded(p));
    hide Armored, Encoded;
    Utf8.EncodeAscii(Armored(Encoded(p)));
  }

  lemma ArmoredIsAscii(data: bytes)
    ensures Utf8.IsAscii(Armored(data))
  {
    EncodedIsAscii(data);
    LinesAreAscii(Base64Text(data));
  }

  function Base64Text(data: bytes): string { Armor.Base64.Encode(data) }

  lemma {:induction false} EncodedIsAscii(data: bytes)
    ensures Utf8.IsAscii(Base64Text(data))
    decreases |data|
  {
    if |data| > 3 {
      EncodedIsAscii(data[3..]);
    }
  }

  lemma {:induction false} LinesAreAscii(s: string)
    requires Utf8.IsAscii(s)
    ensures Utf8.IsAscii(Println(Chunks(s)))
    decreases |s|
  {
    if s == "" {
    } else if |s| <= LINE_WIDTH {
      assert [s][1..] == [] && Println([]) == "";
    } else {
      assert Chunks(s)[1..] == Chunks(s[LINE_WIDTH..]);
      LinesAreAscii(s[LINE_WIDTH..]);
    }
  }
}
