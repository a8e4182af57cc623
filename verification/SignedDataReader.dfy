/** Reading the encoding back: the element tree of X.690 and the structure of RFC 5652. */
module SignedDataReader {
  import opened Wrappers
  import opened Bytes
  import opened Ber
  import opened SignedData

  datatype SignerInfo = SignerInfo(version: int, issuer: bytes, serial: int, digestAlgorithm: bytes,
                                   signatureAlgorithm: SignatureAlgorithm, signature: bytes)

  datatype Signed = Signed(version: int, digestAlgorithm: bytes, content: bytes, certificate: bytes, signer: SignerInfo)

  /** The elements of a container that has the tag and `count` of them. */
  function Kids(e: Element, tag: byte, count: nat): (r: Option<seq<Element>>)
    ensures r.Some? ==> |r.value| == count
  {
    if e.tag == tag && e.body.Elements? && |e.body.children| == count then Some(e.body.children) else None
  }

  function ReadInteger(e: Element): Option<int> {
    if e.tag == 0x02 && e.body.Octets? && e.body.content != [] && Minimal(e.body.content)
    then Some(Ber.Signed(e.body.content))
    else None
  }

  function ReadOctetString(e: Element): Option<bytes> {
    if e.tag == 0x04 && e.body.Octets? then Some(e.body.content) else None
  }

  /** The encoded object identifier of an algorithm whose parameters are NULL. */
  function ReadAlgorithm(e: Element): Option<bytes> {
    var kids :- Kids(e, 0x30, 2);
    if kids[0].tag == 0x06 && kids[1].raw == ASN1_NULL then Some(kids[0].raw) else None
  }

  function ReadSignatureAlgorithm(oid: bytes): Option<SignatureAlgorithm> {
    if oid == OID_SHA256_WITH_RSA then Some(RsaPkcs1v15Sha256)
    else if oid == OID_ECDSA_WITH_SHA256 then Some(EcdsaSha256)
    else None
  }

  /** SignerInfo (RFC 5652, section 5.3) without attributes. */
  function ReadSigner(e: Element): Option<SignerInfo> {
    var kids :- Kids(e, 0x30, 5);
    var version :- ReadInteger(kids[0]);
    var identifier :- Kids(kids[1], 0x30, 2);
    var serial :- ReadInteger(identifier[1]);
    var digest :- ReadAlgorithm(kids[2]);
    var oid :- ReadAlgorithm(kids[3]);
    var algorithm :- ReadSignatureAlgorithm(oid);
    var signature :- ReadOctetString(kids[4]);
    Some(SignerInfo(version, identifier[0].raw, serial, digest, algorithm, signature))
  }

  /** EncapsulatedContentInfo (section 5.2) of type data. */
  function ReadEncapsulated(e: Element): Option<bytes> {
    var kids :- Kids(e, 0x30, 2);
    var explicit :- Kids(kids[1], 0xa0, 1);
    if kids[0].raw == OID_DATA then ReadOctetString(explicit[0]) else None
  }

  /** SignedData (section 5.1) with one digest algorithm, one certificate and one signer. */
  function ReadSigned(e: Element): Option<Signed> {
    var kids :- Kids(e, 0x30, 5);
    var version :- ReadInteger(kids[0]);
    var digests :- Kids(kids[1], 0x31, 1);
    var digest :- ReadAlgorithm(digests[0]);
    var content :- ReadEncapsulated(kids[2]);
    var certificates :- Kids(kids[3], 0xa0, 1);
    var signers :- Kids(kids[4], 0x31, 1);
    var signer :- ReadSigner(signers[0]);
    Some(Signed(version, digest, content, certificates[0].raw, signer))
  }

  /** ContentInfo (section 3) of type signedData. */
  function ReadContentInfo(e: Element): Option<Signed> {
    var kids :- Kids(e, 0x30, 2);
    var explicit :- Kids(kids[1], 0xa0, 1);
    if kids[0].raw == OID_SIGNED_DATA then ReadSigned(explicit[0]) else None
  }

  function DecodeSignedData(b: bytes): Option<Signed> {
    var (e, rest) :- ReadElement(b);
    if rest == [] then ReadContentInfo(e) else None
  }

  // ---------------------------------------------------------------- the mixed layout

  /** A container of indefinite length. */
  predicate Open(e: Element, tag: byte, count: nat) {
    e.tag == tag && e.body.Elements? && e.body.indefinite && |e.body.children| == count
  }

  /** A container of definite length. */
  predicate Counted(e: Element, tag: byte, count: nat) {
    e.tag == tag && e.body.Elements? && !e.body.indefinite && |e.body.children| == count
  }

  /**
    ContentInfo, SignedData, the encapsulated content and the certificates are of indefinite
    length, and so are the explicit wrappers; the algorithms and the signer are of definite length.
   */
  predicate MixedLayout(e: Element) {
    && Open(e, 0x30, 2) && Open(e.body.children[1], 0xa0, 1)
    && InnerLayout(e.body.children[1].body.children[0])
  }

  predicate InnerLayout(signed: Element) {
    && Open(signed, 0x30, 5)
    && var fields := signed.body.children;
       && Counted(fields[1], 0x31, 1) && Open(fields[2], 0x30, 2) && Open(fields[2].body.children[1], 0xa0, 1)
       && Open(fields[3], 0xa0, 1) && Counted(fields[4], 0x31, 1) && Counted(fields[4].body.children[0], 0x30, 5)
  }

  // ---------------------------------------------------------------- object identifiers

  /** Numbers in base 128 with continuation bits (section 8.19 of X.690). */
  function SubIdentifiers(b: bytes, carried: nat): Option<seq<nat>>
    decreases |b|
  {
    if b == [] then (if carried == 0 then Some([]) else None)
    else if b[0] >= 0x80 then SubIdentifiers(b[1..], (carried + b[0] - 0x80) * 128)
    else
      var rest :- SubIdentifiers(b[1..], 0);
      Some([carried + b[0]] + rest)
  }

  /** The arcs that an encoded object identifier names. */
  function Arcs(b: bytes): Option<seq<nat>> {
    if |b| < 3 || b[0] != 0x06 || b[1] >= 0x80 || b[1] as int != |b| - 2 then None
    else
      var numbers :- SubIdentifiers(b[2..], 0);
      if numbers == [] then None
      else
        var first := if numbers[0] < 80 then numbers[0] / 40 else 2;
        Some([first, numbers[0] - 40 * first] + numbers[1..])
  }

  // ---------------------------------------------------------------- trees

  /** In memory, with a certificate and an issuer that are one element each. */
  predicate Encodable(p: CmsParts) { InMemory(p) && OneElement(p.issuer) && OneElement(p.certificate) }

  function TreeOf(b: bytes): Element
    requires OneElement(b)
  {
    ReadElement(b).value.0
  }

  function PrimitiveTree(tag: byte, body: bytes): Element
    requires |body| < WORD
  {
    Element(Tlv(tag, body), tag, Octets(body))
  }

  function ConstructedTree(tag: byte, parts: seq<bytes>, es: seq<Element>): Element
    requires |Flatten(parts)| < WORD
  {
    Element(Constructed(tag, parts), tag, Elements(false, es))
  }

  function IndefiniteTree(tag: byte, parts: seq<bytes>, es: seq<Element>): Element {
    Element(Indefinite(tag, parts), tag, Elements(true, es))
  }

  /** A constant that spells out a short primitive element. */
  lemma LiteralReads(b: bytes)
    requires |b| >= 2 && IsLowTag(b[0]) && !IsConstructed(b[0]) && b[1] as int == |b| - 2 < 128
    ensures ReadsAs(b, Element(b, b[0], Octets(b[2..])))
  {
    PrimitiveReads(b[0], b[2..]);
    assert Tlv(b[0], b[2..]) == b;
  }

  function AlgorithmTree(oid: bytes): Element
    requires 2 <= |oid| <= 11 && oid[0] == 6
  {
    FlattenTwo(oid, ASN1_NULL);
    ConstructedTree(0x30, [oid, ASN1_NULL], [Element(oid, 6, Octets(oid[2..])), Element(ASN1_NULL, 5, Octets([]))])
  }

  lemma AlgorithmReads(oid: bytes)
    requires 2 <= |oid| <= 11 && oid[0] == 6 && oid[1] as int == |oid| - 2
    ensures ReadsAs(AlgorithmIdentifier(oid), AlgorithmTree(oid))
    ensures ReadAlgorithm(AlgorithmTree(oid)) == Some(oid)
  {
    FlattenTwo(oid, ASN1_NULL);
    LiteralReads(oid);
    LiteralReads(ASN1_NULL);
    assert ASN1_NULL[2..] == [];
    hide ReadsAs;
    ConstructedReads(0x30, [oid, ASN1_NULL], [Element(oid, 6, Octets(oid[2..])), Element(ASN1_NULL, 5, Octets([]))]);
  }

  function OneTree(): Element { Element(INTEGER_ONE, 2, Octets([1])) }

  lemma OneReads()
    ensures ReadsAs(INTEGER_ONE, OneTree())
    ensures ReadInteger(OneTree()) == Some(1)
  {
    LiteralReads(INTEGER_ONE);
    assert INTEGER_ONE[2..] == [1];
    assert [1][..0] == [] && Unsigned([]) == 0;
    assert Unsigned([1]) == 1;
  }

  // ---------------------------------------------------------------- the signer

  function IdentifierTree(p: CmsParts): Element
    requires InMemory(p) && OneElement(p.issuer)
  {
    FlattenTwo(p.issuer, Tlv(0x02, IntegerBody(p.serial)));
    ConstructedTree(0x30, [p.issuer, Tlv(0x02, IntegerBody(p.serial))],
                    [TreeOf(p.issuer), PrimitiveTree(0x02, IntegerBody(p.serial))])
  }

  lemma IdentifierReads(p: CmsParts)
    requires InMemory(p) && OneElement(p.issuer)
    ensures ReadsAs(IssuerAndSerial(p), IdentifierTree(p))
    ensures var kids := Kids(IdentifierTree(p), 0x30, 2);
            kids.Some? && kids.value[0].raw == p.issuer && ReadInteger(kids.value[1]) == Some(Unsigned(p.serial))
  {
    hide ReadsAs, IntegerBody;
    var serial := IntegerBody(p.serial);
    FlattenTwo(p.issuer, Tlv(0x02, serial));
    WholeElementReads(p.issuer);
    IntegerBodyExact(p.serial);
    PrimitiveReads(0x02, serial);
    ConstructedReads(0x30, [p.issuer, Tlv(0x02, serial)], [TreeOf(p.issuer), PrimitiveTree(0x02, serial)]);
  }

  function SignerTrees(p: CmsParts): seq<Element>
    requires InMemory(p) && OneElement(p.issuer)
  {
    [OneTree(), IdentifierTree(p), AlgorithmTree(OID_SHA256), AlgorithmTree(SignatureOid(p.algorithm)),
     PrimitiveTree(0x04, p.signature)]
  }

  function SignerOf(p: CmsParts): SignerInfo {
    SignerInfo(1, p.issuer, Unsigned(p.serial), OID_SHA256, p.algorithm, p.signature)
  }

  lemma SignatureAlgorithmReads(a: SignatureAlgorithm)
    ensures ReadSignatureAlgorithm(SignatureOid(a)) == Some(a)
  {
    assert OID_SHA256_WITH_RSA[1] != OID_ECDSA_WITH_SHA256[1];
  }

  lemma SignerReads(p: CmsParts)
    requires InMemory(p) && OneElement(p.issuer)
    ensures ReadsAs(Constructed(0x30, SignerParts(p)), ConstructedTree(0x30, SignerParts(p), SignerTrees(p)))
    ensures ReadSigner(ConstructedTree(0x30, SignerParts(p), SignerTrees(p))) == Some(SignerOf(p))
  {
    OneReads();
    IdentifierReads(p);
    AlgorithmReads(OID_SHA256);
    AlgorithmReads(SignatureOid(p.algorithm));
    PrimitiveReads(0x04, p.signature);
    SignatureAlgorithmReads(p.algorithm);
    assert ReadOctetString(PrimitiveTree(0x04, p.signature)) == Some(p.signature);
    hide ReadsAs, ReadInteger, ReadAlgorithm, ReadOctetString, ReadSignatureAlgorithm, SignatureOid;
    hide AlgorithmIdentifier, IssuerAndSerial, AlgorithmTree, IdentifierTree, PrimitiveTree, OneTree, Tlv, Flatten;
    ConstructedReads(0x30, SignerParts(p), SignerTrees(p));
  }

  // ---------------------------------------------------------------- SignedData

  function EncapsulatedTree(p: CmsParts): Element
    requires InMemory(p)
  {
    var explicit := IndefiniteTree(0xa0, [Tlv(0x04, p.content)], [PrimitiveTree(0x04, p.content)]);
    IndefiniteTree(0x30, [OID_DATA, explicit.raw], [Element(OID_DATA, 6, Octets(OID_DATA[2..])), explicit])
  }

  lemma EncapsulatedReads(p: CmsParts)
    requires InMemory(p)
    ensures ReadsAs(Encapsulated(p), EncapsulatedTree(p))
    ensures ReadEncapsulated(EncapsulatedTree(p)) == Some(p.content)
  {
    var octets := Tlv(0x04, p.content);
    PrimitiveReads(0x04, p.content);
    LiteralReads(OID_DATA);
    hide ReadsAs, Tlv, Indefinite;
    IndefiniteReads(0xa0, [octets], [PrimitiveTree(0x04, p.content)]);
    var explicit := IndefiniteTree(0xa0, [octets], [PrimitiveTree(0x04, p.content)]);
    IndefiniteReads(0x30, [OID_DATA, explicit.raw], [Element(OID_DATA, 6, Octets(OID_DATA[2..])), explicit]);
  }

  function DigestsTree(): Element {
    FlattenOne(AlgorithmIdentifier(OID_SHA256));
    ConstructedTree(0x31, [AlgorithmIdentifier(OID_SHA256)], [AlgorithmTree(OID_SHA256)])
  }

  lemma DigestsRead()
    ensures ReadsAs(DigestAlgorithms(), DigestsTree())
    ensures var kids := Kids(DigestsTree(), 0x31, 1); kids.Some? && ReadAlgorithm(kids.value[0]) == Some(OID_SHA256)
  {
    FlattenOne(AlgorithmIdentifier(OID_SHA256));
    AlgorithmReads(OID_SHA256);
    hide ReadsAs, AlgorithmTree, ReadAlgorithm;
    ConstructedReads(0x31, [AlgorithmIdentifier(OID_SHA256)], [AlgorithmTree(OID_SHA256)]);
  }

  function SignersTree(p: CmsParts): Element
    requires InMemory(p) && OneElement(p.issuer)
  {
    FlattenOne(Constructed(0x30, SignerParts(p)));
    ConstructedTree(0x31, [Constructed(0x30, SignerParts(p))], [ConstructedTree(0x30, SignerParts(p), SignerTrees(p))])
  }

  lemma SignersRead(p: CmsParts)
    requires InMemory(p) && OneElement(p.issuer)
    ensures ReadsAs(SignerInfos(p), SignersTree(p))
    ensures var kids := Kids(SignersTree(p), 0x31, 1); kids.Some? && ReadSigner(kids.value[0]) == Some(SignerOf(p))
  {
    hide ReadsAs, SignerTrees, ReadSigner;
    var signer := Constructed(0x30, SignerParts(p));
    FlattenOne(signer);
    SignerReads(p);
    ConstructedReads(0x31, [signer], [ConstructedTree(0x30, SignerParts(p), SignerTrees(p))]);
  }

  function CertificateTree(p: CmsParts): Element
    requires OneElement(p.certificate)
  {
    IndefiniteTree(0xa0, [p.certificate], [TreeOf(p.certificate)])
  }

  function InnerTrees(p: CmsParts): seq<Element>
    requires InMemory(p) && OneElement(p.issuer) && OneElement(p.certificate)
  {
    [OneTree(), DigestsTree(), EncapsulatedTree(p), CertificateTree(p), SignersTree(p)]
  }

  function SignedOf(p: CmsParts): Signed { Signed(1, OID_SHA256, p.content, p.certificate, SignerOf(p)) }

  lemma CertificateReads(p: CmsParts)
    requires OneElement(p.certificate)
    ensures ReadsAs(Indefinite(0xa0, [p.certificate]), CertificateTree(p))
    ensures var kids := Kids(CertificateTree(p), 0xa0, 1); kids.Some? && kids.value[0].raw == p.certificate
  {
    hide ReadElement, ReadsAs, Indefinite;
    WholeElementReads(p.certificate);
    IndefiniteReads(0xa0, [p.certificate], [TreeOf(p.certificate)]);
  }

  lemma InnerBytesRead(p: CmsParts)
    requires InMemory(p) && OneElement(p.issuer) && OneElement(p.certificate)
    ensures ReadsAs(Indefinite(0x30, InnerParts(p)), IndefiniteTree(0x30, InnerParts(p), InnerTrees(p)))
  {
    hide ReadsAs, Indefinite, Encapsulated, DigestAlgorithms, SignerInfos, OneElement, InMemory;
    hide OneTree, DigestsTree, EncapsulatedTree, SignersTree, CertificateTree;
    hide Kids, ReadInteger, ReadAlgorithm, ReadEncapsulated, ReadSigner;
    OneReads();
    DigestsRead();
    EncapsulatedReads(p);
    SignersRead(p);
    CertificateReads(p);
    IndefiniteReads(0x30, InnerParts(p), InnerTrees(p));
  }

  /** Reading SignedData from its five fields. */
  lemma SignedFrom(raw: bytes, kids: seq<Element>, p: CmsParts)
    requires |kids| == 5 && ReadInteger(kids[0]) == Some(1)
    requires Kids(kids[1], 0x31, 1).Some? && ReadAlgorithm(Kids(kids[1], 0x31, 1).value[0]) == Some(OID_SHA256)
    requires ReadEncapsulated(kids[2]) == Some(p.content)
    requires Kids(kids[3], 0xa0, 1).Some? && Kids(kids[3], 0xa0, 1).value[0].raw == p.certificate
    requires Kids(kids[4], 0x31, 1).Some? && ReadSigner(Kids(kids[4], 0x31, 1).value[0]) == Some(SignerOf(p))
    ensures ReadSigned(Element(raw, 0x30, Elements(true, kids))) == Some(SignedOf(p))
  {
    hide ReadInteger, ReadAlgorithm, ReadEncapsulated, ReadSigner, SignerOf;
  }

  lemma InnerReads(p: CmsParts)
    requires InMemory(p) && OneElement(p.issuer) && OneElement(p.certificate)
    ensures ReadSigned(IndefiniteTree(0x30, InnerParts(p), InnerTrees(p))) == Some(SignedOf(p))
  {
    hide ReadsAs, Indefinite, ReadInteger, ReadAlgorithm, ReadEncapsulated, ReadSigner, ReadSigned, SignedOf, Kids;
    hide OneTree, DigestsTree, EncapsulatedTree, SignersTree, CertificateTree, OneElement, InMemory, InnerParts;
    hide SignerOf;
    OneReads();
    DigestsRead();
    EncapsulatedReads(p);
    SignersRead(p);
    CertificateReads(p);
    SignedFrom(Indefinite(0x30, InnerParts(p)), InnerTrees(p), p);
  }

  // ---------------------------------------------------------------- main result

  /**
    The whole encoding is one element: every opened container is closed and no octet is
    left over.  Reading it by RFC 5652 gives back content, certificate, issuer, serial
    number, algorithm and signature, whenever certificate and issuer are one element each.
   */
  lemma DecodeInverts(p: CmsParts)
    requires Encodable(p)
    ensures DecodeSignedData(Encoded(p)) == Some(SignedOf(p))
  {
    InnerBytesRead(p);
    InnerReads(p);
    hide ReadSigned, InnerParts, InnerTrees, SignedOf, OneElement, ReadElement;
    var inner := IndefiniteTree(0x30, InnerParts(p), InnerTrees(p));
    var whole := ContentInfoReads(inner);
    assert Encoded(p) == whole.raw;
    ReadsWhole(Encoded(p), whole);
  }

  /** Certificate and issuer of whatever is decoded are one element each. */
  lemma DecodedIsWhole(b: bytes)
    requires DecodeSignedData(b).Some?
    ensures var s := DecodeSignedData(b).value; OneElement(s.certificate) && OneElement(s.signer.issuer)
  {
    hide ReadElement, OneElement, ReadInteger, ReadAlgorithm, ReadEncapsulated, ReadSigner;
    ElementIsWhole(b);
    var e := ReadElement(b).value.0;
    var content := e.body.children[1];
    var signed := content.body.children[0];
    assert Whole(content) && Whole(signed);
    var certificates, signers := signed.body.children[3], signed.body.children[4];
    assert Whole(certificates) && Whole(certificates.body.children[0]);
    assert Whole(signers) && Whole(signers.body.children[0]);
    IssuerIsWhole(signers.body.children[0]);
  }

  lemma IssuerIsWhole(e: Element)
    requires Whole(e) && ReadSigner(e).Some?
    ensures OneElement(ReadSigner(e).value.issuer)
  {
    hide OneElement, ReadInteger, ReadAlgorithm, ReadSignatureAlgorithm, ReadOctetString;
    var identifier := e.body.children[1];
    assert Whole(identifier) && Whole(identifier.body.children[0]);
  }

  /**
    Reading the encoding gives back all parts exactly when certificate and issuer are one
    element each.
   */
  lemma DecodesExactly(p: CmsParts)
    requires InMemory(p)
    ensures DecodeSignedData(Encoded(p)) == Some(SignedOf(p)) <==> OneElement(p.certificate) && OneElement(p.issuer)
  {
    hide OneElement, DecodeSignedData, Encoded, InMemory;
    if OneElement(p.certificate) && OneElement(p.issuer) {
      DecodeInverts(p);
    }
    if DecodeSignedData(Encoded(p)) == Some(SignedOf(p)) {
      DecodedIsWhole(Encoded(p));
    }
  }

  /** ContentInfo around a SignedData that reads as `inner`. */
  lemma ContentInfoReads(inner: Element) returns (whole: Element)
    requires ReadsAs(inner.raw, inner)
    ensures whole.raw == Indefinite(0x30, [OID_SIGNED_DATA, Indefinite(0xa0, [inner.raw])])
    ensures ReadsAs(whole.raw, whole) && ReadContentInfo(whole) == ReadSigned(inner)
    ensures Open(whole, 0x30, 2) && Open(whole.body.children[1], 0xa0, 1)
    ensures whole.body.children[1].body.children[0] == inner
  {
    LiteralReads(OID_SIGNED_DATA);
    hide ReadsAs, Indefinite, ReadSigned;
    IndefiniteReads(0xa0, [inner.raw], [inner]);
    var explicit := IndefiniteTree(0xa0, [inner.raw], [inner]);
    var oid := Element(OID_SIGNED_DATA, 6, Octets(OID_SIGNED_DATA[2..]));
    IndefiniteReads(0x30, [OID_SIGNED_DATA, explicit.raw], [oid, explicit]);
    whole := IndefiniteTree(0x30, [OID_SIGNED_DATA, explicit.raw], [oid, explicit]);
  }

  lemma ReadsWhole(b: bytes, e: Element)
    requires ReadsAs(b, e)
    ensures ReadElement(b) == Some((e, []))
  {
    assert b + [] == b;
  }

  /** Different signed contents, certificates or signatures never have the same encoding. */
  lemma EncodedInjective(p: CmsParts, q: CmsParts)
    requires Encodable(p) && Encodable(q)
    ensures Encoded(p) == Encoded(q) ==>
            p.(serial := []) == q.(serial := []) && Unsigned(p.serial) == Unsigned(q.serial)
  {
    DecodeInverts(p);
    DecodeInverts(q);
    hide Encoded, DecodeSignedData, Encodable;
  }

  // ---------------------------------------------------------------- identifiers and layout

  /** A final octet ends one number. */
  lemma LastOctet(octet: byte, carried: nat, tail: bytes, rest: seq<nat>)
    requires octet < 0x80 && SubIdentifiers(tail, 0) == Some(rest)
    ensures SubIdentifiers([octet] + tail, carried) == Some([carried + octet] + rest)
  {
    assert ([octet] + tail)[1..] == tail;
  }

  /** Any other octet is carried into the next. */
  lemma CarriedOctet(octet: byte, carried: nat, tail: bytes, all: seq<nat>)
    requires octet >= 0x80 && SubIdentifiers(tail, (carried + octet - 0x80) * 128) == Some(all)
    ensures SubIdentifiers([octet] + tail, carried) == Some(all)
  {
    assert ([octet] + tail)[1..] == tail;
  }

  lemma Rsadsi(last: bytes, rest: seq<nat>)
    requires SubIdentifiers(last, 0) == Some(rest)
    ensures SubIdentifiers([0x2a, 0x86, 0x48, 0x86, 0xf7, 0x0d] + last, 0) == Some([42, 840, 113549] + rest)
  {
    hide SubIdentifiers;
    var one: seq<nat> := [113549] + rest;
    var two: seq<nat> := [840] + one;
    LastOctet(0x0d, 113536, last, rest);
    CarriedOctet(0xf7, 768, [0x0d] + last, one);
    CarriedOctet(0x86, 0, [0xf7] + ([0x0d] + last), one);
    var company := [0x86] + ([0xf7] + ([0x0d] + last));
    LastOctet(0x48, 768, company, one);
    CarriedOctet(0x86, 0, [0x48] + company, two);
    LastOctet(0x2a, 0, [0x86] + ([0x48] + company), two);
    assert [0x2a, 0x86, 0x48, 0x86, 0xf7, 0x0d] + last == [0x2a] + ([0x86] + ([0x48] + company));
    assert [42, 840, 113549] + rest == [42] + two;
  }

  lemma SmallArcs(a: byte, b: byte, c: byte)
    requires a < 0x80 && b < 0x80 && c < 0x80
    ensures SubIdentifiers([a, b, c], 0) == Some([a as nat, b as nat, c as nat])
  {
    assert SubIdentifiers([], 0) == Some([]);
    hide SubIdentifiers;
    LastOctet(c, 0, [], []);
    LastOctet(b, 0, [c] + [], [c as nat] + []);
    LastOctet(a, 0, [b] + ([c] + []), [b as nat] + ([c as nat] + []));
    assert [a, b, c] == [a] + ([b] + ([c] + []));
    assert [a as nat, b as nat, c as nat] == [a as nat] + ([b as nat] + ([c as nat] + []));
  }

  /** The first number holds two arcs. */
  lemma ArcsFrom(oid: bytes, body: bytes, numbers: seq<nat>, arcs: seq<nat>)
    requires 2 < |oid| < 130 && oid[0] == 6 && oid[1] as int == |oid| - 2 && oid[2..] == body
    requires SubIdentifiers(body, 0) == Some(numbers) && numbers != []
    requires |arcs| == |numbers| + 1 && arcs[2..] == numbers[1..]
    requires arcs[0] <= 2 && (arcs[0] < 2 ==> arcs[1] < 40) && numbers[0] == arcs[0] * 40 + arcs[1]
    ensures Arcs(oid) == Some(arcs)
  {
    hide SubIdentifiers;
    var first := if numbers[0] < 80 then numbers[0] / 40 else 2;
    assert first == arcs[0];
    assert numbers[0] - 40 * first == arcs[1];
    assert arcs == [arcs[0], arcs[1]] + numbers[1..];
  }

  /** The object identifiers are those of PKCS #7 signed data and data, and of PKCS #1 with SHA-256. */
  lemma RsadsiIdentifiers()
    ensures Arcs(OID_SIGNED_DATA) == Some([1, 2, 840, 113549, 1, 7, 2])
    ensures Arcs(OID_DATA) == Some([1, 2, 840, 113549, 1, 7, 1])
    ensures Arcs(OID_SHA256_WITH_RSA) == Some([1, 2, 840, 113549, 1, 1, 11])
  {
    hide SubIdentifiers, Arcs;
    RsadsiArcs(OID_SIGNED_DATA, [1, 7, 2]);
    RsadsiArcs(OID_DATA, [1, 7, 1]);
    RsadsiArcs(OID_SHA256_WITH_RSA, [1, 1, 11]);
  }

  lemma RsadsiArcs(oid: bytes, last: bytes)
    requires |last| == 3 && forall k :: 0 <= k < 3 ==> last[k] < 0x80
    requires oid == [6, 9, 0x2a, 0x86, 0x48, 0x86, 0xf7, 0x0d, last[0], last[1], last[2]]
    ensures Arcs(oid) == Some([1, 2, 840, 113549, last[0] as nat, last[1] as nat, last[2] as nat])
  {
    hide SubIdentifiers, Arcs;
    var small: seq<nat> := [last[0] as nat, last[1] as nat, last[2] as nat];
    SmallArcs(last[0], last[1], last[2]);
    assert last == [last[0], last[1], last[2]];
    Rsadsi(last, small);
    ArcsFrom(oid, [0x2a, 0x86, 0x48, 0x86, 0xf7, 0x0d] + last, [42, 840, 113549] + small,
             [1, 2, 840, 113549] + small);
    assert [1, 2, 840, 113549] + small
        == [1, 2, 840, 113549, last[0] as nat, last[1] as nat, last[2] as nat];
  }

  /** SHA-256 of the NIST arc. */
  lemma Sha256Identifier()
    ensures Arcs(OID_SHA256) == Some([2, 16, 840, 1, 101, 3, 4, 2, 1])
  {
    hide SubIdentifiers, Arcs;
    SmallArcs(4, 2, 1);
    LastOctet(3, 0, [4, 2, 1], [4, 2, 1]);
    LastOctet(0x65, 0, [3] + [4, 2, 1], [3] + [4, 2, 1]);
    var arcs: seq<nat> := [101] + ([3] + [4, 2, 1]);
    LastOctet(1, 0, [0x65] + ([3] + [4, 2, 1]), arcs);
    var octets: bytes := [1] + ([0x65] + ([3] + [4, 2, 1]));
    Nist(octets, [1] + arcs);
    assert octets == [1, 0x65, 3, 4, 2, 1] && [1] + arcs == [1, 101, 3, 4, 2, 1];
    ArcsFrom(OID_SHA256, [0x60, 0x86, 0x48] + octets, [96, 840] + ([1] + arcs), [2, 16, 840, 1, 101, 3, 4, 2, 1]);
  }

  lemma Nist(last: bytes, rest: seq<nat>)
    requires SubIdentifiers(last, 0) == Some(rest)
    ensures SubIdentifiers([0x60, 0x86, 0x48] + last, 0) == Some([96, 840] + rest)
  {
    hide SubIdentifiers;
    LastOctet(0x48, 768, last, rest);
    CarriedOctet(0x86, 0, [0x48] + last, [840] + rest);
    LastOctet(0x60, 0, [0x86] + ([0x48] + last), [840] + rest);
    assert [0x60, 0x86, 0x48] + last == [0x60] + ([0x86] + ([0x48] + last));
    assert [96, 840] + rest == [96] + ([840] + rest);
  }

  /** ECDSA with SHA-256 of ANSI X9.62. */
  lemma EcdsaIdentifier()
    ensures Arcs(OID_ECDSA_WITH_SHA256) == Some([1, 2, 840, 10045, 4, 3, 2])
  {
    hide SubIdentifiers, Arcs;
    SmallArcs(4, 3, 2);
    X962([4, 3, 2], [4, 3, 2]);
    ArcsFrom(OID_ECDSA_WITH_SHA256, [0x2a, 0x86, 0x48, 0xce, 0x3d] + [4, 3, 2], [42, 840, 10045] + [4, 3, 2],
             [1, 2, 840, 10045, 4, 3, 2]);
  }

  lemma X962(last: bytes, rest: seq<nat>)
    requires SubIdentifiers(last, 0) == Some(rest)
    ensures SubIdentifiers([0x2a, 0x86, 0x48, 0xce, 0x3d] + last, 0) == Some([42, 840, 10045] + rest)
  {
    hide SubIdentifiers;
    var one: seq<nat> := [10045] + rest;
    var two: seq<nat> := [840] + one;
    LastOctet(0x3d, 9984, last, rest);
    CarriedOctet(0xce, 0, [0x3d] + last, one);
    LastOctet(0x48, 768, [0xce] + ([0x3d] + last), one);
    CarriedOctet(0x86, 0, [0x48] + ([0xce] + ([0x3d] + last)), two);
    LastOctet(0x2a, 0, [0x86] + ([0x48] + ([0xce] + ([0x3d] + last))), two);
    assert [0x2a, 0x86, 0x48, 0xce, 0x3d] + last == [0x2a] + ([0x86] + ([0x48] + ([0xce] + ([0x3d] + last))));
    assert [42, 840, 10045] + rest == [42] + two;
  }

  /** Each signature algorithm is announced by its own identifier. */
  lemma AlgorithmIdentifiers()
    ensures Arcs(SignatureOid(RsaPkcs1v15Sha256)) == Some([1, 2, 840, 113549, 1, 1, 11])
    ensures Arcs(SignatureOid(EcdsaSha256)) == Some([1, 2, 840, 10045, 4, 3, 2])
  {
    hide Arcs;
    RsadsiIdentifiers();
    EcdsaIdentifier();
  }

  lemma InnerIsMixed(p: CmsParts)
    requires InMemory(p) && OneElement(p.issuer) && OneElement(p.certificate)
    ensures InnerLayout(IndefiniteTree(0x30, InnerParts(p), InnerTrees(p)))
  {
    hide InnerParts, OneElement, Tlv, Indefinite, Flatten, InMemory;
  }

  /** The encoding mixes the two forms of length as the reference generator does. */
  lemma LayoutReads(p: CmsParts)
    requires Encodable(p)
    ensures var r := ReadElement(Encoded(p)); r.Some? && r.value.1 == [] && MixedLayout(r.value.0)
  {
    hide ReadSigned, InnerParts, InnerTrees, SignedOf, OneElement, ReadElement, InnerLayout, ReadsAs;
    InnerBytesRead(p);
    InnerIsMixed(p);
    var inner := IndefiniteTree(0x30, InnerParts(p), InnerTrees(p));
    var whole := ContentInfoReads(inner);
    assert Encoded(p) == whole.raw;
    ReadsWhole(Encoded(p), whole);
  }
}
