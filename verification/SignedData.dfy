/**
  `encode_turnkey_signed_data`: CMS SignedData with one signer, containers of indefinite
  length around values of definite length, and the reader of the structure of RFC 5652,
  sections 3, 5.1 and 5.3.
 */
module SignedData {
  import opened Bytes
  import opened Ber

  const ASN1_NULL: bytes := [0x05, 0x00]
  const INTEGER_ONE: bytes := [0x02, 0x01, 0x01]
  const OID_SIGNED_DATA: bytes := [0x06, 0x09, 0x2a, 0x86, 0x48, 0x86, 0xf7, 0x0d, 0x01, 0x07, 0x02]
  const OID_DATA: bytes := [0x06, 0x09, 0x2a, 0x86, 0x48, 0x86, 0xf7, 0x0d, 0x01, 0x07, 0x01]
  const OID_SHA256: bytes := [0x06, 0x09, 0x60, 0x86, 0x48, 0x01, 0x65, 0x03, 0x04, 0x02, 0x01]
  const OID_SHA256_WITH_RSA: bytes := [0x06, 0x09, 0x2a, 0x86, 0x48, 0x86, 0xf7, 0x0d, 0x01, 0x01, 0x0b]
  const OID_ECDSA_WITH_SHA256: bytes := [0x06, 0x08, 0x2a, 0x86, 0x48, 0xce, 0x3d, 0x04, 0x03, 0x02]

  datatype SignatureAlgorithm = RsaPkcs1v15Sha256 | EcdsaSha256

  datatype CmsParts = CmsParts(content: bytes, certificate: bytes, issuer: bytes, serial: bytes,
                               algorithm: SignatureAlgorithm, signature: bytes)

  /** Everything to be encoded is in memory, together with the framing. */
  predicate InMemory(p: CmsParts) {
    |p.content| + |p.certificate| + |p.issuer| + |p.serial| + |p.signature| + 256 < WORD
  }

  function SignatureOid(a: SignatureAlgorithm): (oid: bytes)
    ensures 10 <= |oid| <= 11 && oid[0] == 6 && oid[1] as int == |oid| - 2
  {
    match a
    case RsaPkcs1v15Sha256 => OID_SHA256_WITH_RSA
    case EcdsaSha256 => OID_ECDSA_WITH_SHA256
  }

  // ---------------------------------------------------------------- the encoding

  function Constructed(tag: byte, elements: seq<bytes>): (b: bytes)
    requires |Flatten(elements)| < WORD
    ensures |b| <= |Flatten(elements)| + 10
  {
    Tlv(tag, Flatten(elements))
  }

  function AlgorithmIdentifier(oid: bytes): (b: bytes)
    requires |oid| <= 11
    ensures |b| <= 23
  {
    FlattenTwo(oid, ASN1_NULL);
    Constructed(0x30, [oid, ASN1_NULL])
  }

  function IssuerAndSerial(p: CmsParts): (b: bytes)
    requires InMemory(p)
    ensures |b| <= |p.issuer| + |p.serial| + 21
  {
    FlattenTwo(p.issuer, Tlv(0x02, IntegerBody(p.serial)));
    Constructed(0x30, [p.issuer, Tlv(0x02, IntegerBody(p.serial))])
  }

  function SignerParts(p: CmsParts): (parts: seq<bytes>)
    requires InMemory(p)
    ensures |Flatten(parts)| <= |p.issuer| + |p.serial| + |p.signature| + 80
  {
    var parts := [INTEGER_ONE, IssuerAndSerial(p), AlgorithmIdentifier(OID_SHA256),
                  AlgorithmIdentifier(SignatureOid(p.algorithm)), Tlv(0x04, p.signature)];
    FlattenFive(parts[0], parts[1], parts[2], parts[3], parts[4]);
    parts
  }

  function SignerInfos(p: CmsParts): bytes
    requires InMemory(p)
  {
    FlattenOne(Constructed(0x30, SignerParts(p)));
    Constructed(0x31, [Constructed(0x30, SignerParts(p))])
  }

  function DigestAlgorithms(): bytes {
    FlattenOne(AlgorithmIdentifier(OID_SHA256));
    Constructed(0x31, [AlgorithmIdentifier(OID_SHA256)])
  }

  function Encapsulated(p: CmsParts): bytes
    requires InMemory(p)
  {
    Indefinite(0x30, [OID_DATA, Indefinite(0xa0, [Tlv(0x04, p.content)])])
  }

  function InnerParts(p: CmsParts): seq<bytes>
    requires InMemory(p)
  {
    [INTEGER_ONE, DigestAlgorithms(), Encapsulated(p), Indefinite(0xa0, [p.certificate]), SignerInfos(p)]
  }

  function Encoded(p: CmsParts): bytes
    requires InMemory(p)
  {
    Indefinite(0x30, [OID_SIGNED_DATA, Indefinite(0xa0, [Indefinite(0x30, InnerParts(p))])])
  }

  lemma FlattenOne(a: bytes)
    ensures Flatten([a]) == a
  {
    assert [a][1..] == [];
  }

  lemma FlattenTwo(a: bytes, b: bytes)
    ensures Flatten([a, b]) == a + b
  {
    assert [a, b][1..] == [b];
    FlattenOne(b);
  }

  lemma FlattenFive(a: bytes, b: bytes, c: bytes, d: bytes, e: bytes)
    ensures Flatten([a, b, c, d, e]) == a + (b + (c + (d + e)))
  {
    assert [a, b, c, d, e][1..] == [b, c, d, e];
    assert [b, c, d, e][1..] == [c, d, e];
    assert [c, d, e][1..] == [d, e];
    FlattenTwo(d, e);
    assert Flatten([c, d, e]) == c + Flatten([d, e]);
    assert Flatten([b, c, d, e]) == b + Flatten([c, d, e]);
  }

  // ---------------------------------------------------------------- the encoder

  method OpenIndefinite(tag: byte, out: ByteBuffer)
    modifies out
    ensures out.data == old(out.data) + [tag, 0x80]
  {
    out.Extend([tag, 0x80]);
  }

  method CloseIndefinite(out: ByteBuffer)
    modifies out
    ensures out.data == old(out.data) + EOC
  {
    out.Extend(EOC);
  }

  method EncodeAlgorithm(oid: bytes) returns (b: bytes)
    requires |oid| <= 11
    ensures b == AlgorithmIdentifier(oid)
  {
    FlattenTwo(oid, ASN1_NULL);
    b := EncodeConstructed(0x30, [oid, ASN1_NULL]);
  }

  method EncodeSignerInfo(p: CmsParts) returns (b: bytes)
    requires InMemory(p)
    ensures b == Constructed(0x30, SignerParts(p))
  {
    hide Tlv, IntegerBody;
    var digest := EncodeAlgorithm(OID_SHA256);
    var signature := EncodeAlgorithm(SignatureOid(p.algorithm));
    var serial := PositiveInteger(p.serial);
    FlattenTwo(p.issuer, serial);
    var issuerAndSerial := EncodeConstructed(0x30, [p.issuer, serial]);
    var octets := EncodeTlv(0x04, p.signature);
    assert [INTEGER_ONE, issuerAndSerial, digest, signature, octets] == SignerParts(p);
    hide AlgorithmIdentifier, IssuerAndSerial, Flatten;
    b := EncodeConstructed(0x30, [INTEGER_ONE, issuerAndSerial, digest, signature, octets]);
  }

  /** A container opened, filled and closed in place. */
  lemma Closed(before: bytes, tag: byte, elements: seq<bytes>)
    ensures before + [tag, 0x80] + Flatten(elements) + EOC == before + Indefinite(tag, elements)
  {
    var f := Flatten(elements);
    assert before + [tag, 0x80] + f + EOC == before + ([tag, 0x80] + f + EOC);
  }

  /** One more element inside a container that is still open. */
  lemma OneMore(before: bytes, elements: seq<bytes>, last: bytes)
    ensures before + Flatten(elements) + last == before + Flatten(elements + [last])
  {
    FlattenAppend(elements, last);
    assert before + Flatten(elements) + last == before + (Flatten(elements) + last);
  }

  method PushContent(p: CmsParts, out: ByteBuffer)
    requires InMemory(p)
    modifies out
    ensures out.data == old(out.data) + Encapsulated(p)
  {
    hide Tlv, Indefinite, Flatten;
    ghost var before := out.data;
    OpenIndefinite(0x30, out);
    ghost var open := out.data;
    NothingInside(open);
    OneMore(open, [], OID_DATA);
    out.Extend(OID_DATA);
    ghost var inner := out.data;
    OpenIndefinite(0xa0, out);
    var octets := EncodeTlv(0x04, p.content);
    FlattenOne(octets);
    out.Extend(octets);
    Closed(inner, 0xa0, [octets]);
    CloseIndefinite(out);
    OneMore(open, [OID_DATA], Indefinite(0xa0, [octets]));
    Closed(before, 0x30, [OID_DATA, Indefinite(0xa0, [octets])]);
    assert [] + [OID_DATA] == [OID_DATA];
    assert [OID_DATA] + [Indefinite(0xa0, [octets])] == [OID_DATA, Indefinite(0xa0, [octets])];
    CloseIndefinite(out);
  }

  lemma NothingInside(open: bytes)
    ensures open + Flatten([]) == open
  {
  }

  method PushCertificate(p: CmsParts, out: ByteBuffer)
    modifies out
    ensures out.data == old(out.data) + Indefinite(0xa0, [p.certificate])
  {
    FlattenOne(p.certificate);
    Closed(out.data, 0xa0, [p.certificate]);
    hide Indefinite, Flatten;
    OpenIndefinite(0xa0, out);
    out.Extend(p.certificate);
    CloseIndefinite(out);
  }

  /** The fields of SignedData, inside its container. */
  method PushInner(p: CmsParts, out: ByteBuffer)
    requires InMemory(p)
    modifies out
    ensures out.data == old(out.data) + Flatten(InnerParts(p))
  {
    ghost var open := out.data;
    var digest := EncodeAlgorithm(OID_SHA256);
    FlattenOne(digest);
    var digests := EncodeConstructed(0x31, [digest]);
    var signer := EncodeSignerInfo(p);
    FlattenOne(signer);
    var signers := EncodeConstructed(0x31, [signer]);
    assert digests == DigestAlgorithms() && signers == SignerInfos(p);
    ghost var certificates := Indefinite(0xa0, [p.certificate]);
    hide Indefinite, Flatten, DigestAlgorithms, SignerInfos, Encapsulated, AlgorithmIdentifier, Tlv;
    NothingInside(open);
    ghost var done: seq<bytes> := [];
    OneMore(open, done, INTEGER_ONE);
    out.Extend(INTEGER_ONE);
    done := done + [INTEGER_ONE];
    OneMore(open, done, digests);
    out.Extend(digests);
    done := done + [digests];
    OneMore(open, done, Encapsulated(p));
    PushContent(p, out);
    done := done + [Encapsulated(p)];
    OneMore(open, done, certificates);
    PushCertificate(p, out);
    done := done + [certificates];
    OneMore(open, done, signers);
    out.Extend(signers);
    done := done + [signers];
    assert done == InnerParts(p);
  }

  method EncodeTurnkeySignedData(p: CmsParts) returns (b: bytes)
    requires InMemory(p)
    ensures b == Encoded(p)
  {
    hide Indefinite, Flatten, InnerParts;
    var out := new ByteBuffer();
    OpenIndefinite(0x30, out);
    ghost var root := out.data;
    NothingInside(root);
    OneMore(root, [], OID_SIGNED_DATA);
    out.Extend(OID_SIGNED_DATA);
    ghost var explicit := out.data;
    OpenIndefinite(0xa0, out);
    ghost var signed := out.data;
    OpenIndefinite(0x30, out);
    PushInner(p, out);
    Closed(signed, 0x30, InnerParts(p));
    CloseIndefinite(out);
    ghost var inner := Indefinite(0x30, InnerParts(p));
    FlattenOne(inner);
    Closed(explicit, 0xa0, [inner]);
    CloseIndefinite(out);
    ghost var content := Indefinite(0xa0, [inner]);
    OneMore(root, [OID_SIGNED_DATA], content);
    assert [] + [OID_SIGNED_DATA] == [OID_SIGNED_DATA];
    assert [OID_SIGNED_DATA] + [content] == [OID_SIGNED_DATA, content];
    Closed([], 0x30, [OID_SIGNED_DATA, content]);
    assert [] + [0x30, 0x80] == [0x30, 0x80];
    assert [] + Indefinite(0x30, [OID_SIGNED_DATA, content]) == Indefinite(0x30, [OID_SIGNED_DATA, content]);
    CloseIndefinite(out);
    b := out.data;
  }
}
