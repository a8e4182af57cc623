/**
  `prepare_submission` and `PreparedSubmission::submit`: what the plan check and the packing
  establish makes error branches of the later layers unreachable.
 */
module Client {
  import opened Wrappers
  import opened Bytes
  import opened Filename
  import opened TurnkeyFilename
  import opened Envelope
  import opened EnvelopeWire
  import opened Pack
  import opened InvoiceLines
  import opened Transport
  import F0401Document
  import Xml
  import SignedData
  import SignedDataReader
  import Ber
  import Utf8

  const MIG_VERSION := "4.1"
  const INITIAL_RETRY: u32 := 0

  datatype SubmissionPlan = SubmissionPlan(envelope: InvoiceEnvelope, filename: PackFilename, serviceType: ServiceType,
                                           zipMode: ZipMode, action: string, versions: Versions)

  datatype ConsistencyError =
    | InvalidFilenameCount(packCount: i32)
    | EnvelopeCountOutOfRange(count: nat)
    | CountMismatch(envelopeCount: nat, filenameCount: nat)
    | MessageTypeMismatch(envelope: string, filename: bytes)
    | MigVersionMismatch(envelope: string, filename: bytes)
    | FromPartyMismatch(envelope: string, filename: bytes)
    | ToPartyMismatch(envelope: string, filename: bytes)

  datatype PrepareSubmissionError = Consistency(inconsistency: ConsistencyError) | Packing(error: PackError)

  datatype PreparedSubmission = PreparedSubmission(filename: PackFilename, artifact: SignedArtifact, zipMode: ZipMode,
                                                   metadata: Metadata)

  /** The first disagreement between the filename and the envelope. */
  function ValidatePlan(p: SubmissionPlan): Option<ConsistencyError> {
    var e, f := p.envelope, p.filename;
    if f.packCount <= 0 then Some(InvalidFilenameCount(f.packCount))
    else if f.packCount != |e.payloads| then Some(CountMismatch(|e.payloads|, f.packCount))
    else if f.commonName.messageType != Utf8.Encode(e.messageType) then
      Some(MessageTypeMismatch(e.messageType, f.commonName.messageType))
    else if f.commonName.migVersion != Utf8.Encode(MIG_VERSION) then
      Some(MigVersionMismatch(MIG_VERSION, f.commonName.migVersion))
    else if f.fromParty != Utf8.Encode(e.routing.from.identifier) then
      Some(FromPartyMismatch(e.routing.from.identifier, f.fromParty))
    else if f.toParty != Utf8.Encode(e.routing.to.identifier) then
      Some(ToPartyMismatch(e.routing.to.identifier, f.toParty))
    else None
  }

  function PartyOf(party: Principal, routing: Principal): GatewayParty {
    GatewayParty(party.identifier, party.description, routing.identifier, routing.description)
  }

  function MetadataOf(p: SubmissionPlan): Metadata
    requires |p.envelope.payloads| < 0x1_0000_0000
  {
    var r := p.envelope.routing;
    Metadata(PartyOf(r.from, r.fromVac), PartyOf(r.to, r.toVac), p.serviceType,
             MessageProfile(p.envelope.messageType, p.action, |p.envelope.payloads|, MIG_VERSION), INITIAL_RETRY,
             p.versions)
  }

  /** Sender and receiver of the routing, each with its routing entry. */
  predicate TellsParty(g: GatewayParty, party: Principal, routing: Principal) {
    && g.partyId == party.identifier && g.partyDescription == party.description
    && g.routingId == routing.identifier && g.routingDescription == routing.description
  }

  /** The metadata describe the plan, field by field. */
  predicate Tells(m: Metadata, p: SubmissionPlan) {
    && TellsParty(m.from, p.envelope.routing.from, p.envelope.routing.fromVac)
    && TellsParty(m.to, p.envelope.routing.to, p.envelope.routing.toVac)
    && m.serviceType == p.serviceType && m.versions == p.versions && m.retry == 0
    && m.message.messageType == p.envelope.messageType && m.message.action == p.action
    && m.message.quantity == |p.envelope.payloads| && m.message.migVersion == "4.1"
  }

  lemma MetadataTells(p: SubmissionPlan)
    requires |p.envelope.payloads| < 0x1_0000_0000
    ensures Tells(MetadataOf(p), p)
  {
  }

  /** Which disagreement a plan is refused for: the first in this order. */
  lemma PlanRefusals(p: SubmissionPlan)
    ensures var e, f, refusal := p.envelope, p.filename, ValidatePlan(p);
            var counted := f.packCount > 0 && f.packCount == |e.payloads|;
            var typed := counted && f.commonName.messageType == Utf8.Encode(e.messageType);
            var versioned := typed && f.commonName.migVersion == Utf8.Encode("4.1");
            var sent := versioned && f.fromParty == Utf8.Encode(e.routing.from.identifier);
            var received := sent && f.toParty == Utf8.Encode(e.routing.to.identifier);
            && (refusal == Some(InvalidFilenameCount(f.packCount)) <==> f.packCount <= 0)
            && (f.packCount > 0 ==> (refusal == Some(CountMismatch(|e.payloads|, f.packCount)) <==> !counted))
            && (refusal == Some(MessageTypeMismatch(e.messageType, f.commonName.messageType)) <==> counted && !typed)
            && (refusal == Some(MigVersionMismatch("4.1", f.commonName.migVersion)) <==> typed && !versioned)
            && (refusal == Some(FromPartyMismatch(e.routing.from.identifier, f.fromParty)) <==> versioned && !sent)
            && (refusal == Some(ToPartyMismatch(e.routing.to.identifier, f.toParty)) <==> sent && !received)
            && (refusal.None? <==> received)
  {
    hide Utf8.Encode;
  }

  /** Filename and envelope describe the same pack. */
  predicate Consistent(p: SubmissionPlan) {
    var e, f := p.envelope, p.filename;
    && f.packCount == |e.payloads| && f.commonName.messageType == Utf8.Encode(e.messageType)
    && f.commonName.migVersion == Utf8.Encode(MIG_VERSION)
    && f.fromParty == Utf8.Encode(e.routing.from.identifier) && f.toParty == Utf8.Encode(e.routing.to.identifier)
  }

  /** A plan with a constructed envelope passes exactly when filename and envelope agree. */
  lemma PlanAcceptedExactly(p: SubmissionPlan)
    requires Constructed(p.envelope)
    ensures ValidatePlan(p).None? <==> Consistent(p)
    ensures ValidatePlan(p).Some? ==> !ValidatePlan(p).value.EnvelopeCountOutOfRange?
  {
    hide Utf8.Encode;
  }

  /** A plan is prepared exactly when it is consistent, its payloads embed, and signing succeeds. */
  predicate Preparable(p: SubmissionPlan, signer: Signer) {
    Consistent(p) && Clean(p.envelope.payloads) && signer.sign(Serialized(p.envelope)).Some?
  }

  /** What preparing promises about the prepared submission. */
  predicate PreparedFrom(p: SubmissionPlan, signer: Signer, s: PreparedSubmission) {
    hide Consistent, Clean, Serialized, SignedData.InMemory;
    && Constructed(p.envelope) && Packable(p.envelope, signer) && Preparable(p, signer)
    && s == PreparedSubmission(p.filename, ArtifactOf(p.envelope, signer), p.zipMode, MetadataOf(p))
  }

  /**
    Preparing succeeds exactly for what is preparable, with the filename and mode of the plan,
    metadata that describe it and an artifact of this signer; an inconsistent plan is refused
    for its first disagreement, before anything is signed, and a consistent one for what
    packing reports.
   */
  ghost predicate PreparedAs(p: SubmissionPlan, signer: Signer, r: Result<PreparedSubmission, PrepareSubmissionError>) {
    hide Preparable, PreparedFrom, Tells, Attested, ValidatePlan, Consistent, Packable, PackedAs;
    && (r.Success? <==> Preparable(p, signer))
    && (r.Success? ==>
          && PreparedFrom(p, signer, r.value) && Tells(r.value.metadata, p)
          && r.value.filename == p.filename && r.value.zipMode == p.zipMode
          && Attested(p.envelope, signer, Success(r.value.artifact)))
    && (!Consistent(p) ==> ValidatePlan(p).Some? && r == Failure(Consistency(ValidatePlan(p).value)))
    && (Consistent(p) && r.Failure? ==>
          r.error.Packing? && Packable(p.envelope, signer) && PackedAs(p.envelope, signer, Failure(r.error.error)))
    && (r.Failure? && r.error.Consistency? ==> !r.error.inconsistency.EnvelopeCountOutOfRange?)
  }

  /** Nothing is signed unless the plan is consistent; no envelope count is out of range. */
  method PrepareSubmission(p: SubmissionPlan, signer: Signer)
      returns (r: Result<PreparedSubmission, PrepareSubmissionError>)
    requires Constructed(p.envelope) && Packable(p.envelope, signer)
    ensures PreparedAs(p, signer, r)
  {
    hide ValidatePlan, Consistent, Preparable, PreparedFrom, PackedAs, Packable, MetadataOf, SignedData.InMemory;
    hide Tells, Attested;
    PlanAcceptedExactly(p);
    var inconsistency := ValidatePlan(p);
    if inconsistency.Some? {
      NotPreparable(p, signer);
      return Failure(Consistency(inconsistency.value));
    }
    var count := |p.envelope.payloads|;
    if count >= 0x1_0000_0000 {
      assert false;
    }
    var packed := PackAndSign(p.envelope, signer);
    PackedExactly(p, signer, packed);
    if packed.Failure? {
      return Failure(Packing(packed.error));
    }
    MetadataTells(p);
    r := Success(PreparedSubmission(p.filename, packed.value, p.zipMode, MetadataOf(p)));
  }

  lemma NotPreparable(p: SubmissionPlan, signer: Signer)
    requires !Consistent(p)
    ensures !Preparable(p, signer)
  {
    hide Consistent, Clean, Serialized;
  }

  /** What packing answers for a consistent plan is what preparing needs. */
  lemma PackedExactly(p: SubmissionPlan, signer: Signer, packed: Result<SignedArtifact, PackError>)
    requires Constructed(p.envelope) && Packable(p.envelope, signer) && Consistent(p)
    requires PackedAs(p.envelope, signer, packed)
    ensures packed.Success? <==> Preparable(p, signer)
    ensures packed.Success? ==>
              PreparedFrom(p, signer, PreparedSubmission(p.filename, packed.value, p.zipMode, MetadataOf(p)))
  {
    hide Consistent, Clean, Serialized, SignedData.InMemory, ArtifactOf, MetadataOf, Refused;
  }

  // ---------------------------------------------------------------- the network phase

  function RequestOf(s: PreparedSubmission): Request {
    Request(RenderPack(s.filename), RemoteFilename(s.filename), s.artifact.uploadBytes, s.zipMode, s.metadata)
  }

  /** Every notification fits the signed 32-bit fields of the gateway. */
  predicate Representable(n: UploadNotification) {
    && GatewayIntegers(n).Success? && 1 <= n.quantity <= MAX_PAYLOADS && n.retry == INITIAL_RETRY
    && n.size <= MAX_SIGNED_SOURCE_BYTES
  }

  lemma PreparedCounts(p: SubmissionPlan, signer: Signer, s: PreparedSubmission)
    requires PreparedFrom(p, signer, s)
    ensures s.filename.packCount == |p.envelope.payloads| == s.metadata.message.quantity
    ensures 1 <= |p.envelope.payloads| <= MAX_PAYLOADS && s.metadata.retry == INITIAL_RETRY
  {
    hide Clean, Packable, Serialized, ArtifactOf;
  }

  lemma PreparedTells(p: SubmissionPlan, signer: Signer, s: PreparedSubmission)
    requires PreparedFrom(p, signer, s)
    ensures Tells(s.metadata, p) && s.filename == p.filename && s.zipMode == p.zipMode
  {
    hide Clean, Packable, Serialized, ArtifactOf, Tells, MetadataOf;
    MetadataTells(p);
  }

  /** The answer of the native layer, if the counts let it be reached. */
  function NativeResult(r: Result<Receipt, PackSubmitError>): Option<Result<Receipt, NativeError>> {
    match r
    case Success(receipt) => Some(Success(receipt))
    case Failure(Native(error)) => Some(Failure(error))
    case Failure(_) => None
  }

  /** The notification fits the gateway and tells the size of the artifact and the count of the envelope. */
  predicate Truthful(p: SubmissionPlan, s: PreparedSubmission, n: UploadNotification) {
    && Representable(n) && n.filename == RemoteFilename(p.filename)
    && n.size == |s.artifact.uploadBytes| && n.quantity == |p.envelope.payloads|
    && TellsParty(n.from, p.envelope.routing.from, p.envelope.routing.fromVac)
    && TellsParty(n.to, p.envelope.routing.to, p.envelope.routing.toVac)
    && n.messageType == p.envelope.messageType && n.action == p.action && n.migVersion == "4.1"
    && n.serviceType == p.serviceType && n.zipMode == p.zipMode && n.versions == p.versions && n.retry == 0
  }

  /** Upload before notification, of one object, described truthfully. */
  predicate Submitted(p: SubmissionPlan, s: PreparedSubmission, archive: Archiver, net: Network, steps: seq<Effect>,
                      r: Result<Receipt, NativeError>) {
    && ProperTrace(steps) && Answers(RequestOf(s), archive, net, steps, r)
    && (steps != [] ==> AnsweredByNetwork(RemoteFilename(p.filename), net, steps, r))
    && forall e :: e in steps && e.Notified? ==> Truthful(p, s, e.notification)
  }

  /** The checks of the filename count let every prepared submission through. */
  lemma CountsPass(s: PreparedSubmission, archive: Archiver, net: Network, steps: seq<Effect>,
                   r: Result<Receipt, PackSubmitError>)
    requires s.filename.packCount == s.metadata.message.quantity > 0
    requires PackAnswers(s.filename, s.artifact.uploadBytes, s.zipMode, s.metadata, archive, net, steps, r)
    ensures NativeResult(r).Some? && Answers(RequestOf(s), archive, net, steps, NativeResult(r).value)
  {
    hide Answers, RenderPack, RemoteFilename;
  }

  lemma NotificationsAreTruthful(p: SubmissionPlan, signer: Signer, s: PreparedSubmission, archive: Archiver,
                                 net: Network, steps: seq<Effect>, r: Result<Receipt, NativeError>, e: Effect)
    requires PreparedFrom(p, signer, s) && Answers(RequestOf(s), archive, net, steps, r)
    requires e in steps && e.Notified?
    ensures Truthful(p, s, e.notification)
  {
    hide PreparedFrom, RenderPack, RemoteFilename, Answers, Representable, Xml.EscapeText;
    PreparedCounts(p, signer, s);
    PreparedTells(p, signer, s);
    NotificationFields(RequestOf(s), archive, net, steps, r, e);
    NotifiedObject(RequestOf(s), archive, net, steps, r, e);
    FitsGateway(e.notification);
  }

  lemma FitsGateway(n: UploadNotification)
    requires 1 <= n.quantity <= MAX_PAYLOADS && n.retry == INITIAL_RETRY && n.size <= MAX_SIGNED_SOURCE_BYTES
    ensures Representable(n)
  {
  }

  /** For a prepared submission the count errors are unreachable; the rest is told truthfully. */
  lemma PreparedAnswers(p: SubmissionPlan, signer: Signer, s: PreparedSubmission, archive: Archiver, net: Network,
                        steps: seq<Effect>, r: Result<Receipt, PackSubmitError>)
    ensures PreparedFrom(p, signer, s)
            && PackAnswers(s.filename, s.artifact.uploadBytes, s.zipMode, s.metadata, archive, net, steps, r) ==>
            NativeResult(r).Some? && Submitted(p, s, archive, net, steps, NativeResult(r).value)
  {
    hide PreparedFrom, Answers, PackAnswers, NativeResult, ProperTrace, Truthful, RequestOf;
    if PreparedFrom(p, signer, s)
       && PackAnswers(s.filename, s.artifact.uploadBytes, s.zipMode, s.metadata, archive, net, steps, r) {
      PreparedCounts(p, signer, s);
      CountsPass(s, archive, net, steps, r);
      var native := NativeResult(r).value;
      AnswersAreProper(RequestOf(s), archive, net, steps, native);
      NetworkAnswers(p, signer, s, archive, net, steps, native);
      forall e | e in steps && e.Notified?
        ensures Truthful(p, s, e.notification)
      {
        NotificationsAreTruthful(p, signer, s, archive, net, steps, native, e);
      }
    }
  }

  lemma NetworkAnswers(p: SubmissionPlan, signer: Signer, s: PreparedSubmission, archive: Archiver, net: Network,
                       steps: seq<Effect>, r: Result<Receipt, NativeError>)
    requires PreparedFrom(p, signer, s) && Answers(RequestOf(s), archive, net, steps, r)
    ensures steps != [] ==> AnsweredByNetwork(RemoteFilename(p.filename), net, steps, r)
  {
    hide PreparedFrom, Answers, AnsweredByNetwork, PrepareUpload, Tells, RenderPack, RemoteFilename;
    PreparedTells(p, signer, s);
    AnsweredExactly(RequestOf(s), archive, net, steps, r);
  }

  /** `PreparedSubmission::submit`. */
  method Submit(ghost p: SubmissionPlan, ghost signer: Signer, s: PreparedSubmission, submitter: NativeSubmitter,
                archive: Archiver, net: Network) returns (r: Result<Receipt, PackSubmitError>)
    requires PreparedFrom(p, signer, s)
    modifies submitter
    ensures old(submitter.trace) <= submitter.trace
    ensures NativeResult(r).Some?
    ensures Submitted(p, s, archive, net, submitter.trace[|old(submitter.trace)|..], NativeResult(r).value)
  {
    hide PreparedFrom, PackAnswers, Submitted, NativeResult, Answers, RequestOf, PrepareUpload;
    hide RenderPack, RemoteFilename;
    ghost var before := submitter.trace;
    r := submitter.SubmitPackArtifact(s.filename, s.artifact.uploadBytes, s.zipMode, s.metadata, archive, net);
    PreparedAnswers(p, signer, s, archive, net, submitter.trace[|before|..], r);
  }

  // ---------------------------------------------------------------- what can still stop a submission

  lemma NamesAreNotSpecial(f: PackFilename)
    ensures |RenderPack(f)| > 2 && |RemoteFilename(f)| > 2
  {
    RenderCommonLength(f.commonName);
    hide RenderI32, RenderCommon;
  }

  /** Preparing the object fails exactly for a separator in the names, an oversized artifact, or the archiver. */
  lemma UploadStoppedExactly(f: PackFilename, signed: bytes, zipMode: ZipMode, archive: Archiver)
    ensures PrepareUpload(RenderPack(f), RemoteFilename(f), signed, zipMode, archive).Failure? <==>
            || 47 in RenderPack(f) || 92 in RenderPack(f) || 0 in RenderPack(f)
            || |signed| > MAX_SIGNED_SOURCE_BYTES
            || (zipMode.Zip? && archive(RenderPack(f), signed).None?)
  {
    NamesAreNotSpecial(f);
    RemoteIsPartOfLocal(f);
    hide RenderPack, RemoteFilename;
  }

  lemma RemoteIsPartOfLocal(f: PackFilename)
    ensures forall b :: b in RemoteFilename(f) ==> b in RenderPack(f)
  {
    hide RenderCommon, RenderI32;
  }

  // ---------------------------------------------------------------- from the plan to the platform

  /** The plan packs these invoices with a certificate and an issuer that are one element each. */
  predicate PlanOf(p: SubmissionPlan, signer: Signer, invoices: seq<F0401Document.Invoice>) {
    && p.envelope == EnvelopeOf(p.envelope.routing, p.envelope.messageType, invoices)
    && Ber.OneElement(signer.issuer) && Ber.OneElement(signer.certificate)
  }

  /** What the bytes carry: the invoices, but for line ends; exactly them if no text holds a carriage return. */
  predicate CarriesInvoices(upload: bytes, p: SubmissionPlan, invoices: seq<F0401Document.Invoice>) {
    hide Carries, NoCarriageReturn, LineFeedsOnly;
    var routing, messageType := p.envelope.routing, p.envelope.messageType;
    && Carries(upload, routing, messageType, LineFeedsOnly(invoices))
    && (Carries(upload, routing, messageType, invoices) <==> NoCarriageReturn(invoices))
  }

  /**
    The artifact of a prepared submission whose envelope holds F0401 invoices carries these
    invoices, exactly when none of their text fields holds a carriage return.
   */
  lemma PreparedInvoices(p: SubmissionPlan, signer: Signer, s: PreparedSubmission, invoices: seq<F0401Document.Invoice>)
    ensures PreparedFrom(p, signer, s) && PlanOf(p, signer, invoices) ==>
            CarriesInvoices(s.artifact.uploadBytes, p, invoices)
  {
    hide PreparedFrom, PlanOf, Carries, NoCarriageReturn, LineFeedsOnly, UploadOf, EnvelopeTextOf, Utf8.Encode;
    hide SignedDataReader.Encodable;
    if PreparedFrom(p, signer, s) && PlanOf(p, signer, invoices) {
      var parts := ArtifactParts(p, signer, s, invoices);
      UploadCarries(p.envelope.routing, p.envelope.messageType, invoices, parts);
    }
  }

  /** What was signed and encoded for the artifact. */
  lemma ArtifactParts(p: SubmissionPlan, signer: Signer, s: PreparedSubmission, invoices: seq<F0401Document.Invoice>)
      returns (parts: SignedData.CmsParts)
    requires PreparedFrom(p, signer, s) && PlanOf(p, signer, invoices)
    ensures SignedDataReader.Encodable(parts) && s.artifact.uploadBytes == UploadOf(parts)
    ensures parts.content == Utf8.Encode(EnvelopeTextOf(p.envelope.routing, p.envelope.messageType, invoices))
  {
    hide Clean, Serialized, UploadOf, SignedData.InMemory, Consistent, EnvelopeOf, Ber.OneElement;
    hide MetadataOf, EnvelopeTextOf, Utf8.Encode;
    InvoicesSerialize(p.envelope.routing, p.envelope.messageType, invoices);
    var content := Serialized(p.envelope);
    parts := PartsFor(signer, content, signer.sign(content).value);
  }

  /** Name and bytes of the one entry of an archive. */
  type Opener = bytes -> Option<(bytes, bytes)>

  ghost predicate Inverts(open: Opener, archive: Archiver) {
    forall name: bytes, data: bytes :: archive(name, data).Some? ==>
      open(archive(name, data).value) == Some((name, data))
  }

  /** What the platform finds in the uploaded object. */
  function Contents(zipMode: ZipMode, open: Opener, name: bytes, uploaded: bytes): Option<bytes> {
    if zipMode.Plain? then Some(uploaded)
    else
      var (entry, data) :- open(uploaded);
      if entry == name then Some(data) else None
  }

  /**
    The object on the platform, opened if it was archived, holds under the name of the pack
    what the artifact carries.
   */
  lemma UploadedInvoices(p: SubmissionPlan, signer: Signer, s: PreparedSubmission, invoices: seq<F0401Document.Invoice>,
                         archive: Archiver, open: Opener, net: Network, steps: seq<Effect>,
                         r: Result<Receipt, NativeError>, e: Effect)
    ensures PreparedFrom(p, signer, s) && PlanOf(p, signer, invoices) && Inverts(open, archive)
            && Submitted(p, s, archive, net, steps, r) && e in steps && e.Uploaded? ==>
            var found := Contents(s.zipMode, open, RenderPack(s.filename), e.data);
            found.Some? && CarriesInvoices(found.value, p, invoices)
  {
    hide PreparedFrom, PlanOf, CarriesInvoices, Answers, ProperTrace, Truthful, RenderPack;
    if Submitted(p, s, archive, net, steps, r) && e in steps && e.Uploaded? {
      UploadedObject(RequestOf(s), archive, net, steps, r, e);
      PreparedInvoices(p, signer, s, invoices);
    }
  }
}
