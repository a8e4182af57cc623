/**
  The network phase: preparing the object, uploading it, and only then notifying the
  gateway.  Every effect is recorded in a trace; the environment decides its outcome.
 */
module Transport {
  import opened Wrappers
  import opened Bytes
  import opened Filename
  import opened TurnkeyFilename

  const MAX_SIGNED_SOURCE_BYTES: nat := 20 * 1024 * 1024

  datatype ZipMode = Plain | Zip
  datatype ServiceType = Exchange | Store

  datatype GatewayParty = GatewayParty(partyId: string, partyDescription: Option<string>, routingId: string,
                                       routingDescription: Option<string>)

  datatype Versions = Versions(apiVersion: string, turnkeyVersion: string)

  datatype MessageProfile = MessageProfile(messageType: string, action: string, quantity: u32, migVersion: string)

  datatype Metadata = Metadata(from: GatewayParty, to: GatewayParty, serviceType: ServiceType, message: MessageProfile,
                               retry: u32, versions: Versions)

  datatype UploadNotification = UploadNotification(
    from: GatewayParty, to: GatewayParty, serviceType: ServiceType, zipMode: ZipMode, messageType: string,
    action: string, quantity: u32, migVersion: string, filename: bytes, size: nat, retry: u32, versions: Versions)

  datatype GatewayStatus = GatewayStatus(statusCode: i32, details: seq<string>) {
    predicate IsAccepted() { statusCode == 0 }
  }

  // ---------------------------------------------------------------- gateway integers

  datatype GatewayField = Quantity | Size | Retry

  datatype OutOfRange = IntegerOutOfRange(field: GatewayField, value: nat)

  function CheckedI32(field: GatewayField, value: nat): (r: Result<i32, OutOfRange>)
    ensures r.Success? <==> value < 0x8000_0000
    ensures r.Success? ==> r.value == value
  {
    if value < 0x8000_0000 then Success(value) else Failure(IntegerOutOfRange(field, value))
  }

  /** The numeric part of `to_pfs001_json`: quantity, size and retry, in this order. */
  function GatewayIntegers(n: UploadNotification): Result<(i32, i32, i32), OutOfRange> {
    var quantity :- CheckedI32(Quantity, n.quantity);
    var size :- CheckedI32(Size, n.size);
    var retry :- CheckedI32(Retry, n.retry);
    Success((quantity, size, retry))
  }

  /** All three numbers fit, or the first that does not is named. */
  lemma GatewayIntegersExactly(n: UploadNotification)
    ensures var r, limit := GatewayIntegers(n), 2_147_483_648;
            && (r == Failure(IntegerOutOfRange(Quantity, n.quantity)) <==> n.quantity >= limit)
            && (r == Failure(IntegerOutOfRange(Size, n.size)) <==> n.quantity < limit && n.size >= limit)
            && (r == Failure(IntegerOutOfRange(Retry, n.retry)) <==>
                  n.quantity < limit && n.size < limit && n.retry >= limit)
            && (n.quantity < limit && n.size < limit && n.retry < limit ==> r == Success((n.quantity, n.size, n.retry)))
  {
  }

  // ---------------------------------------------------------------- the object

  datatype NameField = LocalFilename | RemoteName

  datatype PrepareError = InvalidFilename(field: NameField) | SourceTooLarge(actual: nat, maximum: nat) | ZipFailed

  /** The archive with one entry of that name and those bytes, or a failure. */
  type Archiver = (bytes, bytes) -> Option<bytes>

  datatype UploadObject = UploadObject(remoteFilename: bytes, data: bytes, notificationSize: nat, zipMode: ZipMode)

  /** Not empty, not `.` or `..`, and without slash, backslash or NUL. */
  predicate IsBasename(name: bytes) {
    name != [] && name != [46] && name != [46, 46] && 47 !in name && 92 !in name && 0 !in name
  }

  function PrepareUpload(localName: bytes, remoteName: bytes, signed: bytes, zipMode: ZipMode, archive: Archiver)
      : Result<UploadObject, PrepareError> {
    if !IsBasename(localName) then Failure(InvalidFilename(LocalFilename))
    else if !IsBasename(remoteName) then Failure(InvalidFilename(RemoteName))
    else if |signed| > MAX_SIGNED_SOURCE_BYTES then Failure(SourceTooLarge(|signed|, MAX_SIGNED_SOURCE_BYTES))
    else
      var data := if zipMode.Plain? then Some(signed) else archive(localName, signed);
      if data.None? then Failure(ZipFailed)
      else Success(UploadObject(remoteName, data.value, |signed|, zipMode))
  }

  // ---------------------------------------------------------------- effects

  datatype Effect =
    | Uploaded(name: bytes, data: bytes, ok: bool)
    | Notified(notification: UploadNotification, reply: Option<GatewayStatus>)

  /** What the network answers during one submission. */
  datatype Network = Network(uploadOk: bool, reply: Option<GatewayStatus>)

  datatype Request = Request(localName: bytes, remoteName: bytes, signed: bytes, zipMode: ZipMode, metadata: Metadata)

  datatype NativeError =
    | Prepare(reason: PrepareError)
    | Upload(remoteFilename: bytes)
    | Notify(remoteFilename: bytes)
    | GatewayRejected(remoteFilename: bytes, status: GatewayStatus)

  datatype Receipt = Receipt(remoteFilename: bytes, status: GatewayStatus)

  function NotificationFor(o: UploadObject, m: Metadata): UploadNotification {
    UploadNotification(m.from, m.to, m.serviceType, o.zipMode, m.message.messageType, m.message.action,
                       m.message.quantity, m.message.migVersion, o.remoteFilename, o.notificationSize, m.retry,
                       m.versions)
  }

  /** Nothing, one upload, or one accepted upload followed by one notification of that object. */
  predicate ProperTrace(steps: seq<Effect>) {
    || steps == []
    || (|steps| == 1 && steps[0].Uploaded?)
    || (|steps| == 2 && steps[0].Uploaded? && steps[0].ok && steps[1].Notified?
        && steps[1].notification.filename == steps[0].name)
  }

  /** What happened is what the request, the archiver and the network call for. */
  predicate Answers(q: Request, archive: Archiver, net: Network, steps: seq<Effect>, r: Result<Receipt, NativeError>) {
    match PrepareUpload(q.localName, q.remoteName, q.signed, q.zipMode, archive)
    case Failure(reason) => steps == [] && r == Failure(Prepare(reason))
    case Success(o) =>
      var upload := Uploaded(q.remoteName, o.data, net.uploadOk);
      var notification := Notified(NotificationFor(o, q.metadata), net.reply);
      if !net.uploadOk then steps == [upload] && r == Failure(Upload(q.remoteName))
      else
        && steps == [upload, notification]
        && match net.reply
           case None => r == Failure(Notify(q.remoteName))
           case Some(status) =>
             r == if status.IsAccepted() then Success(Receipt(q.remoteName, status))
                  else Failure(GatewayRejected(q.remoteName, status))
  }

  /** A submission never notifies without an upload. */
  lemma AnswersAreProper(q: Request, archive: Archiver, net: Network, steps: seq<Effect>,
                         r: Result<Receipt, NativeError>)
    requires Answers(q, archive, net, steps, r)
    ensures ProperTrace(steps)
    ensures r.Success? <==> |steps| == 2 && steps[1].reply.Some? && steps[1].reply.value.IsAccepted()
  {
  }

  /** What is uploaded is the signed source, or the archive of it, under the remote name. */
  lemma UploadedObject(q: Request, archive: Archiver, net: Network, steps: seq<Effect>, r: Result<Receipt, NativeError>,
                       e: Effect)
    requires Answers(q, archive, net, steps, r) && e in steps && e.Uploaded?
    ensures e.name == q.remoteName && |q.signed| <= MAX_SIGNED_SOURCE_BYTES
    ensures if q.zipMode.Plain? then e.data == q.signed else archive(q.localName, q.signed) == Some(e.data)
  {
  }

  /** What is notified is the uploaded name and the length before compression. */
  lemma NotifiedObject(q: Request, archive: Archiver, net: Network, steps: seq<Effect>, r: Result<Receipt, NativeError>,
                       e: Effect)
    requires Answers(q, archive, net, steps, r) && e in steps && e.Notified?
    ensures var n := e.notification;
            && n.filename == q.remoteName && n.size == |q.signed| <= MAX_SIGNED_SOURCE_BYTES && n.zipMode == q.zipMode
            && n.quantity == q.metadata.message.quantity && n.retry == q.metadata.retry
  {
  }

  /** The names no file may have: `.`, `..`, nothing, or one with a slash, a backslash or NUL. */
  predicate Unusable(name: bytes) {
    || |name| == 0 || name == [0x2e] || name == [0x2e, 0x2e]
    || exists i :: 0 <= i < |name| && (name[i] == 0x2f || name[i] == 0x5c || name[i] == 0x00)
  }

  lemma UnusableExactly(name: bytes)
    ensures Unusable(name) <==> !IsBasename(name)
  {
  }

  /** Why preparing the object fails, the first reason first. */
  lemma PrepareFailsExactly(localName: bytes, remoteName: bytes, signed: bytes, zipMode: ZipMode, archive: Archiver)
    ensures var r := PrepareUpload(localName, remoteName, signed, zipMode, archive);
            var named := !Unusable(localName) && !Unusable(remoteName);
            && (r == Failure(InvalidFilename(LocalFilename)) <==> Unusable(localName))
            && (r == Failure(InvalidFilename(RemoteName)) <==> !Unusable(localName) && Unusable(remoteName))
            && (r == Failure(SourceTooLarge(|signed|, 20_971_520)) <==> named && |signed| > 20_971_520)
            && (r == Failure(ZipFailed) <==>
                  named && |signed| <= 20_971_520 && zipMode.Zip? && archive(localName, signed).None?)
            && (r.Success? <==>
                  named && |signed| <= 20_971_520 && (zipMode.Zip? ==> archive(localName, signed).Some?))
  {
    hide Unusable, IsBasename;
    UnusableExactly(localName);
    UnusableExactly(remoteName);
  }

  /** What is answered when the object could be prepared: by the upload and the reply of the gateway. */
  predicate AnsweredByNetwork(remoteName: bytes, net: Network, steps: seq<Effect>, r: Result<Receipt, NativeError>) {
    && (r == Failure(Upload(remoteName)) <==> !net.uploadOk)
    && (r == Failure(Notify(remoteName)) <==> net.uploadOk && net.reply.None?)
    && (net.reply.Some? ==>
          var status := net.reply.value;
          && (r == Failure(GatewayRejected(remoteName, status)) <==> net.uploadOk && status.statusCode != 0)
          && (r == Success(Receipt(remoteName, status)) <==> net.uploadOk && status.statusCode == 0))
    && |steps| == (if net.uploadOk then 2 else 1) && steps[0].Uploaded? && steps[0].ok == net.uploadOk
    && (net.uploadOk ==> steps[1].Notified? && steps[1].reply == net.reply)
  }

  lemma AnsweredExactly(q: Request, archive: Archiver, net: Network, steps: seq<Effect>,
                        r: Result<Receipt, NativeError>)
    requires Answers(q, archive, net, steps, r)
    ensures var prepared := PrepareUpload(q.localName, q.remoteName, q.signed, q.zipMode, archive);
            if prepared.Failure? then steps == [] && r == Failure(Prepare(prepared.error))
            else AnsweredByNetwork(q.remoteName, net, steps, r)
  {
    hide PrepareUpload;
  }

  /** Every field of a notification comes from the metadata, the name and the source it is for. */
  lemma NotificationFields(q: Request, archive: Archiver, net: Network, steps: seq<Effect>,
                           r: Result<Receipt, NativeError>, e: Effect)
    requires Answers(q, archive, net, steps, r) && e in steps && e.Notified?
    ensures var n, m := e.notification, q.metadata;
            && n.from == m.from && n.to == m.to && n.serviceType == m.serviceType && n.zipMode == q.zipMode
            && n.messageType == m.message.messageType && n.action == m.message.action
            && n.quantity == m.message.quantity && n.migVersion == m.message.migVersion
            && n.filename == q.remoteName && n.size == |q.signed| && n.retry == m.retry && n.versions == m.versions
  {
    hide IsBasename;
  }

  class NativeSubmitter {
    var trace: seq<Effect>

    constructor ()
      ensures trace == []
    {
      trace := [];
    }

    method UploadObject(name: bytes, data: bytes, net: Network) returns (ok: bool)
      modifies this
      ensures trace == old(trace) + [Uploaded(name, data, net.uploadOk)] && ok == net.uploadOk
    {
      ok := net.uploadOk;
      trace := trace + [Uploaded(name, data, ok)];
    }

    method NotifyGateway(n: UploadNotification, net: Network) returns (reply: Option<GatewayStatus>)
      modifies this
      ensures trace == old(trace) + [Notified(n, net.reply)] && reply == net.reply
    {
      reply := net.reply;
      trace := trace + [Notified(n, reply)];
    }

    method Submit(q: Request, archive: Archiver, net: Network) returns (r: Result<Receipt, NativeError>)
      modifies this
      ensures old(trace) <= trace && Answers(q, archive, net, trace[|old(trace)|..], r)
    {
      ghost var before := trace;
      var prepared := PrepareUpload(q.localName, q.remoteName, q.signed, q.zipMode, archive);
      if prepared.Failure? {
        assert trace[|before|..] == [];
        return Failure(Prepare(prepared.error));
      }
      var o := prepared.value;
      var uploaded := UploadObject(o.remoteFilename, o.data, net);
      ghost var upload := Uploaded(q.remoteName, o.data, net.uploadOk);
      assert trace[|before|..] == [upload];
      if !uploaded {
        return Failure(Upload(o.remoteFilename));
      }
      var reply := NotifyGateway(NotificationFor(o, q.metadata), net);
      assert trace[|before|..] == [upload, Notified(NotificationFor(o, q.metadata), net.reply)];
      if reply.None? {
        return Failure(Notify(o.remoteFilename));
      }
      if !reply.value.IsAccepted() {
        return Failure(GatewayRejected(o.remoteFilename, reply.value));
      }
      r := Success(Receipt(o.remoteFilename, reply.value));
    }

    /** `submit_pack_artifact`: the count of the filename is checked before any effect. */
    method SubmitPackArtifact(filename: PackFilename, signed: bytes, zipMode: ZipMode, metadata: Metadata,
                              archive: Archiver, net: Network)
        returns (r: Result<Receipt, PackSubmitError>)
      modifies this
      ensures old(trace) <= trace
      ensures PackAnswers(filename, signed, zipMode, metadata, archive, net, trace[|old(trace)|..], r)
    {
      ghost var before := trace;
      assert trace[|before|..] == [];
      if filename.packCount <= 0 {
        return Failure(PackSubmitError.InvalidPackCount(filename.packCount));
      }
      if filename.packCount != metadata.message.quantity {
        return Failure(QuantityMismatch(filename.packCount, metadata.message.quantity));
      }
      var q := Request(RenderPack(filename), RemoteFilename(filename), signed, zipMode, metadata);
      var native := Submit(q, archive, net);
      r := match native case Success(receipt) => Success(receipt) case Failure(error) => Failure(Native(error));
    }
  }

  datatype PackSubmitError =
    | InvalidPackCount(count: i32)
    | QuantityMismatch(filenameCount: u32, notificationQuantity: u32)
    | Native(error: NativeError)

  predicate PackAnswers(filename: PackFilename, signed: bytes, zipMode: ZipMode, metadata: Metadata,
                        archive: Archiver, net: Network, steps: seq<Effect>, r: Result<Receipt, PackSubmitError>) {
    var q := Request(RenderPack(filename), RemoteFilename(filename), signed, zipMode, metadata);
    if filename.packCount <= 0 then steps == [] && r == Failure(PackSubmitError.InvalidPackCount(filename.packCount))
    else if filename.packCount != metadata.message.quantity then
      steps == [] && r == Failure(QuantityMismatch(filename.packCount, metadata.message.quantity))
    else
      match r
      case Success(receipt) => Answers(q, archive, net, steps, Success(receipt))
      case Failure(Native(error)) => Answers(q, archive, net, steps, Failure(error))
      case Failure(_) => false
  }

  /** A count that is not positive, or not the notified quantity, is refused before any effect; nothing else is. */
  lemma CountRefusedExactly(filename: PackFilename, signed: bytes, zipMode: ZipMode, metadata: Metadata,
                            archive: Archiver, net: Network, steps: seq<Effect>, r: Result<Receipt, PackSubmitError>)
    requires PackAnswers(filename, signed, zipMode, metadata, archive, net, steps, r)
    ensures var counted := filename.packCount == metadata.message.quantity;
            && (r == Failure(PackSubmitError.InvalidPackCount(filename.packCount)) <==> filename.packCount <= 0)
            && (filename.packCount > 0 ==>
                  (r == Failure(QuantityMismatch(filename.packCount, metadata.message.quantity)) <==> !counted))
            && (filename.packCount <= 0 || !counted ==> steps == [])
            && (r.Success? || r.error.Native? <==> filename.packCount > 0 && counted)
  {
    hide Answers, RenderPack, RemoteFilename;
  }
}
