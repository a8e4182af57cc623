/**
  `ReconciliationPoller::poll_once`: one attempt per listed object, in listing order,
  whatever fails; parsing happens after the durability boundary.
 */
module Reconciliation {
  import opened Wrappers
  import opened Bytes
  import opened ReceiveProtocol
  import opened ReceiveSafety
  import opened ReceiveTheorems
  import opened Receiver

  /** How a durable object is classified by name and parsed; XML parsing itself is a parameter. */
  type Parser<!P> = (string, bytes) -> Option<P>

  datatype PollError = ReceiveFailed(error: ReceiveError) | ParseFailed

  datatype Reconciled<+P> = Reconciled(outcome: Outcome, parsed: P)

  datatype Attempt<+P> = Attempt(target: RemoteObject, result: Result<Reconciled<P>, PollError>)

  datatype Conditions = Conditions(receive: Environment, readOk: bool)

  /** The listing saw every object it names; the sizes may be wrong. */
  predicate Seen(w: World, listing: seq<RemoteObject>) { forall o :: o in listing ==> o.name in w.ever }

  /** The objects whose listed size a truncated download can have. */
  ghost function Suspects(w: World, listing: seq<RemoteObject>): set<string> {
    set o | o in listing && o.name in w.ever && !Plausible(o.size, |w.ever[o.name]|) :: o.name
  }

  /** The attempt crossed the durability boundary, parsed or not. */
  predicate Crossed<P>(a: Attempt<P>) {
    a.result.Success? || a.result.error == ParseFailed
  }

  lemma HeldIsKept(w: World, v: World, n: string)
    requires Inv(w) && Held(w, n) && n in v.ever && v.ever[n] == w.ever[n] && w.doubtful <= v.doubtful
    requires forall m :: m in w.dir && !IsTempName(m) ==> SameFile(w, v, m)
    ensures Held(v, n)
  {
    assert !IsTempName(n);
    hide IsTempName;
    assert SameFile(w, v, n);
  }

  lemma SuspectsGrow(w: World, v: World, listing: seq<RemoteObject>, i: nat)
    requires v.ever == w.ever && i < |listing|
    ensures Suspects(v, [listing[i]]) <= Suspects(w, listing)
  {
  }

  /** What a reader finds under the name of a held object. */
  function StoredBytes(w: World, name: string): bytes
    requires Held(w, name)
  {
    w.files[w.dir[name]]
  }

  lemma SafeObject(w: World, name: string)
    requires Safe(w) && name in w.ever && name !in w.doubtful
    ensures name in w.remote || Stored(w, name)
  {
    hide IsTempName;
  }

  // ---------------------------------------------------------------- what an attempt reports

  /** The outcome of a receive that succeeds: by whether the final name was taken before. */
  function OutcomeFor(w: World, name: string): Outcome {
    if name in w.dir then AlreadyPersisted(name) else Persisted(name)
  }

  /** What is reported of stored bytes. */
  function ParseReport<P>(outcome: Outcome, parsed: Option<P>): Result<Reconciled<P>, PollError> {
    match parsed
    case Some(p) => Success(Reconciled(outcome, p))
    case None => Failure(ParseFailed)
  }

  /** The attempt reports the answer of the receiver, and after a success what the parser makes of the stored bytes. */
  ghost predicate AttemptFor<P>(w: World, v: World, target: RemoteObject, now: Conditions, parser: Parser<P>,
                                a: Attempt<P>) {
    var name := target.name;
    && a.target == target
    && (a.result.Failure? && a.result.error.ReceiveFailed? ==>
          if ValidRemoteName(name) then Answered(w, v, target, now.receive, Failure(a.result.error.error))
          else a.result.error.error == InvalidRemoteName(name) && v == w)
    && (Crossed(a) ==>
          && ValidRemoteName(name) && Held(v, name)
          && Answered(w, v, target, now.receive, Success(OutcomeFor(w, name)))
          && a.result == ParseReport(OutcomeFor(w, name),
                                     if now.readOk then parser(name, StoredBytes(v, name)) else None))
  }

  /** An attempt for `name` leaves everything else as it is. */
  ghost predicate PollFrame(w: World, v: World, name: string) {
    && v.ever == w.ever && OnlyTouches(w, v, name) && (forall n :: n in v.remote ==> n in w.remote)
    && (forall n :: n in w.dir && !IsTempName(n) ==> SameFile(w, v, n))
    && (forall n :: n in v.doubtful ==> n in w.doubtful || n == name)
  }

  /** Nothing has happened to the object yet. */
  predicate Untouched(w: World, v: World, n: string) {
    && (n in w.remote <==> n in v.remote) && (n in w.dir <==> n in v.dir) && (n in w.dir ==> SameFile(w, v, n))
    && (n in v.doubtful ==> n in w.doubtful)
  }

  /** Visible, listed with its true size, under its own conditions without faults, and no other file in its place. */
  predicate Deliverable(w: World, o: RemoteObject, now: Conditions) {
    && ValidRemoteName(o.name) && o.name in w.remote && o.name in w.ever && o.name !in w.doubtful
    && 0 < |w.ever[o.name]| == o.size && Faultless(now.receive, o.size) && now.readOk
    && (o.name in w.dir ==> Stored(w, o.name))
  }

  /** Stored, gone from the remote, and reported with the parser's view of the object. */
  ghost predicate Ended<P>(w: World, v: World, o: RemoteObject, parser: Parser<P>, a: Attempt<P>)
    requires o.name in w.ever
  {
    && Stored(v, o.name) && o.name !in v.remote
    && a.result == ParseReport(OutcomeFor(w, o.name), parser(o.name, w.ever[o.name]))
  }

  lemma DeliverableEnds<P>(start: World, w: World, v: World, o: RemoteObject, now: Conditions, parser: Parser<P>,
                           a: Attempt<P>)
    requires Deliverable(start, o, now) && Untouched(start, w, o.name) && w.ever == start.ever && v.ever == w.ever
    requires AttemptFor(w, v, o, now, parser, a)
    ensures Ended(start, v, o, parser, a)
  {
    hide IsTempName, AnswersCall, Mistaken, OnlyTouches, ValidRemoteName, RemoteAfter;
    assert FaultlessOutcome(w, o) == Success(OutcomeFor(w, o.name));
    assert o.name !in w.doubtful && Doubted(w, o) == w.doubtful;
    if a.result.Failure? && a.result.error.ReceiveFailed? {
      assert false;
    }
  }

  lemma FrameKeepsUntouched(start: World, w: World, v: World, name: string, n: string)
    requires PollFrame(w, v, name) && Untouched(start, w, n) && n != name && !IsTempName(n)
    ensures Untouched(start, v, n)
  {
    hide IsTempName;
  }

  lemma FrameKeepsEnded<P>(start: World, w: World, v: World, name: string, o: RemoteObject, parser: Parser<P>,
                           a: Attempt<P>)
    requires o.name in start.ever && w.ever == start.ever
    requires PollFrame(w, v, name) && Ended(start, w, o, parser, a) && !IsTempName(o.name)
    ensures Ended(start, v, o, parser, a)
  {
    hide IsTempName;
    assert SameFile(w, v, o.name);
  }

  /** Nothing before `k` in the listing has the same name. */
  predicate First(objects: seq<RemoteObject>, k: nat)
    requires k < |objects|
  {
    forall j :: 0 <= j < k ==> objects[j].name != objects[k].name
  }

  /** Each attempt is the one for its object between the world before it and the world after it. */
  ghost predicate Polled<P>(worlds: seq<World>, objects: seq<RemoteObject>, now: nat -> Conditions, parser: Parser<P>,
                            done: seq<Attempt<P>>) {
    && |worlds| == |done| + 1 && |done| <= |objects|
    && forall i :: 0 <= i < |done| ==> PolledOne(worlds, objects, now, parser, done, i)
  }

  ghost predicate PolledOne<P>(worlds: seq<World>, objects: seq<RemoteObject>, now: nat -> Conditions,
                               parser: Parser<P>, done: seq<Attempt<P>>, i: nat)
    requires i < |done| < |worlds| && |done| <= |objects|
  {
    && AttemptFor(worlds[i], worlds[i + 1], objects[i], now(i), parser, done[i])
    && PollFrame(worlds[i], worlds[i + 1], objects[i].name)
  }

  lemma NothingPolled<P>(worlds: seq<World>, objects: seq<RemoteObject>, now: nat -> Conditions, parser: Parser<P>)
    requires |worlds| == 1
    ensures Polled(worlds, objects, now, parser, [])
  {
  }

  lemma PolledNext<P>(worlds: seq<World>, objects: seq<RemoteObject>, now: nat -> Conditions, parser: Parser<P>,
                      done: seq<Attempt<P>>, w: World, a: Attempt<P>)
    requires Polled(worlds, objects, now, parser, done) && |done| < |objects|
    requires AttemptFor(worlds[|done|], w, objects[|done|], now(|done|), parser, a)
    requires PollFrame(worlds[|done|], w, objects[|done|].name)
    ensures Polled(worlds + [w], objects, now, parser, done + [a])
  {
    hide AttemptFor, PollFrame;
    var longer, more := worlds + [w], done + [a];
    forall i | 0 <= i < |more|
      ensures PolledOne(longer, objects, now, parser, more, i)
    {
      if i < |done| {
        assert PolledOne(worlds, objects, now, parser, done, i);
      }
    }
  }

  /** Where a poll stands: what is left is untouched, what was deliverable has ended. */
  ghost predicate Progress<P>(start: World, w: World, objects: seq<RemoteObject>, now: nat -> Conditions,
                              parser: Parser<P>, done: seq<Attempt<P>>) {
    && w.ever == start.ever && |done| <= |objects|
    && (forall k :: |done| <= k < |objects| && First(objects, k) && Deliverable(start, objects[k], now(k)) ==>
          !IsTempName(objects[k].name) && Untouched(start, w, objects[k].name))
    && (forall k :: 0 <= k < |done| && First(objects, k) && Deliverable(start, objects[k], now(k)) ==>
          !IsTempName(objects[k].name) && Ended(start, w, objects[k], parser, done[k]))
  }

  lemma ProgressBegins<P>(w: World, objects: seq<RemoteObject>, now: nat -> Conditions, parser: Parser<P>)
    requires Inv(w)
    ensures Progress(w, w, objects, now, parser, [])
  {
    hide IsTempName, First, ValidRemoteName;
    forall k | 0 <= k < |objects| && Deliverable(w, objects[k], now(k))
      ensures !IsTempName(objects[k].name) && Untouched(w, w, objects[k].name)
    {
    }
  }

  lemma ProgressStep<P>(start: World, w: World, v: World, objects: seq<RemoteObject>, now: nat -> Conditions,
                        parser: Parser<P>, done: seq<Attempt<P>>, a: Attempt<P>)
    requires Progress(start, w, objects, now, parser, done) && |done| < |objects|
    requires AttemptFor(w, v, objects[|done|], now(|done|), parser, a)
    requires PollFrame(w, v, objects[|done|].name)
    ensures Progress(start, v, objects, now, parser, done + [a])
  {
    hide IsTempName, AttemptFor, Untouched, Deliverable, Ended;
    var i, more := |done|, done + [a];
    assert v.ever == w.ever;
    forall k | i + 1 <= k < |objects| && First(objects, k) && Deliverable(start, objects[k], now(k))
      ensures !IsTempName(objects[k].name) && Untouched(start, v, objects[k].name)
    {
      FrameKeepsUntouched(start, w, v, objects[i].name, objects[k].name);
    }
    forall k | 0 <= k < i + 1 && First(objects, k) && Deliverable(start, objects[k], now(k))
      ensures !IsTempName(objects[k].name) && Seen(start, [objects[k]])
              && Ended(start, v, objects[k], parser, more[k])
    {
      DeliverableIsSeen(start, objects[k], now(k));
      if k == i {
        DeliverableEnds(start, w, v, objects[i], now(i), parser, a);
      } else {
        FrameKeepsEnded(start, w, v, objects[i].name, objects[k], parser, done[k]);
      }
    }
  }

  lemma DeliverableIsSeen(w: World, o: RemoteObject, now: Conditions)
    requires Deliverable(w, o, now)
    ensures o.name in w.ever && Seen(w, [o])
  {
  }

  lemma ProgressEnds<P>(start: World, w: World, objects: seq<RemoteObject>, now: nat -> Conditions, parser: Parser<P>,
                        done: seq<Attempt<P>>)
    requires Progress(start, w, objects, now, parser, done) && |done| == |objects|
    ensures forall k :: 0 <= k < |objects| && First(objects, k) && Deliverable(start, objects[k], now(k)) ==>
              objects[k].name in start.ever && Ended(start, w, objects[k], parser, done[k])
  {
    hide IsTempName, Ended, First;
  }

  lemma AttemptCrosses<P>(w: World, v: World, target: RemoteObject, now: Conditions, parser: Parser<P>, a: Attempt<P>)
    requires AttemptFor(w, v, target, now, parser, a)
    ensures a.target == target && (Crossed(a) ==> Held(v, target.name))
  {
    hide Held, Answered, ValidRemoteName;
  }

  lemma FrameKeepsHeld(w: World, v: World, name: string, n: string)
    requires Inv(w) && PollFrame(w, v, name) && Held(w, n) && w.doubtful <= v.doubtful
    ensures Held(v, n)
  {
    hide IsTempName, OnlyTouches, Held, Inv;
    HeldIsInEver(w, n);
    HeldIsKept(w, v, n);
  }

  lemma HeldIsInEver(w: World, n: string)
    requires Held(w, n)
    ensures n in w.ever
  {
  }

  /** What the answer of the receiver leaves alone. */
  lemma AnsweredFrames(w: World, v: World, target: RemoteObject, env: Environment, r: Result<Outcome, ReceiveError>)
    requires Answered(w, v, target, env, r)
    requires forall n :: n in w.dir && !IsTempName(n) ==> SameFile(w, v, n)
    ensures PollFrame(w, v, target.name)
  {
    hide IsTempName, AnswersCall, Mistaken, Held;
  }

  lemma NothingFrames(w: World, name: string)
    requires Inv(w)
    ensures PollFrame(w, w, name)
  {
    hide IsTempName;
  }

  /** The two things a receive can do: refuse the name, or answer the call. */
  ghost predicate Received(w: World, v: World, target: RemoteObject, env: Environment,
                           r: Result<Outcome, ReceiveError>)
  {
    if ValidRemoteName(target.name) then Answered(w, v, target, env, r)
    else r == Failure(InvalidRemoteName(target.name)) && v == w
  }

  lemma ReceivedFrames(w: World, v: World, target: RemoteObject, env: Environment, r: Result<Outcome, ReceiveError>)
    requires Received(w, v, target, env, r) && PollFrame(w, w, target.name) && target.name in w.ever
    requires forall n :: n in w.dir && !IsTempName(n) ==> SameFile(w, v, n)
    ensures PollFrame(w, v, target.name) && v.ever == w.ever && w.doubtful <= v.doubtful
    ensures v.doubtful <= w.doubtful + Suspects(w, [target])
  {
    hide IsTempName, ValidRemoteName, PollFrame;
    assert target in [target];
    if ValidRemoteName(target.name) {
      AnsweredFrames(w, v, target, env, r);
      hide AnswersCall, Mistaken, Held;
    }
  }

  lemma SuccessIsHeld(w: World, v: World, target: RemoteObject, env: Environment, r: Result<Outcome, ReceiveError>)
    requires Received(w, v, target, env, r) && r.Success?
    ensures ValidRemoteName(target.name) && Held(v, target.name) && r.value == OutcomeFor(w, target.name)
    ensures Answered(w, v, target, env, r) && target.name in v.dir && v.dir[target.name] in v.files
  {
    hide IsTempName, ValidRemoteName, AnswersCall, Mistaken;
  }

  lemma RefusalAttempted<P>(w: World, v: World, target: RemoteObject, now: Conditions, parser: Parser<P>,
                            error: ReceiveError, a: Attempt<P>)
    requires Received(w, v, target, now.receive, Failure(error)) && a == Attempt(target, Failure(ReceiveFailed(error)))
    ensures AttemptFor(w, v, target, now, parser, a)
  {
    hide Answered, ValidRemoteName, Held;
  }

  lemma SuccessAttempted<P>(w: World, v: World, target: RemoteObject, now: Conditions, parser: Parser<P>,
                            outcome: Outcome, a: Attempt<P>)
    requires ValidRemoteName(target.name) && Held(v, target.name) && outcome == OutcomeFor(w, target.name)
    requires Answered(w, v, target, now.receive, Success(outcome)) && a.target == target
    requires a.result ==
             ParseReport(outcome, if now.readOk then parser(target.name, StoredBytes(v, target.name)) else None)
    ensures AttemptFor(w, v, target, now, parser, a)
  {
    hide Answered, ValidRemoteName, Held;
  }

  class ReconciliationPoller {
    const receiver: DurableReceiver

    constructor (receiver: DurableReceiver)
      ensures this.receiver == receiver
    {
      this.receiver := receiver;
    }

    /** Receive one object, then load and parse what is stored. */
    method PollObject<P>(target: RemoteObject, now: Conditions, parser: Parser<P>) returns (a: Attempt<P>)
      requires receiver.Valid() && target.name in receiver.world.ever
      requires ValidRemoteName(target.name) ==> FreeName(receiver.world, receiver.pid)
      modifies receiver
      ensures receiver.Valid() && AttemptFor(old(receiver.world), receiver.world, target, now, parser, a)
      ensures PollFrame(old(receiver.world), receiver.world, target.name)
      ensures |receiver.world.dir| <= |old(receiver.world.dir)| + 2
      ensures receiver.world.ever == old(receiver.world.ever)
      ensures old(Safe(receiver.world)) ==> Safe(receiver.world)
      ensures old(receiver.world.doubtful) <= receiver.world.doubtful
                <= old(receiver.world.doubtful) + Suspects(old(receiver.world), [target])
    {
      hide Answered, Held, IsTempName, Inv, PollFrame, ValidRemoteName, DurableReceiver.Valid, AttemptFor, Safe;
      assert target in [target];
      ghost var before := receiver.world;
      receiver.HoldsInv();
      NothingFrames(before, target.name);
      var received := receiver.Receive(target, now.receive);
      ReceivedFrames(before, receiver.world, target, now.receive, received);
      if received.Failure? {
        a := Attempt(target, Failure(ReceiveFailed(received.error)));
        RefusalAttempted(before, receiver.world, target, now, parser, received.error, a);
        return;
      }
      SuccessIsHeld(before, receiver.world, target, now.receive, received);
      var stored := receiver.world.files[receiver.world.dir[target.name]];
      var parsed := if now.readOk then parser(target.name, stored) else None;
      match parsed {
        case Some(p) => a := Attempt(target, Success(Reconciled(received.value, p)));
        case None => a := Attempt(target, Failure(ParseFailed));
      }
      SuccessAttempted(before, receiver.world, target, now, parser, received.value, a);
    }

    /**
      Every listed object gets exactly one attempt in listing order, the one called for between
      two successive worlds that lead from the first to the last.  Afterwards each of
      them that is not doubtful is remote or stored with its bytes, and it is stored whenever
      its attempt crossed the boundary, even if a later step of that attempt or another
      attempt failed.  Only implausible sizes in the listing make objects doubtful.  Whatever is
      deliverable ends stored, gone from the remote, and reported with its outcome and with
      what the parser makes of it.
     */
    method PollOnce<P>(listing: Option<seq<RemoteObject>>, now: nat -> Conditions, parser: Parser<P>)
        returns (attempts: Option<seq<Attempt<P>>>, ghost worlds: seq<World>)
      requires receiver.Valid() && Safe(receiver.world)
      requires listing.Some? ==> Seen(receiver.world, listing.value)
      requires listing.Some? ==> |receiver.world.dir| + 2 * |listing.value| <= ID_SPACE
      modifies receiver
      ensures receiver.Valid() && receiver.world.ever == old(receiver.world.ever)
      ensures listing.None? ==> attempts.None? && receiver.world == old(receiver.world)
      ensures listing.Some? ==>
        && attempts.Some? && |attempts.value| == |listing.value|
        && Polled(worlds, listing.value, now, parser, attempts.value)
        && worlds[0] == old(receiver.world) && worlds[|attempts.value|] == receiver.world
        && receiver.world.doubtful <= old(receiver.world.doubtful) + Suspects(old(receiver.world), listing.value)
        && (forall i :: 0 <= i < |listing.value| ==>
              var name := listing.value[i].name;
              && attempts.value[i].target == listing.value[i]
              && (Crossed(attempts.value[i]) ==> Held(receiver.world, name))
              && (name !in receiver.world.doubtful ==>
                    name in receiver.world.remote || Stored(receiver.world, name)))
        && (forall i :: 0 <= i < |listing.value| && First(listing.value, i)
                        && Deliverable(old(receiver.world), listing.value[i], now(i)) ==>
              Ended(old(receiver.world), receiver.world, listing.value[i], parser, attempts.value[i]))
    {
      hide Safe, Inv, IsTempName, Held, Suspects, Stored, FreeName, ValidRemoteName, DurableReceiver.Valid;
      hide Progress, AttemptFor, PollFrame, Deliverable, Ended, First, Polled;
      worlds := [receiver.world];
      if listing.None? {
        return None, worlds;
      }
      var objects := listing.value;
      var done: seq<Attempt<P>> := [];
      receiver.HoldsInv();
      ProgressBegins(receiver.world, objects, now, parser);
      NothingPolled(worlds, objects, now, parser);
      for i := 0 to |objects|
        invariant receiver.Valid() && Safe(receiver.world)
        invariant receiver.world.ever == old(receiver.world.ever) && |done| == i
        invariant |receiver.world.dir| <= |old(receiver.world.dir)| + 2 * i
        invariant Progress(old(receiver.world), receiver.world, objects, now, parser, done)
        invariant |worlds| == i + 1 && worlds[0] == old(receiver.world) && worlds[i] == receiver.world
        invariant Polled(worlds, objects, now, parser, done)
        invariant forall j :: 0 <= j < i ==>
          && done[j].target == objects[j]
          && (Crossed(done[j]) ==> Held(receiver.world, objects[j].name))
        invariant receiver.world.doubtful <= old(receiver.world.doubtful) + Suspects(old(receiver.world), objects)
      {
        assert objects[i] in objects;
        ghost var before := receiver.world;
        SuspectsGrow(old(receiver.world), before, objects, i);
        RoomIsFree(before, receiver.pid);
        receiver.HoldsInv();
        var a := PollObject(objects[i], now(i), parser);
        forall j | 0 <= j < i && Crossed(done[j])
          ensures Held(receiver.world, objects[j].name)
        {
          FrameKeepsHeld(before, receiver.world, objects[i].name, objects[j].name);
        }
        AttemptCrosses(before, receiver.world, objects[i], now(i), parser, a);
        PolledNext(worlds, objects, now, parser, done, receiver.world, a);
        worlds := worlds + [receiver.world];
        ProgressStep(old(receiver.world), before, receiver.world, objects, now, parser, done, a);
        done := done + [a];
      }
      forall i | 0 <= i < |objects| && objects[i].name !in receiver.world.doubtful
        ensures objects[i].name in receiver.world.remote || Stored(receiver.world, objects[i].name)
      {
        assert objects[i] in objects;
        SafeObject(receiver.world, objects[i].name);
      }
      ProgressEnds(old(receiver.world), receiver.world, objects, now, parser, done);
      attempts := Some(done);
    }
  }
}
