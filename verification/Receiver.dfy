/**
  `DurableReceiver::receive` as one thread executes it.  The environment decides which
  operation fails; every effect is a step of the protocol, so whatever is proved about
  all runs of the protocol holds of what the receiver does.
 */
module Receiver {
  import opened Wrappers
  import opened Bytes
  import opened ReceiveProtocol
  import opened ReceiveSafety
  import opened ReceiveTheorems
  import opened Files
  import Limits = ReceiveLimits
  import Durability = ReceiveDurability

  datatype Outcome = Persisted(path: string) | AlreadyPersisted(path: string)

  datatype RemoteOperation = DownloadOperation | DeleteOperation

  datatype ReceiveError =
    | InvalidRemoteName(name: string)
    | EmptyObject(name: string)
    | SizeMismatch(name: string, expected: nat, actual: nat)
    | ConflictingLocalObject(name: string, path: string)
    | Io
    | Remote(operation: RemoteOperation)

  /** What the filesystem and the remote end do during one call. */
  datatype Environment = Environment(
    createOk: bool, delivered: nat, downloadOk: bool, syncOk: bool, linkOk: bool, directorySyncOk: bool,
    compareOk: bool, fullReads: bool, deleteDone: bool, deleteOk: bool, dropOk: bool)

  /** No operation fails, and the whole object of `size` bytes arrives. */
  predicate Faultless(env: Environment, size: nat) {
    && env.createOk && env.delivered >= size && env.downloadOk && env.syncOk && env.linkOk && env.directorySyncOk
    && env.compareOk && env.fullReads && env.deleteDone && env.deleteOk && env.dropOk
  }

  function PublicationOf(w: World, name: string): Result<Outcome, ReceiveError> {
    if name !in w.dir then Success(Persisted(name))
    else if Stored(w, name) then Success(AlreadyPersisted(name))
    else Failure(ConflictingLocalObject(name, name))
  }

  /** What a call returns for a visible object when no operation fails. */
  function FaultlessOutcome(w: World, target: RemoteObject): Result<Outcome, ReceiveError>
    requires target.name in w.ever
  {
    var actual := |w.ever[target.name]|;
    if actual == 0 then Failure(EmptyObject(target.name))
    else if actual != target.size then Failure(SizeMismatch(target.name, target.size, actual))
    else PublicationOf(w, target.name)
  }

  /** What arrives of the object: nothing once it is gone, a beginning if the transfer stops early. */
  function Delivered(w: World, name: string, env: Environment): bytes
    requires name in w.ever
  {
    if name !in w.remote then []
    else if env.delivered < |w.ever[name]| then w.ever[name][..env.delivered] else w.ever[name]
  }

  /** The error that ends the call before anything is published. */
  function RetrievalError(target: RemoteObject, content: bytes, env: Environment): Option<ReceiveError> {
    if !env.downloadOk then Some(Remote(DownloadOperation))
    else if !env.syncOk then Some(Io)
    else if content == [] then Some(EmptyObject(target.name))
    else if |content| != target.size then Some(SizeMismatch(target.name, target.size, |content|))
    else None
  }

  /** Publishing a file with this content, when reads fill the buffer. */
  function PublishAnswer(w: World, name: string, content: bytes, env: Environment): Result<Outcome, ReceiveError> {
    if !env.linkOk then Failure(Io)
    else if name !in w.dir then (if env.directorySyncOk then Success(Persisted(name)) else Failure(Io))
    else if !env.compareOk then Failure(Io)
    else if w.dir[name] in w.files && w.files[w.dir[name]] == content then Success(AlreadyPersisted(name))
    else Failure(ConflictingLocalObject(name, name))
  }

  function AcknowledgeAnswer(w: World, name: string, outcome: Outcome, env: Environment)
      : Result<Outcome, ReceiveError>
  {
    if name in w.remote && env.deleteDone && env.deleteOk then Success(outcome) else Failure(Remote(DeleteOperation))
  }

  function DeliverAnswer(w: World, name: string, content: bytes, env: Environment): Result<Outcome, ReceiveError> {
    match PublishAnswer(w, name, content, env)
    case Failure(error) => Failure(error)
    case Success(outcome) => AcknowledgeAnswer(w, name, outcome, env)
  }

  function AttemptAnswer(w: World, target: RemoteObject, env: Environment): Result<Outcome, ReceiveError>
    requires target.name in w.ever
  {
    var content := Delivered(w, target.name, env);
    match RetrievalError(target, content, env)
    case Some(error) => Failure(error)
    case None => DeliverAnswer(w, target.name, content, env)
  }

  /** The final name leads to a file with this content, and the comparison can tell. */
  predicate Recognisable(w: World, name: string, content: bytes, env: Environment) {
    env.linkOk && env.compareOk && name in w.dir && w.dir[name] in w.files && w.files[w.dir[name]] == content
  }

  /** Short reads can make identical files look different, and nothing else. */
  predicate AsExpected(w: World, r: Result<Outcome, ReceiveError>, expected: Result<Outcome, ReceiveError>,
                       name: string, content: bytes, env: Environment) {
    || r == expected
    || (!env.fullReads && Recognisable(w, name, content, env) && r == Failure(ConflictingLocalObject(name, name)))
  }

  /** A complete copy of an object that is stored already, mistaken for another one by short reads. */
  predicate Mistaken(w: World, target: RemoteObject, env: Environment, r: Result<Outcome, ReceiveError>)
    requires target.name in w.ever
  {
    var name, content := target.name, Delivered(w, target.name, env);
    && !env.fullReads && r == Failure(ConflictingLocalObject(name, name))
    && env.createOk && env.downloadOk && env.syncOk && |content| == target.size > 0
    && Recognisable(w, name, content, env)
  }

  /** The answer to the whole call, error by error: what must have happened for each. */
  predicate AnswersCall(w: World, target: RemoteObject, env: Environment, r: Result<Outcome, ReceiveError>)
    requires target.name in w.ever
  {
    var name, content := target.name, Delivered(w, target.name, env);
    var downloaded := env.createOk && env.downloadOk;
    var fetched := downloaded && env.syncOk && |content| > 0 && |content| == target.size;
    var unused := name !in w.dir;
    var same := name in w.dir && w.dir[name] in w.files && w.files[w.dir[name]] == content;
    var published := fetched && env.linkOk && ((unused && env.directorySyncOk) || (same && env.compareOk));
    var acknowledged := name in w.remote && env.deleteDone && env.deleteOk;
    && (r == Failure(Remote(DownloadOperation)) <==> env.createOk && !env.downloadOk)
    && (r == Failure(EmptyObject(name)) <==> downloaded && env.syncOk && content == [])
    && (r == Failure(SizeMismatch(name, target.size, |content|)) <==>
          downloaded && env.syncOk && content != [] && |content| != target.size)
    && (r == Failure(Io) <==>
          || !env.createOk || (downloaded && !env.syncOk)
          || (fetched && (!env.linkOk || (unused && !env.directorySyncOk) || (!unused && !env.compareOk))))
    && (r == Failure(ConflictingLocalObject(name, name)) <==>
          fetched && env.linkOk && !unused && env.compareOk && !same)
    && (r == Failure(Remote(DeleteOperation)) <==> published && !acknowledged)
    && (r == Success(Persisted(name)) <==> published && acknowledged && unused)
    && (r == Success(AlreadyPersisted(name)) <==> published && acknowledged && same)
  }

  /** The remote side after the call: the object is gone exactly when a deletion took place. */
  predicate RemoteAfter(w: World, v: World, name: string, env: Environment, r: Result<Outcome, ReceiveError>) {
    var deleting := r.Success? || r == Failure(Remote(DeleteOperation));
    v.remote == if deleting && env.deleteDone then w.remote - {name} else w.remote
  }

  /** No other object and no other published name is affected. */
  ghost predicate OnlyTouches(w: World, v: World, name: string) {
    && (forall n :: n != name ==> (n in v.remote <==> n in w.remote))
    && (forall n :: n != name && !IsTempName(n) && n !in w.dir ==> n !in v.dir)
  }

  lemma AttemptAnswersCall(w: World, target: RemoteObject, env: Environment)
    requires target.name in w.ever && env.createOk
    ensures AnswersCall(w, target, env, AttemptAnswer(w, target, env))
  {
    hide Delivered;
  }

  lemma FaultlessAnswer(w: World, target: RemoteObject, env: Environment)
    requires target.name in w.ever && Faultless(env, |w.ever[target.name]|) && target.name in w.remote
    requires target.name in w.dir ==> w.dir[target.name] in w.files
    ensures AttemptAnswer(w, target, env) == FaultlessOutcome(w, target)
  {
  }

  /**
    What an answered call means for the object: success leaves it stored and gone
    remotely, every error but a failed deletion leaves the remote side untouched, a failed
    deletion leaves the local copy intact, and without faults the answer is determined.
    What is stored is the whole object unless some listed size made it doubtful.
   */
  ghost predicate Answered(w: World, v: World, target: RemoteObject, env: Environment,
                           r: Result<Outcome, ReceiveError>)
  {
    var name := target.name;
    && name in w.ever && v.ever == w.ever && v.doubtful == Doubted(w, target)
    && (r.Success? || r == Failure(Remote(DeleteOperation)) ==> Held(v, name))
    && (r.Success? ==> name !in v.remote)
    && (r.Success? ==> r.value == if name in w.dir then AlreadyPersisted(name) else Persisted(name))
    && (r.Failure? ==> !r.error.InvalidRemoteName? && (r.error == Remote(DeleteOperation) || v.remote == w.remote))
    && (name in w.remote && Faultless(env, |w.ever[name]|) ==> r == FaultlessOutcome(w, target))
    && (AnswersCall(w, target, env, r) || Mistaken(w, target, env, r))
    && RemoteAfter(w, v, name, env, r) && OnlyTouches(w, v, name)
  }

  /** A non-empty object has a local file under its own name, the whole object unless it is doubtful. */
  predicate Held(w: World, name: string) {
    && name in w.ever && w.ever[name] != [] && name in w.dir && w.dir[name] in w.files
    && (name !in w.doubtful ==> Stored(w, name))
  }

  lemma AnsweredKeepsEver(w: World, v: World, target: RemoteObject, env: Environment, r: Result<Outcome, ReceiveError>)
    requires Answered(w, v, target, env, r)
    ensures target.name in w.ever && v.ever == w.ever
  {
  }

  /** Dropping the temporary file afterwards does not change the answer. */
  lemma AnsweredAfterDrop(w: World, v: World, id: nat, removed: bool, target: RemoteObject, env: Environment,
                          r: Result<Outcome, ReceiveError>)
    requires Answered(w, v, target, env, r) && InPhase(v, id, Closing)
    requires v.ever[target.name] != [] ==> v.calls[id].temp != target.name
    ensures Answered(w, Closed(v, id, removed), target, env, r)
  {
  }

  /** The directory gained one temporary name for one new, empty file; nothing else it relies on moved. */
  ghost predicate Readied(w: World, m: World) {
    && m.ever == w.ever && m.remote == w.remote
    && exists temp, inode :: ReadiedAs(w, m, temp, inode)
  }

  ghost predicate ReadiedAs(w: World, m: World, temp: string, inode: nat) {
    && temp !in w.dir && IsTempName(temp) && m.dir == w.dir[temp := inode]
    && inode !in w.files && m.files == w.files[inode := []]
  }

  /** A new temporary name with a new file does not change what the call must answer. */
  lemma SameAnswers(w: World, m: World, target: RemoteObject, env: Environment, r: Result<Outcome, ReceiveError>,
                    temp: string, inode: nat)
    requires target.name in w.ever && m.ever == w.ever && m.remote == w.remote && ReadiedAs(w, m, temp, inode)
    requires target.name in w.dir ==> w.dir[target.name] in w.files
    requires target.name == temp ==> w.ever[temp] == []
    ensures AnswersCall(m, target, env, r) ==> AnswersCall(w, target, env, r)
    ensures Mistaken(m, target, env, r) ==> Mistaken(w, target, env, r)
  {
    hide IsTempName;
    assert Delivered(m, target.name, env) == Delivered(w, target.name, env);
    assert target.name == temp ==> Delivered(w, target.name, env) == [];
    hide Delivered;
  }

  /** Neither does the creation of the temporary file before. */
  lemma AnsweredFromStart(w: World, m: World, v: World, target: RemoteObject, env: Environment,
                          r: Result<Outcome, ReceiveError>)
    requires Inv(w) && target.name in w.ever && Readied(w, m) && m.doubtful == Doubted(w, target)
    requires Answered(m, v, target, env, r)
    ensures Answered(w, v, target, env, r)
  {
    hide IsTempName, AnswersCall, Mistaken;
    var temp, inode :| ReadiedAs(w, m, temp, inode);
    var name := target.name;
    assert IsTempName(name) ==> w.ever[name] == [];
    assert name in w.dir ==> w.dir[name] in w.files;
    SameAnswers(w, m, target, env, r, temp, inode);
    assert FaultlessOutcome(m, target) == FaultlessOutcome(w, target);
  }

  /** Counters and calls have no part in what was readied. */
  lemma ReadiedFrom(w: World, u: World, m: World)
    requires u == w.(counters := u.counters, calls := u.calls, doubtful := u.doubtful) && Readied(u, m)
    ensures Readied(w, m)
  {
    var temp, inode :| ReadiedAs(u, m, temp, inode);
    assert ReadiedAs(w, m, temp, inode);
  }

  lemma CallsRestored(calls: map<nat, Call>, id: nat, c: Call)
    requires id !in calls
    ensures calls[id := c] - {id} == calls
  {
  }

  lemma NotCreated(w: World, v: World, target: RemoteObject, env: Environment)
    requires target.name in w.ever && v.ever == w.ever && v.remote == w.remote && v.dir == w.dir && !env.createOk
    requires v.doubtful == Doubted(w, target)
    ensures Answered(w, v, target, env, Failure(Io))
  {
  }

  /** The answer of an attempt, with what it left behind, answers the call. */
  lemma AnsweredWhen(w: World, v: World, target: RemoteObject, env: Environment, r: Result<Outcome, ReceiveError>)
    requires env.createOk && target.name in w.ever && v.ever == w.ever && v.doubtful == Doubted(w, target)
    requires target.name in w.dir && w.ever[target.name] != [] ==> w.dir[target.name] in w.files
    requires r == AttemptAnswer(w, target, env) || Mistaken(w, target, env, r)
    requires r.Success? || r == Failure(Remote(DeleteOperation)) ==> Held(v, target.name)
    requires RemoteAfter(w, v, target.name, env, r) && OnlyTouches(w, v, target.name)
    ensures Answered(w, v, target, env, r)
  {
    hide IsTempName, Held, AnswersCall, Delivered;
    AttemptAnswersCall(w, target, env);
    if target.name in w.remote && Faultless(env, |w.ever[target.name]|) {
      WholeDelivered(w, target.name, env);
    }
  }

  lemma WholeDelivered(w: World, name: string, env: Environment)
    requires name in w.ever && name in w.remote && env.delivered >= |w.ever[name]|
    ensures Delivered(w, name, env) == w.ever[name]
  {
  }

  lemma RetrievalAnswered(w: World, v: World, id: nat, target: RemoteObject, env: Environment, error: ReceiveError)
    requires env.createOk && target.name in w.ever && OnlyMoved(w, v, id) && v.dir == w.dir
    requires w.doubtful == Doubted(w, target)
    requires target.name in w.dir && w.ever[target.name] != [] ==> w.dir[target.name] in w.files
    requires RetrievalError(target, Delivered(w, target.name, env), env) == Some(error)
    ensures Answered(w, v, target, env, Failure(error))
  {
    hide IsTempName, Answered, Delivered, Held, Doubted;
    AnsweredWhen(w, v, target, env, Failure(error));
  }

  lemma DeliveryAnswered(w: World, u: World, v: World, id: nat, target: RemoteObject, env: Environment,
                         r: Result<Outcome, ReceiveError>)
    requires env.createOk && target.name in w.ever && OnlyMoved(w, u, id) && u.dir == w.dir && v.ever == u.ever
    requires w.doubtful == Doubted(w, target) == v.doubtful
    requires target.name in w.dir && w.ever[target.name] != [] ==> w.dir[target.name] in w.files
    requires RetrievalError(target, Delivered(w, target.name, env), env) == None
    requires var content := Delivered(w, target.name, env);
             AsExpected(w, r, DeliverAnswer(w, target.name, content, env), target.name, content, env)
    requires r.Success? || r == Failure(Remote(DeleteOperation)) ==> Held(v, target.name)
    requires RemoteAfter(u, v, target.name, env, r) && OnlyTouches(u, v, target.name)
    ensures Answered(w, v, target, env, r)
  {
    hide IsTempName, Answered, Delivered, Held, Doubted, DeliverAnswer;
    AnsweredWhen(w, v, target, env, r);
  }

  /** Filling the temporary file does not change how the file is published. */
  lemma SameDelivery(w: World, u: World, id: nat, name: string, content: bytes, env: Environment)
    requires OnlyMoved(w, u, id) && u.dir == w.dir
    requires w.calls[id].inode in u.files && u.files == w.files[w.calls[id].inode := u.files[w.calls[id].inode]]
    requires name in w.dir ==> w.dir[name] != w.calls[id].inode
    ensures DeliverAnswer(u, name, content, env) == DeliverAnswer(w, name, content, env)
    ensures Recognisable(u, name, content, env) <==> Recognisable(w, name, content, env)
  {
  }

  /** Only the phase of call `id` moved. */
  predicate OnlyMoved(w: World, v: World, id: nat) {
    && id in w.calls && v.remote == w.remote && v.ever == w.ever && v.doubtful == w.doubtful
    && id in v.calls && v.calls == w.calls[id := v.calls[id]]
    && v.calls[id] == w.calls[id].(phase := v.calls[id].phase)
  }

  lemma IsTemp(pid: u32, n: u64)
    ensures IsTempName(TempName(pid, n))
  {
  }

  const ID_SPACE: nat := 0x1_0000_0000_0000_0000

  /** Some temporary name of the process is not taken; otherwise the source looks for one forever. */
  ghost predicate FreeName(w: World, pid: u32) { exists n: u64 :: TempName(pid, n) !in w.dir }

  /** Distinct names fill a directory. */
  lemma {:induction false} NamesFill(names: set<string>, pid: u32, k: nat)
    requires k <= ID_SPACE && forall i: u64 :: i < k ==> TempName(pid, i) in names
    ensures |names| >= k
    decreases k
  {
    hide TempName;
    if k > 0 {
      forall i: u64 | i < k - 1
        ensures TempName(pid, i) in names - {TempName(pid, k - 1)}
      {
        Durability.TempNamesDiffer(pid, i, k - 1);
      }
      NamesFill(names - {TempName(pid, k - 1)}, pid, k - 1);
    }
  }

  /** A directory with fewer entries than there are ids has a name to spare for every process. */
  lemma RoomIsFree(w: World, pid: u32)
    requires |w.dir| < ID_SPACE
    ensures FreeName(w, pid)
  {
    hide TempName;
    if !FreeName(w, pid) {
      NamesFill(w.dir.Keys, pid, ID_SPACE);
    }
  }

  /** How many ids are drawn from `n` until `m` is next. */
  function Ahead(n: u64, m: u64): nat { if n <= m then m - n else m - n + ID_SPACE }

  class DurableReceiver {
    const pid: u32
    var world: World
    ghost const start: World
    ghost var trace: seq<Step>

    /** The state was reached from `start` by the recorded steps of the protocol. */
    ghost predicate Valid()
      reads this
    {
      && Leads(start, trace, world) && NoPowerLoss(trace)
      && Inv(start) && Inv(world) && pid in world.counters
    }

    constructor (w: World, pid: u32)
      requires Inv(w) && pid in w.counters
      ensures Valid() && world == w && start == w && this.pid == pid && trace == []
    {
      this.pid := pid;
      world := w;
      start := w;
      trace := [];
    }

    method Do(step: Step)
      requires Valid() && Enabled(world, step)
      requires !step.Arrive? && !step.PowerLoss? && !step.Crash?
      modifies this
      ensures Valid() && world == Apply(old(world), step) && trace == old(trace) + [step]
    {
      hide IsTempName, Enabled, Apply, Inv, Leads, NoPowerLoss;
      StepFrame(world, step);
      StepKeepsInv(world, step);
      ghost var longer := Then(start, trace, world, step);
      world := Apply(world, step);
      trace := longer;
    }

    lemma WhileDownloading(id: nat)
      requires Valid() && InPhase(world, id, Downloading)
      ensures var c := world.calls[id]; var name := c.target.name;
              && name in world.ever && Doubted(world, c.target) == world.doubtful
              && (name in world.remote ==> world.remote[name] == world.ever[name])
              && (world.ever[name] != [] && name in world.dir ==>
                    world.dir[name] != c.inode && world.dir[name] in world.files)
    {
      var c := world.calls[id];
      assert CallOk(world, c);
      assert IsTempName(c.target.name) ==> world.ever[c.target.name] == [];
      hide IsTempName;
    }

    lemma WhenSized(id: nat)
      requires Valid() && InPhase(world, id, Sized)
      ensures var c := world.calls[id]; var name := c.target.name;
              && name in world.ever && world.ever[name] != [] && CanLink(world, id)
              && world.dir[c.temp] in world.files && world.dir[c.temp] == c.inode
              && (name in world.dir ==> world.dir[name] in world.files)
    {
      assert CallOk(world, world.calls[id]);
      hide IsTempName;
    }

    lemma WhenDeleting(id: nat)
      requires Valid() && id in world.calls && world.calls[id].phase.Deleting?
      ensures Held(world, world.calls[id].target.name)
    {
      assert CallOk(world, world.calls[id]);
      hide IsTempName;
    }

    // ------------------------------------------------------------ single effects

    method BeginCall(target: RemoteObject) returns (id: nat)
      requires Valid() && target.name in world.ever
      requires ValidRemoteName(target.name)
      modifies this
      ensures Valid() && id !in old(world.calls)
      ensures world == old(world).(calls := old(world.calls)[id := Call(pid, target, "", 0, Opening)],
                                   doubtful := Doubted(old(world), target))
      ensures trace == old(trace) + [Begin(id, pid, target)]
    {
      hide IsTempName, TempName, Inv, Leads, NoPowerLoss, ValidRemoteName;
      id := FreshCall();
      Do(Begin(id, pid, target));
    }

    /** The current operation reports an error. */
    method Fail(id: nat)
      requires Valid() && CanFail(world, id)
      modifies this
      ensures Valid() && world == At(old(world), id, Closing)
      ensures trace == old(trace) + [Step.Fail(id)]
    {
      hide IsTempName, TempName, Inv, Leads, NoPowerLoss;
      Do(Step.Fail(id));
    }

    method Write(id: nat, upTo: nat)
      requires Valid() && CanWrite(world, id, upTo)
      modifies this
      ensures Valid() && world == Written(old(world), id, upTo)
      ensures trace == old(trace) + [Step.Write(id, upTo)]
    {
      hide IsTempName, TempName, Inv, Leads, NoPowerLoss;
      Do(Step.Write(id, upTo));
    }

    method FinishDownload(id: nat)
      requires Valid() && InPhase(world, id, Downloading)
      modifies this
      ensures Valid() && world == At(old(world), id, Downloaded)
      ensures trace == old(trace) + [DownloadOk(id)]
    {
      hide IsTempName, TempName, Inv, Leads, NoPowerLoss;
      Do(DownloadOk(id));
    }

    method FlushAndSync(id: nat)
      requires Valid() && InPhase(world, id, Downloaded)
      modifies this
      ensures Valid()
      ensures world == At(old(world), id, Synced).(syncedFiles := old(world.syncedFiles) + {old(world.calls[id].inode)})
      ensures trace == old(trace) + [SyncFile(id)]
    {
      hide IsTempName, TempName, Inv, Leads, NoPowerLoss;
      Do(SyncFile(id));
    }

    method CheckSize(id: nat)
      requires Valid() && CanCheckSize(world, id)
      modifies this
      ensures Valid() && world == SizeChecked(old(world), id)
      ensures trace == old(trace) + [Step.CheckSize(id)]
    {
      hide IsTempName, TempName, Inv, Leads, NoPowerLoss;
      Do(Step.CheckSize(id));
    }

    method HardLink(id: nat)
      requires Valid() && CanLink(world, id)
      modifies this
      ensures Valid() && world == Published(old(world), id)
      ensures trace == old(trace) + [Link(id)]
    {
      hide IsTempName, TempName, Inv, Leads, NoPowerLoss;
      Do(Link(id));
    }

    method SyncParentDirectory(id: nat)
      requires Valid() && InPhase(world, id, Linked)
      modifies this
      ensures Valid() && world == At(old(world), id, Deleting(true)).(syncedEntries := old(world.dir.Keys))
      ensures trace == old(trace) + [SyncDirectory(id)]
    {
      hide IsTempName, TempName, Inv, Leads, NoPowerLoss;
      Do(SyncDirectory(id));
    }

    method Compare(id: nat)
      requires Valid() && CanCompare(world, id)
      modifies this
      ensures Valid() && world == Compared(old(world), id)
      ensures trace == old(trace) + [Step.Compare(id)]
    {
      hide IsTempName, TempName, Inv, Leads, NoPowerLoss;
      Do(Step.Compare(id));
    }

    method DeleteRemote(id: nat)
      requires Valid() && CanDelete(world, id)
      modifies this
      ensures Valid() && world == Deleted(old(world), id)
      ensures trace == old(trace) + [Delete(id)]
    {
      hide IsTempName, TempName, Inv, Leads, NoPowerLoss;
      Do(Delete(id));
    }

    /** `Drop for IncomingFile`. */
    method DropTemporary(id: nat, removed: bool)
      requires Valid() && InPhase(world, id, Closing)
      modifies this
      ensures Valid() && world == Closed(old(world), id, removed)
      ensures trace == old(trace) + [Close(id, removed)]
    {
      hide IsTempName, TempName, Inv, Leads, NoPowerLoss;
      Do(Close(id, removed));
    }

    /**
      `IncomingFile::create`: draw ids, round the end of the counter, until one names no
      directory entry.  The loop ends because some name of this process is free.
     */
    method DrawName(id: nat)
      requires Valid() && InPhase(world, id, Opening) && world.calls[id].pid == pid
      requires FreeName(world, pid)
      modifies this
      ensures Valid() && old(trace) <= trace
      ensures world == old(world).(counters := world.counters)
      ensures TempName(pid, world.counters[pid]) !in world.dir
    {
      hide Inv, Leads, NoPowerLoss, TempName;
      ghost var unused: u64 :| TempName(pid, unused) !in world.dir;
      while TempName(pid, world.counters[pid]) in world.dir
        invariant Valid() && old(trace) <= trace
        invariant world == old(world).(counters := world.counters)
        decreases Ahead(world.counters[pid], unused)
      {
        var inode := FreshInode();
        Do(Create(id, inode));
      }
    }

    /** `create_new` of the drawn name succeeds. */
    method OpenTemporary(id: nat) returns (inode: nat)
      requires Valid() && InPhase(world, id, Opening) && world.calls[id].pid == pid
      requires TempName(pid, world.counters[pid]) !in world.dir
      modifies this
      ensures Valid() && old(trace) <= trace
      ensures
        var temp := TempName(pid, old(world.counters[pid]));
        var c := Call(pid, old(world.calls[id].target), temp, inode, Downloading);
        && c.inode !in old(world.files)
        && world == old(world).(counters := world.counters, calls := old(world.calls)[id := c],
                                dir := old(world.dir)[c.temp := c.inode], files := old(world.files)[c.inode := []],
                                syncedEntries := world.syncedEntries, syncedFiles := world.syncedFiles)
      ensures Readied(old(world), world)
    {
      IsTemp(pid, world.counters[pid]);
      hide IsTempName, TempName, Inv, Leads, NoPowerLoss;
      inode := FreshInode();
      ghost var temp := TempName(pid, world.counters[pid]);
      Do(Create(id, inode));
      assert ReadiedAs(old(world), world, temp, inode);
    }

    method GiveUpCreating(id: nat)
      requires Valid() && InPhase(world, id, Opening) && world.calls[id].pid == pid
      modifies this
      ensures Valid() && old(trace) <= trace
      ensures world == old(world).(counters := world.counters, calls := old(world.calls) - {id})
    {
      hide IsTempName, TempName, Inv, Leads, NoPowerLoss;
      Do(CreateFails(id));
    }

    method FreshInode() returns (inode: nat)
      ensures inode !in world.files
    {
      ghost var unused := Limits.Unused(world.files.Keys);
      inode :| inode !in world.files;
    }

    /** `RemoteInbox::download` into the temporary file. */
    method Download(id: nat, target: RemoteObject, env: Environment) returns (ok: bool)
      requires Valid() && InPhase(world, id, Downloading) && world.calls[id].target == target
      requires world.calls[id].inode in world.files && world.files[world.calls[id].inode] == []
      modifies this
      ensures Valid() && old(trace) <= trace && ok == env.downloadOk
      ensures OnlyMoved(old(world), world, id) && world.dir == old(world.dir)
      ensures world.calls[id].phase == if ok then Downloaded else Closing
      ensures world.files == old(world.files)[old(world.calls[id].inode) := world.files[world.calls[id].inode]]
      ensures target.name in old(world).ever
      ensures world.files[world.calls[id].inode] == Delivered(old(world), target.name, env)
    {
      hide IsTempName, Inv, Leads, NoPowerLoss, ValidRemoteName, Valid;
      WhileDownloading(id);
      if target.name in world.remote {
        var size := |world.remote[target.name]|;
        Write(id, if env.delivered < size then env.delivered else size);
      }
      ok := env.downloadOk;
      if ok {
        FinishDownload(id);
      } else {
        Fail(id);
      }
    }

    /** Flush, fsync and both size checks; on an error the call is over. */
    method SyncAndCheck(id: nat, target: RemoteObject, env: Environment) returns (error: Option<ReceiveError>)
      requires Valid() && InPhase(world, id, Downloaded) && world.calls[id].target == target
      requires world.calls[id].inode in world.files
      modifies this
      ensures Valid() && old(trace) <= trace
      ensures OnlyMoved(old(world), world, id) && world.dir == old(world.dir) && world.files == old(world.files)
      ensures world.calls[id].phase == if error.None? then Sized else Closing
      ensures error ==
        var actual := |world.files[world.calls[id].inode]|;
        if !env.syncOk then Some(Io)
        else if actual == 0 then Some(EmptyObject(target.name))
        else if actual != target.size then Some(SizeMismatch(target.name, target.size, actual))
        else None
    {
      hide IsTempName, Inv, Leads, NoPowerLoss, ValidRemoteName, Valid;
      if !env.syncOk {
        Fail(id);
        return Some(Io);
      }
      FlushAndSync(id);
      var actual := |world.files[world.calls[id].inode]|;
      CheckSize(id);
      error := if actual == 0 then Some(EmptyObject(target.name))
               else if actual != target.size then Some(SizeMismatch(target.name, target.size, actual))
               else None;
    }

    /** The link took the final name: make the directory entry durable. */
    method SyncNewEntry(id: nat, name: string, env: Environment) returns (r: Result<Outcome, ReceiveError>)
      requires Valid() && InPhase(world, id, Linked)
      modifies this
      ensures Valid() && old(trace) <= trace
      ensures OnlyMoved(old(world), world, id) && world.dir == old(world.dir) && world.files == old(world.files)
      ensures r == if env.directorySyncOk then Success(Persisted(name)) else Failure(Io)
      ensures world.calls[id].phase == if r.Success? then Deleting(true) else Closing
    {
      hide IsTempName, Inv, Leads, NoPowerLoss, ValidRemoteName, Valid;
      if env.directorySyncOk {
        SyncParentDirectory(id);
        r := Success(Persisted(name));
      } else {
        Fail(id);
        r := Failure(Io);
      }
    }

    /** The final name is taken: recognise an identical file, report any other. */
    method Recognize(id: nat, name: string, env: Environment) returns (r: Result<Outcome, ReceiveError>)
      requires Valid() && CanCompare(world, id) && world.calls[id].target.name == name
      modifies this
      ensures Valid() && old(trace) <= trace
      ensures OnlyMoved(old(world), world, id) && world.dir == old(world.dir) && world.files == old(world.files)
      ensures r in {Success(AlreadyPersisted(name)), Failure(ConflictingLocalObject(name, name)), Failure(Io)}
      ensures r.Success? ==> world.files[world.dir[world.calls[id].temp]] == world.files[world.dir[name]]
      ensures var same := world.files[world.dir[world.calls[id].temp]] == world.files[world.dir[name]];
              if !env.compareOk then r == Failure(Io)
              else if same && r.Failure? then !env.fullReads && r == Failure(ConflictingLocalObject(name, name))
              else r == if same then Success(AlreadyPersisted(name)) else Failure(ConflictingLocalObject(name, name))
      ensures world.calls[id].phase == if r.Success? then Deleting(false) else Closing
    {
      hide IsTempName, Inv, Leads, NoPowerLoss, ValidRemoteName, Valid;
      if !env.compareOk {
        Fail(id);
        return Failure(Io);
      }
      var incoming, existing := world.files[world.dir[world.calls[id].temp]], world.files[world.dir[name]];
      var same := FilesEqual(incoming, existing, env.fullReads);
      r := if same then Success(AlreadyPersisted(name)) else Failure(ConflictingLocalObject(name, name));
      if same || incoming != existing {
        Compare(id);
      } else {
        Fail(id);   // short reads made identical files look different
      }
    }

    /** Publication without overwriting, or recognition of an identical local object. */
    method Publish(id: nat, name: string, env: Environment) returns (r: Result<Outcome, ReceiveError>)
      requires Valid() && CanLink(world, id) && world.calls[id].target.name == name
      requires world.dir[world.calls[id].temp] in world.files
      requires name in world.dir ==> world.dir[name] in world.files
      modifies this
      ensures Valid() && old(trace) <= trace
      ensures OnlyMoved(old(world), world, id) && world.files == old(world.files)
      ensures world.dir == old(world.dir)
              || (name !in old(world.dir) && world.dir == old(world.dir)[name := old(world.dir[world.calls[id].temp])])
      ensures r in {Success(Persisted(name)), Success(AlreadyPersisted(name)),
                    Failure(ConflictingLocalObject(name, name)), Failure(Io)}
      ensures r == Success(Persisted(name)) ==> name !in old(world.dir) && name in world.dir
      ensures r == Success(AlreadyPersisted(name)) || r == Failure(ConflictingLocalObject(name, name)) ==>
                name in old(world.dir)
      ensures world.calls[id].phase ==
        if r.Success? then Deleting(r.value.Persisted?) else Closing
      ensures var content := old(world.files[world.dir[world.calls[id].temp]]);
              AsExpected(old(world), r, PublishAnswer(old(world), name, content, env), name, content, env)
    {
      hide IsTempName, Inv, Leads, NoPowerLoss, ValidRemoteName, Valid;
      if !env.linkOk {
        Fail(id);
        return Failure(Io);
      }
      var taken := name in world.dir;
      HardLink(id);
      if taken {
        r := Recognize(id, name, env);
      } else {
        r := SyncNewEntry(id, name, env);
      }
    }

    /** Delete the remote object; the local copy stays whatever the remote end answers. */
    method Acknowledge(id: nat, outcome: Outcome, env: Environment) returns (r: Result<Outcome, ReceiveError>)
      requires Valid() && id in world.calls && world.calls[id].phase.Deleting?
      modifies this
      ensures Valid() && old(trace) <= trace
      ensures InPhase(world, id, Closing)
      ensures world == old(world).(calls := world.calls, remote := world.remote)
      ensures world.calls == old(world.calls)[id := old(world.calls[id]).(phase := Closing)]
      ensures world.remote ==
              if env.deleteDone then old(world.remote) - {world.calls[id].target.name} else old(world.remote)
      ensures r == AcknowledgeAnswer(old(world), world.calls[id].target.name, outcome, env)
    {
      hide IsTempName, Inv, Leads, NoPowerLoss, ValidRemoteName, Valid;
      if world.calls[id].target.name in world.remote && env.deleteDone {
        DeleteRemote(id);
        r := if env.deleteOk then Success(outcome) else Failure(Remote(DeleteOperation));
      } else {
        Fail(id);
        r := Failure(Remote(DeleteOperation));
      }
    }

    /** Bring a complete copy of the object into the temporary file, or end the call. */
    method Retrieve(id: nat, target: RemoteObject, env: Environment) returns (error: Option<ReceiveError>)
      requires Valid() && InPhase(world, id, Downloading) && world.calls[id].target == target
      requires world.calls[id].inode in world.files && world.files[world.calls[id].inode] == []
      modifies this
      ensures Valid() && old(trace) <= trace
      ensures OnlyMoved(old(world), world, id) && world.dir == old(world.dir)
      ensures world.calls[id].phase == if error.None? then Sized else Closing
      ensures world.files == old(world.files)[old(world.calls[id].inode) := world.files[world.calls[id].inode]]
      ensures target.name in old(world).ever
      ensures world.files[world.calls[id].inode] == Delivered(old(world), target.name, env)
      ensures error == RetrievalError(target, Delivered(old(world), target.name, env), env)
    {
      hide IsTempName, Inv, Leads, NoPowerLoss, ValidRemoteName, Valid;
      var ok := Download(id, target, env);
      if ok {
        error := SyncAndCheck(id, target, env);
      } else {
        error := Some(Remote(DownloadOperation));
      }
    }

    /** Publish the complete copy and acknowledge it remotely. */
    method Deliver(id: nat, name: string, env: Environment) returns (r: Result<Outcome, ReceiveError>)
      requires Valid() && InPhase(world, id, Sized) && world.calls[id].target.name == name
      requires world.calls[id].inode in world.files
      modifies this
      ensures Valid() && old(trace) <= trace && InPhase(world, id, Closing) && world.ever == old(world.ever)
      ensures |world.dir| <= |old(world.dir)| + 1
      ensures world.calls == old(world.calls)[id := old(world.calls[id]).(phase := Closing)]
      ensures r.Success? || r == Failure(Remote(DeleteOperation)) ==> Held(world, name)
      ensures world.doubtful == old(world.doubtful)
      ensures var content := old(world.files[world.calls[id].inode]);
              AsExpected(old(world), r, DeliverAnswer(old(world), name, content, env), name, content, env)
      ensures RemoteAfter(old(world), world, name, env, r) && OnlyTouches(old(world), world, name)
    {
      hide Inv, Leads, NoPowerLoss, ValidRemoteName, Valid;
      WhenSized(id);
      var published := Publish(id, name, env);
      if published.Failure? {
        return published;
      }
      WhenDeleting(id);
      r := Acknowledge(id, published.value, env);
    }

    /** Everything between creating and dropping the temporary file. */
    method Attempt(id: nat, target: RemoteObject, env: Environment) returns (r: Result<Outcome, ReceiveError>)
      requires env.createOk
      requires Valid() && InPhase(world, id, Downloading) && world.calls[id].target == target
      requires world.calls[id].inode in world.files && world.files[world.calls[id].inode] == []
      modifies this
      ensures Valid() && old(trace) <= trace
      ensures world.calls == old(world.calls)[id := old(world.calls[id]).(phase := Closing)]
      ensures Answered(old(world), world, target, env, r)
      ensures |world.dir| <= |old(world.dir)| + 1
    {
      hide Inv, Leads, NoPowerLoss, ValidRemoteName, Valid, Answered, Delivered, IsTempName, Held;
      WhileDownloading(id);
      ghost var before := world;
      var error := Retrieve(id, target, env);
      if error.Some? {
        r := Failure(error.value);
        RetrievalAnswered(before, world, id, target, env, error.value);
        return;
      }
      WhenSized(id);
      ghost var sized := world;
      SameDelivery(before, sized, id, target.name, Delivered(before, target.name, env), env);
      r := Deliver(id, target.name, env);
      DeliveryAnswered(before, sized, world, id, target, env, r);
    }

    /** The call from its open temporary file to the drop of that file. */
    method Complete(id: nat, target: RemoteObject, env: Environment) returns (r: Result<Outcome, ReceiveError>)
      requires env.createOk
      requires Valid() && InPhase(world, id, Downloading) && world.calls[id].target == target
      requires world.calls[id].inode in world.files && world.files[world.calls[id].inode] == []
      modifies this
      ensures Valid() && old(trace) <= trace && world.calls == old(world.calls) - {id}
      ensures Answered(old(world), world, target, env, r)
      ensures |world.dir| <= |old(world.dir)| + 1
    {
      hide Valid, Answered, IsTempName;
      OwnNameIsTemp(id);
      assert old(world).ever[target.name] != [] ==> world.calls[id].temp != target.name;
      r := Attempt(id, target, env);
      AnsweredKeepsEver(old(world), world, target, env, r);
      AnsweredAfterDrop(old(world), world, id, env.dropOk, target, env, r);
      DropTemporary(id, env.dropOk);
    }

    lemma OwnNameIsTemp(id: nat)
      requires Valid() && InPhase(world, id, Downloading)
      ensures world.calls[id].target.name in world.ever
      ensures world.calls[id].target.name == world.calls[id].temp ==> world.ever[world.calls[id].temp] == []
    {
      assert CallOk(world, world.calls[id]);
      hide IsTempName;
    }

    /** The call has begun and drawn a name for its temporary file. */
    method Enter(target: RemoteObject) returns (id: nat)
      requires Valid() && target.name in world.ever
      requires ValidRemoteName(target.name) && FreeName(world, pid)
      modifies this
      ensures Valid() && old(trace) <= trace && id !in old(world.calls)
      ensures world == old(world).(counters := world.counters, doubtful := Doubted(old(world), target),
                                   calls := old(world.calls)[id := Call(pid, target, "", 0, Opening)])
      ensures pid in world.counters && TempName(pid, world.counters[pid]) !in world.dir
    {
      hide TempName, ValidRemoteName;
      id := BeginCall(target);
      DrawName(id);
    }

    lemma HoldsInv()
      requires Valid()
      ensures Inv(world)
    {
      hide Inv;
    }

    /** One call from its beginning to the drop of its temporary file. */
    method RunCall(target: RemoteObject, env: Environment) returns (r: Result<Outcome, ReceiveError>)
      requires Valid() && target.name in world.ever
      requires ValidRemoteName(target.name) && FreeName(world, pid)
      modifies this
      ensures Valid() && old(trace) <= trace && world.calls == old(world.calls)
      ensures Answered(old(world), world, target, env, r)
      ensures |world.dir| <= |old(world.dir)| + 2
    {
      hide Valid, Inv, TempName, IsTempName, ValidRemoteName, Answered, CallOk;
      ghost var before := world;
      HoldsInv();
      var id := Enter(target);
      if env.createOk {
        r := OpenAndComplete(id, before, target, env);
      } else {
        GiveUpCreating(id);
        r := Failure(Io);
        NotCreated(before, world, target, env);
      }
    }

    method OpenAndComplete(id: nat, ghost before: World, target: RemoteObject, env: Environment)
        returns (r: Result<Outcome, ReceiveError>)
      requires env.createOk
      requires Valid() && pid in world.counters && TempName(pid, world.counters[pid]) !in world.dir
      requires Inv(before) && target.name in before.ever && id !in before.calls
      requires world == before.(counters := world.counters, doubtful := Doubted(before, target),
                                calls := before.calls[id := Call(pid, target, "", 0, Opening)])
      modifies this
      ensures Valid() && old(trace) <= trace && world.calls == before.calls
      ensures Answered(before, world, target, env, r)
      ensures |world.dir| <= |before.dir| + 2
    {
      hide Valid, Inv, TempName, Answered, Readied;
      ghost var opening := world;
      var _ := OpenTemporary(id);
      ghost var ready := world;
      ReadiedFrom(before, opening, ready);
      CallsRestored(before.calls, id, world.calls[id]);
      r := Complete(id, target, env);
      AnsweredFromStart(before, ready, world, target, env, r);
    }

    /** What the steps since `trace` was `earlier` preserve, by the theorems about runs. */
    lemma Since(w: World, earlier: seq<Step>)
      requires Valid() && earlier <= trace && Leads(start, earlier, w) && Inv(w)
      ensures Leads(w, trace[|earlier|..], world)
      ensures Safe(w) ==> Safe(world)
      ensures forall n :: n in w.dir && !IsTempName(n) ==> SameFile(w, world, n)
    {
      var steps := trace[|earlier|..];
      Continues(start, earlier, w, trace, world);
      assert NoPowerLoss(steps) && AdmissibleRun(steps);
      RunKeepsInv(w, steps);
      forall n | n in w.dir && !IsTempName(n)
        ensures SameFile(w, world, n)
      {
        PublishedForever(w, steps, n);
      }
    }

    /**
      `DurableReceiver::receive` for an object some listing has seen: the answer is as
      `Answered` says, the effects are a run of the protocol, and that run keeps
      conservation and every published file.  A size that a truncated download can have makes
      the object doubtful, and no other.
     */
    method Receive(target: RemoteObject, env: Environment) returns (r: Result<Outcome, ReceiveError>)
      requires Valid() && target.name in world.ever
      requires ValidRemoteName(target.name) ==> FreeName(world, pid)
      modifies this
      ensures Valid() && old(trace) <= trace && Leads(old(world), trace[|old(trace)|..], world)
      ensures world.calls == old(world.calls)
      ensures ValidRemoteName(target.name) ==> Answered(old(world), world, target, env, r)
      ensures !ValidRemoteName(target.name) ==> r == Failure(InvalidRemoteName(target.name)) && world == old(world)
      ensures old(Safe(world)) ==> Safe(world)
      ensures forall n :: n in old(world.dir) && !IsTempName(n) ==> SameFile(old(world), world, n)
      ensures |world.dir| <= |old(world.dir)| + 2
    {
      ghost var before, earlier := world, trace;
      assert Leads(start, earlier, before) && Inv(before);
      hide Inv, Safe, Leads, NoPowerLoss, ValidRemoteName, Answered;
      if ValidRemoteName(target.name) {
        r := RunCall(target, env);
      } else {
        r := Failure(InvalidRemoteName(target.name));
      }
      Since(before, earlier);
    }

    method FreshCall() returns (id: nat)
      ensures id !in world.calls
    {
      ghost var unused := Limits.Unused(world.calls.Keys);
      id :| id !in world.calls;
    }
  }
}
