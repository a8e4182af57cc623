/**
  The crash-safe receive protocol as a transition system.

  Any number of processes share one remote inbox and one local directory.  Each
  `receive` call is a program counter over the effects of `DurableReceiver::receive`;
  a step is one effect of one call, an arrival, a process start, a process crash or a
  loss of power, so every interleaving is a sequence of steps.
 */
module ReceiveProtocol {
  import opened Bytes
  import Decimal

  datatype RemoteObject = RemoteObject(name: string, size: nat)

  /** The next effect of one `receive` call. */
  datatype Phase =
    | Opening                     // looking for an unused temporary name
    | Downloading                 // writing the temporary file
    | Downloaded                  // next: flush and fsync the file
    | Synced                      // next: the two size checks
    | Sized                       // next: hard-link to the final name
    | Linked                      // linked; next: fsync the directory
    | Comparing                   // link found the name taken; next: compare the files
    | Deleting(persisted: bool)   // next: delete the remote object
    | Closing                     // returned; next: drop of the temporary file

  datatype Call = Call(pid: u32, target: RemoteObject, temp: string, inode: nat, phase: Phase)

  datatype World = World(
    remote: map<string, bytes>,    // objects visible in the remote inbox
    ever: map<string, bytes>,      // every object that was ever visible there
    dir: map<string, nat>,         // inbox directory: name to inode
    files: map<nat, bytes>,        // inode contents
    syncedEntries: set<string>,    // directory entries known to be on disk
    syncedFiles: set<nat>,         // inodes whose contents are known to be on disk
    doubtful: set<string>,         // objects some call was begun for with an implausible size
    counters: map<u32, u64>,       // NEXT_TEMP_ID of every live process
    calls: map<nat, Call>)         // receive calls in progress

  datatype Step =
    | Arrive(name: string, data: bytes)
    | Start(pid: u32)
    | Begin(id: nat, pid: u32, target: RemoteObject)
    | Create(id: nat, inode: nat)
    | CreateFails(id: nat)
    | Write(id: nat, upTo: nat)
    | DownloadOk(id: nat)
    | SyncFile(id: nat)
    | CheckSize(id: nat)
    | Link(id: nat)
    | SyncDirectory(id: nat)
    | Compare(id: nat)
    | Delete(id: nat)
    | Fail(id: nat)
    | Close(id: nat, removed: bool)
    | Crash(pid: u32)
    | PowerLoss(after: World)

  // ---------------------------------------------------------------- names

  function TempName(pid: u32, n: u64): string {
    ".incoming-" + Decimal.Render(pid) + "-" + Decimal.Render(n)
  }

  /** `fetch_add(1)` on an `AtomicU64`, which wraps. */
  function FollowingId(n: u64): u64 { if n == 0xFFFF_FFFF_FFFF_FFFF then 0 else n + 1 }

  ghost predicate IsTempName(name: string) {
    exists pid: u32, n: u64 :: name == TempName(pid, n)
  }

  predicate ValidRemoteName(name: string) {
    name != "" && name != "." && name != ".." && '/' !in name && '\\' !in name
  }

  /** The names refused: those of no file or of a directory, and those with a separator in them. */
  lemma RefusedNames(name: string)
    ensures !ValidRemoteName(name) <==>
            || |name| == 0 || name == ['.'] || name == ['.', '.']
            || exists i :: 0 <= i < |name| && (name[i] == '/' || name[i] == '\\')
  {
  }

  // ---------------------------------------------------------------- steps

  predicate InPhase(w: World, id: nat, phase: Phase) {
    id in w.calls && w.calls[id].phase == phase
  }

  /** Which surviving directories and files a loss of power may leave behind. */
  ghost predicate PowerLossOutcome(w: World, after: World) {
    && after.remote == w.remote && after.ever == w.ever && after.doubtful == w.doubtful
    && after.calls == map[] && after.counters == map[]
    && (forall n :: n in w.syncedEntries && n in w.dir ==> n in after.dir && after.dir[n] == w.dir[n])
    && (forall n :: n in after.dir ==> IsTempName(n) || (n in w.dir && after.dir[n] == w.dir[n]))
    && (forall i :: i in w.syncedFiles && i in w.files ==> i in after.files && after.files[i] == w.files[i])
    && (forall n :: n in after.dir ==> after.dir[n] in after.files)
    && after.syncedEntries == after.dir.Keys && after.syncedFiles == after.files.Keys
  }

  function At(w: World, id: nat, phase: Phase): World
    requires id in w.calls
  {
    w.(calls := w.calls[id := w.calls[id].(phase := phase)])
  }

  /** One turn of the `IncomingFile::create` loop. */
  predicate CanCreate(w: World, id: nat, inode: nat) {
    InPhase(w, id, Opening) && w.calls[id].pid in w.counters && inode !in w.files
  }

  function Created(w: World, id: nat, inode: nat): World
    requires CanCreate(w, id, inode)
  {
    var c := w.calls[id];
    var temp := TempName(c.pid, w.counters[c.pid]);
    var taken := w.(counters := w.counters[c.pid := FollowingId(w.counters[c.pid])]);
    if temp in w.dir then taken
    else
      taken.(dir := w.dir[temp := inode], files := w.files[inode := []],
             syncedEntries := w.syncedEntries - {temp}, syncedFiles := w.syncedFiles - {inode},
             calls := w.calls[id := Call(c.pid, c.target, temp, inode, Downloading)])
  }

  /**
    The remote end serves bytes of the object in order, possibly not all of them.  A download
    that is under way goes on after another receiver deleted the object.
   */
  predicate CanWrite(w: World, id: nat, upTo: nat) {
    && InPhase(w, id, Downloading)
    && var c := w.calls[id];
       c.target.name in w.ever && c.inode in w.files
       && |w.files[c.inode]| <= upTo <= |w.ever[c.target.name]|
  }

  function Written(w: World, id: nat, upTo: nat): World
    requires CanWrite(w, id, upTo)
  {
    var c := w.calls[id];
    w.(files := w.files[c.inode := w.ever[c.target.name][..upTo]], syncedFiles := w.syncedFiles - {c.inode})
  }

  predicate CanCheckSize(w: World, id: nat) {
    InPhase(w, id, Synced) && w.calls[id].inode in w.files
  }

  function SizeChecked(w: World, id: nat): World
    requires CanCheckSize(w, id)
  {
    var actual := |w.files[w.calls[id].inode]|;
    if actual == 0 || actual != w.calls[id].target.size then At(w, id, Closing) else At(w, id, Sized)
  }

  predicate CanLink(w: World, id: nat) {
    InPhase(w, id, Sized) && w.calls[id].temp in w.dir
  }

  /** `hard_link` publishes the temporary file unless the final name is taken. */
  function Published(w: World, id: nat): World
    requires CanLink(w, id)
  {
    var c := w.calls[id];
    if c.target.name in w.dir then At(w, id, Comparing)
    else At(w, id, Linked).(dir := w.dir[c.target.name := w.dir[c.temp]],
                            syncedEntries := w.syncedEntries - {c.target.name})
  }

  predicate CanCompare(w: World, id: nat) {
    && InPhase(w, id, Comparing)
    && var c := w.calls[id];
       && c.temp in w.dir && w.dir[c.temp] in w.files
       && c.target.name in w.dir && w.dir[c.target.name] in w.files
  }

  function Compared(w: World, id: nat): World
    requires CanCompare(w, id)
  {
    var c := w.calls[id];
    if w.files[w.dir[c.temp]] == w.files[w.dir[c.target.name]] then At(w, id, Deleting(false)) else At(w, id, Closing)
  }

  predicate CanDelete(w: World, id: nat) {
    id in w.calls && w.calls[id].phase.Deleting? && w.calls[id].target.name in w.remote
  }

  function Deleted(w: World, id: nat): World
    requires CanDelete(w, id)
  {
    At(w, id, Closing).(remote := w.remote - {w.calls[id].target.name})
  }

  /** `Drop for IncomingFile`; a failed removal is ignored. */
  function Closed(w: World, id: nat, removed: bool): World
    requires InPhase(w, id, Closing)
  {
    var ended := w.(calls := w.calls - {id});
    var temp := w.calls[id].temp;
    if removed then ended.(dir := w.dir - {temp}, syncedEntries := w.syncedEntries - {temp}) else ended
  }

  /** An operation of the call reported an error after the temporary file existed. */
  predicate CanFail(w: World, id: nat) {
    id in w.calls && !w.calls[id].phase.Opening? && !w.calls[id].phase.Closing?
  }

  /** A truncated download of an object cannot have the size that the listing tells. */
  predicate Plausible(listed: nat, actual: nat) { listed == 0 || listed >= actual }

  function Doubted(w: World, target: RemoteObject): set<string>
    requires target.name in w.ever
  {
    if Plausible(target.size, |w.ever[target.name]|) then w.doubtful else w.doubtful + {target.name}
  }

  /** The object comes from a listing that saw it; the size may be whatever the listing says. */
  predicate CanBegin(w: World, id: nat, pid: u32, target: RemoteObject) {
    id !in w.calls && pid in w.counters && ValidRemoteName(target.name) && target.name in w.ever
  }

  ghost predicate Enabled(w: World, step: Step) {
    match step
    case Arrive(name, data) => name !in w.ever
    case Start(pid) => pid !in w.counters
    case Begin(id, pid, target) => CanBegin(w, id, pid, target)
    case Create(id, inode) => CanCreate(w, id, inode)
    case CreateFails(id) => InPhase(w, id, Opening) && w.calls[id].pid in w.counters
    case Write(id, upTo) => CanWrite(w, id, upTo)
    case DownloadOk(id) => InPhase(w, id, Downloading)
    case SyncFile(id) => InPhase(w, id, Downloaded)
    case CheckSize(id) => CanCheckSize(w, id)
    case Link(id) => CanLink(w, id)
    case SyncDirectory(id) => InPhase(w, id, Linked)
    case Compare(id) => CanCompare(w, id)
    case Delete(id) => CanDelete(w, id)
    case Fail(id) => CanFail(w, id)
    case Close(id, removed) => InPhase(w, id, Closing)
    case Crash(pid) => pid in w.counters
    case PowerLoss(after) => PowerLossOutcome(w, after)
  }

  function Apply(w: World, step: Step): World
    requires Enabled(w, step)
  {
    match step
    case Arrive(name, data) => w.(remote := w.remote[name := data], ever := w.ever[name := data])
    case Start(pid) => w.(counters := w.counters[pid := 0])
    case Begin(id, pid, target) =>
      w.(calls := w.calls[id := Call(pid, target, "", 0, Opening)], doubtful := Doubted(w, target))
    case Create(id, inode) => Created(w, id, inode)
    case CreateFails(id) =>
      var pid := w.calls[id].pid;
      w.(counters := w.counters[pid := FollowingId(w.counters[pid])], calls := w.calls - {id})
    case Write(id, upTo) => Written(w, id, upTo)
    case DownloadOk(id) => At(w, id, Downloaded)
    case SyncFile(id) => At(w, id, Synced).(syncedFiles := w.syncedFiles + {w.calls[id].inode})
    case CheckSize(id) => SizeChecked(w, id)
    case Link(id) => Published(w, id)
    case SyncDirectory(id) => At(w, id, Deleting(true)).(syncedEntries := w.dir.Keys)
    case Compare(id) => Compared(w, id)
    case Delete(id) => Deleted(w, id)
    case Fail(id) => At(w, id, Closing)
    case Close(id, removed) => Closed(w, id, removed)
    case Crash(pid) =>
      w.(counters := w.counters - {pid}, calls := map id | id in w.calls && w.calls[id].pid != pid :: w.calls[id])
    case PowerLoss(after) => after
  }

  // ---------------------------------------------------------------- what a step leaves alone

  /** Calls move and processes count; objects, directory and contents stay. */
  predicate OnlyCalls(w: World, v: World) {
    && v.remote == w.remote && v.ever == w.ever && v.doubtful == w.doubtful && v.dir == w.dir && v.files == w.files
    && v.counters == w.counters && EntriesStay(w, v)
  }

  /** No durable entry of the directory is forgotten. */
  predicate EntriesStay(w: World, v: World) { forall n :: n in w.syncedEntries && n in w.dir ==> n in v.syncedEntries }

  predicate OnlyLocal(w: World, v: World) {
    v.remote == w.remote && v.ever == w.ever && v.doubtful == w.doubtful && w.counters.Keys <= v.counters.Keys
  }

  lemma CreatedIsLocal(w: World, id: nat, inode: nat)
    requires CanCreate(w, id, inode)
    ensures OnlyLocal(w, Created(w, id, inode))
  {
    hide TempName;
  }

  lemma WrittenIsLocal(w: World, id: nat, upTo: nat)
    requires CanWrite(w, id, upTo)
    ensures OnlyLocal(w, Written(w, id, upTo))
  {
  }

  lemma PublishedIsLocal(w: World, id: nat)
    requires CanLink(w, id)
    ensures OnlyLocal(w, Published(w, id))
  {
  }

  lemma ClosedIsLocal(w: World, id: nat, removed: bool)
    requires InPhase(w, id, Closing)
    ensures OnlyLocal(w, Closed(w, id, removed))
  {
  }

  lemma ChecksOnlyMoveCalls(w: World, id: nat)
    ensures CanCheckSize(w, id) ==> OnlyCalls(w, SizeChecked(w, id))
    ensures CanCompare(w, id) ==> OnlyCalls(w, Compared(w, id))
  {
  }

  predicate MovesCalls(step: Step) {
    step.DownloadOk? || step.SyncFile? || step.CheckSize? || step.SyncDirectory? || step.Compare? || step.Fail?
  }

  predicate ChangesFiles(step: Step) { step.Create? || step.Write? || step.Link? || step.Close? }

  lemma MovesOnlyCalls(w: World, step: Step)
    requires Enabled(w, step) && MovesCalls(step)
    ensures OnlyCalls(w, Apply(w, step))
  {
    hide OnlyLocal, CanCheckSize, CanCompare, SizeChecked, Compared;
    if step.CheckSize? || step.Compare? {
      ChecksOnlyMoveCalls(w, step.id);
    }
  }

  lemma FileStepIsLocal(w: World, step: Step)
    requires Enabled(w, step) && ChangesFiles(step)
    ensures OnlyLocal(w, Apply(w, step))
  {
    hide OnlyLocal, CanCreate, CanWrite, CanLink, InPhase, Created, Written, Published, Closed;
    match step
    case Create(id, inode) => CreatedIsLocal(w, id, inode);
    case Write(id, upTo) => WrittenIsLocal(w, id, upTo);
    case Link(id) => PublishedIsLocal(w, id);
    case Close(id, removed) => ClosedIsLocal(w, id, removed);
  }

  /** Who may change which part of the world. */
  lemma StepFrame(w: World, step: Step)
    requires Enabled(w, step)
    ensures var v := Apply(w, step);
            && (!step.Arrive? ==> v.ever == w.ever)
            && (!step.Arrive? && !step.Delete? ==> v.remote == w.remote)
            && (!step.Begin? ==> v.doubtful == w.doubtful)
            && (!ChangesFiles(step) && !step.PowerLoss? ==> v.dir == w.dir && v.files == w.files && EntriesStay(w, v))
            && (!step.Crash? && !step.PowerLoss? ==> w.counters.Keys <= v.counters.Keys)
  {
    hide CanCreate, CanWrite, CanLink, CanCheckSize, CanCompare, CanFail, TempName;
    hide Created, Written, Published, Closed, SizeChecked, Compared;
    if MovesCalls(step) {
      MovesOnlyCalls(w, step);
      hide Apply, Enabled;
    } else if ChangesFiles(step) {
      FileStepIsLocal(w, step);
      hide Apply, Enabled;
    }
  }

  // ---------------------------------------------------------------- runs

  ghost predicate ValidRun(w: World, run: seq<Step>)
    decreases |run|
  {
    run == [] || (Enabled(w, run[0]) && ValidRun(Apply(w, run[0]), run[1..]))
  }

  ghost function After(w: World, run: seq<Step>): World
    requires ValidRun(w, run)
    decreases |run|
  {
    if run == [] then w else After(Apply(w, run[0]), run[1..])
  }

  lemma {:induction false} RunConcat(w: World, first: seq<Step>, second: seq<Step>)
    requires ValidRun(w, first) && ValidRun(After(w, first), second)
    ensures ValidRun(w, first + second)
    ensures After(w, first + second) == After(After(w, first), second)
    decreases |first|
  {
    hide Enabled, Apply;
    if first == [] {
      assert first + second == second;
    } else {
      assert (first + second)[1..] == first[1..] + second;
      RunConcat(Apply(w, first[0]), first[1..], second);
    }
  }

  ghost predicate NoPowerLoss(run: seq<Step>) {
    forall i :: 0 <= i < |run| ==> !run[i].PowerLoss?
  }

  /** `run` leads from `w` to `v` without arrivals. */
  ghost predicate Leads(w: World, run: seq<Step>, v: World) {
    ValidRun(w, run) && After(w, run) == v && forall i :: 0 <= i < |run| ==> !run[i].Arrive?
  }

  lemma Then(w: World, run: seq<Step>, v: World, step: Step) returns (longer: seq<Step>)
    requires Leads(w, run, v) && Enabled(v, step) && !step.Arrive?
    ensures longer == run + [step] && Leads(w, longer, Apply(v, step))
    ensures NoPowerLoss(run) && !step.PowerLoss? ==> NoPowerLoss(longer)
  {
    hide Enabled, Apply;
    longer := run + [step];
    assert [step][1..] == [];
    assert ValidRun(Apply(v, step), [step][1..]);
    assert ValidRun(v, [step]) && After(v, [step]) == Apply(v, step);
    RunConcat(w, run, [step]);
  }

  /** A longer run continues where its beginning stopped. */
  lemma {:induction false} Continues(start: World, run: seq<Step>, w: World, longer: seq<Step>, v: World)
    requires Leads(start, run, w) && Leads(start, longer, v) && run <= longer
    ensures Leads(w, longer[|run|..], v)
    decreases |run|
  {
    hide Enabled, Apply;
    if run != [] {
      assert longer[0] == run[0];
      assert longer[1..][|run[1..]|..] == longer[|run|..];
      Continues(Apply(start, run[0]), run[1..], w, longer[1..], v);
    }
  }

  /** No receiver has used the directory yet; it may hold unrelated files. */
  ghost predicate Initial(w: World) {
    && w.ever == w.remote && w.doubtful == {}
    && w.calls == map[] && w.counters == map[]
    && (forall n :: n in w.dir ==> !IsTempName(n) && w.dir[n] in w.files)
    && w.syncedEntries == w.dir.Keys && w.syncedFiles == w.files.Keys
  }

  /** The object `n` is stored locally under its own name, byte for byte. */
  predicate Stored(w: World, n: string) {
    n in w.ever && n in w.dir && w.dir[n] in w.files && w.files[w.dir[n]] == w.ever[n]
  }

  /** The object is still remote, or stored under its own name. */
  predicate Kept(w: World, n: string) {
    n in w.ever && ((n in w.remote && w.remote[n] == w.ever[n]) || Stored(w, n))
  }

  /** So is every object that was ever visible. */
  predicate Conserved(w: World) { forall n :: n in w.ever ==> Kept(w, n) }

  /** No non-empty remote object carries the name of a temporary file. */
  ghost predicate NoTempObject(w: World) {
    forall n :: n in w.ever && IsTempName(n) ==> w.ever[n] == []
  }
}
