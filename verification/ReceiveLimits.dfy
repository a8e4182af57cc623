/**
  Where conservation ends without a loss of power: a remote object that bears a temporary
  name is lost by an ordinary run, and so is an object whose listed size is that of a
  truncated download.  Conservation holds exactly when neither can occur.
 */
module ReceiveLimits {
  import opened Bytes
  import opened ReceiveProtocol
  import opened ReceiveSafety
  import opened ReceiveTheorems
  import Decimal

  // ---------------------------------------------------------------- building runs

  lemma Unused(s: set<nat>) returns (n: nat)
    ensures n !in s
  {
    var m: nat := 0;
    var left := s;
    while left != {}
      invariant forall i :: i in s && i !in left ==> i < m
      decreases left
    {
      var i :| i in left;
      m := if i < m then m else i + 1;
      left := left - {i};
    }
    n := m;
  }

  lemma {:induction false} DigitsHaveNoSeparator(s: string)
    requires Decimal.AllDigits(s)
    ensures '/' !in s && '\\' !in s && '.' !in s
  {
  }

  /** A run of receives of one object, without arrivals and losses of power. */
  ghost predicate Plain(run: seq<Step>, target: RemoteObject) {
    forall i :: 0 <= i < |run| ==>
      !run[i].PowerLoss? && !run[i].Arrive? && (run[i].Begin? ==> run[i].target == target)
  }

  lemma Next(w: World, run: seq<Step>, v: World, target: RemoteObject, step: Step) returns (longer: seq<Step>)
    requires Leads(w, run, v) && Plain(run, target) && Enabled(v, step)
    requires !step.PowerLoss? && !step.Arrive? && (step.Begin? ==> step.target == target)
    ensures longer == run + [step] && Leads(w, longer, Apply(v, step)) && Plain(longer, target)
  {
    hide Enabled, Apply, Leads;
    longer := Then(w, run, v, step);
  }

  /** Nothing in `validate_remote_name` rejects a temporary name. */
  lemma TempNameIsValid(pid: u32, n: u64)
    ensures ValidRemoteName(TempName(pid, n))
  {
    DigitsHaveNoSeparator(Decimal.Render(pid));
    DigitsHaveNoSeparator(Decimal.Render(n));
    assert |TempName(pid, n)| > 2;
  }

  /** The first call of process `pid` that uses the id `n` has opened its temporary file. */
  ghost predicate Opened(v: World, u: World, pid: u32, target: RemoteObject, inode: nat, phase: Phase) {
    && pid in v.counters
    && var temp := TempName(pid, v.counters[pid]);
       && temp !in v.dir
       && u.remote == v.remote && u.ever == v.ever
       && u.counters == v.counters[pid := FollowingId(v.counters[pid])]
       && u.dir == v.dir[temp := inode]
       && u.calls == map[0 := Call(pid, target, temp, inode, phase)]
  }

  ghost predicate Listed(v: World, target: RemoteObject) {
    target.name in v.ever && ValidRemoteName(target.name)
  }

  lemma Open(w: World, run: seq<Step>, v: World, pid: u32, target: RemoteObject)
      returns (longer: seq<Step>, u: World, inode: nat)
    requires Leads(w, run, v) && Plain(run, target)
    requires v.calls == map[] && pid in v.counters && Listed(v, target)
    requires TempName(pid, v.counters[pid]) !in v.dir
    ensures Leads(w, longer, u) && Plain(longer, target)
    ensures Opened(v, u, pid, target, inode, Downloading) && inode !in v.files
    ensures u.files == v.files[inode := []] && u.syncedEntries <= v.syncedEntries
  {
    hide Plain, TempName, ValidRemoteName, Leads;
    inode := Unused(v.files.Keys);
    longer := Next(w, run, v, target, Begin(0, pid, target));
    var b := Apply(v, Begin(0, pid, target));
    longer := Next(w, longer, b, target, Create(0, inode));
    u := Apply(b, Create(0, inode));
  }

  /** The call reports an error and drops its temporary file. */
  lemma Abandon(w: World, run: seq<Step>, v: World, target: RemoteObject) returns (longer: seq<Step>, u: World)
    requires Leads(w, run, v) && Plain(run, target)
    requires v.calls.Keys == {0} && CanFail(v, 0)
    ensures Leads(w, longer, u) && Plain(longer, target)
    ensures u == v.(calls := map[], dir := v.dir - {v.calls[0].temp},
                    syncedEntries := v.syncedEntries - {v.calls[0].temp})
  {
    hide Plain, Leads;
    longer := Next(w, run, v, target, Fail(0));
    var b := Apply(v, Fail(0));
    longer := Next(w, longer, b, target, Close(0, true));
    u := Apply(b, Close(0, true));
  }

  /** Download, fsync and size check succeed when as many bytes arrive as the listing said. */
  lemma Fetch(w: World, run: seq<Step>, v: World, target: RemoteObject)
      returns (longer: seq<Step>, u: World)
    requires Leads(w, run, v) && Plain(run, target) && InPhase(v, 0, Downloading)
    requires v.calls[0].target == target && v.calls[0].inode in v.files && v.files[v.calls[0].inode] == []
    requires target.name in v.ever && 0 < target.size <= |v.ever[target.name]|
    ensures Leads(w, longer, u) && Plain(longer, target)
    ensures u == v.(calls := v.calls[0 := v.calls[0].(phase := Sized)],
                    files := v.files[v.calls[0].inode := v.ever[target.name][..target.size]],
                    syncedFiles := u.syncedFiles)
  {
    hide Plain, Leads;
    longer := Next(w, run, v, target, Write(0, target.size));
    var b := Apply(v, Write(0, target.size));
    assert |b.files[v.calls[0].inode]| == target.size;
    longer := Next(w, longer, b, target, DownloadOk(0));
    b := Apply(b, DownloadOk(0));
    longer := Next(w, longer, b, target, SyncFile(0));
    b := Apply(b, SyncFile(0));
    longer := Next(w, longer, b, target, CheckSize(0));
    u := Apply(b, CheckSize(0));
  }

  /** Both together, from a world without calls. */
  lemma OpenAndFetch(w: World, run: seq<Step>, v: World, pid: u32, target: RemoteObject)
      returns (longer: seq<Step>, u: World, inode: nat)
    requires Leads(w, run, v) && Plain(run, target)
    requires v.calls == map[] && pid in v.counters && Listed(v, target)
    requires TempName(pid, v.counters[pid]) !in v.dir
    requires target.name in v.ever && 0 < target.size <= |v.ever[target.name]|
    ensures Leads(w, longer, u) && Plain(longer, target)
    ensures Opened(v, u, pid, target, inode, Sized) && inode !in v.files
    ensures u.files == v.files[inode := v.ever[target.name][..target.size]] && u.syncedEntries <= v.syncedEntries
  {
    hide TempName, Leads, Plain, ValidRemoteName;
    longer, u, inode := Open(w, run, v, pid, target);
    longer, u := Fetch(w, longer, u, target);
  }

  /** The final name leads to a file with the same contents: the remote copy is deleted. */
  lemma Reacknowledge(w: World, run: seq<Step>, v: World, target: RemoteObject)
      returns (longer: seq<Step>, u: World)
    requires Leads(w, run, v) && Plain(run, target) && InPhase(v, 0, Sized) && v.calls[0].target == target
    requires v.calls[0].temp in v.dir && v.dir[v.calls[0].temp] in v.files
    requires target.name in v.dir && v.dir[target.name] in v.files && target.name in v.remote
    requires v.files[v.dir[v.calls[0].temp]] == v.files[v.dir[target.name]]
    ensures Leads(w, longer, u) && Plain(longer, target)
    ensures u == v.(calls := v.calls[0 := v.calls[0].(phase := Closing)], remote := v.remote - {target.name})
  {
    hide Plain, Leads;
    longer := Next(w, run, v, target, Link(0));
    var b := Apply(v, Link(0));
    longer := Next(w, longer, b, target, Compare(0));
    b := Apply(b, Compare(0));
    longer := Next(w, longer, b, target, Delete(0));
    u := Apply(b, Delete(0));
  }

  // ---------------------------------------------------------------- temporary names

  /** `v` differs from `w` by one live process that has used up `n` temporary ids. */
  ghost predicate Burnt(w: World, v: World, pid: u32, n: u64) {
    && v.remote == w.remote && v.ever == w.ever && v.dir == w.dir && v.calls == map[]
    && pid in v.counters && v.counters[pid] == n
  }

  /** `n` receives whose downloads fail: they use `n` ids and leave no trace. */
  lemma {:induction false} Burn(w: World, pid: u32, n: u64, target: RemoteObject) returns (run: seq<Step>, v: World)
    requires Initial(w) && Listed(w, target)
    ensures Leads(w, run, v) && Plain(run, target) && Burnt(w, v, pid, n)
    decreases n
  {
    if n == 0 {
      assert Leads(w, [], w);
      run := Next(w, [], w, target, Start(pid));
      v := Apply(w, Start(pid));
    } else {
      run, v := Burn(w, pid, n - 1, target);
      assert IsTempName(TempName(pid, n - 1));
      hide TempName, Leads, Plain;
      var inode;
      run, v, inode := Open(w, run, v, pid, target);
      run, v := Abandon(w, run, v, target);
      assert v.dir == w.dir;
    }
  }

  /** From a process that is about to draw the object's own name to the loss of the object. */
  lemma DrawOwnName(w: World, run: seq<Step>, v: World, pid: u32, target: RemoteObject)
      returns (longer: seq<Step>, u: World)
    requires Leads(w, run, v) && Plain(run, target)
    requires v.calls == map[] && pid in v.counters && Listed(v, target) && v.remote == v.ever
    requires target.name == TempName(pid, v.counters[pid]) && target.name !in v.dir
    requires v.ever[target.name] != [] && target.size == |v.ever[target.name]|
    ensures Leads(w, longer, u) && Plain(longer, target)
    ensures u.ever == v.ever && target.name !in u.remote && target.name !in u.dir
  {
    hide TempName, IsTempName, Leads, Plain, ValidRemoteName;
    var inode;
    longer, u, inode := OpenAndFetch(w, run, v, pid, target);
    longer, u := Reacknowledge(w, longer, u, target);
    longer := Next(w, longer, u, target, Close(0, true));
    u := Apply(u, Close(0, true));
  }

  /**
    A non-empty remote object named like a temporary file can be lost: the receive that
    draws this name finds the link taken by its own file, compares the file with itself,
    deletes the remote copy and then drops the only local copy.
   */
  lemma TempNamedObjectCanBeLost(w: World, pid: u32, n: u64) returns (run: seq<Step>)
    requires Initial(w)
    requires TempName(pid, n) in w.ever && w.ever[TempName(pid, n)] != []
    ensures ValidRun(w, run) && Plain(run, RemoteObject(TempName(pid, n), |w.ever[TempName(pid, n)]|))
    ensures !Conserved(After(w, run))
  {
    var name := TempName(pid, n);
    assert IsTempName(name);
    InitialFacts(w, name);
    TempNameIsValid(pid, n);
    hide TempName, Initial, IsTempName, ValidRemoteName;
    var target := RemoteObject(name, |w.ever[name]|);
    var v;
    run, v := Burn(w, pid, n, target);
    run, v := DrawOwnName(w, run, v, pid, target);
  }

  lemma InitialFacts(w: World, name: string)
    requires Initial(w) && IsTempName(name)
    ensures w.ever == w.remote && name !in w.dir
  {
  }

  // ---------------------------------------------------------------- truncated downloads

  /**
    An object whose listed size is that of a proper, non-empty beginning of it can be lost:
    a download that stops there passes the size check, the beginning is published, and the
    remote copy is deleted.
   */
  lemma TruncatedObjectCanBeLost(w: World, target: RemoteObject) returns (run: seq<Step>)
    requires Initial(w)
    requires target.name in w.ever && ValidRemoteName(target.name) && target.name !in w.dir
    requires !IsTempName(target.name) && !Plausible(target.size, |w.ever[target.name]|)
    ensures ValidRun(w, run) && Plain(run, target)
    ensures !Conserved(After(w, run))
  {
    assert IsTempName(TempName(0, 0));
    InitialFacts(w, TempName(0, 0));
    assert Leads(w, [], w) && w.calls == map[] && 0 !in w.counters;
    hide TempName, IsTempName, Initial, ValidRemoteName, Leads, Plain, Conserved;
    run := Next(w, [], w, target, Start(0));
    var v := Apply(w, Start(0));
    var inode;
    run, v, inode := OpenAndFetch(w, run, v, 0, target);
    run, v := PublishAndDelete(w, run, v, target);
    AfterLeads(w, run, v);
    ShortIsLost(v, target);
  }

  lemma ShortIsLost(v: World, target: RemoteObject)
    requires target.name in v.ever && target.name !in v.remote && target.name in v.dir
    requires v.dir[target.name] in v.files && |v.files[v.dir[target.name]]| < |v.ever[target.name]|
    ensures !Conserved(v)
  {
    assert !Stored(v, target.name);
  }

  lemma AfterLeads(w: World, run: seq<Step>, v: World)
    requires Leads(w, run, v)
    ensures ValidRun(w, run) && After(w, run) == v
  {
  }

  /** The checked file takes a free name, and the remote copy is deleted. */
  lemma PublishAndDelete(w: World, run: seq<Step>, v: World, target: RemoteObject)
      returns (longer: seq<Step>, u: World)
    requires Leads(w, run, v) && Plain(run, target) && InPhase(v, 0, Sized) && v.calls[0].target == target
    requires v.calls[0].temp in v.dir && target.name !in v.dir && target.name in v.remote
    ensures Leads(w, longer, u) && Plain(longer, target)
    ensures u.ever == v.ever && u.files == v.files && target.name !in u.remote
    ensures u.dir == v.dir[target.name := v.dir[v.calls[0].temp]]
  {
    hide Plain, Leads;
    longer := Next(w, run, v, target, Link(0));
    var b := Apply(v, Link(0));
    longer := Next(w, longer, b, target, SyncDirectory(0));
    b := Apply(b, SyncDirectory(0));
    longer := Next(w, longer, b, target, Delete(0));
    u := Apply(b, Delete(0));
  }

  // ---------------------------------------------------------------- what may happen

  /** Which objects may arrive, and which size a listing may tell of an object with these bytes. */
  datatype Policy = Policy(arrives: (string, bytes) -> bool, lists: (string, bytes, nat) -> bool)

  ghost predicate Follows(w: World, run: seq<Step>, p: Policy)
    requires ValidRun(w, run)
    decreases |run|
  {
    run == [] || (FollowsStep(w, run[0], p) && Follows(Apply(w, run[0]), run[1..], p))
  }

  ghost predicate FollowsStep(w: World, step: Step, p: Policy)
    requires Enabled(w, step)
  {
    && (step.Arrive? ==> p.arrives(step.name, step.data))
    && (step.Begin? ==> p.lists(step.target.name, w.ever[step.target.name], step.target.size))
  }

  /** No run without loss of power that follows the policy loses an object. */
  ghost predicate SafeInbox(w: World, p: Policy) {
    forall run :: ValidRun(w, run) && NoPowerLoss(run) && Follows(w, run, p) ==> Conserved(After(w, run))
  }

  /** Nothing but empty objects may still arrive under a temporary name. */
  ghost predicate NamesSound(w: World, p: Policy) {
    forall name, data :: p.arrives(name, data) && name !in w.ever && IsTempName(name) ==> data == []
  }

  /** Every size that may be listed of an object, present or coming, is plausible. */
  ghost predicate SizesSound(w: World, p: Policy) {
    && (forall name, size ::
          name in w.ever && ValidRemoteName(name) && p.lists(name, w.ever[name], size) ==>
            Plausible(size, |w.ever[name]|))
    && (forall name, data, size ::
          name !in w.ever && p.arrives(name, data) && ValidRemoteName(name) && p.lists(name, data, size) ==>
            Plausible(size, |data|))
  }

  ghost predicate HonestSizes(p: Policy) { forall name, data :: p.lists(name, data, |data|) }

  lemma StepKeepsSound(w: World, step: Step, p: Policy)
    requires NamesSound(w, p) && SizesSound(w, p) && Enabled(w, step) && FollowsStep(w, step, p)
    ensures NamesSound(Apply(w, step), p) && SizesSound(Apply(w, step), p)
    ensures Admissible(step) && (!step.PowerLoss? ==> Apply(w, step).doubtful == w.doubtful)
  {
    hide IsTempName, TempName, ValidRemoteName, Plausible;
    if step.Arrive? {
      assert Apply(w, step).ever == w.ever[step.name := step.data];
    } else {
      StepFrame(w, step);
    }
    hide Enabled;
  }

  lemma {:induction false} SoundIsUndoubted(w: World, run: seq<Step>, p: Policy)
    requires ValidRun(w, run) && Follows(w, run, p) && NamesSound(w, p) && SizesSound(w, p) && NoPowerLoss(run)
    ensures AdmissibleRun(run) && After(w, run).doubtful == w.doubtful
    decreases |run|
  {
    hide Enabled, Apply, Admissible, FollowsStep, NamesSound, SizesSound;
    if run != [] {
      StepKeepsSound(w, run[0], p);
      assert forall i :: 0 <= i < |run[1..]| ==> run[1..][i] == run[i + 1];
      SoundIsUndoubted(Apply(w, run[0]), run[1..], p);
    }
  }

  lemma SoundIsSafe(w: World, p: Policy)
    requires Initial(w) && NoTempObject(w) && NamesSound(w, p) && SizesSound(w, p)
    ensures SafeInbox(w, p)
  {
    forall run | ValidRun(w, run) && NoPowerLoss(run) && Follows(w, run, p)
      ensures Conserved(After(w, run))
    {
      SoundIsUndoubted(w, run, p);
      NothingIsLost(w, run);
    }
  }

  /** Receives of one object follow every policy under which it may be listed like this. */
  lemma {:induction false} PlainFollows(w: World, run: seq<Step>, target: RemoteObject, p: Policy)
    requires ValidRun(w, run) && Plain(run, target) && target.name in w.ever
    requires p.lists(target.name, w.ever[target.name], target.size)
    ensures Follows(w, run, p) && NoPowerLoss(run)
    decreases |run|
  {
    if run != [] {
      assert run[1..] == run[1..] && (forall i :: 0 <= i < |run[1..]| ==> run[1..][i] == run[i + 1]);
      assert !run[0].PowerLoss? && !run[0].Arrive? && (run[0].Begin? ==> run[0].target == target);
      StepFrame(w, run[0]);
      hide Enabled, Apply, Plain;
      PlainFollows(Apply(w, run[0]), run[1..], target, p);
    }
  }

  /** A run that loses an object shows that the inbox is not safe. */
  lemma Unsafe(w: World, run: seq<Step>, target: RemoteObject, p: Policy)
    requires ValidRun(w, run) && Plain(run, target) && !Conserved(After(w, run)) && target.name in w.ever
    requires p.lists(target.name, w.ever[target.name], target.size)
    ensures !SafeInbox(w, p)
  {
    PlainFollows(w, run, target, p);
  }

  /** What is unsafe after an admitted arrival is unsafe before. */
  lemma UnsafeBefore(w: World, name: string, data: bytes, p: Policy)
    requires name !in w.ever && p.arrives(name, data)
    requires !SafeInbox(Apply(w, Arrive(name, data)), p)
    ensures !SafeInbox(w, p)
  {
    var step := Arrive(name, data);
    var v := Apply(w, step);
    assert v == Apply(w, step);
    hide Apply, Conserved;
    var run :| ValidRun(v, run) && NoPowerLoss(run) && Follows(v, run, p) && !Conserved(After(v, run));
    var longer := [step] + run;
    assert longer[1..] == run && longer[0] == step;
    assert ValidRun(w, longer) && After(w, longer) == After(v, run);
    assert NoPowerLoss(longer) && Follows(w, longer, p);
  }

  lemma ArrivalIsInitial(w: World, name: string, data: bytes)
    requires Initial(w) && name !in w.ever
    ensures Initial(Apply(w, Arrive(name, data)))
  {
    hide IsTempName;
  }

  lemma TempObjectIsUnsafe(w: World, name: string, p: Policy)
    requires Initial(w) && HonestSizes(p) && name in w.ever && IsTempName(name) && w.ever[name] != []
    ensures !SafeInbox(w, p)
  {
    var pid: u32, n: u64 :| name == TempName(pid, n);
    hide Initial, TempName, IsTempName, SafeInbox;
    var run := TempNamedObjectCanBeLost(w, pid, n);
    Unsafe(w, run, RemoteObject(name, |w.ever[name]|), p);
  }

  lemma TempArrivalIsUnsafe(w: World, name: string, data: bytes, p: Policy)
    requires Initial(w) && HonestSizes(p)
    requires p.arrives(name, data) && name !in w.ever && IsTempName(name) && data != []
    ensures !SafeInbox(w, p)
  {
    ArrivalIsInitial(w, name, data);
    var v := Apply(w, Arrive(name, data));
    assert name in v.ever && v.ever[name] == data;
    hide Initial, Apply, SafeInbox;
    TempObjectIsUnsafe(v, name, p);
    UnsafeBefore(w, name, data, p);
  }

  lemma SizeIsUnsafe(w: World, name: string, size: nat, p: Policy)
    requires Initial(w) && HonestSizes(p) && name in w.ever && ValidRemoteName(name) && name !in w.dir
    requires p.lists(name, w.ever[name], size) && !Plausible(size, |w.ever[name]|)
    ensures !SafeInbox(w, p)
  {
    hide Initial, SafeInbox, ValidRemoteName, IsTempName;
    if IsTempName(name) {
      TempObjectIsUnsafe(w, name, p);
    } else {
      var target := RemoteObject(name, size);
      var run := TruncatedObjectCanBeLost(w, target);
      Unsafe(w, run, target, p);
    }
  }

  lemma ArrivalSizeIsUnsafe(w: World, name: string, data: bytes, size: nat, p: Policy)
    requires Initial(w) && HonestSizes(p) && name !in w.ever && ValidRemoteName(name) && name !in w.dir
    requires p.arrives(name, data) && p.lists(name, data, size) && !Plausible(size, |data|)
    ensures !SafeInbox(w, p)
  {
    ArrivalIsInitial(w, name, data);
    var v := Apply(w, Arrive(name, data));
    assert name in v.ever && v.ever[name] == data && v.dir == w.dir;
    hide Initial, Apply, SafeInbox, ValidRemoteName;
    SizeIsUnsafe(v, name, size, p);
    UnsafeBefore(w, name, data, p);
  }

  // ---------------------------------------------------------------- main results

  /**
    With plausible sizes, conservation holds exactly when no non-empty remote object, present
    or arriving later, bears a temporary name.
   */
  lemma SafeExactlyWithoutTempObjects(w: World, p: Policy)
    requires Initial(w) && HonestSizes(p) && SizesSound(w, p)
    ensures SafeInbox(w, p) <==> NoTempObject(w) && NamesSound(w, p)
  {
    hide Initial, HonestSizes, SizesSound, SafeInbox, IsTempName;
    if NoTempObject(w) && NamesSound(w, p) {
      SoundIsSafe(w, p);
    } else if !NoTempObject(w) {
      var name :| name in w.ever && IsTempName(name) && w.ever[name] != [];
      TempObjectIsUnsafe(w, name, p);
    } else {
      var name, data :| p.arrives(name, data) && name !in w.ever && IsTempName(name) && data != [];
      TempArrivalIsUnsafe(w, name, data, p);
    }
  }

  /** No name of an object, present or coming, is taken in the local directory yet. */
  ghost predicate NamesFree(w: World, p: Policy) {
    forall name :: name in w.dir ==> name !in w.ever && forall data :: !p.arrives(name, data)
  }

  /**
    For names that are free, conservation holds exactly when in addition every size a
    listing may tell is plausible: wrong sizes are harmless unless they are those of a
    proper, non-empty beginning of the object.
   */
  lemma SafeExactlyWithPlausibleSizes(w: World, p: Policy)
    requires Initial(w) && HonestSizes(p) && NamesFree(w, p)
    ensures SafeInbox(w, p) <==> NoTempObject(w) && NamesSound(w, p) && SizesSound(w, p)
  {
    if SizesSound(w, p) {
      SafeExactlyWithoutTempObjects(w, p);
    } else if name, size :| name in w.ever && ValidRemoteName(name) && p.lists(name, w.ever[name], size)
                            && !Plausible(size, |w.ever[name]|) {
      SizeIsUnsafe(w, name, size, p);
    } else {
      var name, data, size :| name !in w.ever && p.arrives(name, data) && ValidRemoteName(name)
                              && p.lists(name, data, size) && !Plausible(size, |data|);
      ArrivalSizeIsUnsafe(w, name, data, size, p);
    }
  }
}
