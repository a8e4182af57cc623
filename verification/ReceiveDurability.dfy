/**
  The receive protocol when power can fail: unsynchronised directory entries and file
  contents may vanish.  `receive` fsyncs the file always but the directory only on the
  `Persisted` branch, and that decides which deletions are safe.
 */
module ReceiveDurability {
  import opened Bytes
  import opened ReceiveProtocol
  import opened ReceiveSafety
  import opened ReceiveTheorems
  import opened ReceiveLimits
  import Decimal

  /** Every undoubted object is remote, or stored under its own name with the entry on disk. */
  ghost predicate DurablySafe(w: World) {
    forall n :: n in w.ever && n !in w.doubtful ==>
      n in w.remote || (!IsTempName(n) && Stored(w, n) && n in w.syncedEntries)
  }

  /** The step deletes an undoubted remote object only when its local directory entry is on disk. */
  ghost predicate Guarded(w: World, step: Step)
    requires Enabled(w, step)
  {
    step.Delete? && w.calls[step.id].target.name !in w.doubtful ==> w.calls[step.id].target.name in w.syncedEntries
  }

  ghost predicate GuardedRun(w: World, run: seq<Step>)
    requires ValidRun(w, run)
    decreases |run|
  {
    run == [] || (Guarded(w, run[0]) && GuardedRun(Apply(w, run[0]), run[1..]))
  }

  /** A deletion that follows `Persisted` is guarded: that branch fsynced the directory. */
  lemma PersistedDeletionIsGuarded(w: World, id: nat)
    requires Inv(w) && CanDelete(w, id) && w.calls[id].phase == Deleting(true)
    ensures Guarded(w, Delete(id))
  {
    assert CallOk(w, w.calls[id]);
  }

  // ---------------------------------------------------------------- steps

  lemma CreateKeepsDurable(w: World, id: nat, inode: nat)
    requires Inv(w) && DurablySafe(w) && CanCreate(w, id, inode)
    ensures DurablySafe(Created(w, id, inode))
  {
    assert IsTempName(TempName(w.calls[id].pid, w.counters[w.calls[id].pid]));
    hide IsTempName, TempName;
  }

  lemma WriteKeepsDurable(w: World, id: nat, upTo: nat)
    requires Inv(w) && DurablySafe(w) && CanWrite(w, id, upTo)
    ensures DurablySafe(Written(w, id, upTo))
  {
    hide IsTempName;
    assert CallOk(w, w.calls[id]);
    forall n | n in w.dir && !IsTempName(n)
      ensures w.dir[n] != w.calls[id].inode
    {
    }
  }

  lemma LinkKeepsDurable(w: World, id: nat)
    requires Inv(w) && DurablySafe(w) && CanLink(w, id)
    ensures DurablySafe(Published(w, id))
  {
    hide IsTempName, CallsOk;
  }

  lemma CloseKeepsDurable(w: World, id: nat, removed: bool)
    requires Inv(w) && DurablySafe(w) && InPhase(w, id, Closing)
    ensures DurablySafe(Closed(w, id, removed))
  {
    hide IsTempName;
    assert CallOk(w, w.calls[id]);
  }

  lemma DeleteKeepsDurable(w: World, id: nat)
    requires Inv(w) && DurablySafe(w) && CanDelete(w, id) && Guarded(w, Delete(id))
    ensures DurablySafe(Deleted(w, id))
  {
    hide IsTempName;
    assert CallOk(w, w.calls[id]);
  }

  /** What is on disk survives a loss of power. */
  lemma PowerLossKeepsDurable(w: World, after: World)
    requires Inv(w) && DurablySafe(w) && PowerLossOutcome(w, after)
    ensures DurablySafe(after)
  {
    hide IsTempName;
    forall n | n in w.ever && n !in w.doubtful && n !in w.remote
      ensures Stored(after, n)
    {
      assert Stored(w, n) && w.dir[n] in w.syncedFiles;
    }
  }

  /** The other steps leave objects and files alone and forget no durable entry. */
  lemma OthersKeepDurable(w: World, step: Step)
    requires Enabled(w, step) && (forall n :: n in w.syncedEntries ==> n in w.dir)
    requires !step.Create? && !step.Write? && !step.Link? && !step.Close? && !step.Delete? && !step.PowerLoss?
    ensures var v := Apply(w, step);
            && v.dir == w.dir && v.files == w.files && w.syncedEntries <= v.syncedEntries && w.doubtful <= v.doubtful
            && (forall n :: n in w.remote ==> n in v.remote)
            && (forall n :: n in v.ever ==> n in v.remote || (n in w.ever && v.ever[n] == w.ever[n]))
  {
    StepFrame(w, step);
    if !step.Arrive? {
      hide Apply, Enabled;
    }
  }

  lemma StepKeepsDurable(w: World, step: Step)
    requires Inv(w) && DurablySafe(w) && Enabled(w, step) && Guarded(w, step)
    ensures DurablySafe(Apply(w, step))
  {
    if step.Create? {
      CreateKeepsDurable(w, step.id, step.inode);
    } else if step.Write? {
      WriteKeepsDurable(w, step.id, step.upTo);
    } else if step.Link? {
      LinkKeepsDurable(w, step.id);
    } else if step.Close? {
      CloseKeepsDurable(w, step.id, step.removed);
    } else if step.Delete? {
      DeleteKeepsDurable(w, step.id);
    } else if step.PowerLoss? {
      PowerLossKeepsDurable(w, step.after);
    } else {
      assert forall n :: n in w.syncedEntries ==> n in w.dir;
      OthersKeepDurable(w, step);
      hide Inv, IsTempName, Apply, Enabled, Guarded;
    }
  }

  // ---------------------------------------------------------------- runs

  /** With guarded deletions no run loses an object, losses of power at any step included. */
  lemma {:induction false} GuardedRunKeepsDurable(w: World, run: seq<Step>)
    requires Inv(w) && DurablySafe(w)
    requires ValidRun(w, run) && GuardedRun(w, run) && AdmissibleRun(run)
    ensures DurablySafe(After(w, run))
    decreases |run|
  {
    hide Inv, DurablySafe, IsTempName, Enabled, Apply, Guarded;
    if run != [] {
      StepKeepsInv(w, run[0]);
      StepKeepsDurable(w, run[0]);
      assert forall i :: 0 <= i < |run[1..]| ==> run[1..][i] == run[i + 1];
      GuardedRunKeepsDurable(Apply(w, run[0]), run[1..]);
    }
  }

  lemma NothingIsLostToPower(w: World, run: seq<Step>)
    requires Initial(w) && NoTempObject(w)
    requires ValidRun(w, run) && GuardedRun(w, run) && AdmissibleRun(run)
    ensures var v := After(w, run); forall n :: n in v.ever && n !in v.doubtful ==> Kept(v, n)
  {
    InitialInv(w);
    assert DurablySafe(w);
    GuardedRunKeepsDurable(w, run);
    RunKeepsInv(w, run);
  }

  // ---------------------------------------------------------------- the exact guard

  /** What remains when every unsynchronised directory entry is gone. */
  function OnDisk(w: World): World {
    var dir := map n | n in w.dir && n in w.syncedEntries :: w.dir[n];
    w.(dir := dir, calls := map[], counters := map[], syncedEntries := dir.Keys, syncedFiles := w.files.Keys)
  }

  lemma OnDiskIsAnOutcome(w: World)
    requires Inv(w)
    ensures PowerLossOutcome(w, OnDisk(w))
  {
    hide IsTempName;
  }

  /**
    The local copy survives every loss of power after a deletion exactly when its directory
    entry is on disk before, which `AlreadyPersisted` does not establish.
   */
  lemma DeletionSurvivesExactlyWhenSynced(w: World, id: nat)
    requires Inv(w) && CanDelete(w, id)
    ensures var n := w.calls[id].target.name;
            (forall after :: PowerLossOutcome(Deleted(w, id), after) ==> SameFile(w, after, n)) <==>
            n in w.syncedEntries
  {
    var n, v := w.calls[id].target.name, Deleted(w, id);
    DeleteKeepsInv(w, id);
    assert CallOk(w, w.calls[id]) && n in v.dir && !IsTempName(n);
    hide IsTempName;
    if n in w.syncedEntries {
      forall after | PowerLossOutcome(v, after)
        ensures SameFile(w, after, n)
      {
        assert v.dir[n] in v.syncedFiles;
      }
    } else {
      OnDiskIsAnOutcome(v);
      assert !SameFile(w, OnDisk(v), n);
    }
  }

  /** Whatever a loss of power at this moment leaves behind, every undoubted object is kept. */
  ghost predicate PowerSafe(w: World) {
    forall after :: PowerLossOutcome(w, after) ==> KeepsUndoubted(w, after)
  }

  predicate KeepsUndoubted(w: World, after: World) {
    forall n :: n in w.ever && n !in w.doubtful ==> Kept(after, n)
  }

  /** The same at every moment of the run. */
  ghost predicate SurvivesPower(w: World, run: seq<Step>)
    requires ValidRun(w, run)
    decreases |run|
  {
    PowerSafe(w) && (run == [] || SurvivesPower(Apply(w, run[0]), run[1..]))
  }

  lemma DurableIsPowerSafe(w: World)
    requires Inv(w) && DurablySafe(w)
    ensures PowerSafe(w)
  {
    forall after | PowerLossOutcome(w, after)
      ensures KeepsUndoubted(w, after)
    {
      PowerLossKeepsInv(w, after);
      PowerLossKeepsDurable(w, after);
      hide PowerLossOutcome;
    }
  }

  /** A deletion before the directory entry is on disk exposes the object at once. */
  lemma UnguardedIsExposed(w: World, step: Step)
    requires Inv(w) && Enabled(w, step) && !Guarded(w, step)
    ensures !PowerSafe(Apply(w, step))
  {
    var n, v := w.calls[step.id].target.name, Deleted(w, step.id);
    DeleteKeepsInv(w, step.id);
    OnDiskIsAnOutcome(v);
    assert CallOk(w, w.calls[step.id]);
    assert n in v.ever && n !in v.remote && n !in OnDisk(v).dir;
    hide Inv, CallOk, IsTempName, PowerLossOutcome;
    assert !Kept(OnDisk(v), n) && n !in v.doubtful;
    assert !KeepsUndoubted(v, OnDisk(v));
  }

  lemma {:induction false} SurvivesExactlyWhenGuarded(w: World, run: seq<Step>)
    requires Inv(w) && DurablySafe(w) && ValidRun(w, run) && AdmissibleRun(run)
    ensures SurvivesPower(w, run) <==> GuardedRun(w, run)
    decreases |run|
  {
    DurableIsPowerSafe(w);
    hide Inv, DurablySafe, IsTempName, Enabled, Apply, Guarded, PowerSafe;
    if run != [] {
      assert forall i :: 0 <= i < |run[1..]| ==> run[1..][i] == run[i + 1];
      if Guarded(w, run[0]) {
        StepKeepsInv(w, run[0]);
        StepKeepsDurable(w, run[0]);
        SurvivesExactlyWhenGuarded(Apply(w, run[0]), run[1..]);
      } else {
        UnguardedIsExposed(w, run[0]);
      }
    }
  }

  /**
    A run survives a loss of power at every moment exactly when each of its deletions
    follows the synchronisation of the directory entry.
   */
  lemma PowerSurvivedExactlyWhenGuarded(w: World, run: seq<Step>)
    requires Initial(w) && NoTempObject(w) && ValidRun(w, run) && AdmissibleRun(run)
    ensures SurvivesPower(w, run) <==> GuardedRun(w, run)
  {
    InitialInv(w);
    assert DurablySafe(w);
    SurvivesExactlyWhenGuarded(w, run);
  }

  // ---------------------------------------------------------------- the guard told by the steps

  /** After these the directory on disk is the directory. */
  predicate SettlesEntries(step: Step) { step.SyncDirectory? || step.PowerLoss? }

  /** The names that links took since the directory was last synchronised or read back from disk. */
  ghost function Pending(w: World, step: Step, pending: set<string>): set<string>
    requires Enabled(w, step)
  {
    if SettlesEntries(step) then {}
    else if step.Link? && w.calls[step.id].target.name !in w.dir then pending + {w.calls[step.id].target.name}
    else pending
  }

  /** No undoubted object is deleted while the link of its name is pending. */
  ghost predicate SyncsBeforeDeleting(w: World, run: seq<Step>, pending: set<string>)
    requires ValidRun(w, run)
    decreases |run|
  {
    run != [] ==>
      && (run[0].Delete? && w.calls[run[0].id].target.name !in w.doubtful ==>
            w.calls[run[0].id].target.name !in pending)
      && SyncsBeforeDeleting(Apply(w, run[0]), run[1..], Pending(w, run[0], pending))
  }

  /** A published entry is on disk unless its link is pending. */
  ghost predicate Tells(w: World, pending: set<string>) {
    forall n :: n in w.dir && !IsTempName(n) ==> (n in w.syncedEntries <==> n !in pending)
  }

  lemma EntriesUnchanged(w: World, step: Step)
    requires Enabled(w, step) && !step.Create? && !step.Link? && !step.Close? && !SettlesEntries(step)
    ensures Apply(w, step).dir == w.dir && Apply(w, step).syncedEntries == w.syncedEntries
  {
    hide IsTempName, TempName, CanCreate, CanWrite, CanLink, CanFail, Created, Published, Closed;
  }

  lemma CreateTells(w: World, id: nat, inode: nat, pending: set<string>)
    requires Tells(w, pending) && CanCreate(w, id, inode)
    ensures Tells(Created(w, id, inode), pending)
  {
    hide IsTempName, TempName;
    DrawnIsTemp(w.calls[id].pid, w.counters[w.calls[id].pid]);
  }

  lemma CloseTells(w: World, id: nat, removed: bool, pending: set<string>)
    requires Inv(w) && Tells(w, pending) && InPhase(w, id, Closing)
    ensures Tells(Closed(w, id, removed), pending)
  {
    hide IsTempName;
    assert CallOk(w, w.calls[id]);
  }

  lemma StepTells(w: World, step: Step, pending: set<string>)
    requires Inv(w) && Tells(w, pending) && Enabled(w, step)
    ensures Tells(Apply(w, step), Pending(w, step, pending))
  {
    hide Inv, IsTempName, TempName, Created, Closed, CanCreate;
    if step.Create? {
      CreateTells(w, step.id, step.inode, pending);
    } else if step.Close? {
      CloseTells(w, step.id, step.removed, pending);
    } else if !step.Link? && !SettlesEntries(step) {
      EntriesUnchanged(w, step);
      hide Apply, Enabled;
    }
  }

  /** A deletion is guarded exactly when no link of the name is pending. */
  lemma GuardTold(w: World, step: Step, pending: set<string>)
    requires Inv(w) && Tells(w, pending) && Enabled(w, step) && step.Delete?
    ensures var n := w.calls[step.id].target.name; n in w.syncedEntries <==> n !in pending
  {
    hide IsTempName;
    assert CallOk(w, w.calls[step.id]);
  }

  lemma {:induction false} GuardedExactlyWhenSynced(w: World, run: seq<Step>, pending: set<string>)
    requires Inv(w) && Tells(w, pending) && ValidRun(w, run) && AdmissibleRun(run)
    ensures GuardedRun(w, run) <==> SyncsBeforeDeleting(w, run, pending)
    decreases |run|
  {
    hide Inv, Tells, IsTempName, Enabled, Apply, Pending, Admissible;
    if run != [] {
      assert forall i :: 0 <= i < |run[1..]| ==> run[1..][i] == run[i + 1];
      StepKeepsInv(w, run[0]);
      StepTells(w, run[0], pending);
      if run[0].Delete? {
        GuardTold(w, run[0], pending);
      }
      GuardedExactlyWhenSynced(Apply(w, run[0]), run[1..], Pending(w, run[0], pending));
    }
  }

  /**
    A run survives a loss of power at every moment exactly when between the link of a name
    and the deletion of its object some call synchronises the directory, unless the entry was
    there from the start or has survived a loss of power.
   */
  lemma PowerSurvivedExactlyWhenSynced(w: World, run: seq<Step>)
    requires Initial(w) && NoTempObject(w) && ValidRun(w, run) && AdmissibleRun(run)
    ensures SurvivesPower(w, run) <==> SyncsBeforeDeleting(w, run, {})
  {
    hide SurvivesPower, GuardedRun, SyncsBeforeDeleting, IsTempName, AdmissibleRun;
    PowerSurvivedExactlyWhenGuarded(w, run);
    InitialInv(w);
    GuardedExactlyWhenSynced(w, run, {});
  }

  // ---------------------------------------------------------------- a run that is not guarded

  /** Receives of one object that is listed truthfully raise no doubt. */
  lemma {:induction false} PlainIsUndoubted(w: World, run: seq<Step>, target: RemoteObject)
    requires ValidRun(w, run) && Plain(run, target) && target.name in w.ever
    requires Plausible(target.size, |w.ever[target.name]|)
    ensures AdmissibleRun(run) && After(w, run).doubtful == w.doubtful
    decreases |run|
  {
    if run != [] {
      assert forall i :: 0 <= i < |run[1..]| ==> run[1..][i] == run[i + 1];
      assert !run[0].PowerLoss? && !run[0].Arrive? && (run[0].Begin? ==> run[0].target == target);
      StepFrame(w, run[0]);
      DoubtKept(w, run[0]);
      hide Enabled, Apply, Plain;
      PlainIsUndoubted(Apply(w, run[0]), run[1..], target);
    }
  }

  lemma DoubtKept(w: World, step: Step)
    requires Enabled(w, step)
    requires step.Begin? ==> Plausible(step.target.size, |w.ever[step.target.name]|)
    ensures Apply(w, step).doubtful == w.doubtful
  {
    StepFrame(w, step);
    if !step.Begin? {
      hide Enabled, Apply;
    }
  }

  /**
    Some run reaches an unguarded deletion: the directory fsync of the first receive fails,
    the retry takes the `AlreadyPersisted` branch and deletes the remote copy, power fails.
   */
  lemma ReacknowledgedObjectCanBeLost(w: World, pid: u32, name: string) returns (run: seq<Step>)
    requires Initial(w)
    requires name in w.remote && w.remote[name] != [] && ValidRemoteName(name)
    requires !IsTempName(name) && name !in w.dir
    ensures ValidRun(w, run) && AdmissibleRun(run) && After(w, run).doubtful == {}
    ensures name in After(w, run).ever && name !in After(w, run).remote && name !in After(w, run).dir
  {
    var target := RemoteObject(name, |w.remote[name]|);
    assert IsTempName(TempName(pid, 0)) && IsTempName(TempName(pid, 1));
    assert Leads(w, [], w);
    run := Next(w, [], w, target, Start(pid));
    var v := Apply(w, Start(pid));
    run, v := PublishUnsynced(w, run, v, pid, target);
    run, v := RetryAndLosePower(w, run, v, pid, target);
  }

  /** The link is made, the fsync of the directory reports an error. */
  lemma LinkWithoutSync(w: World, run: seq<Step>, v: World, target: RemoteObject)
      returns (longer: seq<Step>, u: World)
    requires Leads(w, run, v) && Plain(run, target)
    requires v.calls.Keys == {0} && InPhase(v, 0, Sized) && v.calls[0].target == target
    requires v.calls[0].temp in v.dir && target.name !in v.dir && v.calls[0].temp != target.name
    ensures Leads(w, longer, u) && Plain(longer, target)
    ensures u.remote == v.remote && u.ever == v.ever && u.files == v.files && u.counters == v.counters
    ensures u.calls == map[]
    ensures u.dir == v.dir[target.name := v.dir[v.calls[0].temp]] - {v.calls[0].temp}
    ensures target.name !in u.syncedEntries
  {
    hide IsTempName, TempName, Leads, Plain;
    longer := Next(w, run, v, target, Link(0));
    u := Apply(v, Link(0));
    longer, u := Abandon(w, longer, u, target);
  }

  lemma PublishUnsynced(w: World, run: seq<Step>, v: World, pid: u32, target: RemoteObject)
      returns (longer: seq<Step>, u: World)
    requires Leads(w, run, v) && Plain(run, target)
    requires v.calls == map[] && pid in v.counters && v.counters[pid] == 0
    requires Listed(v, target) && v.remote == v.ever && v.remote[target.name] != []
    requires target.size == |v.remote[target.name]|
    requires target.name !in v.dir && TempName(pid, 0) !in v.dir && TempName(pid, 1) !in v.dir
    requires target.name != TempName(pid, 0) && target.name != TempName(pid, 1)
    requires forall n :: n in v.dir ==> v.dir[n] in v.files
    ensures Leads(w, longer, u) && Plain(longer, target)
    ensures u.remote == v.remote && u.ever == v.ever && u.calls == map[]
    ensures pid in u.counters && u.counters[pid] == 1 && TempName(pid, 1) !in u.dir
    ensures target.name !in u.syncedEntries && Stored(u, target.name)
    ensures forall n :: n in u.dir ==> u.dir[n] in u.files
  {
    TempNamesDiffer(pid, 0, 1);
    hide IsTempName, TempName, Leads, Plain, ValidRemoteName;
    var inode;
    longer, u, inode := OpenAndFetch(w, run, v, pid, target);
    longer, u := LinkWithoutSync(w, longer, u, target);
  }

  lemma TempNamesDiffer(pid: u32, m: u64, n: u64)
    requires m != n
    ensures TempName(pid, m) != TempName(pid, n)
  {
    if TempName(pid, m) == TempName(pid, n) {
      var p := ".incoming-" + Decimal.Render(pid) + "-";
      assert TempName(pid, m)[|p|..] == Decimal.Render(m);
      assert TempName(pid, n)[|p|..] == Decimal.Render(n);
      Decimal.RenderInjective(m, n);
    }
  }

  lemma RetryAndLosePower(w: World, run: seq<Step>, v: World, pid: u32, target: RemoteObject)
      returns (longer: seq<Step>, u: World)
    requires Leads(w, run, v) && Plain(run, target)
    requires target.name in w.ever && Plausible(target.size, |w.ever[target.name]|)
    requires v.calls == map[] && pid in v.counters && TempName(pid, v.counters[pid]) !in v.dir
    requires Listed(v, target) && v.remote == v.ever && v.remote[target.name] != []
    requires target.size == |v.remote[target.name]|
    requires target.name !in v.syncedEntries && Stored(v, target.name)
    requires forall n :: n in v.dir ==> v.dir[n] in v.files
    ensures Leads(w, longer, u) && AdmissibleRun(longer) && u.doubtful == w.doubtful
    ensures target.name in u.ever && target.name !in u.remote && target.name !in u.dir
  {
    hide TempName, IsTempName, Plain, ValidRemoteName, Leads;
    var inode;
    longer, u, inode := OpenAndFetch(w, run, v, pid, target);
    assert target.name !in u.syncedEntries;
    longer, u := Reacknowledge(w, longer, u, target);
    longer := LosePower(w, longer, u, target);
    u := OnDisk(u);
  }

  lemma LosePower(w: World, run: seq<Step>, v: World, target: RemoteObject) returns (longer: seq<Step>)
    requires Leads(w, run, v) && Plain(run, target)
    requires target.name in w.ever && Plausible(target.size, |w.ever[target.name]|)
    requires forall n :: n in v.dir ==> v.dir[n] in v.files
    ensures Leads(w, longer, OnDisk(v)) && AdmissibleRun(longer) && v.doubtful == w.doubtful
  {
    hide TempName, IsTempName, Plain;
    AfterLeads(w, run, v);
    PlainIsUndoubted(w, run, target);
    longer := Then(w, run, v, PowerLoss(OnDisk(v)));
  }
}
