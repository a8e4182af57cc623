/** The invariant of the receive protocol, and that every step of any receiver keeps it. */
module ReceiveSafety {
  import opened Bytes
  import opened ReceiveProtocol

  // ---------------------------------------------------------------- the invariant

  predicate Holds(c: Call) { !c.phase.Opening? }

  predicate Complete(p: Phase) { p.Sized? || p.Linked? || p.Comparing? || p.Deleting? }

  /** What one call in progress may rely on. */
  ghost predicate CallOk(w: World, c: Call) {
    && c.target.name in w.ever && ValidRemoteName(c.target.name)
    && (c.target.name !in w.doubtful ==> Plausible(c.target.size, |w.ever[c.target.name]|))
    && (Holds(c) ==>
          && IsTempName(c.temp)
          && c.temp in w.dir && w.dir[c.temp] == c.inode && c.inode in w.files
          && w.files[c.inode] <= w.ever[c.target.name])
    && (c.phase.Synced? || Complete(c.phase) ==> c.inode in w.syncedFiles)
    && (Complete(c.phase) ==>
          && w.ever[c.target.name] != []
          && (c.target.name !in w.doubtful ==> w.files[c.inode] == w.ever[c.target.name]))
    && (c.phase.Linked? || c.phase.Deleting? ==>
          && c.target.name in w.dir
          && (c.target.name !in w.doubtful ==> Stored(w, c.target.name)))
    && (c.phase == Deleting(true) ==> c.target.name in w.syncedEntries)
  }

  ghost predicate CallsOk(w: World) {
    forall id :: id in w.calls ==> CallOk(w, w.calls[id])
  }

  /** Every call owns its temporary name. */
  ghost predicate OwnTemps(w: World) {
    forall i, j :: i in w.calls && j in w.calls && i != j && Holds(w.calls[i]) && Holds(w.calls[j])
      ==> w.calls[i].temp != w.calls[j].temp
  }

  /** Nobody else reaches a file that is being written. */
  ghost predicate SoleWriter(w: World) {
    forall i, n :: i in w.calls && w.calls[i].phase.Downloading? && n in w.dir && w.dir[n] == w.calls[i].inode
      ==> n == w.calls[i].temp
  }

  /** The remote only holds what arrived; directory and durability bookkeeping agree. */
  ghost predicate Consistent(w: World) {
    && (forall n :: n in w.remote ==> n in w.ever && w.remote[n] == w.ever[n])
    && (forall n :: n in w.dir ==> w.dir[n] in w.files)
    && (forall n :: n in w.dir && !IsTempName(n) ==> w.dir[n] in w.syncedFiles)
    && (forall n :: n in w.syncedEntries ==> n in w.dir)
  }

  ghost predicate Inv(w: World) {
    Consistent(w) && CallsOk(w) && OwnTemps(w) && SoleWriter(w) && NoTempObject(w)
  }

  /**
    Conservation of every object that no call doubts, with temporary names excluded from
    what counts as stored.
   */
  ghost predicate Safe(w: World) {
    forall n :: n in w.ever && n !in w.doubtful ==> n in w.remote || (!IsTempName(n) && Stored(w, n))
  }

  /** No non-empty object arrives under a temporary name. */
  ghost predicate Admissible(step: Step) { step.Arrive? && IsTempName(step.name) ==> step.data == [] }

  // ---------------------------------------------------------------- frame lemma

  /** A call keeps its facts when what it relies on is still there. */
  lemma CallKept(w: World, v: World, c: Call)
    requires CallOk(w, c) && w.doubtful <= v.doubtful
    requires c.target.name in v.ever && v.ever[c.target.name] == w.ever[c.target.name]
    requires Holds(c) ==> c.temp in v.dir && v.dir[c.temp] == c.inode
                          && c.inode in v.files && v.files[c.inode] == w.files[c.inode]
    requires c.inode in w.syncedFiles && Holds(c) ==> c.inode in v.syncedFiles
    requires Stored(w, c.target.name) && !IsTempName(c.target.name) ==> Stored(v, c.target.name)
    requires c.target.name in w.dir && !IsTempName(c.target.name) ==> c.target.name in v.dir
    requires c.target.name in w.syncedEntries && !IsTempName(c.target.name) ==> c.target.name in v.syncedEntries
    requires IsTempName(c.target.name) ==> w.ever[c.target.name] == []
    ensures CallOk(v, c)
  {
  }

  lemma OwnTempsKept(w: World, v: World)
    requires OwnTemps(w)
    requires forall i :: i in v.calls && Holds(v.calls[i]) ==>
      i in w.calls && Holds(w.calls[i]) && v.calls[i].temp == w.calls[i].temp
    ensures OwnTemps(v)
  {
  }

  // ---------------------------------------------------------------- one step

  /** One call moved on, and at most more names and files became durable. */
  ghost predicate Moved(w: World, v: World, id: nat) {
    && v.remote == w.remote && v.ever == w.ever && v.dir == w.dir && v.files == w.files && v.doubtful == w.doubtful
    && w.syncedEntries <= v.syncedEntries && (forall n :: n in v.syncedEntries ==> n in v.dir)
    && w.syncedFiles <= v.syncedFiles
    && id in w.calls && id in v.calls && v.calls == w.calls[id := v.calls[id]]
    && v.calls[id] == w.calls[id].(phase := v.calls[id].phase)
    && Holds(w.calls[id]) && Holds(v.calls[id]) && !v.calls[id].phase.Downloading?
  }

  lemma MovedKeepsInv(w: World, v: World, id: nat)
    requires Inv(w) && Moved(w, v, id) && CallOk(v, v.calls[id])
    ensures Inv(v) && (Safe(w) ==> Safe(v))
  {
    hide IsTempName;
    forall i | i in v.calls
      ensures CallOk(v, v.calls[i])
    {
      if i != id {
        CallKept(w, v, v.calls[i]);
      }
    }
  }

  lemma DownloadOkKeepsInv(w: World, id: nat)
    requires Inv(w) && InPhase(w, id, Downloading)
    ensures Inv(At(w, id, Downloaded)) && (Safe(w) ==> Safe(At(w, id, Downloaded)))
  {
    hide IsTempName;
    MovedKeepsInv(w, At(w, id, Downloaded), id);
  }

  lemma FailKeepsInv(w: World, id: nat)
    requires Inv(w) && CanFail(w, id)
    ensures Inv(At(w, id, Closing)) && (Safe(w) ==> Safe(At(w, id, Closing)))
  {
    hide IsTempName;
    MovedKeepsInv(w, At(w, id, Closing), id);
  }

  lemma SyncFileKeepsInv(w: World, id: nat)
    requires Inv(w) && InPhase(w, id, Downloaded)
    ensures var v := At(w, id, Synced).(syncedFiles := w.syncedFiles + {w.calls[id].inode});
            Inv(v) && (Safe(w) ==> Safe(v))
  {
    hide IsTempName;
    MovedKeepsInv(w, At(w, id, Synced).(syncedFiles := w.syncedFiles + {w.calls[id].inode}), id);
  }

  lemma SyncDirectoryKeepsInv(w: World, id: nat)
    requires Inv(w) && InPhase(w, id, Linked)
    ensures var v := At(w, id, Deleting(true)).(syncedEntries := w.dir.Keys); Inv(v) && (Safe(w) ==> Safe(v))
  {
    hide IsTempName;
    MovedKeepsInv(w, At(w, id, Deleting(true)).(syncedEntries := w.dir.Keys), id);
  }

  lemma CheckSizeKeepsInv(w: World, id: nat)
    requires Inv(w) && CanCheckSize(w, id)
    ensures Inv(SizeChecked(w, id)) && (Safe(w) ==> Safe(SizeChecked(w, id)))
  {
    hide IsTempName;
    MovedKeepsInv(w, SizeChecked(w, id), id);
  }

  lemma CompareKeepsInv(w: World, id: nat)
    requires Inv(w) && CanCompare(w, id)
    ensures Inv(Compared(w, id)) && (Safe(w) ==> Safe(Compared(w, id)))
  {
    hide IsTempName;
    MovedKeepsInv(w, Compared(w, id), id);
  }

  lemma ArriveKeepsInv(w: World, name: string, data: bytes)
    requires Inv(w) && name !in w.ever && (IsTempName(name) ==> data == [])
    ensures var v := w.(remote := w.remote[name := data], ever := w.ever[name := data]);
            Inv(v) && (Safe(w) ==> Safe(v))
  {
    hide IsTempName;
    var v := w.(remote := w.remote[name := data], ever := w.ever[name := data]);
    forall id | id in v.calls
      ensures CallOk(v, v.calls[id])
    {
      CallKept(w, v, v.calls[id]);
    }
  }

  /** Calls only start, end or vanish; nothing they share changes. */
  lemma CallsChangeKeepsInv(w: World, v: World)
    requires Inv(w) && v == w.(counters := v.counters, calls := v.calls, doubtful := v.doubtful)
    requires w.doubtful <= v.doubtful
    requires forall id :: id in v.calls ==>
      if id in w.calls then v.calls[id] == w.calls[id] else CallOk(v, v.calls[id]) && v.calls[id].phase.Opening?
    ensures Inv(v) && (Safe(w) ==> Safe(v))
  {
    hide IsTempName;
    forall id | id in v.calls
      ensures CallOk(v, v.calls[id])
    {
      if id in w.calls {
        CallKept(w, v, v.calls[id]);
      }
    }
  }

  lemma DrawnIsTemp(pid: u32, n: u64)
    ensures IsTempName(TempName(pid, n))
  {
  }

  lemma CreateKeepsCalls(w: World, id: nat, inode: nat)
    requires Inv(w) && CanCreate(w, id, inode)
    ensures CallsOk(Created(w, id, inode))
  {
    hide IsTempName, TempName;
    var v := Created(w, id, inode);
    DrawnIsTemp(w.calls[id].pid, w.counters[w.calls[id].pid]);
    forall i | i in v.calls
      ensures CallOk(v, v.calls[i])
    {
      if i != id || v.calls[id] == w.calls[id] {
        CallKept(w, v, v.calls[i]);
      }
    }
  }

  lemma CreateKeepsOwnTemps(w: World, id: nat, inode: nat)
    requires Inv(w) && CanCreate(w, id, inode)
    ensures OwnTemps(Created(w, id, inode))
  {
    assert forall i :: i in w.calls && Holds(w.calls[i]) ==> w.calls[i].temp in w.dir;
    hide IsTempName, TempName, CallsOk, CallOk, NoTempObject, Consistent, SoleWriter;
  }

  lemma CreateKeepsSoleWriter(w: World, id: nat, inode: nat)
    requires Inv(w) && CanCreate(w, id, inode)
    ensures SoleWriter(Created(w, id, inode))
  {
    assert forall i :: i in w.calls && Holds(w.calls[i]) ==> w.calls[i].inode in w.files;
    assert forall n :: n in w.dir ==> w.dir[n] in w.files;
    hide IsTempName, TempName, CallsOk, CallOk, NoTempObject, Consistent, OwnTemps;
  }

  /** Every published entry of the directory still leads to the same contents. */
  ghost predicate EntriesKept(w: World, v: World) {
    && v.remote == w.remote && v.ever == w.ever && v.doubtful == w.doubtful
    && forall n :: n in w.dir && !IsTempName(n) ==>
         n in v.dir && v.dir[n] == w.dir[n] && (w.dir[n] in w.files ==>
           w.dir[n] in v.files && v.files[w.dir[n]] == w.files[w.dir[n]])
  }

  lemma SafeKept(w: World, v: World)
    requires EntriesKept(w, v) && Safe(w)
    ensures Safe(v)
  {
    hide IsTempName;
  }

  lemma CreateKeepsEntries(w: World, id: nat, inode: nat)
    requires CanCreate(w, id, inode)
    ensures EntriesKept(w, Created(w, id, inode))
  {
    hide TempName, IsTempName;
  }

  lemma CreateKeepsConsistent(w: World, id: nat, inode: nat)
    requires Consistent(w) && CanCreate(w, id, inode)
    ensures Consistent(Created(w, id, inode))
  {
    assert IsTempName(TempName(w.calls[id].pid, w.counters[w.calls[id].pid]));
    hide IsTempName, TempName;
  }

  lemma CreateKeepsInv(w: World, id: nat, inode: nat)
    requires Inv(w) && CanCreate(w, id, inode)
    ensures Inv(Created(w, id, inode)) && (Safe(w) ==> Safe(Created(w, id, inode)))
  {
    CreateKeepsCalls(w, id, inode);
    CreateKeepsOwnTemps(w, id, inode);
    CreateKeepsSoleWriter(w, id, inode);
    CreateKeepsConsistent(w, id, inode);
    CreateKeepsEntries(w, id, inode);
    hide IsTempName, TempName, CallsOk, OwnTemps, SoleWriter, Consistent, Safe, Created;
    if Safe(w) {
      SafeKept(w, Created(w, id, inode));
    }
  }

  lemma WriteKeepsInv(w: World, id: nat, upTo: nat)
    requires Inv(w) && CanWrite(w, id, upTo)
    ensures Inv(Written(w, id, upTo)) && (Safe(w) ==> Safe(Written(w, id, upTo)))
  {
    hide IsTempName;
    var v := Written(w, id, upTo);
    forall n | !IsTempName(n) && n in w.dir
      ensures w.dir[n] != w.calls[id].inode
    {
    }
    forall i | i in v.calls
      ensures CallOk(v, v.calls[i])
    {
      if i != id {
        CallKept(w, v, v.calls[i]);
      }
    }
  }

  lemma LinkKeepsCalls(w: World, id: nat)
    requires Inv(w) && CanLink(w, id)
    ensures CallsOk(Published(w, id))
  {
    hide IsTempName;
    var v := Published(w, id);
    assert CallOk(w, w.calls[id]);
    assert CallOk(v, v.calls[id]);
    forall i | i in v.calls
      ensures CallOk(v, v.calls[i])
    {
      if i != id {
        CallKept(w, v, v.calls[i]);
      }
    }
  }

  lemma LinkKeepsOwnTemps(w: World, id: nat)
    requires Inv(w) && CanLink(w, id)
    ensures OwnTemps(Published(w, id))
  {
    hide IsTempName, CallsOk, CallOk, NoTempObject, Consistent, SoleWriter;
    OwnTempsKept(w, Published(w, id));
  }

  lemma LinkKeepsSoleWriter(w: World, id: nat)
    requires Inv(w) && CanLink(w, id)
    ensures SoleWriter(Published(w, id))
  {
    var c := w.calls[id];
    assert CallOk(w, c);
    forall i | i in w.calls && w.calls[i].phase.Downloading?
      ensures w.dir[c.temp] != w.calls[i].inode
    {
      assert CallOk(w, w.calls[i]);
    }
    hide IsTempName, CallsOk, CallOk, NoTempObject, Consistent, OwnTemps;
  }

  lemma LinkKeepsConsistent(w: World, id: nat)
    requires Inv(w) && CanLink(w, id)
    ensures Consistent(Published(w, id))
  {
    var c := w.calls[id];
    assert CallOk(w, c) && w.dir[c.temp] in w.syncedFiles;
    hide IsTempName, CallsOk, CallOk, NoTempObject, OwnTemps, SoleWriter;
  }

  lemma LinkKeepsEntries(w: World, id: nat)
    requires CanLink(w, id)
    ensures EntriesKept(w, Published(w, id))
  {
    hide IsTempName;
  }

  lemma LinkKeepsInv(w: World, id: nat)
    requires Inv(w) && CanLink(w, id)
    ensures Inv(Published(w, id)) && (Safe(w) ==> Safe(Published(w, id)))
  {
    LinkKeepsCalls(w, id);
    LinkKeepsOwnTemps(w, id);
    LinkKeepsSoleWriter(w, id);
    LinkKeepsConsistent(w, id);
    LinkKeepsEntries(w, id);
    hide IsTempName, CallsOk, OwnTemps, SoleWriter, Consistent, Safe, Published;
    if Safe(w) {
      SafeKept(w, Published(w, id));
    }
  }

  lemma DeleteKeepsInv(w: World, id: nat)
    requires Inv(w) && CanDelete(w, id)
    ensures Inv(Deleted(w, id)) && (Safe(w) ==> Safe(Deleted(w, id)))
  {
    hide IsTempName;
    var v := Deleted(w, id);
    assert !IsTempName(w.calls[id].target.name);
    forall i | i in v.calls
      ensures CallOk(v, v.calls[i])
    {
      if i != id {
        CallKept(w, v, v.calls[i]);
      }
    }
  }

  lemma CloseKeepsInv(w: World, id: nat, removed: bool)
    requires Inv(w) && InPhase(w, id, Closing)
    ensures Inv(Closed(w, id, removed)) && (Safe(w) ==> Safe(Closed(w, id, removed)))
  {
    CloseKeepsCalls(w, id, removed);
    CloseKeepsExclusive(w, id, removed);
    CloseKeepsEntries(w, id, removed);
    hide IsTempName, CallsOk, OwnTemps, SoleWriter, Consistent, Safe, Closed;
    if Safe(w) {
      SafeKept(w, Closed(w, id, removed));
    }
  }

  lemma CloseKeepsExclusive(w: World, id: nat, removed: bool)
    requires Inv(w) && InPhase(w, id, Closing)
    ensures OwnTemps(Closed(w, id, removed)) && SoleWriter(Closed(w, id, removed))
    ensures Consistent(Closed(w, id, removed)) && NoTempObject(Closed(w, id, removed))
  {
    hide IsTempName, CallsOk, CallOk;
  }

  lemma CloseKeepsEntries(w: World, id: nat, removed: bool)
    requires Inv(w) && InPhase(w, id, Closing)
    ensures EntriesKept(w, Closed(w, id, removed))
  {
    assert CallOk(w, w.calls[id]);
    hide IsTempName;
  }

  lemma CloseKeepsCalls(w: World, id: nat, removed: bool)
    requires Inv(w) && InPhase(w, id, Closing)
    ensures CallsOk(Closed(w, id, removed))
  {
    var v := Closed(w, id, removed);
    assert IsTempName(w.calls[id].temp);
    hide IsTempName;
    forall i | i in v.calls
      ensures CallOk(v, v.calls[i])
    {
      CallKept(w, v, v.calls[i]);
    }
  }

  lemma PowerLossKeepsInv(w: World, after: World)
    requires Inv(w) && PowerLossOutcome(w, after)
    ensures Inv(after)
  {
  }

  /** The invariant survives every step, a loss of power included. */
  lemma StepKeepsInv(w: World, step: Step)
    requires Inv(w) && Enabled(w, step) && Admissible(step)
    ensures Inv(Apply(w, step))
    ensures Safe(w) && !step.PowerLoss? ==> Safe(Apply(w, step))
  {
    hide Inv, Safe, IsTempName;
    match step {
      case Arrive(name, data) => ArriveKeepsInv(w, name, data);
      case Start(_) => CallsChangeKeepsInv(w, Apply(w, step));
      case Begin(_, _, _) => CallsChangeKeepsInv(w, Apply(w, step));
      case Create(id, inode) => CreateKeepsInv(w, id, inode);
      case CreateFails(_) => CallsChangeKeepsInv(w, Apply(w, step));
      case Write(id, upTo) => WriteKeepsInv(w, id, upTo);
      case DownloadOk(id) => DownloadOkKeepsInv(w, id);
      case SyncFile(id) => SyncFileKeepsInv(w, id);
      case CheckSize(id) => CheckSizeKeepsInv(w, id);
      case Link(id) => LinkKeepsInv(w, id);
      case SyncDirectory(id) => SyncDirectoryKeepsInv(w, id);
      case Compare(id) => CompareKeepsInv(w, id);
      case Delete(id) => DeleteKeepsInv(w, id);
      case Fail(id) => FailKeepsInv(w, id);
      case Close(id, removed) => CloseKeepsInv(w, id, removed);
      case Crash(_) => CallsChangeKeepsInv(w, Apply(w, step));
      case PowerLoss(after) => PowerLossKeepsInv(w, after);
    }
  }
}
