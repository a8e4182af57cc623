/** What the receive protocol guarantees over whole runs, and exactly when. */
module ReceiveTheorems {
  import opened ReceiveProtocol
  import opened ReceiveSafety

  ghost predicate AdmissibleRun(run: seq<Step>) { forall i :: 0 <= i < |run| ==> Admissible(run[i]) }

  lemma InitialInv(w: World)
    requires Initial(w) && NoTempObject(w)
    ensures Inv(w) && Safe(w)
  {
    hide IsTempName;
  }

  /** The invariant holds after every run, crashes and losses of power included. */
  lemma {:induction false} RunKeepsInv(w: World, run: seq<Step>)
    requires Inv(w) && ValidRun(w, run) && AdmissibleRun(run)
    ensures Inv(After(w, run))
    ensures Safe(w) && NoPowerLoss(run) ==> Safe(After(w, run))
    decreases |run|
  {
    hide Safe, IsTempName, Enabled, Apply, Admissible;
    if run != [] {
      StepKeepsInv(w, run[0]);
      assert forall i :: 0 <= i < |run[1..]| ==> run[1..][i] == run[i + 1];
      RunKeepsInv(Apply(w, run[0]), run[1..]);
    }
  }

  // ---------------------------------------------------------------- nothing is lost

  /**
    Every interleaving of any number of receivers, process crashes and retries leaves
    each object that was ever visible either remote or stored under its own name, unless a
    call was begun for it with a size that a truncated download of it can have.
   */
  lemma NothingIsLost(w: World, run: seq<Step>)
    requires Initial(w) && NoTempObject(w)
    requires ValidRun(w, run) && NoPowerLoss(run) && AdmissibleRun(run)
    ensures var v := After(w, run); forall n :: n in v.ever && n !in v.doubtful ==> Kept(v, n)
  {
    InitialInv(w);
    RunKeepsInv(w, run);
  }

  lemma OnlyDeleteRemoves(w: World, step: Step, n: string)
    requires Enabled(w, step)
    requires n in w.remote && n !in Apply(w, step).remote
    ensures step.Delete? && w.calls[step.id].target.name == n
  {
    hide Enabled;
    StepFrame(w, step);
  }

  /** The remote copy disappears only when an identical local copy is published. */
  lemma RemovedOnlyWhenStored(w: World, step: Step, n: string)
    requires Inv(w) && Enabled(w, step)
    requires n in w.remote && n !in Apply(w, step).remote
    ensures step.Delete? && !IsTempName(n) && (n !in w.doubtful ==> Stored(Apply(w, step), n))
  {
    OnlyDeleteRemoves(w, step, n);
    assert CallOk(w, w.calls[step.id]);
    hide IsTempName;
  }

  /** The name `n` still leads to the same file with the same contents. */
  predicate SameFile(w: World, v: World, n: string) {
    && n in w.dir && n in v.dir && v.dir[n] == w.dir[n]
    && w.dir[n] in w.files && w.dir[n] in v.files && v.files[w.dir[n]] == w.files[w.dir[n]]
  }

  lemma CreateKeepsPublished(w: World, id: nat, inode: nat, n: string)
    requires Inv(w) && CanCreate(w, id, inode) && n in w.dir
    ensures SameFile(w, Created(w, id, inode), n)
  {
    hide TempName;
  }

  lemma WriteKeepsPublished(w: World, id: nat, upTo: nat, n: string)
    requires Inv(w) && CanWrite(w, id, upTo) && n in w.dir && !IsTempName(n)
    ensures SameFile(w, Written(w, id, upTo), n)
  {
    hide IsTempName;
    assert CallOk(w, w.calls[id]);
    assert w.dir[n] != w.calls[id].inode;
  }

  lemma CloseKeepsPublished(w: World, id: nat, removed: bool, n: string)
    requires Inv(w) && InPhase(w, id, Closing) && n in w.dir && !IsTempName(n)
    ensures SameFile(w, Closed(w, id, removed), n)
  {
    hide IsTempName;
    assert CallOk(w, w.calls[id]);
  }

  /** A file published under a name is never renamed, removed, overwritten or altered. */
  lemma StepKeepsPublished(w: World, step: Step, n: string)
    requires Inv(w) && Enabled(w, step) && !step.PowerLoss?
    requires n in w.dir && !IsTempName(n)
    ensures SameFile(w, Apply(w, step), n)
  {
    hide IsTempName, TempName, CallsOk, OwnTemps, SoleWriter, NoTempObject;
    hide CanCreate, CanWrite, Created, Written, Closed;
    if step.Create? {
      CreateKeepsPublished(w, step.id, step.inode, n);
    } else if step.Write? {
      WriteKeepsPublished(w, step.id, step.upTo, n);
    } else if step.Close? {
      CloseKeepsPublished(w, step.id, step.removed, n);
    } else if step.Link? {
      hide Closed;
    } else {
      StepFrame(w, step);
      hide Apply, Enabled;
    }
  }

  lemma {:induction false} PublishedForever(w: World, run: seq<Step>, n: string)
    requires Inv(w) && ValidRun(w, run) && NoPowerLoss(run) && AdmissibleRun(run)
    requires n in w.dir && !IsTempName(n)
    ensures SameFile(w, After(w, run), n)
    decreases |run|
  {
    assert SameFile(w, w, n);
    hide IsTempName, Enabled, Apply, Inv, Admissible;
    if run != [] {
      StepKeepsInv(w, run[0]);
      StepKeepsPublished(w, run[0], n);
      assert forall i :: 0 <= i < |run[1..]| ==> run[1..][i] == run[i + 1];
      PublishedForever(Apply(w, run[0]), run[1..], n);
    }
  }
}
