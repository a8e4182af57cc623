/**
  The optimistic store, and any number of workers that repeat load, apply one event,
  compare-and-swap.  A step is one access to the store, so every interleaving is a
  sequence of steps.
 */
module SubmissionStore {
  import opened Wrappers
  import opened Bytes
  import opened Results
  import opened SubmissionState

  datatype Versioned = Versioned(revision: nat, record: Record)

  datatype StoreOutcome = Stored(revision: nat) | Conflict(current: Option<nat>)

  type Rows = map<string, Versioned>

  function CurrentRevision(rows: Rows, id: string): Option<nat> {
    if id in rows then Some(rows[id].revision) else None
  }

  function Swap(rows: Rows, expected: Option<nat>, record: Record): (Rows, StoreOutcome) {
    var current := CurrentRevision(rows, record.messageId);
    if current != expected then (rows, Conflict(current))
    else
      var revision := if current.Some? then current.value + 1 else 0;
      (rows[record.messageId := Versioned(revision, record)], Stored(revision))
  }

  function Lookup(rows: Rows, id: string): Option<Versioned> { if id in rows then Some(rows[id]) else None }

  class MemoryStore {
    var rows: Rows

    constructor ()
      ensures rows == map[]
    {
      rows := map[];
    }

    method Load(id: string) returns (row: Option<Versioned>)
      ensures row == Lookup(rows, id)
    {
      row := if id in rows then Some(rows[id]) else None;
    }

    method CompareAndSwap(expected: Option<nat>, record: Record) returns (outcome: StoreOutcome)
      modifies this
      ensures (rows, outcome) == Swap(old(rows), expected, record)
    {
      var current := CurrentRevision(rows, record.messageId);
      if current != expected {
        return Conflict(current);
      }
      var revision := match current { case None => 0 case Some(value) => value + 1 };
      rows := rows[record.messageId := Versioned(revision, record)];
      outcome := Stored(revision);
    }
  }

  // ---------------------------------------------------------------- workers

  datatype Action =
    | Create(id: string, expectedQuantity: u32)
    | LoadRow(worker: nat, id: string)
    | ApplyAndSwap(worker: nat, event: Event)
    | Stop(worker: nat)

  /** The store, what each worker loaded, and the events whose writes were stored. */
  datatype System = System(rows: Rows, held: map<nat, Versioned>, created: map<string, Record>,
                           history: map<string, seq<Event>>)

  predicate Possible(s: System, a: Action) {
    match a
    case Create(id, quantity) => id != "" && quantity > 0
    case LoadRow(worker, id) => true
    case ApplyAndSwap(worker, event) => worker in s.held
    case Stop(worker) => true
  }

  function Creation(s: System, id: string, quantity: u32): System {
    var (rows, outcome) := Swap(s.rows, None, Fresh(id, quantity));
    if outcome.Conflict? then s
    else s.(rows := rows, created := s.created[id := Fresh(id, quantity)], history := s.history[id := []])
  }

  /** The events stored for a submission so far. */
  function EventsOf(s: System, id: string): seq<Event> { if id in s.history then s.history[id] else [] }

  /** What the worker finds in the store is what it holds. */
  function Loading(s: System, worker: nat, id: string): System {
    match Lookup(s.rows, id)
    case Some(row) => s.(held := s.held[worker := row])
    case None => s
  }

  /** Apply the event to what was loaded and try to write it; afterwards the worker loads again. */
  function Update(s: System, worker: nat, event: Event): System
    requires worker in s.held
  {
    var loaded := s.held[worker];
    var id := loaded.record.messageId;
    var (rows, outcome) := Swap(s.rows, Some(loaded.revision), Step(loaded.record, event).0);
    var released := Release(s, worker);
    if outcome.Conflict? then released
    else released.(rows := rows, history := s.history[id := EventsOf(s, id) + [event]])
  }

  function Next(s: System, a: Action): System
    requires Possible(s, a)
  {
    match a
    case Create(id, quantity) => Creation(s, id, quantity)
    case LoadRow(worker, id) => Loading(s, worker, id)
    case ApplyAndSwap(worker, event) => Update(s, worker, event)
    case Stop(worker) => Release(s, worker)
  }

  predicate Initial(s: System) { s == System(map[], map[], map[], map[]) }

  /** A row is the sequential run of the events stored for it, one revision for each. */
  predicate RowOk(id: string, row: Versioned, created: Record, events: seq<Event>) {
    && created.messageId == id && created == Fresh(id, created.expectedQuantity) && Inv(created)
    && row.revision == |events| && row.record == Run(created, events)
  }

  /** What a worker holds was the row at the revision it holds. */
  predicate HeldOk(v: Versioned, created: map<string, Record>, history: map<string, seq<Event>>) {
    var id := v.record.messageId;
    && id in created && id in history && v.revision <= |history[id]|
    && v.record == Run(created[id], history[id][..v.revision])
  }

  predicate SystemInv(s: System) {
    && s.created.Keys == s.rows.Keys && s.history.Keys == s.rows.Keys
    && (forall id :: id in s.rows ==> RowOk(id, s.rows[id], s.created[id], s.history[id]))
    && (forall w :: w in s.held ==> HeldOk(s.held[w], s.created, s.history))
  }

  lemma RunKeepsId(r: Record, events: seq<Event>)
    requires Inv(r)
    ensures Run(r, events).messageId == r.messageId && Run(r, events).expectedQuantity == r.expectedQuantity
  {
    RunKeepsInv(r, events, 0);
    assert events[..0] == [];
    hide Inv, Step;
  }

  lemma StepKeepsId(r: Record, e: Event)
    ensures Step(r, e).0.messageId == r.messageId
  {
    hide IsConsistent, IssuesOf;
  }

  lemma RowId(s: System, id: string)
    requires SystemInv(s) && id in s.rows
    ensures s.rows[id].record.messageId == id
  {
    assert RowOk(id, s.rows[id], s.created[id], s.history[id]);
    RunKeepsId(s.created[id], s.history[id]);
    hide Run, Inv;
  }

  // ---------------------------------------------------------------- two changes that keep the invariant

  function Put(s: System, id: string, row: Versioned, created: Record, events: seq<Event>): System {
    System(s.rows[id := row], s.held, s.created[id := created], s.history[id := events])
  }

  function Release(s: System, worker: nat): System { s.(held := s.held - {worker}) }

  /** What is held stays a former row while histories only grow. */
  lemma HeldKept(v: Versioned, created: map<string, Record>, history: map<string, seq<Event>>, id: string, r: Record,
                 events: seq<Event>)
    requires HeldOk(v, created, history)
    requires id in created && id in history ==> r == created[id] && history[id] <= events
    ensures HeldOk(v, created[id := r], history[id := events])
  {
    var i := v.record.messageId;
    assert history[id := events][i][..v.revision] == history[i][..v.revision];
    hide Run;
  }

  lemma PutKeepsInv(s: System, id: string, row: Versioned, created: Record, events: seq<Event>)
    requires SystemInv(s) && RowOk(id, row, created, events)
    requires id in s.rows ==> created == s.created[id] && s.history[id] <= events
    ensures SystemInv(Put(s, id, row, created, events))
  {
    hide RowOk, HeldOk;
    var t := Put(s, id, row, created, events);
    forall w | w in t.held
      ensures HeldOk(t.held[w], t.created, t.history)
    {
      HeldKept(s.held[w], s.created, s.history, id, created, events);
    }
  }

  lemma ReleaseKeepsInv(s: System, worker: nat)
    requires SystemInv(s)
    ensures SystemInv(Release(s, worker))
  {
    hide RowOk, HeldOk;
  }

  lemma FirstRowOk(id: string, quantity: u32)
    requires id != "" && quantity > 0
    ensures var r := Fresh(id, quantity); r.messageId == id && RowOk(id, Versioned(0, r), r, [])
  {
  }

  lemma CreateKeepsInv(s: System, id: string, quantity: u32)
    requires SystemInv(s) && id != "" && quantity > 0
    ensures SystemInv(Creation(s, id, quantity))
  {
    hide RowOk, HeldOk, Fresh;
    var r := Fresh(id, quantity);
    FirstRowOk(id, quantity);
    if id !in s.rows {
      PutKeepsInv(s, id, Versioned(0, r), r, []);
      hide SystemInv;
    }
  }

  lemma RowCanBeHeld(s: System, id: string)
    requires SystemInv(s) && id in s.rows
    ensures HeldOk(s.rows[id], s.created, s.history)
  {
    hide Run, Inv, Fresh;
    assert RowOk(id, s.rows[id], s.created[id], s.history[id]);
    RowId(s, id);
    assert s.history[id][..|s.history[id]|] == s.history[id];
  }

  lemma LoadKeepsInv(s: System, worker: nat, id: string)
    requires SystemInv(s)
    ensures SystemInv(Loading(s, worker, id))
  {
    hide RowOk, HeldOk;
    if id in s.rows {
      RowCanBeHeld(s, id);
    }
  }

  /** A write to an existing row is stored exactly when the revision is current. */
  lemma SwapExisting(rows: Rows, id: string, revision: nat, record: Record)
    requires id in rows && record.messageId == id
    ensures var (after, outcome) := Swap(rows, Some(revision), record);
            if revision == rows[id].revision
            then outcome == Stored(revision + 1) && after == rows[id := Versioned(revision + 1, record)]
            else outcome == Conflict(Some(rows[id].revision)) && after == rows
  {
  }

  /** The four cases of a write: creation and update, each stored or refused. */
  lemma SwapAnswers(rows: Rows, expected: Option<nat>, record: Record)
    ensures var (after, outcome) := Swap(rows, expected, record);
            var id := record.messageId;
            && (expected == None && id !in rows <==> outcome == Stored(0))
            && (expected == None && id in rows ==> outcome == Conflict(Some(rows[id].revision)))
            && (forall k: nat :: expected == Some(k) && id in rows && rows[id].revision == k ==>
                  outcome == Stored(k + 1))
            && (forall k: nat :: expected == Some(k) && id in rows && rows[id].revision != k ==>
                  outcome == Conflict(Some(rows[id].revision)))
            && (expected.Some? && id !in rows <==> outcome == Conflict(None))
            && (outcome.Conflict? ==> after == rows)
            && (outcome.Stored? ==> after == rows[id := Versioned(outcome.revision, record)])
  {
  }

  /** What is held at the current revision is the current row. */
  lemma HeldIsFormerRow(s: System, worker: nat)
    requires SystemInv(s) && worker in s.held
    ensures var v := s.held[worker];
            var id := v.record.messageId;
            && id in s.rows && id in s.created && id in s.history
            && (v.revision == s.rows[id].revision ==> v.record == s.rows[id].record)
  {
    hide Run, Inv, Fresh;
    var v := s.held[worker];
    var id := v.record.messageId;
    assert HeldOk(v, s.created, s.history);
    assert RowOk(id, s.rows[id], s.created[id], s.history[id]);
    assert s.history[id][..|s.history[id]|] == s.history[id];
  }

  /** The row after one more event. */
  function Advanced(row: Versioned, event: Event): Versioned { Versioned(row.revision + 1, Step(row.record, event).0) }

  /** A stored write applies one event to the row as it is in the store, never to an older one. */
  lemma UpdateAppliesToCurrent(s: System, worker: nat, event: Event)
    requires SystemInv(s) && worker in s.held
    ensures var t, id := Update(s, worker, event), s.held[worker].record.messageId;
            && id in s.rows && id in s.created && id in s.history
            && (s.held[worker].revision != s.rows[id].revision ==> t == Release(s, worker))
            && (s.held[worker].revision == s.rows[id].revision ==>
                  t == Release(Put(s, id, Advanced(s.rows[id], event), s.created[id], s.history[id] + [event]), worker))
  {
    hide Step, SystemInv, Swap;
    var v := s.held[worker];
    var id := v.record.messageId;
    HeldIsFormerRow(s, worker);
    assert s.created[id := s.created[id]] == s.created;
    StepKeepsId(v.record, event);
    SwapExisting(s.rows, id, v.revision, Step(v.record, event).0);
  }

  /** One more stored event is one more step of the sequential run. */
  lemma AdvancedRowOk(id: string, row: Versioned, created: Record, events: seq<Event>, event: Event)
    requires RowOk(id, row, created, events)
    ensures RowOk(id, Advanced(row, event), created, events + [event])
  {
    hide Step, Inv;
    assert (events + [event])[..|events|] == events;
  }

  lemma UpdateKeepsInv(s: System, worker: nat, event: Event)
    requires SystemInv(s) && worker in s.held
    ensures SystemInv(Update(s, worker, event))
  {
    var id := s.held[worker].record.messageId;
    UpdateAppliesToCurrent(s, worker, event);
    hide Update, RowOk, HeldOk, Advanced, Put, Release;
    if s.held[worker].revision == s.rows[id].revision {
      AdvancedRowOk(id, s.rows[id], s.created[id], s.history[id], event);
      var t := Put(s, id, Advanced(s.rows[id], event), s.created[id], s.history[id] + [event]);
      PutKeepsInv(s, id, Advanced(s.rows[id], event), s.created[id], s.history[id] + [event]);
      hide SystemInv;
      ReleaseKeepsInv(t, worker);
    } else {
      hide SystemInv;
      ReleaseKeepsInv(s, worker);
    }
  }

  /** Whatever the workers do, the rows stay the sequential runs of the stored events. */
  lemma NextKeepsInv(s: System, a: Action)
    requires SystemInv(s) && Possible(s, a)
    ensures SystemInv(Next(s, a))
  {
    hide SystemInv, Creation, Update, Loading, Release;
    match a
    case Create(id, quantity) => CreateKeepsInv(s, id, quantity);
    case LoadRow(worker, id) => LoadKeepsInv(s, worker, id);
    case ApplyAndSwap(worker, event) => UpdateKeepsInv(s, worker, event);
    case Stop(worker) => ReleaseKeepsInv(s, worker);
  }

  // ---------------------------------------------------------------- a worker at the store

  /** Writing from the store as the others left it since `loaded` was read is the action of the system. */
  method Process(store: MemoryStore, ghost s: System, ghost worker: nat, loaded: Versioned, event: Event)
      returns (outcome: StoreOutcome)
    requires SystemInv(s) && store.rows == s.rows && worker in s.held && s.held[worker] == loaded
    modifies store
    ensures store.rows == Update(s, worker, event).rows
    ensures loaded.record.messageId in s.rows
    ensures outcome == if loaded.revision == s.rows[loaded.record.messageId].revision
                       then Stored(loaded.revision + 1)
                       else Conflict(Some(s.rows[loaded.record.messageId].revision))
  {
    hide Step, SystemInv;
    HeldIsFormerRow(s, worker);
    StepKeepsId(loaded.record, event);
    var record := Step(loaded.record, event).0;
    SwapExisting(s.rows, loaded.record.messageId, loaded.revision, record);
    outcome := store.CompareAndSwap(Some(loaded.revision), record);
  }

  /** Undisturbed, a worker stores its event at the first attempt. */
  method LoadAndProcess(store: MemoryStore, ghost s: System, ghost worker: nat, id: string, event: Event)
      returns (outcome: Option<StoreOutcome>)
    requires SystemInv(s) && store.rows == s.rows
    modifies store
    ensures id !in s.rows ==> outcome.None? && store.rows == s.rows
    ensures id in s.rows ==>
              && outcome == Some(Stored(s.rows[id].revision + 1))
              && store.rows == s.rows[id := Advanced(s.rows[id], event)]
  {
    var row := store.Load(id);
    if row.None? {
      return None;
    }
    Undisturbed(s, worker, id, event);
    hide SystemInv, Update, Advanced, Loading;
    var stored := Process(store, Loading(s, worker, id), worker, row.value, event);
    outcome := Some(stored);
  }

  lemma Undisturbed(s: System, worker: nat, id: string, event: Event)
    requires SystemInv(s) && id in s.rows
    ensures var t := Loading(s, worker, id);
            && SystemInv(t) && t.rows == s.rows && worker in t.held && t.held[worker] == s.rows[id]
            && s.rows[id].record.messageId == id
            && Update(t, worker, event).rows == s.rows[id := Advanced(s.rows[id], event)]
  {
    LoadKeepsInv(s, worker, id);
    RowId(s, id);
    hide SystemInv;
    UpdateAppliesToCurrent(Loading(s, worker, id), worker, event);
    hide Update, Advanced;
  }

  // ---------------------------------------------------------------- interleavings

  ghost predicate ValidActions(s: System, actions: seq<Action>)
    decreases |actions|
  {
    actions == [] || (Possible(s, actions[0]) && ValidActions(Next(s, actions[0]), actions[1..]))
  }

  ghost function After(s: System, actions: seq<Action>): System
    requires ValidActions(s, actions)
    decreases |actions|
  {
    if actions == [] then s else After(Next(s, actions[0]), actions[1..])
  }

  /** The stored events of a submission are only ever appended to. */
  predicate Continued(s: System, t: System) {
    forall id :: id in s.created && id in s.history ==>
      id in t.created && id in t.history && t.created[id] == s.created[id] && s.history[id] <= t.history[id]
  }

  lemma NextContinues(s: System, a: Action)
    requires SystemInv(s) && Possible(s, a)
    ensures Continued(s, Next(s, a))
  {
    hide Step, Inv, RowOk, HeldOk;
    match a
    case Create(id, quantity) =>
    case LoadRow(worker, id) =>
    case ApplyAndSwap(worker, event) =>
      UpdateAppliesToCurrent(s, worker, event);
      hide Update, Advanced;
    case Stop(worker) =>
  }

  lemma {:induction false} RunContinues(s: System, actions: seq<Action>)
    requires SystemInv(s) && ValidActions(s, actions)
    ensures SystemInv(After(s, actions)) && Continued(s, After(s, actions))
    decreases |actions|
  {
    hide RowOk, HeldOk, Possible, Next;
    if actions != [] {
      NextKeepsInv(s, actions[0]);
      NextContinues(s, actions[0]);
      RunContinues(Next(s, actions[0]), actions[1..]);
      hide SystemInv;
    }
  }

  // ---------------------------------------------------------------- main result

  /**
    No update is lost.  Between any two points of any interleaving, a row advances by the
    revisions of the events stored in between, applied one after the other to the earlier
    row; diagnostics already stored stay, transport does not fall, a terminal summary is
    not replaced.
   */
  lemma NoLostUpdate(s: System, actions: seq<Action>, id: string)
    requires SystemInv(s) && ValidActions(s, actions) && id in s.rows
    ensures var t := After(s, actions);
            && id in t.rows && id in s.history && id in t.history
            && s.history[id] <= t.history[id]
            && t.rows[id].revision - s.rows[id].revision == |t.history[id]| - |s.history[id]|
            && t.rows[id].record == Run(s.rows[id].record, t.history[id][|s.history[id]|..])
            && Extends(s.rows[id].record, t.rows[id].record) && Inv(t.rows[id].record)
  {
    var t := After(s, actions);
    RunContinues(s, actions);
    hide After, RowOk, HeldOk, Extends, Inv, Run;
    RowAdvances(id, s.rows[id], t.rows[id], s.created[id], s.history[id], t.history[id]);
  }

  lemma RowAdvances(id: string, earlier: Versioned, later: Versioned, created: Record, first: seq<Event>,
                    all: seq<Event>)
    requires RowOk(id, earlier, created, first) && RowOk(id, later, created, all) && first <= all
    ensures later.revision - earlier.revision == |all| - |first|
    ensures later.record == Run(earlier.record, all[|first|..])
    ensures Extends(earlier.record, later.record) && Inv(later.record)
  {
    hide Step, Inv, Extends, Fresh;
    RunSplits(created, first, all[|first|..]);
    assert first + all[|first|..] == all && all[..|first|] == first;
    RunKeepsInv(created, all, |first|);
  }

  lemma {:induction false} RunSplits(r: Record, first: seq<Event>, second: seq<Event>)
    ensures Run(r, first + second) == Run(Run(r, first), second)
    decreases |second|
  {
    hide Step;
    if second == [] {
      assert first + second == first;
    } else {
      var init := second[..|second| - 1];
      RunSplits(r, first, init);
      assert (first + second)[..|first + second| - 1] == first + init;
    }
  }

  /** From an empty store, every row is a sequential run from the creation of its record. */
  lemma StoredRowsAreSequential(s: System, actions: seq<Action>, id: string)
    requires Initial(s) && ValidActions(s, actions) && id in After(s, actions).rows
    ensures var t := After(s, actions);
            && id in t.created && id in t.history
            && t.created[id] == Fresh(id, t.created[id].expectedQuantity)
            && t.rows[id] == Versioned(|t.history[id]|, Run(t.created[id], t.history[id]))
  {
    RunContinues(s, actions);
    var t := After(s, actions);
    assert RowOk(id, t.rows[id], t.created[id], t.history[id]);
  }
}
