/**
  Delivery of reconciliation events by concurrent workers: which interleavings end in the
  same row.
 */
module SubmissionDelivery {
  import opened Wrappers
  import opened SubmissionState
  import opened SubmissionStore
  import opened ReconciliationOrder

  /**
    Two interleavings that store the same events for a submission, in whatever order and
    however often each, end with the same transport and diagnostics, and with the same
    terminal if the summaries agree.
   */
  lemma SameEventsSameRow(s: System, a: seq<Action>, b: seq<Action>, id: string)
    requires SystemInv(s) && ValidActions(s, a) && ValidActions(s, b)
    requires id in After(s, a).rows && id in After(s, b).rows
    requires var t, u := After(s, a), After(s, b);
             && id in t.created && id in u.created && t.created[id] == u.created[id]
             && id in t.history && id in u.history && SameEvents(t.history[id], u.history[id])
    ensures var t, u := After(s, a), After(s, b);
            var r, q := t.rows[id].record, u.rows[id].record;
            && r.transport == q.transport
            && (forall p :: p in r.processResults <==> p in q.processResults)
            && (Agreeing(t.created[id], t.history[id]) ==> r.terminal == q.terminal)
  {
    hide After, SameEvents, Agreeing, HeldOk, Run, Inv, Fresh;
    RunContinues(s, a);
    RunContinues(s, b);
    var t, u := After(s, a), After(s, b);
    assert RowOk(id, t.rows[id], t.created[id], t.history[id]);
    assert RowOk(id, u.rows[id], u.created[id], u.history[id]);
    OrderInsensitive(t.created[id], t.history[id], u.history[id]);
  }

  // ---------------------------------------------------------------- every order can be stored

  lemma {:induction false} ActionsConcat(s: System, a: seq<Action>, b: seq<Action>)
    requires ValidActions(s, a) && ValidActions(After(s, a), b)
    ensures ValidActions(s, a + b) && After(s, a + b) == After(After(s, a), b)
    decreases |a|
  {
    hide Possible, Next;
    if a == [] {
      assert a + b == b;
    } else {
      assert (a + b)[1..] == a[1..] + b;
      ActionsConcat(Next(s, a[0]), a[1..], b);
    }
  }

  /** One worker loads the row and stores an event. */
  lemma StoreOne(s: System, worker: nat, id: string, event: Event) returns (t: System)
    requires SystemInv(s) && id in s.rows
    ensures ValidActions(s, Round(worker, id, event)) && t == After(s, Round(worker, id, event)) && SystemInv(t)
    ensures id in t.rows && id in s.history && id in t.history && t.history[id] == s.history[id] + [event]
  {
    var held := Loading(s, worker, id);
    t := Update(held, worker, event);
    RoundRuns(s, worker, id, event);
    LoadKeepsInv(s, worker, id);
    RowId(s, id);
    hide SystemInv, Step;
    UpdateAppliesToCurrent(held, worker, event);
    UpdateKeepsInv(held, worker, event);
    hide Update, SubmissionStore.Advanced;
  }

  function Round(worker: nat, id: string, event: Event): seq<Action> {
    [LoadRow(worker, id), ApplyAndSwap(worker, event)]
  }

  lemma RoundRuns(s: System, worker: nat, id: string, event: Event)
    requires id in s.rows
    ensures ValidActions(s, Round(worker, id, event))
    ensures After(s, Round(worker, id, event)) == Update(Loading(s, worker, id), worker, event)
  {
    hide Update;
    var actions, held := Round(worker, id, event), Loading(s, worker, id);
    assert actions[1..] == [ApplyAndSwap(worker, event)] && actions[1..][1..] == [];
    var t := Update(held, worker, event);
    assert ValidActions(t, []) && After(t, []) == t;
    assert Next(held, ApplyAndSwap(worker, event)) == t;
    assert ValidActions(held, actions[1..]) && After(held, actions[1..]) == t;
  }

  /** The events in this order, stored one after the other. */
  lemma {:induction false} StoreAll(s: System, worker: nat, id: string, events: seq<Event>)
      returns (actions: seq<Action>)
    requires SystemInv(s) && id in s.rows
    ensures ValidActions(s, actions) && SystemInv(After(s, actions))
    ensures var t := After(s, actions);
            id in t.rows && id in s.history && id in t.history && t.history[id] == s.history[id] + events
    decreases |events|
  {
    hide SystemInv, Round;
    if events == [] {
      actions := [];
      RowHasHistory(s, id);
      assert s.history[id] + events == s.history[id];
    } else {
      var t := StoreOne(s, worker, id, events[0]);
      var rest := StoreAll(t, worker, id, events[1..]);
      actions := Round(worker, id, events[0]) + rest;
      ActionsConcat(s, Round(worker, id, events[0]), rest);
      assert s.history[id] + [events[0]] + events[1..] == s.history[id] + ([events[0]] + events[1..]);
      assert [events[0]] + events[1..] == events;
    }
  }

  lemma RowHasHistory(s: System, id: string)
    requires SystemInv(s) && id in s.rows
    ensures id in s.history
  {
  }

  // ---------------------------------------------------------------- main result

  /** These actions store the events, in some order, for the submission. */
  ghost predicate Delivers(s: System, actions: seq<Action>, id: string, events: seq<Event>) {
    && ValidActions(s, actions) && id in s.history && id in After(s, actions).history && id in After(s, actions).rows
    && s.history[id] <= After(s, actions).history[id]
    && multiset(After(s, actions).history[id][|s.history[id]|..]) == multiset(events)
  }

  ghost function TerminalAfter(s: System, actions: seq<Action>, id: string): Option<TerminalSummary>
    requires ValidActions(s, actions) && id in After(s, actions).rows
  {
    After(s, actions).rows[id].record.terminal
  }

  /** Every interleaving that delivers the events ends with the same terminal. */
  ghost predicate DeliveryFree(s: System, id: string, events: seq<Event>) {
    forall a, b :: Delivers(s, a, id, events) && Delivers(s, b, id, events) ==>
      TerminalAfter(s, a, id) == TerminalAfter(s, b, id)
  }

  lemma DeliveredTerminal(s: System, actions: seq<Action>, id: string, events: seq<Event>)
    requires SystemInv(s) && id in s.rows && Delivers(s, actions, id, events)
    ensures TerminalAfter(s, actions, id) ==
            Run(s.rows[id].record, After(s, actions).history[id][|s.history[id]|..]).terminal
  {
    hide After, SystemInv, Run, Extends, Inv;
    NoLostUpdate(s, actions, id);
  }

  lemma StoreDelivers(s: System, id: string, events: seq<Event>, order: seq<Event>) returns (actions: seq<Action>)
    requires SystemInv(s) && id in s.rows && multiset(order) == multiset(events)
    ensures Delivers(s, actions, id, events)
    ensures TerminalAfter(s, actions, id) == Run(s.rows[id].record, order).terminal
  {
    hide After, ValidActions, SystemInv, Run;
    actions := StoreAll(s, 0, id, order);
    assert After(s, actions).history[id][|s.history[id]|..] == order;
    DeliveredTerminal(s, actions, id, events);
  }

  lemma DeliveryFreeIsOrderFree(s: System, id: string, events: seq<Event>)
    requires SystemInv(s) && id in s.rows
    ensures DeliveryFree(s, id, events) <==> OrderFree(s.rows[id].record, events)
  {
    hide SystemInv, Run, After, ValidActions, TerminalAfter;
    var r := s.rows[id].record;
    if OrderFree(r, events) {
      forall a, b | Delivers(s, a, id, events) && Delivers(s, b, id, events)
        ensures TerminalAfter(s, a, id) == TerminalAfter(s, b, id)
      {
        DeliveredInOrder(s, a, id, events);
        DeliveredInOrder(s, b, id, events);
      }
    }
    if DeliveryFree(s, id, events) {
      forall a, b | multiset(a) == multiset(events) == multiset(b)
        ensures Run(r, a).terminal == Run(r, b).terminal
      {
        var x := StoreDelivers(s, id, events, a);
        var y := StoreDelivers(s, id, events, b);
      }
    }
  }

  /** Some order of the events gives the terminal of the interleaving. */
  lemma DeliveredInOrder(s: System, actions: seq<Action>, id: string, events: seq<Event>)
    requires SystemInv(s) && id in s.rows && Delivers(s, actions, id, events)
    ensures exists order :: multiset(order) == multiset(events)
              && TerminalAfter(s, actions, id) == Run(s.rows[id].record, order).terminal
  {
    hide SystemInv, Run, After, ValidActions;
    DeliveredTerminal(s, actions, id, events);
    var order := After(s, actions).history[id][|s.history[id]|..];
    assert multiset(order) == multiset(events);
  }

  /**
    Whatever the workers do, the terminal depends only on the events they store exactly when
    one is set already or all acceptable summaries agree.
   */
  lemma DeliveryDeterminedExactly(s: System, id: string, events: seq<Event>)
    requires SystemInv(s) && id in s.rows
    ensures DeliveryFree(s, id, events) <==>
            s.rows[id].record.terminal.Some? || Agreeing(s.rows[id].record, events)
  {
    hide DeliveryFree, Agreeing, Run, OrderFree, TerminalDetermined, Inv;
    RowIsValid(s, id);
    DeliveryFreeIsOrderFree(s, id, events);
    TerminalDeterminedExactly(s.rows[id].record, events);
  }

  lemma RowIsValid(s: System, id: string)
    requires SystemInv(s) && id in s.rows
    ensures Inv(s.rows[id].record)
  {
    hide Run, Inv, Fresh, HeldOk;
    assert RowOk(id, s.rows[id], s.created[id], s.history[id]);
    RunKeepsInv(s.created[id], s.history[id], 0);
  }
}
