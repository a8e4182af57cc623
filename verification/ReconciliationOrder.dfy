/**
  Delivery order and duplication of reconciliation events do not matter: the final state is
  described by the set of events alone, up to disagreeing terminal summaries.
 */
module ReconciliationOrder {
  import opened Wrappers
  import opened Results
  import opened SubmissionState

  /** The terminal summary an event carries for this submission, if it is acceptable. */
  function TerminalFrom(r: Record, e: Event): Option<TerminalSummary> {
    match e
    case Entry(m) => TerminalFromEntry(r, m)
    case Summary(s) =>
      var matching := Matching(s.messages, r.messageId);
      if |matching| == 1 then TerminalFromEntry(r, matching[0]) else None
    case _ => None
  }

  function TerminalFromEntry(r: Record, m: SummaryMessage): Option<TerminalSummary> {
    if m.info.id == r.messageId && IsConsistent(m, Some(r.expectedQuantity)) then
      ConsistentIsConvertible(m, Some(r.expectedQuantity));
      Some(FromValidatedMessage(m))
    else None
  }

  /** The transport rank an event vouches for on its own. */
  function RankFrom(r: Record, e: Event): nat {
    match e
    case Advance(target) => Rank(target)
    case Process(p) => if p.message.id == r.messageId then Rank(ProcessObserved) else 0
    case _ => if TerminalFrom(r, e).Some? then Rank(SummaryObserved) else 0
  }

  /** What a single step does, told by what the event carries. */
  lemma StepCarries(r: Record, e: Event)
    requires Inv(r)
    ensures var s := Step(r, e).0;
            && Rank(s.transport) == (if RankFrom(r, e) > Rank(r.transport) then RankFrom(r, e) else Rank(r.transport))
            && s.terminal == (if r.terminal.Some? then r.terminal else TerminalFrom(r, e))
            && (forall p :: p in s.processResults <==>
                  p in r.processResults || (e == Process(p) && p.message.id == r.messageId))
  {
    hide IsConsistent, IssuesOf, TerminalOk;
    match e
    case Advance(target) =>
    case Process(p) => ProcessCarries(r, p);
    case Entry(m) => EntryCarries(r, m);
    case Summary(s) =>
      var matching := Matching(s.messages, r.messageId);
      if |matching| == 1 {
        EntryCarries(r, matching[0]);
      }
  }

  lemma ProcessCarries(r: Record, p: ProcessResult)
    requires Inv(r)
    ensures var s := ProcessStep(r, p).0;
            && s.terminal == r.terminal
            && Rank(s.transport) == (if p.message.id == r.messageId && Rank(ProcessObserved) > Rank(r.transport)
                                     then Rank(ProcessObserved) else Rank(r.transport))
            && (forall q :: q in s.processResults <==>
                  q in r.processResults || (q == p && p.message.id == r.messageId))
  {
    hide TerminalOk;
  }

  lemma EntryCarries(r: Record, m: SummaryMessage)
    requires Inv(r)
    ensures var s, t := EntryStep(r, m).0, TerminalFromEntry(r, m);
            && s.processResults == r.processResults
            && s.terminal == (if r.terminal.Some? then r.terminal else t)
            && Rank(s.transport) == (if t.Some? then Rank(SummaryObserved) else Rank(r.transport))
  {
    hide IsConsistent, IssuesOf, TerminalOk;
  }

  // ---------------------------------------------------------------- the final state from the set of events

  /** The identity of the submission decides what an event carries. */
  lemma CarriedBySame(r: Record, s: Record, e: Event)
    requires s.messageId == r.messageId && s.expectedQuantity == r.expectedQuantity
    ensures TerminalFrom(s, e) == TerminalFrom(r, e) && RankFrom(s, e) == RankFrom(r, e)
  {
  }

  predicate Reaches(r: Record, events: seq<Event>, k: nat) {
    k <= Rank(r.transport) || exists e :: e in events && RankFrom(r, e) >= k
  }

  predicate Carries(r: Record, events: seq<Event>, t: TerminalSummary) {
    exists e :: e in events && TerminalFrom(r, e) == Some(t)
  }

  lemma LastOf(events: seq<Event>)
    requires events != []
    ensures forall e :: e in events <==> e in events[..|events| - 1] || e == events[|events| - 1]
  {
    assert events == events[..|events| - 1] + [events[|events| - 1]];
  }

  /** The transport reached is the highest any event vouches for. */
  lemma {:induction false} FinalTransport(r: Record, events: seq<Event>, k: nat)
    requires Inv(r)
    ensures Rank(Run(r, events).transport) >= k <==> Reaches(r, events, k)
    decreases |events|
  {
    if events != [] {
      var init, last := events[..|events| - 1], events[|events| - 1];
      FinalTransport(r, init, k);
      RunKeepsInv(r, init, 0);
      StepCarries(Run(r, init), last);
      CarriedBySame(r, Run(r, init), last);
      LastOf(events);
      hide Step, Inv, RankFrom;
    }
  }

  /** The distinct process results kept are those delivered for this submission. */
  lemma {:induction false} FinalResults(r: Record, events: seq<Event>, p: ProcessResult)
    requires Inv(r)
    ensures p in Run(r, events).processResults <==>
            p in r.processResults || (Process(p) in events && p.message.id == r.messageId)
    decreases |events|
  {
    if events != [] {
      var init, last := events[..|events| - 1], events[|events| - 1];
      FinalResults(r, init, p);
      RunKeepsInv(r, init, 0);
      StepCarries(Run(r, init), last);
      LastOf(events);
      hide Step, Inv, RankFrom, TerminalFrom;
    }
  }

  /** A terminal comes from some event, and exists as soon as an event carries one. */
  lemma {:induction false} FinalTerminal(r: Record, events: seq<Event>)
    requires Inv(r) && r.terminal.None?
    ensures var t := Run(r, events).terminal;
            && (t.Some? ==> Carries(r, events, t.value))
            && (t.None? ==> forall e :: e in events ==> TerminalFrom(r, e).None?)
    decreases |events|
  {
    if events != [] {
      var init, last := events[..|events| - 1], events[|events| - 1];
      FinalTerminal(r, init);
      RunKeepsInv(r, init, 0);
      StepCarries(Run(r, init), last);
      CarriedBySame(r, Run(r, init), last);
      LastOf(events);
      hide Step, Inv, RankFrom, TerminalFrom;
    }
  }

  lemma {:induction false} TerminalStays(r: Record, events: seq<Event>)
    requires Inv(r) && r.terminal.Some?
    ensures Run(r, events).terminal == r.terminal
  {
    RunKeepsInv(r, events, 0);
    assert events[..0] == [];
  }

  // ---------------------------------------------------------------- main results

  ghost predicate SameEvents(a: seq<Event>, b: seq<Event>) { forall e :: e in a <==> e in b }

  /** All acceptable summaries for this submission are equal. */
  predicate Agreeing(r: Record, events: seq<Event>) {
    forall e, f :: e in events && f in events && TerminalFrom(r, e).Some? && TerminalFrom(r, f).Some? ==>
      TerminalFrom(r, e) == TerminalFrom(r, f)
  }

  /** Any order and any duplication of the same events reaches the same transport and diagnostics. */
  lemma OrderInsensitive(r: Record, a: seq<Event>, b: seq<Event>)
    requires Inv(r) && SameEvents(a, b)
    ensures Run(r, a).transport == Run(r, b).transport
    ensures forall p :: p in Run(r, a).processResults <==> p in Run(r, b).processResults
    ensures r.terminal.Some? || Agreeing(r, a) ==> Run(r, a).terminal == Run(r, b).terminal
  {
    hide Step, Inv, RankFrom, TerminalFrom;
    FinalTransport(r, a, Rank(Run(r, a).transport));
    FinalTransport(r, b, Rank(Run(r, a).transport));
    FinalTransport(r, a, Rank(Run(r, b).transport));
    FinalTransport(r, b, Rank(Run(r, b).transport));
    forall p
      ensures p in Run(r, a).processResults <==> p in Run(r, b).processResults
    {
      FinalResults(r, a, p);
      FinalResults(r, b, p);
    }
    if r.terminal.Some? {
      TerminalStays(r, a);
      TerminalStays(r, b);
    } else {
      FinalTerminal(r, a);
      FinalTerminal(r, b);
    }
  }

  lemma FirstTerminalWins(r: Record, e: Event, rest: seq<Event>)
    requires Inv(r) && r.terminal.None? && TerminalFrom(r, e).Some?
    ensures Run(r, [e] + rest).terminal == TerminalFrom(r, e)
  {
    StepCarries(r, e);
    RunKeepsInv(r, [e] + rest, 1);
    assert ([e] + rest)[..1] == [e] && [e][..0] == [];
    assert Run(r, [e]) == Step(Run(r, []), e).0;
    hide Step, Inv, TerminalFrom;
  }

  // ---------------------------------------------------------------- when the terminal depends on the order

  /** The same events, the `i`th of them first. */
  function ToFront(events: seq<Event>, i: nat): seq<Event>
    requires i < |events|
  {
    [events[i]] + (events[..i] + events[i + 1..])
  }

  lemma ToFrontPermutes(events: seq<Event>, i: nat)
    requires i < |events|
    ensures multiset(ToFront(events, i)) == multiset(events)
  {
    assert events == events[..i] + [events[i]] + events[i + 1..];
  }

  /** Two events that carry different terminals make the order visible: put one or the other first. */
  lemma DisagreementShows(r: Record, events: seq<Event>, i: nat, j: nat)
    requires Inv(r) && r.terminal.None? && i < |events| && j < |events|
    requires var e, f := TerminalFrom(r, events[i]), TerminalFrom(r, events[j]); e.Some? && f.Some? && e != f
    ensures Run(r, ToFront(events, i)).terminal != Run(r, ToFront(events, j)).terminal
  {
    FirstTerminalWins(r, events[i], events[..i] + events[i + 1..]);
    FirstTerminalWins(r, events[j], events[..j] + events[j + 1..]);
    hide Run, Inv, TerminalFrom;
  }

  lemma PermutedAreSame(a: seq<Event>, b: seq<Event>)
    requires multiset(a) == multiset(b)
    ensures SameEvents(a, b)
  {
    forall e
      ensures e in a <==> e in b
    {
      assert e in a <==> e in multiset(a);
      assert e in b <==> e in multiset(b);
    }
  }

  /** Any order and any duplication of the events reaches the same terminal. */
  ghost predicate TerminalDetermined(r: Record, events: seq<Event>) {
    forall a, b :: SameEvents(a, events) && SameEvents(b, events) ==> Run(r, a).terminal == Run(r, b).terminal
  }

  /** Any order of the events, each delivered as often as before, reaches the same terminal. */
  ghost predicate OrderFree(r: Record, events: seq<Event>) {
    forall a, b :: multiset(a) == multiset(events) == multiset(b) ==> Run(r, a).terminal == Run(r, b).terminal
  }

  lemma DeterminedIsOrderFree(r: Record, events: seq<Event>)
    requires TerminalDetermined(r, events)
    ensures OrderFree(r, events)
  {
    hide Run, SameEvents;
    forall a, b | multiset(a) == multiset(events) == multiset(b)
      ensures Run(r, a).terminal == Run(r, b).terminal
    {
      PermutedAreSame(a, events);
      PermutedAreSame(b, events);
    }
  }

  lemma OrderFreeAgrees(r: Record, events: seq<Event>)
    requires Inv(r) && r.terminal.None? && OrderFree(r, events)
    ensures Agreeing(r, events)
  {
    hide Run, Inv, TerminalFrom;
    if !Agreeing(r, events) {
      var i, j :| 0 <= i < |events| && 0 <= j < |events|
                  && TerminalFrom(r, events[i]).Some? && TerminalFrom(r, events[j]).Some?
                  && TerminalFrom(r, events[i]) != TerminalFrom(r, events[j]);
      DisagreementShows(r, events, i, j);
      ToFrontPermutes(events, i);
      ToFrontPermutes(events, j);
      assert false;
    }
  }

  /**
    The terminal is independent of order and duplication exactly when one is set already or
    all agree; reordering alone shows any disagreement.
   */
  lemma TerminalDeterminedExactly(r: Record, events: seq<Event>)
    requires Inv(r)
    ensures TerminalDetermined(r, events) <==> r.terminal.Some? || Agreeing(r, events)
    ensures OrderFree(r, events) <==> r.terminal.Some? || Agreeing(r, events)
  {
    hide Run, Inv, TerminalFrom, SameEvents, Agreeing, OrderFree;
    if r.terminal.Some? || Agreeing(r, events) {
      forall a, b | SameEvents(a, events) && SameEvents(b, events)
        ensures Run(r, a).terminal == Run(r, b).terminal
      {
        SameTerminal(r, a, b, events);
      }
    }
    if TerminalDetermined(r, events) {
      DeterminedIsOrderFree(r, events);
    }
    if OrderFree(r, events) && r.terminal.None? {
      OrderFreeAgrees(r, events);
    }
  }

  lemma SameTerminal(r: Record, a: seq<Event>, b: seq<Event>, events: seq<Event>)
    requires Inv(r) && SameEvents(a, events) && SameEvents(b, events)
    requires r.terminal.Some? || Agreeing(r, events)
    ensures Run(r, a).terminal == Run(r, b).terminal
  {
    hide Run, Inv, TerminalFrom;
    OrderInsensitive(r, a, events);
    OrderInsensitive(r, b, events);
  }

  // ---------------------------------------------------------------- two acceptable summaries that disagree

  /** A summary of one invoice for the submission `id`, accepted or rejected. */
  function OneInvoice(id: string, accepted: bool): SummaryMessage {
    var one, none := ResultDetail(1, []), ResultDetail(0, []);
    SummaryMessage(MessageInfo(id, "", "", "", ""),
                   ResultBreakdown(one, if accepted then one else none, if accepted then none else one))
  }

  lemma OneInvoiceIsAcceptable(id: string, accepted: bool)
    requires id != ""
    ensures TerminalFrom(Fresh(id, 1), Entry(OneInvoice(id, accepted))) ==
            Some(FromValidatedMessage(OneInvoice(id, accepted)))
  {
    ConsistentExactly(OneInvoice(id, accepted), Some(1));
    hide IsConsistent;
  }

  function Disagreeing(id: string): seq<Event> { [Entry(OneInvoice(id, true)), Entry(OneInvoice(id, false))] }

  /** The first of them to arrive decides whether the submission was accepted. */
  lemma DisagreeingSummaries(id: string)
    requires id != ""
    ensures !OrderFree(Fresh(id, 1), Disagreeing(id)) && !TerminalDetermined(Fresh(id, 1), Disagreeing(id))
  {
    var r, events := Fresh(id, 1), Disagreeing(id);
    FreshIsValid(id);
    OneInvoiceIsAcceptable(id, true);
    OneInvoiceIsAcceptable(id, false);
    hide TerminalFrom, Fresh, Inv, OrderFree, TerminalDetermined, Run;
    assert events[0] in events && events[1] in events;
    assert TerminalFrom(r, events[0]) != TerminalFrom(r, events[1]);
    TerminalDeterminedExactly(r, events);
  }

  lemma FreshIsValid(id: string)
    requires id != ""
    ensures Inv(Fresh(id, 1)) && Fresh(id, 1).terminal.None?
  {
  }
}
