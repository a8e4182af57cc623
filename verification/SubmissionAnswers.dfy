/**
  What each call on a submission record answers and when, told by the record and by what the
  call carries.
 */
module SubmissionAnswers {
  import opened Wrappers
  import opened Bytes
  import opened Results
  import opened SubmissionState

  // ---------------------------------------------------------------- transport

  /** The declaration order of the states, which is their derived order. */
  const ORDER := [Created, Prepared, Uploaded, Enqueued, ProcessObserved, SummaryObserved]

  predicate Before(a: TransportState, b: TransportState) {
    exists i, j :: 0 <= i < j < |ORDER| && ORDER[i] == a && ORDER[j] == b
  }

  lemma RankOrders(a: TransportState, b: TransportState)
    ensures Before(a, b) <==> Rank(a) < Rank(b)
    ensures Rank(a) == Rank(b) <==> a == b
  {
    assert forall i :: 0 <= i < |ORDER| ==> Rank(ORDER[i]) == i;
    assert forall t :: ORDER[Rank(t)] == t;
    if Rank(a) < Rank(b) {
      assert ORDER[Rank(a)] == a && ORDER[Rank(b)] == b;
    }
  }

  /** The answer says which way the target lies, and only a later target is taken on. */
  lemma AdvanceAnswers(r: Record, target: TransportState)
    ensures var (s, answer) := Step(r, Advance(target));
            && (answer == Transported(TransportAdvance.Advanced(r.transport, target)) <==> Before(r.transport, target))
            && (answer == Transported(TransportAdvance.Unchanged) <==> target == r.transport)
            && (answer == Transported(TransportAdvance.IgnoredStale(r.transport, target)) <==>
                  Before(target, r.transport))
            && s == r.(transport := if Before(r.transport, target) then target else r.transport)
  {
    RankOrders(r.transport, target);
    RankOrders(target, r.transport);
    hide Before, Rank;
  }

  // ---------------------------------------------------------------- process results

  lemma ProcessAnswers(r: Record, p: ProcessResult)
    ensures var (s, answer) := Step(r, Process(p));
            var mine := p.message.id == r.messageId;
            && (answer == Applied(Failure(MessageIdMismatch(r.messageId, p.message.id))) <==> !mine)
            && (answer == Applied(Success(UnchangedReplay)) <==> mine && p in r.processResults)
            && (answer == Applied(Success(Changed)) <==> mine && p !in r.processResults)
            && s == if mine && p !in r.processResults
                    then r.(processResults := r.processResults + [p],
                            transport := if Before(r.transport, ProcessObserved) then ProcessObserved else r.transport)
                    else r
  {
    RankOrders(r.transport, ProcessObserved);
    hide Before, Rank;
  }

  // ---------------------------------------------------------------- summary messages

  /** The terminal summary that stands for the message. */
  predicate StandsFor(t: TerminalSummary, m: SummaryMessage) {
    && t.message == m && t.total == m.result.total.count
    && t.good == m.result.good.count && t.failed == m.result.failed.count
    && t.goodInvoices == m.result.good.invoices && t.failedInvoices == m.result.failed.invoices
    && (t.disposition == AllGood <==> t.failed == 0)
    && (t.disposition == AllFailed <==> t.failed > 0 && t.good == 0)
    && (t.disposition == PartialSuccess <==> t.failed > 0 && t.good > 0)
  }

  /** The message is for this submission, and its counts add up and meet the expected quantity. */
  predicate Acceptable(r: Record, m: SummaryMessage) {
    m.info.id == r.messageId && Sound(m, Some(r.expectedQuantity))
  }

  /** The report of an inconsistent message: every true claim and no other, in order. */
  ghost predicate Reports(issues: seq<SummaryIssue>, m: SummaryMessage, expected: Option<u32>) {
    (forall issue :: issue in issues <==> Claims(m, expected, issue)) && InPlace(issues)
  }

  /** What the answer must be, by what the message carries. */
  ghost predicate AnswersMessage(r: Record, m: SummaryMessage, s: Record, answer: Result<ApplyOutcome, ApplyError>) {
    && (m.info.id != r.messageId <==> answer == Failure(MessageIdMismatch(r.messageId, m.info.id)))
    && (m.info.id == r.messageId && !Sound(m, Some(r.expectedQuantity)) <==>
          && answer.Failure? && answer.error.InconsistentSummary? && answer.error.messageId == r.messageId
          && Reports(answer.error.issues, m, Some(r.expectedQuantity)))
    && (Acceptable(r, m) && r.terminal.None? <==> answer == Success(Changed))
    && (Acceptable(r, m) && r.terminal.Some? && StandsFor(r.terminal.value, m) <==> answer == Success(UnchangedReplay))
    && (Acceptable(r, m) && r.terminal.Some? && !StandsFor(r.terminal.value, m) <==>
          && answer.Failure? && answer.error.ConflictingTerminalSummary? && answer.error.messageId == r.messageId
          && r.terminal == Some(answer.error.existing) && StandsFor(answer.error.incoming, m))
    && (answer == Success(Changed) ==>
          && s.terminal.Some? && StandsFor(s.terminal.value, m)
          && s == r.(terminal := s.terminal, transport := SummaryObserved))
    && (answer != Success(Changed) ==> s == r)
  }

  lemma StandsOnce(m: SummaryMessage)
    requires Convertible(m)
    ensures forall t :: StandsFor(t, m) <==> t == FromValidatedMessage(m)
  {
  }

  lemma EntryAnswers(r: Record, m: SummaryMessage)
    ensures AnswersMessage(r, m, EntryStep(r, m).0, EntryStep(r, m).1)
  {
    hide IsConsistent, IssuesOf, Sound, StandsFor, Claims, InPlace, FromValidatedMessage;
    ConsistentExactly(m, Some(r.expectedQuantity));
    IssuesExactly(m, Some(r.expectedQuantity));
    if IsConsistent(m, Some(r.expectedQuantity)) {
      ConsistentIsConvertible(m, Some(r.expectedQuantity));
      StandsOnce(m);
    }
  }

  /** Every single message is answered as its contents and the record call for. */
  lemma MessageAnswers(r: Record, m: SummaryMessage)
    ensures var (s, answer) := Step(r, Entry(m)); answer.Applied? && AnswersMessage(r, m, s, answer.result)
  {
    hide AnswersMessage, EntryStep;
    EntryAnswers(r, m);
  }

  // ---------------------------------------------------------------- summary results

  /** Where the entries of a submission are. */
  function Places(messages: seq<SummaryMessage>, id: string): set<nat> {
    set i: nat | i < |messages| && messages[i].info.id == id
  }

  function PlacesFrom(messages: seq<SummaryMessage>, id: string, k: nat): set<nat> {
    set i: nat | k <= i < |messages| && messages[i].info.id == id
  }

  lemma {:induction false} MatchingFrom(messages: seq<SummaryMessage>, id: string, k: nat)
    requires k <= |messages|
    ensures |Matching(messages[k..], id)| == |PlacesFrom(messages, id, k)|
    decreases |messages| - k
  {
    if k == |messages| {
      assert PlacesFrom(messages, id, k) == {};
    } else {
      MatchingFrom(messages, id, k + 1);
      assert messages[k..][1..] == messages[k + 1..] && messages[k..][0] == messages[k];
      var later := PlacesFrom(messages, id, k + 1);
      assert PlacesFrom(messages, id, k) == if messages[k].info.id == id then later + {k} else later;
      assert k !in later;
    }
  }

  lemma MatchingPlaces(messages: seq<SummaryMessage>, id: string)
    ensures |Matching(messages, id)| == |Places(messages, id)|
    ensures forall i :: i in Places(messages, id) ==> messages[i] in Matching(messages, id)
  {
    MatchingFrom(messages, id, 0);
    assert messages[0..] == messages && PlacesFrom(messages, id, 0) == Places(messages, id);
  }

  /** The entry of this submission is applied if it is the only one; none and several are refused. */
  lemma SummaryAnswers(r: Record, s: SummaryResult)
    ensures var (t, answer) := Step(r, Summary(s));
            var places := Places(s.messages, r.messageId);
            && answer.Applied?
            && (answer.result == Failure(SummaryMessageMissing(r.messageId)) <==> places == {})
            && (answer.result == Failure(DuplicateSummaryMessage(r.messageId, |places|)) <==> |places| > 1)
            && (|places| != 1 ==> t == r)
            && (forall i :: places == {i} ==> AnswersMessage(r, s.messages[i], t, answer.result))
  {
    hide AnswersMessage, EntryStep, Matching, Places;
    MatchingPlaces(s.messages, r.messageId);
    var places, matching := Places(s.messages, r.messageId), Matching(s.messages, r.messageId);
    if |matching| == 1 {
      EntryAnswers(r, matching[0]);
      EntryIsNoSelection(r, matching[0]);
      OnlyPlace(s.messages, r.messageId, matching[0]);
    } else {
      NoOnlyPlace(places);
    }
  }

  lemma OnlyPlace(messages: seq<SummaryMessage>, id: string, m: SummaryMessage)
    requires Matching(messages, id) == [m]
    ensures forall i :: Places(messages, id) == {i} ==> messages[i] == m
  {
    hide Matching;
    MatchingPlaces(messages, id);
    forall i | Places(messages, id) == {i}
      ensures messages[i] == m
    {
      assert i in Places(messages, id);
    }
  }

  lemma NoOnlyPlace(places: set<nat>)
    requires |places| != 1
    ensures forall i :: places != {i}
  {
  }

  lemma EntryIsNoSelection(r: Record, m: SummaryMessage)
    ensures var a := EntryStep(r, m).1;
            a.Failure? ==> !a.error.SummaryMessageMissing? && !a.error.DuplicateSummaryMessage?
  {
    hide IsConsistent, IssuesOf;
  }

  // ---------------------------------------------------------------- runs

  /** The message an event applies to the submission. */
  ghost predicate Concerns(r: Record, e: Event, m: SummaryMessage) {
    match e
    case Entry(message) => m == message
    case Summary(s) => exists i :: Places(s.messages, r.messageId) == {i} && m == s.messages[i]
    case _ => false
  }

  /** One call: success means that the terminal stands for the message. */
  lemma AcknowledgedStands(r: Record, e: Event, m: SummaryMessage)
    requires Concerns(r, e, m)
    ensures var (s, answer) := Step(r, e);
            answer.Applied? && (answer.result.Success? ==> s.terminal.Some? && StandsFor(s.terminal.value, m))
  {
    hide Step, StandsFor, Sound, Reports;
    match e
    case Entry(_) => MessageAnswers(r, m);
    case Summary(s) => SummaryAnswers(r, s);
  }

  /**
    A summary once answered with success stands from then on: at every later point of every
    run the terminal is the one of that message.
   */
  lemma AcknowledgedForever(r: Record, events: seq<Event>, i: nat, m: SummaryMessage)
    requires Inv(r) && i < |events|
    requires Concerns(Run(r, events[..i]), events[i], m)
    requires var answer := Step(Run(r, events[..i]), events[i]).1; answer.Applied? && answer.result.Success?
    ensures var t := Run(r, events).terminal; t.Some? && StandsFor(t.value, m)
  {
    AcknowledgedStands(Run(r, events[..i]), events[i], m);
    assert events[..i + 1][..i] == events[..i] && events[..i + 1][i] == events[i];
    assert Run(r, events[..i + 1]) == Step(Run(r, events[..i]), events[i]).0;
    hide Step, Run, Inv, StandsFor, Concerns;
    RunKeepsInv(r, events, i + 1);
  }

  /** No two messages that stand for different terminals are both acknowledged in one run. */
  lemma NoContradictionAcknowledged(r: Record, events: seq<Event>, i: nat, j: nat, m: SummaryMessage, n: SummaryMessage)
    requires Inv(r) && i < |events| && j < |events|
    requires Concerns(Run(r, events[..i]), events[i], m) && Concerns(Run(r, events[..j]), events[j], n)
    requires var a := Step(Run(r, events[..i]), events[i]).1; a.Applied? && a.result.Success?
    requires var b := Step(Run(r, events[..j]), events[j]).1; b.Applied? && b.result.Success?
    ensures m == n
  {
    hide Step, Run, Inv, Concerns;
    AcknowledgedForever(r, events, i, m);
    AcknowledgedForever(r, events, j, n);
  }

  // ---------------------------------------------------------------- the beginning

  /** A new record has neither progress nor results. */
  lemma NewRecord(messageId: string, expectedQuantity: u32)
    ensures var r := Fresh(messageId, expectedQuantity);
            && r.messageId == messageId && r.expectedQuantity == expectedQuantity
            && (forall t :: !Before(t, r.transport)) && r.processResults == [] && r.terminal == None
  {
    RankOrdersAll(Created);
  }

  lemma RankOrdersAll(t: TransportState)
    requires t == Created
    ensures forall u :: !Before(u, t)
  {
    forall u
      ensures !Before(u, t)
    {
      RankOrders(u, t);
    }
  }
}
