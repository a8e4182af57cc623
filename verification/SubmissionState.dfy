/** One submission: monotone transport progress, diagnostics, and one terminal summary. */
module SubmissionState {
  import opened Wrappers
  import opened Bytes
  import opened Results

  datatype TransportState = Created | Prepared | Uploaded | Enqueued | ProcessObserved | SummaryObserved

  /** The derived order of the states. */
  function Rank(t: TransportState): nat {
    match t
    case Created => 0
    case Prepared => 1
    case Uploaded => 2
    case Enqueued => 3
    case ProcessObserved => 4
    case SummaryObserved => 5
  }

  datatype TransportAdvance =
    | Advanced(from: TransportState, to: TransportState)
    | Unchanged
    | IgnoredStale(current: TransportState, attempted: TransportState)

  datatype Disposition = AllGood | AllFailed | PartialSuccess

  datatype TerminalSummary = TerminalSummary(
    disposition: Disposition, total: u32, good: u32, failed: u32,
    goodInvoices: seq<InvoiceReference>, failedInvoices: seq<InvoiceReference>, message: SummaryMessage)

  datatype ApplyOutcome = Changed | UnchangedReplay

  datatype ApplyError =
    | MessageIdMismatch(expected: string, actual: string)
    | SummaryMessageMissing(messageId: string)
    | DuplicateSummaryMessage(messageId: string, count: nat)
    | InconsistentSummary(messageId: string, issues: seq<SummaryIssue>)
    | ConflictingTerminalSummary(messageId: string, existing: TerminalSummary, incoming: TerminalSummary)

  datatype InitError = EmptyMessageId | ZeroExpectedQuantity

  /** The value of a `SubmissionRecord`. */
  datatype Record = Record(messageId: string, expectedQuantity: u32, transport: TransportState,
                           processResults: seq<ProcessResult>, terminal: Option<TerminalSummary>)

  /** The conversions that `from_validated_message` expects to succeed. */
  predicate Convertible(m: SummaryMessage) {
    m.result.total.count >= 0 && m.result.good.count >= 0 && m.result.failed.count >= 0
  }

  function FromValidatedMessage(m: SummaryMessage): TerminalSummary
    requires Convertible(m)
  {
    var good, failed := m.result.good.count, m.result.failed.count;
    var disposition := if failed == 0 then AllGood else if good == 0 then AllFailed else PartialSuccess;
    TerminalSummary(disposition, m.result.total.count, good, failed, m.result.good.invoices,
                    m.result.failed.invoices, m)
  }

  lemma ConsistentIsConvertible(m: SummaryMessage, expected: Option<u32>)
    requires IsConsistent(m, expected)
    ensures Convertible(m)
  {
    ConsistentExactly(m, expected);
  }

  // ---------------------------------------------------------------- one call

  datatype Event =
    | Advance(target: TransportState)
    | Process(result: ProcessResult)
    | Entry(message: SummaryMessage)
    | Summary(summary: SummaryResult)

  datatype Answer = Transported(advance: TransportAdvance) | Applied(result: Result<ApplyOutcome, ApplyError>)

  function AdvanceStep(r: Record, target: TransportState): (Record, TransportAdvance) {
    if Rank(target) > Rank(r.transport) then (r.(transport := target), Advanced(r.transport, target))
    else if target == r.transport then (r, Unchanged)
    else (r, IgnoredStale(r.transport, target))
  }

  function ProcessStep(r: Record, p: ProcessResult): (Record, Result<ApplyOutcome, ApplyError>) {
    if p.message.id != r.messageId then (r, Failure(MessageIdMismatch(r.messageId, p.message.id)))
    else if p in r.processResults then (r, Success(UnchangedReplay))
    else (AdvanceStep(r.(processResults := r.processResults + [p]), ProcessObserved).0, Success(Changed))
  }

  function EntryStep(r: Record, m: SummaryMessage): (Record, Result<ApplyOutcome, ApplyError>) {
    if m.info.id != r.messageId then (r, Failure(MessageIdMismatch(r.messageId, m.info.id)))
    else if !IsConsistent(m, Some(r.expectedQuantity)) then
      (r, Failure(InconsistentSummary(r.messageId, IssuesOf(m, Some(r.expectedQuantity)))))
    else
      ConsistentIsConvertible(m, Some(r.expectedQuantity));
      var incoming := FromValidatedMessage(m);
      match r.terminal
      case None => (AdvanceStep(r.(terminal := Some(incoming)), SummaryObserved).0, Success(Changed))
      case Some(existing) =>
        if existing == incoming then (r, Success(UnchangedReplay))
        else (r, Failure(ConflictingTerminalSummary(r.messageId, existing, incoming)))
  }

  function Matching(messages: seq<SummaryMessage>, id: string): (r: seq<SummaryMessage>)
    ensures forall m :: m in r <==> m in messages && m.info.id == id
  {
    if messages == [] then []
    else (if messages[0].info.id == id then [messages[0]] else []) + Matching(messages[1..], id)
  }

  function SummaryStep(r: Record, s: SummaryResult): (Record, Result<ApplyOutcome, ApplyError>) {
    var matching := Matching(s.messages, r.messageId);
    if matching == [] then (r, Failure(SummaryMessageMissing(r.messageId)))
    else if |matching| > 1 then (r, Failure(DuplicateSummaryMessage(r.messageId, |matching|)))
    else EntryStep(r, matching[0])
  }

  function Step(r: Record, e: Event): (Record, Answer) {
    match e
    case Advance(target) => (AdvanceStep(r, target).0, Transported(AdvanceStep(r, target).1))
    case Process(p) => (ProcessStep(r, p).0, Applied(ProcessStep(r, p).1))
    case Entry(m) => (EntryStep(r, m).0, Applied(EntryStep(r, m).1))
    case Summary(s) => (SummaryStep(r, s).0, Applied(SummaryStep(r, s).1))
  }

  // ---------------------------------------------------------------- the mutable record

  class SubmissionRecord {
    const messageId: string
    const expectedQuantity: u32
    var transport: TransportState
    var processResults: seq<ProcessResult>
    var terminal: Option<TerminalSummary>

    ghost function View(): Record
      reads this
    {
      Record(messageId, expectedQuantity, transport, processResults, terminal)
    }

    constructor (messageId: string, expectedQuantity: u32)
      ensures View() == Fresh(messageId, expectedQuantity)
    {
      this.messageId, this.expectedQuantity := messageId, expectedQuantity;
      transport, processResults, terminal := Created, [], None;
    }

    method AdvanceTransport(target: TransportState) returns (advance: TransportAdvance)
      modifies `transport
      ensures (View(), advance) == AdvanceStep(old(View()), target)
    {
      if Rank(target) > Rank(transport) {
        var from := transport;
        transport := target;
        advance := Advanced(from, target);
      } else if Rank(target) == Rank(transport) {
        advance := Unchanged;
      } else {
        advance := IgnoredStale(transport, target);
      }
    }

    method ApplyProcessResult(p: ProcessResult) returns (r: Result<ApplyOutcome, ApplyError>)
      modifies this
      ensures (View(), r) == ProcessStep(old(View()), p)
    {
      if p.message.id != messageId {
        return Failure(MessageIdMismatch(messageId, p.message.id));
      }
      if p in processResults {
        return Success(UnchangedReplay);
      }
      processResults := processResults + [p];
      var _ := AdvanceTransport(ProcessObserved);
      r := Success(Changed);
    }

    method ApplySummaryMessage(m: SummaryMessage) returns (r: Result<ApplyOutcome, ApplyError>)
      modifies this
      ensures (View(), r) == EntryStep(old(View()), m)
    {
      hide IssuesOf;
      if m.info.id != messageId {
        return Failure(MessageIdMismatch(messageId, m.info.id));
      }
      var issues := ValidationIssues(m, Some(expectedQuantity));
      if issues != [] {
        return Failure(InconsistentSummary(messageId, issues));
      }
      ConsistentIsConvertible(m, Some(expectedQuantity));
      var incoming := FromValidatedMessage(m);
      if terminal.Some? {
        if terminal.value == incoming {
          return Success(UnchangedReplay);
        }
        return Failure(ConflictingTerminalSummary(messageId, terminal.value, incoming));
      }
      terminal := Some(incoming);
      var _ := AdvanceTransport(SummaryObserved);
      r := Success(Changed);
    }

    method ApplySummaryResult(s: SummaryResult) returns (r: Result<ApplyOutcome, ApplyError>)
      modifies this
      ensures (View(), r) == SummaryStep(old(View()), s)
    {
      hide EntryStep;
      var matching := Matching(s.messages, messageId);
      if matching == [] {
        return Failure(SummaryMessageMissing(messageId));
      }
      if |matching| > 1 {
        return Failure(DuplicateSummaryMessage(messageId, |matching|));
      }
      r := ApplySummaryMessage(matching[0]);
    }
  }

  function Fresh(messageId: string, expectedQuantity: u32): Record {
    Record(messageId, expectedQuantity, Created, [], None)
  }

  /** `SubmissionRecord::new`. */
  method NewSubmission(messageId: string, expectedQuantity: u32) returns (r: Result<SubmissionRecord, InitError>)
    ensures r.Success? <==> messageId != "" && expectedQuantity > 0
    ensures r.Success? ==> fresh(r.value) && r.value.View() == Fresh(messageId, expectedQuantity) && Inv(r.value.View())
    ensures r.Failure? ==> r.error == if messageId == "" then EmptyMessageId else ZeroExpectedQuantity
  {
    if messageId == "" {
      return Failure(EmptyMessageId);
    }
    if expectedQuantity == 0 {
      return Failure(ZeroExpectedQuantity);
    }
    var record := new SubmissionRecord(messageId, expectedQuantity);
    r := Success(record);
  }

  // ---------------------------------------------------------------- invariants of every run

  /** The summary a terminal stands for adds up and has the disposition its counts call for. */
  predicate TerminalOk(r: Record, t: TerminalSummary) {
    && t.message.info.id == r.messageId && Sound(t.message, Some(r.expectedQuantity))
    && t.total == r.expectedQuantity && t.good + t.failed == t.total
    && t.good == t.message.result.good.count && t.failed == t.message.result.failed.count
    && t.goodInvoices == t.message.result.good.invoices && t.failedInvoices == t.message.result.failed.invoices
    && (t.disposition == AllGood <==> t.failed == 0)
    && (t.disposition == AllFailed <==> t.good == 0)
    && (t.disposition == PartialSuccess <==> t.good > 0 && t.failed > 0)
  }

  predicate Inv(r: Record) {
    && r.messageId != "" && r.expectedQuantity > 0
    && (forall i, j :: 0 <= i < j < |r.processResults| ==> r.processResults[i] != r.processResults[j])
    && (forall i :: 0 <= i < |r.processResults| ==> r.processResults[i].message.id == r.messageId)
    && (r.processResults != [] ==> Rank(r.transport) >= Rank(ProcessObserved))
    && (r.terminal.Some? ==> r.transport == SummaryObserved && TerminalOk(r, r.terminal.value))
  }

  /** Nothing observed is ever taken back. */
  predicate Extends(r: Record, s: Record) {
    && s.messageId == r.messageId && s.expectedQuantity == r.expectedQuantity
    && Rank(s.transport) >= Rank(r.transport)
    && r.processResults <= s.processResults
    && (r.terminal.Some? ==> s.terminal == r.terminal)
  }

  lemma TerminalIsOk(r: Record, m: SummaryMessage)
    requires r.expectedQuantity > 0 && m.info.id == r.messageId && IsConsistent(m, Some(r.expectedQuantity))
    ensures Convertible(m) && TerminalOk(r, FromValidatedMessage(m))
  {
    ConsistentExactly(m, Some(r.expectedQuantity));
  }

  lemma EntryKeepsInv(r: Record, m: SummaryMessage)
    requires Inv(r)
    ensures Inv(EntryStep(r, m).0) && Extends(r, EntryStep(r, m).0)
  {
    hide IsConsistent, IssuesOf, TerminalOk;
    if m.info.id == r.messageId && IsConsistent(m, Some(r.expectedQuantity)) && r.terminal.None? {
      TerminalIsOk(r, m);
      var t := FromValidatedMessage(m);
      var s := EntryStep(r, m).0;
      assert s.terminal == Some(t) && s.transport == SummaryObserved;
      SameIdentity(r, s, t);
    }
  }

  lemma SameIdentity(r: Record, s: Record, t: TerminalSummary)
    requires s.messageId == r.messageId && s.expectedQuantity == r.expectedQuantity
    ensures TerminalOk(r, t) <==> TerminalOk(s, t)
  {
  }

  lemma ProcessKeepsInv(r: Record, p: ProcessResult)
    requires Inv(r)
    ensures Inv(ProcessStep(r, p).0) && Extends(r, ProcessStep(r, p).0)
  {
    hide TerminalOk;
    if r.terminal.Some? {
      SameIdentity(r, ProcessStep(r, p).0, r.terminal.value);
    }
  }

  /** Every call keeps the invariant, only adds, and changes nothing when it fails. */
  lemma StepKeepsInv(r: Record, e: Event)
    requires Inv(r)
    ensures var (s, answer) := Step(r, e);
            && Inv(s) && Extends(r, s)
            && (answer.Applied? && answer.result.Failure? ==> s == r)
            && (answer.Applied? && answer.result == Success(UnchangedReplay) ==> s == r)
  {
    match e
    case Advance(target) =>
      hide TerminalOk;
      if r.terminal.Some? {
        SameIdentity(r, Step(r, e).0, r.terminal.value);
      }
    case Process(p) => ProcessKeepsInv(r, p); hide Inv, Extends;
    case Entry(m) => EntryKeepsInv(r, m); hide Inv, Extends;
    case Summary(s) =>
      var matching := Matching(s.messages, r.messageId);
      if |matching| == 1 {
        EntryKeepsInv(r, matching[0]);
        hide Inv, Extends;
      }
  }

  function Run(r: Record, events: seq<Event>): Record
    decreases |events|
  {
    if events == [] then r else Step(Run(r, events[..|events| - 1]), events[|events| - 1]).0
  }

  /** Over every run: transport never falls, the terminal is written once, diagnostics only grow. */
  lemma {:induction false} RunKeepsInv(r: Record, events: seq<Event>, from: nat)
    requires Inv(r) && from <= |events|
    ensures Inv(Run(r, events)) && Extends(Run(r, events[..from]), Run(r, events))
    decreases |events|
  {
    hide Step, Inv, Extends;
    if from == |events| {
      assert events[..from] == events;
      if events != [] {
        RunKeepsInv(r, events[..from - 1], 0);
        StepKeepsInv(Run(r, events[..from - 1]), events[from - 1]);
      }
      ExtendsReflexive(Run(r, events));
    } else {
      var init := events[..|events| - 1];
      RunKeepsInv(r, init, from);
      assert init[..from] == events[..from];
      StepKeepsInv(Run(r, init), events[|events| - 1]);
      ExtendsTransitive(Run(r, events[..from]), Run(r, init), Run(r, events));
    }
  }

  lemma ExtendsReflexive(r: Record)
    ensures Extends(r, r)
  {
  }

  lemma ExtendsTransitive(r: Record, s: Record, t: Record)
    requires Extends(r, s) && Extends(s, t)
    ensures Extends(r, t)
  {
  }
}
