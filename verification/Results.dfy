/** Result messages of the platform and the consistency checks of a summary. */
module Results {
  import opened Wrappers
  import opened Bytes

  /** Addition in the release build, where overflow wraps. */
  function WrappingAdd(a: i32, b: i32): (r: i32)
    ensures (r - (a + b)) % 0x1_0000_0000 == 0
  {
    var sum := a + b;
    if sum >= 0x8000_0000 then sum - 0x1_0000_0000
    else if sum < -0x8000_0000 then sum + 0x1_0000_0000
    else sum
  }

  datatype ResultPrincipal = ResultPrincipal(identifier: string, description: Option<string>)

  datatype ResultRouting = ResultRouting(from: ResultPrincipal, fromVac: ResultPrincipal, to: ResultPrincipal,
                                         toVac: ResultPrincipal)

  datatype MessageInfo = MessageInfo(id: string, size: string, messageType: string, service: string, action: string)

  datatype ProcessDiagnostic = ProcessDiagnostic(code: string, description: Option<string>,
                                                 parameters: seq<Option<string>>)

  datatype ProcessResult = ProcessResult(routing: ResultRouting, message: MessageInfo,
                                         diagnostics: seq<ProcessDiagnostic>)

  datatype InvoiceReference = InvoiceReference(referenceNumber: string, invoiceDate: string)

  datatype ResultDetail = ResultDetail(count: i32, invoices: seq<InvoiceReference>)

  datatype ResultBreakdown = ResultBreakdown(total: ResultDetail, good: ResultDetail, failed: ResultDetail)

  datatype SummaryMessage = SummaryMessage(info: MessageInfo, result: ResultBreakdown)

  datatype SummaryResult = SummaryResult(routing: ResultRouting, messages: seq<SummaryMessage>)

  datatype Bucket = Total | Good | Failed

  datatype SummaryIssue =
    | NegativeCount(bucket: Bucket, count: i32)
    | InvoiceListCountMismatch(bucket: Bucket, declared: i32, listed: nat)
    | TotalMismatch(total: i32, good: i32, failed: i32)
    | ExpectedQuantityMismatch(expected: u32, actual: i32)

  function NegativeIssue(bucket: Bucket, d: ResultDetail): seq<SummaryIssue> {
    if d.count < 0 then [NegativeCount(bucket, d.count)] else []
  }

  function ListIssue(bucket: Bucket, d: ResultDetail): seq<SummaryIssue> {
    if d.invoices != [] && d.count != |d.invoices|
    then [InvoiceListCountMismatch(bucket, d.count, |d.invoices|)] else []
  }

  function BucketIssues(buckets: seq<(Bucket, ResultDetail)>): seq<SummaryIssue> {
    if buckets == [] then []
    else
      var (bucket, d) := buckets[|buckets| - 1];
      BucketIssues(buckets[..|buckets| - 1]) + NegativeIssue(bucket, d) + ListIssue(bucket, d)
  }

  function Buckets(r: ResultBreakdown): seq<(Bucket, ResultDetail)> {
    [(Total, r.total), (Good, r.good), (Failed, r.failed)]
  }

  function TotalIssue(r: ResultBreakdown): seq<SummaryIssue> {
    if r.total.count != WrappingAdd(r.good.count, r.failed.count)
    then [TotalMismatch(r.total.count, r.good.count, r.failed.count)] else []
  }

  function QuantityIssue(r: ResultBreakdown, expected: Option<u32>): seq<SummaryIssue> {
    if expected.Some? && r.total.count != expected.value
    then [ExpectedQuantityMismatch(expected.value, r.total.count)] else []
  }

  function IssuesOf(m: SummaryMessage, expected: Option<u32>): seq<SummaryIssue> {
    BucketIssues(Buckets(m.result)) + TotalIssue(m.result) + QuantityIssue(m.result, expected)
  }

  method ValidationIssues(m: SummaryMessage, expected: Option<u32>) returns (issues: seq<SummaryIssue>)
    ensures issues == IssuesOf(m, expected)
  {
    issues := [];
    var buckets := Buckets(m.result);
    for i := 0 to |buckets|
      invariant issues == BucketIssues(buckets[..i])
    {
      var (bucket, detail) := buckets[i];
      assert buckets[..i + 1][..i] == buckets[..i];
      if detail.count < 0 {
        issues := issues + [NegativeCount(bucket, detail.count)];
      }
      if detail.invoices != [] && (detail.count < 0 || detail.count != |detail.invoices|) {
        issues := issues + [InvoiceListCountMismatch(bucket, detail.count, |detail.invoices|)];
      }
    }
    assert buckets[..|buckets|] == buckets;
    if m.result.total.count != WrappingAdd(m.result.good.count, m.result.failed.count) {
      issues := issues + [TotalMismatch(m.result.total.count, m.result.good.count, m.result.failed.count)];
    }
    if expected.Some? && m.result.total.count != expected.value {
      issues := issues + [ExpectedQuantityMismatch(expected.value, m.result.total.count)];
    }
  }

  predicate IsConsistent(m: SummaryMessage, expected: Option<u32>) { IssuesOf(m, expected) == [] }

  // ---------------------------------------------------------------- what consistency means

  predicate ListMatches(d: ResultDetail) { d.count >= 0 && (d.invoices != [] ==> |d.invoices| == d.count) }

  /** The documented checks, over unbounded integers. */
  predicate Sound(m: SummaryMessage, expected: Option<u32>) {
    var r := m.result;
    && ListMatches(r.total) && ListMatches(r.good) && ListMatches(r.failed)
    && r.good.count + r.failed.count == r.total.count
    && (expected.Some? ==> r.total.count == expected.value)
  }

  predicate AllMatch(buckets: seq<(Bucket, ResultDetail)>) {
    forall i :: 0 <= i < |buckets| ==> ListMatches(buckets[i].1)
  }

  lemma OneBucket(bucket: Bucket, d: ResultDetail)
    ensures NegativeIssue(bucket, d) == [] && ListIssue(bucket, d) == [] <==> ListMatches(d)
  {
  }

  lemma LastBucket(buckets: seq<(Bucket, ResultDetail)>)
    requires buckets != []
    ensures var last := |buckets| - 1;
            AllMatch(buckets) <==> AllMatch(buckets[..last]) && ListMatches(buckets[last].1)
  {
    hide ListMatches;
    var last := |buckets| - 1;
    if AllMatch(buckets[..last]) && ListMatches(buckets[last].1) {
      assert forall i :: 0 <= i < last ==> buckets[i] == buckets[..last][i];
    }
  }

  lemma {:induction false} NoBucketIssues(buckets: seq<(Bucket, ResultDetail)>)
    ensures BucketIssues(buckets) == [] <==> AllMatch(buckets)
  {
    hide NegativeIssue, ListIssue, ListMatches, AllMatch;
    if buckets == [] {
      NothingMatches();
    } else {
      var last := |buckets| - 1;
      var (bucket, d) := buckets[last];
      NoBucketIssues(buckets[..last]);
      OneBucket(bucket, d);
      LastBucket(buckets);
      NoneOf(BucketIssues(buckets[..last]), NegativeIssue(bucket, d), ListIssue(bucket, d));
    }
  }

  lemma NothingMatches()
    ensures AllMatch([])
  {
  }

  lemma NoneOf(a: seq<SummaryIssue>, b: seq<SummaryIssue>, c: seq<SummaryIssue>)
    ensures a + b + c == [] <==> a == [] && b == [] && c == []
  {
    assert |a + b + c| == |a| + |b| + |c|;
  }

  /** Although the sum wraps, the checks accept exactly the summaries whose integers add up. */
  lemma ConsistentExactly(m: SummaryMessage, expected: Option<u32>)
    ensures IsConsistent(m, expected) <==> Sound(m, expected)
  {
    var buckets := Buckets(m.result);
    NoBucketIssues(buckets);
    assert buckets[0].1 == m.result.total && buckets[1].1 == m.result.good && buckets[2].1 == m.result.failed;
  }

  // ---------------------------------------------------------------- which issues are reported, and where

  function DetailOf(r: ResultBreakdown, bucket: Bucket): ResultDetail {
    match bucket
    case Total => r.total
    case Good => r.good
    case Failed => r.failed
  }

  /** What each issue claims about the summary. */
  predicate Claims(m: SummaryMessage, expected: Option<u32>, issue: SummaryIssue) {
    var r := m.result;
    match issue
    case NegativeCount(bucket, count) => count < 0 && DetailOf(r, bucket).count == count
    case InvoiceListCountMismatch(bucket, declared, listed) =>
      && DetailOf(r, bucket).count == declared && |DetailOf(r, bucket).invoices| == listed
      && listed > 0 && declared != listed
    case TotalMismatch(total, good, failed) =>
      && r.total.count == total && r.good.count == good && r.failed.count == failed
      && (good + failed - total) % 0x1_0000_0000 != 0
    case ExpectedQuantityMismatch(quantity, actual) =>
      expected == Some(quantity) && r.total.count == actual && actual != quantity
  }

  /** The place of an issue in the report: bucket by bucket, then the sum, then the quantity. */
  function Place(issue: SummaryIssue): nat {
    match issue
    case NegativeCount(bucket, _) => (match bucket case Total => 0 case Good => 2 case Failed => 4)
    case InvoiceListCountMismatch(bucket, _, _) => (match bucket case Total => 1 case Good => 3 case Failed => 5)
    case TotalMismatch(_, _, _) => 6
    case ExpectedQuantityMismatch(_, _) => 7
  }

  predicate InPlace(issues: seq<SummaryIssue>) {
    forall i, j :: 0 <= i < j < |issues| ==> Place(issues[i]) < Place(issues[j])
  }

  lemma InPlaceConcat(a: seq<SummaryIssue>, b: seq<SummaryIssue>, k: nat)
    requires InPlace(a) && InPlace(b)
    requires (forall e :: e in a ==> Place(e) < k) && (forall e :: e in b ==> k <= Place(e))
    ensures InPlace(a + b)
  {
    hide Place;
    var c := a + b;
    forall i, j | 0 <= i < j < |c|
      ensures Place(c[i]) < Place(c[j])
    {
      assert c[i] == (if i < |a| then a[i] else b[i - |a|]) && c[j] == (if j < |a| then a[j] else b[j - |a|]);
    }
  }

  lemma AtMostOne(issues: seq<SummaryIssue>)
    requires |issues| <= 1
    ensures InPlace(issues)
  {
  }

  /** The issues of the three buckets, spelled out. */
  lemma BucketsSpelledOut(r: ResultBreakdown)
    ensures BucketIssues(Buckets(r)) ==
            NegativeIssue(Total, r.total) + ListIssue(Total, r.total) + NegativeIssue(Good, r.good)
            + ListIssue(Good, r.good) + NegativeIssue(Failed, r.failed) + ListIssue(Failed, r.failed)
  {
    hide NegativeIssue, ListIssue;
    var b := Buckets(r);
    assert b[..2][..1] == b[..1] && b[..1][..0] == [];
    assert BucketIssues([]) == [];
    assert BucketIssues(b[..1]) == [] + NegativeIssue(Total, r.total) + ListIssue(Total, r.total);
    assert BucketIssues(b[..2]) == BucketIssues(b[..1]) + NegativeIssue(Good, r.good) + ListIssue(Good, r.good);
  }

  lemma IssueOf(m: SummaryMessage, expected: Option<u32>, issue: SummaryIssue)
    ensures issue in IssuesOf(m, expected) <==>
            || issue in NegativeIssue(Total, m.result.total) || issue in ListIssue(Total, m.result.total)
            || issue in NegativeIssue(Good, m.result.good) || issue in ListIssue(Good, m.result.good)
            || issue in NegativeIssue(Failed, m.result.failed) || issue in ListIssue(Failed, m.result.failed)
            || issue in TotalIssue(m.result) || issue in QuantityIssue(m.result, expected)
  {
    hide NegativeIssue, ListIssue, TotalIssue, QuantityIssue, BucketIssues, Buckets;
    BucketsSpelledOut(m.result);
  }

  /** The report holds exactly the issues whose claims are true, each in its place. */
  lemma IssuesExactly(m: SummaryMessage, expected: Option<u32>)
    ensures forall issue :: issue in IssuesOf(m, expected) <==> Claims(m, expected, issue)
    ensures InPlace(IssuesOf(m, expected))
  {
    forall issue
      ensures issue in IssuesOf(m, expected) <==> Claims(m, expected, issue)
    {
      IssueOf(m, expected, issue);
      TotalAcceptedExactly(m.result);
      hide IssuesOf;
    }
    IssuesInPlace(m, expected);
  }

  lemma IssuesInPlace(m: SummaryMessage, expected: Option<u32>)
    ensures InPlace(IssuesOf(m, expected))
  {
    hide InPlace;
    BucketsSpelledOut(m.result);
    var r := m.result;
    var t := NegativeIssue(Total, r.total) + ListIssue(Total, r.total);
    var g := NegativeIssue(Good, r.good) + ListIssue(Good, r.good);
    var f := NegativeIssue(Failed, r.failed) + ListIssue(Failed, r.failed);
    PairInPlace(Total, r.total);
    PairInPlace(Good, r.good);
    PairInPlace(Failed, r.failed);
    InPlaceConcat(t, g, 2);
    InPlaceConcat(t + g, f, 4);
    AtMostOne(TotalIssue(r));
    AtMostOne(QuantityIssue(r, expected));
    InPlaceConcat(t + g + f, TotalIssue(r), 6);
    InPlaceConcat(t + g + f + TotalIssue(r), QuantityIssue(r, expected), 7);
    hide BucketIssues, NegativeIssue, ListIssue;
    assert BucketIssues(Buckets(r)) == t + g + f;
  }

  lemma PairInPlace(bucket: Bucket, d: ResultDetail)
    ensures InPlace(NegativeIssue(bucket, d) + ListIssue(bucket, d))
  {
  }

  // ---------------------------------------------------------------- what the wrapping comparison lets through

  /** The comparison of the totals is one modulo 2^32. */
  lemma TotalAcceptedExactly(r: ResultBreakdown)
    ensures TotalIssue(r) == [] <==> (r.good.count + r.failed.count - r.total.count) % 0x1_0000_0000 == 0
  {
  }

  /** A sum that wrapped into the total left a negative count, and an issue says so. */
  lemma WrappedSumIsNegative(m: SummaryMessage, expected: Option<u32>)
    requires TotalIssue(m.result) == [] && m.result.good.count + m.result.failed.count != m.result.total.count
    ensures var r := m.result;
            if r.good.count + r.failed.count > r.total.count
            then NegativeCount(Total, r.total.count) in IssuesOf(m, expected)
            else NegativeCount(Good, r.good.count) in IssuesOf(m, expected)
                 && NegativeCount(Failed, r.failed.count) in IssuesOf(m, expected)
  {
    var buckets := Buckets(m.result);
    if m.result.good.count + m.result.failed.count > m.result.total.count {
      NegativeIsReported(buckets, 0);
    } else {
      NegativeIsReported(buckets, 1);
      NegativeIsReported(buckets, 2);
    }
    hide BucketIssues, QuantityIssue, TotalIssue;
  }

  lemma {:induction false} NegativeIsReported(buckets: seq<(Bucket, ResultDetail)>, i: nat)
    requires i < |buckets| && buckets[i].1.count < 0
    ensures NegativeCount(buckets[i].0, buckets[i].1.count) in BucketIssues(buckets)
  {
    var last := |buckets| - 1;
    if i < last {
      NegativeIsReported(buckets[..last], i);
    }
    hide ListIssue;
  }

  /** The comparison of the totals alone is not exact: it accepts a sum that wrapped. */
  lemma WrappedTotalIsAccepted(m: SummaryMessage)
    requires m.result.good.count == 0x7FFF_FFFF && m.result.failed.count == 1 && m.result.total.count == -0x8000_0000
    ensures TotalIssue(m.result) == [] && m.result.good.count + m.result.failed.count != m.result.total.count
    ensures !IsConsistent(m, None)
  {
    ConsistentExactly(m, None);
  }
}
