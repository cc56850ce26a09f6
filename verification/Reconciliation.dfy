/** Read-only reconciliation with the provider (app/reconciliation/service.py). */
module Reconciliation {
  import opened Common
  import opened TransactionStates
  import opened TransactionRepository

  const MICROSECONDS_PER_MINUTE: int := 60_000_000

  datatype FindingType =
    | PendingButProviderCompleted
    | PendingButProviderFailed
    | CompletedButProviderFailed
    | FailedButProviderCompleted
    | StalePending
    | ProviderStatusUnknown

  /** The provider's status text; a failed query is None. */
  datatype ProviderStatus = ProviderCompleted | ProviderFailed | OtherProviderStatus(text: string)

  datatype Finding = Finding(
    findingType: FindingType, transactionId: string, checkoutRequestId: string,
    localStatus: Status, providerStatus: Option<ProviderStatus>, provider: string, rail: string)

  /** The provider's answers: what it says to the n-th question about a reference. */
  type Oracle = (nat, string) -> Option<ProviderStatus>

  predicate Reconcilable(row: Transaction) {
    row.status in {Pending, Completed, Failed}
  }

  /** The reference asked about: the provider's id if there is a non-empty one. */
  function ReferenceOf(row: Transaction): string {
    if row.fields.providerTransactionId.Some? && row.fields.providerTransactionId.value != ""
    then row.fields.providerTransactionId.value else row.fields.checkoutRequestId
  }

  function FindingAbout(t: FindingType, row: Transaction, said: Option<ProviderStatus>): Finding {
    Finding(t, row.transactionId, row.fields.checkoutRequestId, row.status, said, row.fields.provider, row.fields.rail)
  }

  function MismatchFindings(row: Transaction, said: Option<ProviderStatus>): seq<Finding> {
    if said.None? || said.value.OtherProviderStatus? then [FindingAbout(ProviderStatusUnknown, row, said)]
    else if row.status == Pending && said.value == ProviderCompleted
      then [FindingAbout(PendingButProviderCompleted, row, said)]
    else if row.status == Pending && said.value == ProviderFailed
      then [FindingAbout(PendingButProviderFailed, row, said)]
    else if row.status == Completed && said.value == ProviderFailed
      then [FindingAbout(CompletedButProviderFailed, row, said)]
    else if row.status == Failed && said.value == ProviderCompleted
      then [FindingAbout(FailedButProviderCompleted, row, said)]
    else []
  }

  predicate Stale(row: Transaction, staleMinutes: int, now: Time) {
    row.status == Pending && row.createdAt <= now - staleMinutes * MICROSECONDS_PER_MINUTE
  }

  function StaleFindings(row: Transaction, staleMinutes: int, now: Time): seq<Finding> {
    if Stale(row, staleMinutes, now) then [FindingAbout(StalePending, row, None)] else []
  }

  datatype Totals = Totals(
    pendingButProviderCompleted: nat, pendingButProviderFailed: nat, completedButProviderFailed: nat,
    failedButProviderCompleted: nat, stalePending: nat, providerStatusUnknown: nat)

  datatype Summary = Summary(checked: nat, findingCount: nat, totals: Totals, findings: seq<Finding>)

  function Checked(rows: Rows): nat {
    if rows == [] then 0 else Checked(rows[..|rows| - 1]) + if Reconcilable(rows[|rows| - 1]) then 1 else 0
  }

  /** The findings, in order; the n-th checked row is the n-th question to the provider. */
  function Findings(rows: Rows, oracle: Oracle, staleMinutes: int, now: Time): seq<Finding> {
    if rows == [] then []
    else
      var before, row := rows[..|rows| - 1], rows[|rows| - 1];
      Findings(before, oracle, staleMinutes, now)
      + if Reconcilable(row) then RowFindings(row, oracle(Checked(before), ReferenceOf(row)), staleMinutes, now) else []
  }

  function RowFindings(row: Transaction, said: Option<ProviderStatus>, staleMinutes: int, now: Time): seq<Finding> {
    StaleFindings(row, staleMinutes, now) + MismatchFindings(row, said)
  }

  function CountOf(findings: seq<Finding>, t: FindingType): nat {
    if findings == [] then 0
    else CountOf(findings[..|findings| - 1], t) + if findings[|findings| - 1].findingType == t then 1 else 0
  }

  function TotalsOf(findings: seq<Finding>): Totals {
    Totals(CountOf(findings, PendingButProviderCompleted), CountOf(findings, PendingButProviderFailed),
           CountOf(findings, CompletedButProviderFailed), CountOf(findings, FailedButProviderCompleted),
           CountOf(findings, StalePending), CountOf(findings, ProviderStatusUnknown))
  }

  class ReconciliationService {
    const repository: InMemoryTransactionRepository
    const stalePendingMinutes: int

    constructor (repository: InMemoryTransactionRepository, stalePendingMinutes: int)
      ensures this.repository == repository && this.stalePendingMinutes == stalePendingMinutes
    {
      this.repository, this.stalePendingMinutes := repository, stalePendingMinutes;
    }

    method RunReconciliation(oracle: Oracle, now: Time) returns (summary: Summary)
      ensures var rows := repository.transactions;
        var findings := Findings(rows, oracle, stalePendingMinutes, now);
        summary == Summary(Checked(rows), |findings|, TotalsOf(findings), findings)
    {
      var findings: seq<Finding> := [];
      var checked := 0;
      var rows := repository.ListTransactions();
      for i := 0 to |rows|
        invariant checked == Checked(rows[..i])
        invariant findings == Findings(rows[..i], oracle, stalePendingMinutes, now)
      {
        assert rows[..i + 1][..i] == rows[..i];
        var row := rows[i];
        if !Reconcilable(row) {
          continue;
        }
        var said := oracle(checked, ReferenceOf(row));
        checked := checked + 1;
        findings := findings + RowFindings(row, said, stalePendingMinutes, now);
      }
      assert rows[..|rows|] == rows;
      var totals := BuildSummary(findings);
      summary := Summary(checked, |findings|, totals, findings);
    }

    method BuildSummary(findings: seq<Finding>) returns (totals: Totals)
      ensures totals == TotalsOf(findings)
    {
      totals := Totals(0, 0, 0, 0, 0, 0);
      for i := 0 to |findings|
        invariant totals == TotalsOf(findings[..i])
      {
        assert findings[..i + 1][..i] == findings[..i];
        totals := match findings[i].findingType
          case PendingButProviderCompleted => totals.(pendingButProviderCompleted := totals.pendingButProviderCompleted + 1)
          case PendingButProviderFailed => totals.(pendingButProviderFailed := totals.pendingButProviderFailed + 1)
          case CompletedButProviderFailed => totals.(completedButProviderFailed := totals.completedButProviderFailed + 1)
          case FailedButProviderCompleted => totals.(failedButProviderCompleted := totals.failedButProviderCompleted + 1)
          case StalePending => totals.(stalePending := totals.stalePending + 1)
          case ProviderStatusUnknown => totals.(providerStatusUnknown := totals.providerStatusUnknown + 1);
      }
      assert findings[..|findings|] == findings;
    }
  }

  // ---------------------------------------------------------------- exact counts

  /** The six counters sum to the number of findings. */
  lemma {:induction false} TotalsSumUp(findings: seq<Finding>)
    ensures var t := TotalsOf(findings);
      t.pendingButProviderCompleted + t.pendingButProviderFailed + t.completedButProviderFailed
      + t.failedButProviderCompleted + t.stalePending + t.providerStatusUnknown == |findings|
  {
    if findings == [] {
    } else {
      TotalsSumUp(findings[..|findings| - 1]);
    }
  }

  /** A checked row that is settled and whose provider says the same. */
  predicate InAgreement(row: Transaction, said: Option<ProviderStatus>) {
    || (row.status == Completed && said == Some(ProviderCompleted))
    || (row.status == Failed && said == Some(ProviderFailed))
  }

  /** What one row is worth: pending, stale pending, settled without agreement. */
  function Weight(row: Transaction, said: Option<ProviderStatus>, staleMinutes: int, now: Time): nat {
    (if row.status == Pending then 1 else 0)
    + (if Stale(row, staleMinutes, now) then 1 else 0)
    + (if row.status in {Completed, Failed} && !InAgreement(row, said) then 1 else 0)
  }

  lemma RowFindingsCount(row: Transaction, said: Option<ProviderStatus>, staleMinutes: int, now: Time)
    ensures Reconcilable(row) ==> |RowFindings(row, said, staleMinutes, now)| == Weight(row, said, staleMinutes, now)
    ensures !Reconcilable(row) ==> Weight(row, said, staleMinutes, now) == 0
    ensures Reconcilable(row) ==> (Weight(row, said, staleMinutes, now) == 0 <==> InAgreement(row, said))
    ensures Weight(row, said, staleMinutes, now) <= 2
  {}

  function Expected(rows: Rows, oracle: Oracle, staleMinutes: int, now: Time): nat {
    if rows == [] then 0
    else
      var before, row := rows[..|rows| - 1], rows[|rows| - 1];
      Expected(before, oracle, staleMinutes, now)
      + Weight(row, oracle(Checked(before), ReferenceOf(row)), staleMinutes, now)
  }

  /** Every checked row is settled and agrees with what the provider says about it. */
  predicate AllInAgreement(rows: Rows, oracle: Oracle) {
    rows == []
    || (var before, row := rows[..|rows| - 1], rows[|rows| - 1];
        && AllInAgreement(before, oracle)
        && (Reconcilable(row) ==> InAgreement(row, oracle(Checked(before), ReferenceOf(row)))))
  }

  /** The number of findings is exactly pending + stale pending + settled without agreement,
      and never exceeds twice the number of checked rows. */
  lemma {:induction false} FindingCountIsExact(rows: Rows, oracle: Oracle, staleMinutes: int, now: Time)
    ensures |Findings(rows, oracle, staleMinutes, now)| == Expected(rows, oracle, staleMinutes, now) <= 2 * Checked(rows)
  {
    if rows == [] {
    } else {
      var before, row := rows[..|rows| - 1], rows[|rows| - 1];
      FindingCountIsExact(before, oracle, staleMinutes, now);
      RowFindingsCount(row, oracle(Checked(before), ReferenceOf(row)), staleMinutes, now);
    }
  }

  /** There is no finding exactly when every checked row is settled and agrees with the provider. */
  lemma {:induction false} NoFindingMeansAgreement(rows: Rows, oracle: Oracle, staleMinutes: int, now: Time)
    ensures Findings(rows, oracle, staleMinutes, now) == [] <==> AllInAgreement(rows, oracle)
  {
    if rows == [] {
    } else {
      var before, row := rows[..|rows| - 1], rows[|rows| - 1];
      NoFindingMeansAgreement(before, oracle, staleMinutes, now);
      RowFindingsCount(row, oracle(Checked(before), ReferenceOf(row)), staleMinutes, now);
    }
  }

  // ---------------------------------------------------------------- which findings

  /** What warrants a finding of each kind about a row. */
  predicate Warranted(t: FindingType, row: Transaction, said: Option<ProviderStatus>, staleMinutes: int, now: Time) {
    match t
    case PendingButProviderCompleted => row.status == Pending && said == Some(ProviderCompleted)
    case PendingButProviderFailed => row.status == Pending && said == Some(ProviderFailed)
    case CompletedButProviderFailed => row.status == Completed && said == Some(ProviderFailed)
    case FailedButProviderCompleted => row.status == Failed && said == Some(ProviderCompleted)
    case StalePending => row.status == Pending && row.createdAt + staleMinutes * 60 * 1_000_000 <= now
    case ProviderStatusUnknown => said != Some(ProviderCompleted) && said != Some(ProviderFailed)
  }

  /** A finding that repeats the row; one of staleness knows nothing of the provider. */
  predicate About(f: Finding, row: Transaction, said: Option<ProviderStatus>) {
    && f.transactionId == row.transactionId && f.checkoutRequestId == row.fields.checkoutRequestId
    && f.localStatus == row.status && f.provider == row.fields.provider && f.rail == row.fields.rail
    && f.providerStatus == (if f.findingType == StalePending then None else said)
  }

  /** The findings about a row are exactly the warranted ones, each kind at most once. */
  lemma RowFindingsExactly(row: Transaction, said: Option<ProviderStatus>, staleMinutes: int, now: Time, f: Finding)
    requires row.status in {Pending, Completed, Failed}
    ensures f in RowFindings(row, said, staleMinutes, now)
       <==> Warranted(f.findingType, row, said, staleMinutes, now) && About(f, row, said)
    ensures NoDuplicates(RowFindings(row, said, staleMinutes, now))
  {
    var stale, mismatch := StaleFindings(row, staleMinutes, now), MismatchFindings(row, said);
    assert f in stale + mismatch <==> f in stale || f in mismatch;
  }

  /** The reference that the provider is asked about. */
  predicate AskedAbout(row: Transaction, reference: string) {
    if row.fields.providerTransactionId in {None, Some("")} then reference == row.fields.checkoutRequestId
    else row.fields.providerTransactionId == Some(reference)
  }

  /** What a pass finds about row `i`: the provider is asked once about each checked row, in order. */
  ghost predicate FoundAt(rows: Rows, oracle: Oracle, staleMinutes: int, now: Time, f: Finding, i: nat)
    requires i < |rows|
  {
    && rows[i].status in {Pending, Completed, Failed}
    && var said := oracle(|CheckedBefore(rows, i)|, ReferenceOf(rows[i]));
       Warranted(f.findingType, rows[i], said, staleMinutes, now) && About(f, rows[i], said)
  }

  ghost function CheckedBefore(rows: Rows, n: nat): set<int>
    requires n <= |rows|
  {
    set i | 0 <= i < n && rows[i].status in {Pending, Completed, Failed}
  }

  lemma CheckedStep(rows: Rows, n: nat)
    requires |rows| == n + 1
    ensures CheckedBefore(rows[..n], n) == CheckedBefore(rows, n)
    ensures |CheckedBefore(rows, n + 1)| == |CheckedBefore(rows, n)| + if Reconcilable(rows[n]) then 1 else 0
  {
    if Reconcilable(rows[n]) {
      assert CheckedBefore(rows, n + 1) == CheckedBefore(rows, n) + {n};
    } else {
      assert CheckedBefore(rows, n + 1) == CheckedBefore(rows, n);
    }
  }

  lemma {:induction false} CheckedCounts(rows: Rows)
    ensures Checked(rows) == |CheckedBefore(rows, |rows|)|
  {
    if rows == [] {
    } else {
      var n := |rows| - 1;
      CheckedCounts(rows[..n]);
      CheckedStep(rows, n);
    }
  }

  lemma ReferenceIsAsked(row: Transaction)
    ensures AskedAbout(row, ReferenceOf(row))
  {}

  lemma FoundBefore(rows: Rows, n: nat, oracle: Oracle, staleMinutes: int, now: Time, f: Finding, i: nat)
    requires i < n <= |rows|
    ensures FoundAt(rows[..n], oracle, staleMinutes, now, f, i) <==> FoundAt(rows, oracle, staleMinutes, now, f, i)
  {
    assert CheckedBefore(rows[..n], i) == CheckedBefore(rows, i);
  }

  lemma FoundLast(rows: Rows, n: nat, oracle: Oracle, staleMinutes: int, now: Time, f: Finding)
    requires |rows| == n + 1
    ensures FoundAt(rows, oracle, staleMinutes, now, f, n)
       <==> Reconcilable(rows[n])
            && f in RowFindings(rows[n], oracle(Checked(rows[..n]), ReferenceOf(rows[n])), staleMinutes, now)
  {
    CheckedCounts(rows[..n]);
    assert CheckedBefore(rows[..n], n) == CheckedBefore(rows, n);
    if Reconcilable(rows[n]) {
      RowFindingsExactly(rows[n], oracle(Checked(rows[..n]), ReferenceOf(rows[n])), staleMinutes, now, f);
    }
  }

  ghost predicate FoundSomewhere(rows: Rows, oracle: Oracle, staleMinutes: int, now: Time, f: Finding) {
    exists i :: 0 <= i < |rows| && FoundAt(rows, oracle, staleMinutes, now, f, i)
  }

  lemma FoundStep(rows: Rows, n: nat, oracle: Oracle, staleMinutes: int, now: Time, f: Finding)
    requires |rows| == n + 1
    ensures FoundSomewhere(rows, oracle, staleMinutes, now, f)
       <==> FoundSomewhere(rows[..n], oracle, staleMinutes, now, f) || FoundAt(rows, oracle, staleMinutes, now, f, n)
  {
    forall i | 0 <= i < n
      ensures FoundAt(rows[..n], oracle, staleMinutes, now, f, i) <==> FoundAt(rows, oracle, staleMinutes, now, f, i)
    {
      FoundBefore(rows, n, oracle, staleMinutes, now, f, i);
    }
  }

  /** The findings of a pass are exactly the warranted ones about its checked rows. */
  lemma {:induction false} FindingsExactly(rows: Rows, oracle: Oracle, staleMinutes: int, now: Time, f: Finding)
    ensures f in Findings(rows, oracle, staleMinutes, now) <==> FoundSomewhere(rows, oracle, staleMinutes, now, f)
  {
    if rows == [] {
    } else {
      var n := |rows| - 1;
      FindingsExactly(rows[..n], oracle, staleMinutes, now, f);
      FoundStep(rows, n, oracle, staleMinutes, now, f);
      FoundLast(rows, n, oracle, staleMinutes, now, f);
    }
  }

  ghost function OfKindBefore(findings: seq<Finding>, t: FindingType, n: nat): set<int>
    requires n <= |findings|
  {
    set i | 0 <= i < n && findings[i].findingType == t
  }

  ghost function OfKind(findings: seq<Finding>, t: FindingType): set<int> {
    OfKindBefore(findings, t, |findings|)
  }

  lemma OfKindPrefix(findings: seq<Finding>, t: FindingType, n: nat)
    requires n <= |findings|
    ensures OfKindBefore(findings[..n], t, n) == OfKindBefore(findings, t, n)
  {
    forall i | 0 <= i < n ensures findings[..n][i] == findings[i] {}
  }

  lemma OfKindStep(findings: seq<Finding>, t: FindingType, n: nat)
    requires n < |findings|
    ensures |OfKindBefore(findings, t, n + 1)|
         == |OfKindBefore(findings, t, n)| + if findings[n].findingType == t then 1 else 0
  {
    var before, after := OfKindBefore(findings, t, n), OfKindBefore(findings, t, n + 1);
    if findings[n].findingType == t {
      assert after == before + {n};
      assert n !in before;
    } else {
      assert after == before;
    }
  }

  lemma {:induction false} CountIsOfKind(findings: seq<Finding>, t: FindingType)
    ensures CountOf(findings, t) == |OfKind(findings, t)|
  {
    if findings == [] {
    } else {
      CountIsOfKind(findings[..|findings| - 1], t);
      OfKindPrefix(findings, t, |findings| - 1);
      OfKindStep(findings, t, |findings| - 1);
    }
  }

  /** Each counter of the summary is the number of the findings of its kind. */
  lemma TotalsCountKinds(findings: seq<Finding>)
    ensures var t := TotalsOf(findings);
      && t.pendingButProviderCompleted == |OfKind(findings, PendingButProviderCompleted)|
      && t.pendingButProviderFailed == |OfKind(findings, PendingButProviderFailed)|
      && t.completedButProviderFailed == |OfKind(findings, CompletedButProviderFailed)|
      && t.failedButProviderCompleted == |OfKind(findings, FailedButProviderCompleted)|
      && t.stalePending == |OfKind(findings, StalePending)|
      && t.providerStatusUnknown == |OfKind(findings, ProviderStatusUnknown)|
  {
    forall t: FindingType ensures CountOf(findings, t) == |OfKind(findings, t)| {
      CountIsOfKind(findings, t);
    }
  }
}
