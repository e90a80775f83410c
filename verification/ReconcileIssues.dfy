/** What each issue of a reconciliation report and each step of its plan means, read off the
    record it is about. */
module ReconcileIssues {
  import opened Common
  import opened Amounts
  import opened Tables
  import opened Cashback
  import opened Reconcile

  /** A decimal is not positive exactly when its coefficient is not. */
  lemma {:induction false} NotPositiveIff(d: Decimal)
    ensures Worth(d) <= 0.0 <==> d.coefficient <= 0
  {
    var (x, p) := (d.coefficient as real, Pow10(d.scale) as real);
    assert x / p * p == x;
  }

  /** Whether a record's status gives rise to an issue, written out. */
  ghost predicate StatusIssueOf(rec: Record, issue: Issue) {
    && issue.row == rec.row && issue.txnId == rec.txnId && issue.detail == AboutStatus(rec.status)
    && match issue.kind
       case StatusMissing => rec.status == None
       case StatusInvalid => rec.status.Some? && rec.status.value !in {"paid", "pending", "processing", "failed"}
       case ArrivalGap => rec.status == Some("paid") && (rec.amount == None || Worth(rec.amount.value) <= 0.0)
       case Duplicate => false
       case AmountFormat => false
  }

  lemma {:induction false} StatusIssuesExact(rec: Record, issue: Issue)
    ensures issue in StatusIssues(rec) <==> StatusIssueOf(rec, issue)
  {
    if rec.amount.Some? {
      NotPositiveIff(rec.amount.value);
    }
  }

  lemma {:induction false} ExtraIssuesExact(records: seq<Record>, issue: Issue)
    ensures issue in ExtraIssues(records) <==> exists rec :: rec in records && StatusIssueOf(rec, issue)
  {
    if records != [] {
      var front := records[..|records| - 1];
      ExtraIssuesExact(front, issue);
      StatusIssuesExact(Last(records), issue);
      assert records == front + [Last(records)];
    }
  }

  /** The report lists exactly the duplicates, the amount errors, and the records whose status is
      missing, unknown, or paid without a positive amount. */
  lemma {:induction false} IssuesAreExact(p: Parser, rows: seq<Row>, issue: Issue)
    ensures var parsed := ParseOf(p, rows);
            issue in ReportOf(parsed).issues <==>
              || issue in parsed.duplicates
              || issue in parsed.amountErrors
              || exists rec :: rec in parsed.records && StatusIssueOf(rec, issue)
  {
    ReconciliationIsExact(p, rows);
    ExtraIssuesExact(ParseOf(p, rows).records, issue);
  }

  /** A record is matched exactly when it repeats no key, has an amount, has one of the four known
      statuses, and, if paid, a positive amount. */
  lemma {:induction false} MatchedMeans(p: Parser, rows: seq<Row>, i: nat)
    requires i < |rows|
    ensures |ParseOf(p, rows).records| == |rows|
    ensures var rec := ParseOf(p, rows).records[i];
            !Names(ReportOf(ParseOf(p, rows)).issues, i) <==>
              && !Names(ParseOf(p, rows).duplicates, i) && rec.amount.Some?
              && rec.status.Some? && rec.status.value in {"paid", "pending", "processing", "failed"}
              && (rec.status.value == "paid" ==> Worth(rec.amount.value) > 0.0)
  {
    RowIsMatchedIff(p, rows, i);
    RecordsExact(p, rows, |rows|);
    NamedIff(p, rows, i);
    var rec := RecordOf(p, rows[i], i);
    if rec.amount.Some? {
      NotPositiveIff(rec.amount.value);
    }
  }

  /** Each issue's remedy is about its own row and transaction. */
  lemma {:induction false} PlanMeans(p: Parser, rows: seq<Row>, k: nat)
    requires k < |ReportOf(ParseOf(p, rows)).plan|
    ensures var r := ReportOf(ParseOf(p, rows));
            && k < |r.issues|
            && var (step, issue) := (r.plan[k], r.issues[k]);
               && step.row == issue.row && step.txnId == issue.txnId
               && (step.action == Dedupe <==> issue.kind == Duplicate)
               && (step.action == FixAmount <==> issue.kind == AmountFormat)
               && (step.action == FillStatus <==> issue.kind == StatusMissing)
               && (step.action == NormalizeStatus <==> issue.kind == StatusInvalid)
               && (step.action == Investigate <==> issue.kind == ArrivalGap)
  {
    ReconciliationIsExact(p, rows);
  }

  /** What was read in total, row by row: a row without a readable amount adds nothing. */
  lemma {:induction false} TotalGrows(p: Parser, rows: seq<Row>, row: Row)
    ensures var amount := RecordOf(p, row, |rows|).amount;
            ReportOf(ParseOf(p, rows + [row])).total ==
            ReportOf(ParseOf(p, rows)).total + (if amount.Some? then Worth(amount.value) else 0.0)
    ensures ReportOf(ParseOf(p, [])).total == 0.0
  {
    ReconciliationIsExact(p, rows + [row]);
    ReconciliationIsExact(p, rows);
    ReconciliationIsExact(p, []);
    assert (rows + [row])[..|rows|] == rows;
  }
}
