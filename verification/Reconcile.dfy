/** The deterministic core of cashback reconciliation: a report and a change plan from a
    parse result. */
module Reconcile {
  import opened Common
  import opened Amounts
  import opened Tables
  import opened Cashback
  import opened CashbackLaws

  predicate IsValidStatus(status: string) {
    status == "paid" || status == "pending" || status == "processing" || status == "failed"
  }

  /** What a record's status gives rise to: missing, unknown, or paid without a positive amount. */
  function StatusIssues(rec: Record): seq<Issue> {
    (if rec.status.None? then [Issue(StatusMissing, rec.row, AboutStatus(None), rec.txnId)]
     else if !IsValidStatus(rec.status.value) then [Issue(StatusInvalid, rec.row, AboutStatus(rec.status), rec.txnId)]
     else [])
    + (if IsGap(rec) then [Issue(ArrivalGap, rec.row, AboutStatus(rec.status), rec.txnId)] else [])
  }

  predicate IsGap(rec: Record) {
    rec.status == Some("paid") && (rec.amount.None? || rec.amount.value.coefficient <= 0)
  }

  function ExtraIssues(records: seq<Record>): seq<Issue> {
    if records == [] then [] else ExtraIssues(records[..|records| - 1]) + StatusIssues(Last(records))
  }

  function AllIssues(parsed: ParseResult): seq<Issue> {
    parsed.duplicates + parsed.amountErrors + ExtraIssues(parsed.records)
  }

  predicate SameKey(a: Issue, b: Issue) {
    a.row == b.row && a.kind == b.kind
  }

  predicate Repeats(issues: seq<Issue>, issue: Issue) {
    exists k :: 0 <= k < |issues| && SameKey(issues[k], issue)
  }

  /** First occurrence of each (row, kind). */
  function Deduplicated(issues: seq<Issue>): seq<Issue> {
    if issues == [] then []
    else
      var before := issues[..|issues| - 1];
      Deduplicated(before) + (if Repeats(before, Last(issues)) then [] else [Last(issues)])
  }

  function CountUnflagged(records: seq<Record>, issues: seq<Issue>): (n: nat)
    ensures n <= |records|
  {
    if records == [] then 0
    else CountUnflagged(records[..|records| - 1], issues) + (if Names(issues, Last(records).row) then 0 else 1)
  }

  datatype Action = Dedupe | FixAmount | NormalizeStatus | FillStatus | Investigate

  datatype PlanStep = PlanStep(action: Action, row: nat, txnId: Option<string>)

  function ActionFor(kind: Kind): Action {
    match kind
    case Duplicate => Dedupe
    case AmountFormat => FixAmount
    case StatusInvalid => NormalizeStatus
    case StatusMissing => FillStatus
    case ArrivalGap => Investigate
  }

  function PlanFor(issue: Issue): PlanStep {
    PlanStep(ActionFor(issue.kind), issue.row, issue.txnId)
  }

  function PlanOf(issues: seq<Issue>): (plan: seq<PlanStep>)
    ensures |plan| == |issues| && forall k :: 0 <= k < |plan| ==> plan[k] == PlanFor(issues[k])
  {
    if issues == [] then [] else [PlanFor(issues[0])] + PlanOf(issues[1..])
  }

  datatype Report = Report(
    total: real, recordCount: nat, matched: nat, mismatched: int, issues: seq<Issue>, plan: seq<PlanStep>)

  function ReportOf(parsed: ParseResult): Report {
    var all := AllIssues(parsed);
    var count := if parsed.rowCount == 0 then |parsed.records| else parsed.rowCount;
    var matched := CountUnflagged(parsed.records, all);
    var issues := Deduplicated(all);
    Report(TotalOf(parsed.records), count, matched, count - matched, issues, PlanOf(issues))
  }

  // ----------------------------------------------------------- the workflow

  /** Which kinds hit which row. */
  ghost predicate Indexes(index: map<nat, seq<Kind>>, issues: seq<Issue>) {
    forall row :: (row in index <==> Names(issues, row)) && (row in index ==> index[row] != [])
  }

  function AddKind(index: map<nat, seq<Kind>>, issue: Issue): map<nat, seq<Kind>> {
    index[issue.row := (if issue.row in index then index[issue.row] else []) + [issue.kind]]
  }

  lemma {:induction false} IndexesMore(index: map<nat, seq<Kind>>, issues: seq<Issue>, issue: Issue)
    requires Indexes(index, issues)
    ensures Indexes(AddKind(index, issue), issues + [issue])
  {
    var all := issues + [issue];
    forall row ensures Names(all, row) <==> Names(issues, row) || row == issue.row {
      if Names(issues, row) {
        var k :| 0 <= k < |issues| && issues[k].row == row;
        assert all[k].row == row;
      }
      assert all[|issues|] == issue;
    }
  }

  /** Adds a batch of issues to the index. */
  method IndexAll(index: map<nat, seq<Kind>>, ghost done: seq<Issue>, issues: seq<Issue>)
      returns (index': map<nat, seq<Kind>>)
    requires Indexes(index, done)
    ensures Indexes(index', done + issues)
  {
    index' := index;
    assert done + issues[..0] == done;
    for k := 0 to |issues|
      invariant Indexes(index', done + issues[..k])
    {
      IndexesMore(index', done + issues[..k], issues[k]);
      assert done + issues[..k + 1] == done + issues[..k] + [issues[k]];
      index' := AddKind(index', issues[k]);
    }
    assert issues[..|issues|] == issues;
  }

  /** Keeps the first issue of each (row, kind). */
  method Dedup(all: seq<Issue>) returns (issues: seq<Issue>)
    ensures issues == Deduplicated(all)
  {
    issues := [];
    var seen: set<(nat, Kind)> := {};
    for k := 0 to |all|
      invariant issues == Deduplicated(all[..k])
      invariant forall key :: key in seen <==> exists j :: 0 <= j < k && (all[j].row, all[j].kind) == key
    {
      var key := (all[k].row, all[k].kind);
      assert all[..k + 1][..k] == all[..k];
      assert key in seen <==> Repeats(all[..k], all[k]) by {
        if key in seen {
          var j :| 0 <= j < k && (all[j].row, all[j].kind) == key;
          assert SameKey(all[..k][j], all[k]);
        }
      }
      if key !in seen {
        seen := seen + {key};
        issues := issues + [all[k]];
      }
    }
    assert all[..|all|] == all;
  }

  /** Each record is counted once, if nothing hits its row. */
  method CountMatched(records: seq<Record>, index: map<nat, seq<Kind>>, ghost all: seq<Issue>) returns (matched: nat)
    requires Indexes(index, all)
    ensures matched == CountUnflagged(records, all)
  {
    matched := 0;
    for k := 0 to |records|
      invariant matched == CountUnflagged(records[..k], all)
    {
      assert records[..k + 1][..k] == records[..k];
      if records[k].row !in index {
        matched := matched + 1;
      }
    }
    assert records[..|records|] == records;
  }

  method ReconcileRows(parsed: ParseResult) returns (r: Report)
    ensures r == ReportOf(parsed)
  {
    var records := parsed.records;
    var index := IndexAll(map[], [], parsed.duplicates);
    assert [] + parsed.duplicates == parsed.duplicates;
    index := IndexAll(index, parsed.duplicates, parsed.amountErrors);
    var extra: seq<Issue> := [];
    var total := 0.0;
    ghost var named := parsed.duplicates + parsed.amountErrors;
    assert named + [] == named;
    for k := 0 to |records|
      invariant extra == ExtraIssues(records[..k])
      invariant total == TotalOf(records[..k])
      invariant Indexes(index, named + extra)
    {
      var rec := records[k];
      assert records[..k + 1][..k] == records[..k];
      var found: seq<Issue> := [];
      if rec.status.None? {
        found := [Issue(StatusMissing, rec.row, AboutStatus(None), rec.txnId)];
      } else if !IsValidStatus(rec.status.value) {
        found := [Issue(StatusInvalid, rec.row, AboutStatus(rec.status), rec.txnId)];
      }
      if IsGap(rec) {
        found := found + [Issue(ArrivalGap, rec.row, AboutStatus(rec.status), rec.txnId)];
      }
      index := IndexAll(index, named + extra, found);
      assert named + extra + found == named + (extra + found);
      extra := extra + found;
      if rec.amount.Some? {
        total := total + Worth(rec.amount.value);
      }
    }
    assert records[..|records|] == records;
    var all := parsed.duplicates + parsed.amountErrors + extra;
    var matched := CountMatched(records, index, all);
    var issues := Dedup(all);
    var count := if parsed.rowCount == 0 then |records| else parsed.rowCount;
    r := Report(total, count, matched, count - matched, issues, PlanOf(issues));
  }

  // --------------------------------------------------- on parsed tables

  ghost predicate KeysDistinct(issues: seq<Issue>) {
    forall j, k :: 0 <= j < k < |issues| ==> !SameKey(issues[j], issues[k])
  }

  /** With distinct keys, de-duplication drops nothing. */
  lemma {:induction false} NothingDropped(issues: seq<Issue>)
    requires KeysDistinct(issues)
    ensures Deduplicated(issues) == issues
  {
    if issues != [] {
      var before := issues[..|issues| - 1];
      NothingDropped(before);
      assert forall k :: 0 <= k < |before| ==> before[k] == issues[k];
      assert issues == before + [Last(issues)];
    }
  }

  /** No earlier issue has the key of the k-th. */
  ghost predicate IsFirst(issues: seq<Issue>, k: nat)
    requires k < |issues|
  {
    forall j :: 0 <= j < k ==> issues[j].row != issues[k].row || issues[j].kind != issues[k].kind
  }

  ghost predicate PicksFirsts(issues: seq<Issue>, picked: seq<Issue>, at: seq<nat>) {
    && |at| == |picked|
    && (forall i, j :: 0 <= i < j < |at| ==> at[i] < at[j])
    && (forall i :: 0 <= i < |at| ==> at[i] < |issues| && picked[i] == issues[at[i]] && IsFirst(issues, at[i]))
    && (forall k: nat :: k < |issues| && IsFirst(issues, k) ==> k in at)
  }

  /** De-duplicating any issues keeps, in order, exactly those whose row and kind none before
      them has. */
  lemma {:induction false} DedupKeepsFirsts(issues: seq<Issue>) returns (at: seq<nat>)
    ensures PicksFirsts(issues, Deduplicated(issues), at)
  {
    if issues == [] {
      at := [];
    } else {
      var before := issues[..|issues| - 1];
      var at' := DedupKeepsFirsts(before);
      at := PicksOneMore(before, Last(issues), Deduplicated(before), at');
      assert issues == before + [Last(issues)];
    }
  }

  lemma {:induction false} PicksOneMore(before: seq<Issue>, issue: Issue, picked: seq<Issue>, at: seq<nat>)
    returns (at': seq<nat>)
    requires PicksFirsts(before, picked, at)
    ensures PicksFirsts(before + [issue], picked + (if Repeats(before, issue) then [] else [issue]), at')
  {
    var all := before + [issue];
    at' := at + (if Repeats(before, issue) then [] else [|before|]);
    assert all[..|before|] == before;
    forall k: nat | k < |before| ensures IsFirst(all, k) <==> IsFirst(before, k) {
      FirstInPrefix(all, |before|, k);
    }
    assert IsFirst(all, |before|) <==> !Repeats(before, issue) by {
      assert forall j :: 0 <= j < |before| ==> all[j] == before[j];
      if Repeats(before, issue) {
        var j :| 0 <= j < |before| && SameKey(before[j], issue);
        assert all[j].row == all[|before|].row;
      } else {
        assert forall j :: 0 <= j < |before| ==> !SameKey(before[j], issue);
      }
    }
  }

  lemma FirstInPrefix(issues: seq<Issue>, n: nat, k: nat)
    requires k < n <= |issues|
    ensures IsFirst(issues, k) <==> IsFirst(issues[..n], k)
  {
    assert forall j :: 0 <= j <= k ==> issues[j] == issues[..n][j];
    if IsFirst(issues[..n], k) {
      forall j | 0 <= j < k ensures issues[j].row != issues[k].row || issues[j].kind != issues[k].kind {
        assert issues[..n][j].row != issues[..n][k].row || issues[..n][j].kind != issues[..n][k].kind;
      }
    }
  }

  /** A record has at most one status issue: a gap presupposes a valid status. */
  lemma StatusIssuesAtMostOne(rec: Record)
    ensures |StatusIssues(rec)| <= 1
    ensures forall k :: 0 <= k < |StatusIssues(rec)| ==>
              StatusIssues(rec)[k].row == rec.row && StatusIssues(rec)[k].kind !in {Duplicate, AmountFormat}
  {
  }

  ghost predicate RowsAreIndices(records: seq<Record>) {
    forall i :: 0 <= i < |records| ==> records[i].row == i
  }

  lemma {:induction false} ExtraIssuesByRow(records: seq<Record>)
    requires RowsAreIndices(records)
    ensures ByRow(ExtraIssues(records))
    ensures forall k :: 0 <= k < |ExtraIssues(records)| ==>
              ExtraIssues(records)[k].row < |records| && ExtraIssues(records)[k].kind !in {Duplicate, AmountFormat}
  {
    if records != [] {
      ExtraIssuesByRow(records[..|records| - 1]);
      StatusIssuesAtMostOne(Last(records));
    }
  }

  lemma {:induction false} ParsedKeysDistinct(p: Parser, rows: seq<Row>)
    ensures KeysDistinct(AllIssues(ParseOf(p, rows)))
    ensures RowsAreIndices(ParseOf(p, rows).records)
    ensures forall k :: 0 <= k < |AllIssues(ParseOf(p, rows))| ==> AllIssues(ParseOf(p, rows))[k].row < |rows|
  {
    ParseIsExact(p, rows);
    var parsed := ParseOf(p, rows);
    ExtraIssuesByRow(parsed.records);
    ThreeKinds(parsed.duplicates, parsed.amountErrors, ExtraIssues(parsed.records));
  }

  /** Three lists by row, of different kinds, have distinct keys together. */
  lemma {:induction false} ThreeKinds(a: seq<Issue>, b: seq<Issue>, c: seq<Issue>)
    requires ByRow(a) && ByRow(b) && ByRow(c)
    requires forall k :: 0 <= k < |a| ==> a[k].kind == Duplicate
    requires forall k :: 0 <= k < |b| ==> b[k].kind == AmountFormat
    requires forall k :: 0 <= k < |c| ==> c[k].kind !in {Duplicate, AmountFormat}
    ensures KeysDistinct(a + b + c)
  {
  }

  /** The rows named by an issue, among the first n. */
  ghost function FlaggedRows(issues: seq<Issue>, n: nat): set<nat> {
    set i: nat | i < n && Names(issues, i)
  }

  lemma {:induction false} UnflaggedComplement(records: seq<Record>, issues: seq<Issue>)
    requires RowsAreIndices(records)
    ensures CountUnflagged(records, issues) + |FlaggedRows(issues, |records|)| == |records|
  {
    var n := |records|;
    if n == 0 {
      assert FlaggedRows(issues, 0) == {};
    } else {
      UnflaggedComplement(records[..n - 1], issues);
      var before := FlaggedRows(issues, n - 1);
      assert FlaggedRows(issues, n) == if Names(issues, n - 1) then before + {n - 1} else before;
    }
  }

  /** On every parsed table: matched and mismatched rows add up to the rows; mismatched
      rows are exactly those an issue names; (row, kind) keys are unique, so the
      de-duplication drops nothing; the plan aligns one to one with the issues; and the
      total is the sum of the amounts that were read. */
  lemma {:induction false} ReconciliationIsExact(p: Parser, rows: seq<Row>)
    ensures var r := ReportOf(ParseOf(p, rows));
            && r.recordCount == |rows|
            && r.matched + r.mismatched == |rows|
            && r.mismatched == |FlaggedRows(r.issues, |rows|)|
            && r.issues == AllIssues(ParseOf(p, rows))
            && KeysDistinct(r.issues)
            && |r.plan| == |r.issues|
            && (forall k :: 0 <= k < |r.plan| ==> r.plan[k] == PlanFor(r.issues[k]) && r.issues[k].row < |rows|)
            && r.total == Total(p, rows)
  {
    var parsed := ParseOf(p, rows);
    ParsedKeysDistinct(p, rows);
    NothingDropped(AllIssues(parsed));
    UnflaggedComplement(parsed.records, AllIssues(parsed));
    TotalIsSum(p, rows, |rows|);
    assert rows[..|rows|] == rows;
  }

  /** What an issue of the report says about its row, read off the row itself. */
  lemma {:induction false} RowIsMatchedIff(p: Parser, rows: seq<Row>, i: nat)
    requires i < |rows|
    ensures var r := ReportOf(ParseOf(p, rows));
            var rec := RecordOf(p, rows[i], i);
            !Names(r.issues, i) <==>
              && !IsDuplicate(p, rows, i) && !HasNoAmount(p, rows, i)
              && rec.status.Some? && IsValidStatus(rec.status.value) && !IsGap(rec)
  {
    var parsed := ParseOf(p, rows);
    ParsedKeysDistinct(p, rows);
    NothingDropped(AllIssues(parsed));
    NamedIff(p, rows, i);
    RecordsExact(p, rows, |rows|);
    FlaggedInParts(parsed.duplicates, parsed.amountErrors, ExtraIssues(parsed.records), i);
    ExtraFlaggedIff(parsed.records, i);
  }

  lemma {:induction false} FlaggedInParts(a: seq<Issue>, b: seq<Issue>, c: seq<Issue>, i: nat)
    ensures Names(a + b + c, i) <==> Names(a, i) || Names(b, i) || Names(c, i)
  {
    var all := a + b + c;
    if Names(a, i) {
      var k :| 0 <= k < |a| && a[k].row == i;
      assert all[k].row == i;
    }
    if Names(b, i) {
      var k :| 0 <= k < |b| && b[k].row == i;
      assert all[|a| + k].row == i;
    }
    if Names(c, i) {
      var k :| 0 <= k < |c| && c[k].row == i;
      assert all[|a| + |b| + k].row == i;
    }
  }

  lemma {:induction false} ExtraFlaggedIff(records: seq<Record>, i: nat)
    requires RowsAreIndices(records)
    ensures Names(ExtraIssues(records), i) <==> i < |records| && StatusIssues(records[i]) != []
  {
    if records != [] {
      var front := records[..|records| - 1];
      ExtraFlaggedIff(front, i);
      StatusIssuesAtMostOne(Last(records));
      FlaggedInParts(ExtraIssues(front), StatusIssues(Last(records)), [], i);
      assert ExtraIssues(records) == ExtraIssues(front) + StatusIssues(Last(records)) + [];
      assert StatusIssues(Last(records)) != [] ==> StatusIssues(Last(records))[0].row == |records| - 1;
    }
  }
}
