/** Parsing and validating a logistics table, and aggregating the outcome. */
module Logistics {
  import opened Common
  import opened LogisticsStatus
  import Amounts
  import opened Tables
  import Luhn

  datatype Logical = TrackingNo | PrevStatus | NewStatus | Address | CardNo | UpdatedAt

  /** Which header holds which field, and the checks on single cells.  Nothing below
      depends on what the checks accept. */
  datatype Parser = Parser(
    fieldMap: map<Logical, string>,
    isTracking: string -> bool,
    isPlaceholder: string -> bool,
    isCard: string -> bool,
    normalize: Option<string> -> Option<Status>)

  // ------------------------------------------------- the program's own checks

  predicate IsAlphanumeric(c: char) {
    'A' <= c <= 'Z' || 'a' <= c <= 'z' || '0' <= c <= '9'
  }

  /** 6 to 32 letters, digits and hyphens, not starting with a hyphen. */
  predicate IsTrackingNo(s: string) {
    && 6 <= |s| <= 32
    && IsAlphanumeric(s[0])
    && forall i :: 1 <= i < |s| ==> IsAlphanumeric(s[i]) || s[i] == '-'
  }

  const PLACEHOLDERS: seq<string> := ["无", "none", "n/a", "na", "null", "test", "测试", "地址"]

  predicate IsAddressPlaceholder(s: string) {
    Amounts.Lower(s) in PLACEHOLDERS
  }

  /** The parser the program builds. */
  function TableParser(fieldMap: map<Logical, string>): Parser {
    Parser(fieldMap, s => IsTrackingNo(s), s => IsAddressPlaceholder(s), s => Luhn.CardValid(Some(s)),
        s => NormalizeStatus(s))
  }

  // ---------------------------------------------------------------- one row

  datatype Reason =
    | MissingTracking
    | BadTracking
    | BadAddress
    | PlaceholderAddress
    | BadCard
    | UnknownPrev(raw: string)
    | UnknownNew(raw: string)

  datatype FieldError = FieldError(row: nat, field: Logical, reason: Reason, trackingNo: Option<string>)

  datatype StateViolation = StateViolation(row: nat, prev: Status, next: Status, trackingNo: Option<string>)

  datatype Record = Record(
    row: nat, trackingNo: Option<string>, prev: Option<string>, next: Option<string>, address: Option<string>,
    cardNo: Option<string>, updatedAt: Option<string>)

  datatype ParseResult = ParseResult(
    rowCount: nat, records: seq<Record>, fieldErrors: seq<FieldError>, violations: seq<StateViolation>)

  function Field(p: Parser, row: Row, logical: Logical): Option<string> {
    Norm(if logical in p.fieldMap && p.fieldMap[logical] in row then row[p.fieldMap[logical]] else None)
  }

  function RecordOf(p: Parser, row: Row, i: nat): Record {
    Record(i, Field(p, row, TrackingNo), Field(p, row, PrevStatus), Field(p, row, NewStatus),
           Field(p, row, Address), Field(p, row, CardNo), Field(p, row, UpdatedAt))
  }

  function TrackingErrors(p: Parser, r: Record): seq<FieldError> {
    if r.trackingNo.None? then [FieldError(r.row, TrackingNo, MissingTracking, r.trackingNo)]
    else if !p.isTracking(r.trackingNo.value) then [FieldError(r.row, TrackingNo, BadTracking, r.trackingNo)]
    else []
  }

  function AddressErrors(p: Parser, r: Record): seq<FieldError> {
    if r.address.None? || |r.address.value| < 5 then [FieldError(r.row, Address, BadAddress, r.trackingNo)]
    else if p.isPlaceholder(r.address.value) then [FieldError(r.row, Address, PlaceholderAddress, r.trackingNo)]
    else []
  }

  function CardErrors(p: Parser, r: Record): seq<FieldError> {
    if r.cardNo.Some? && !p.isCard(r.cardNo.value) then [FieldError(r.row, CardNo, BadCard, r.trackingNo)] else []
  }

  function StatusErrors(p: Parser, r: Record): seq<FieldError> {
    (if r.prev.Some? && p.normalize(r.prev).None?
        then [FieldError(r.row, PrevStatus, UnknownPrev(r.prev.value), r.trackingNo)] else [])
    + (if r.next.Some? && p.normalize(r.next).None?
        then [FieldError(r.row, NewStatus, UnknownNew(r.next.value), r.trackingNo)] else [])
  }

  function RowErrors(p: Parser, r: Record): seq<FieldError> {
    TrackingErrors(p, r) + AddressErrors(p, r) + CardErrors(p, r) + StatusErrors(p, r)
  }

  /** Both statuses are known, differ, and the edge between them is not allowed. */
  predicate Violates(p: Parser, r: Record) {
    var (prev, next) := (p.normalize(r.prev), p.normalize(r.next));
    prev.Some? && next.Some? && prev != next && !IsAllowed(prev, next)
  }

  function RowViolations(p: Parser, r: Record): seq<StateViolation> {
    if Violates(p, r)
    then [StateViolation(r.row, p.normalize(r.prev).value, p.normalize(r.next).value, r.trackingNo)]
    else []
  }

  // --------------------------------------------------------------- the table

  function RecordsOf(p: Parser, rows: seq<Row>): (r: seq<Record>)
    ensures |r| == |rows|
    ensures forall i :: 0 <= i < |rows| ==> r[i] == RecordOf(p, rows[i], i)
  {
    if rows == [] then []
    else RecordsOf(p, rows[..|rows| - 1]) + [RecordOf(p, Last(rows), |rows| - 1)]
  }

  function FieldErrorsOf(p: Parser, records: seq<Record>): seq<FieldError> {
    if records == [] then [] else FieldErrorsOf(p, records[..|records| - 1]) + RowErrors(p, Last(records))
  }

  function ViolationsOf(p: Parser, records: seq<Record>): seq<StateViolation> {
    if records == [] then [] else ViolationsOf(p, records[..|records| - 1]) + RowViolations(p, Last(records))
  }

  function ParseOf(p: Parser, rows: seq<Row>): ParseResult {
    var records := RecordsOf(p, rows);
    ParseResult(|rows|, records, FieldErrorsOf(p, records), ViolationsOf(p, records))
  }

  lemma OneMoreRow(p: Parser, rows: seq<Row>, k: nat)
    requires k < |rows|
    ensures var records, record := RecordsOf(p, rows[..k]), RecordOf(p, rows[k], k);
            && RecordsOf(p, rows[..k + 1]) == records + [record]
            && FieldErrorsOf(p, records + [record]) == FieldErrorsOf(p, records) + RowErrors(p, record)
            && ViolationsOf(p, records + [record]) == ViolationsOf(p, records) + RowViolations(p, record)
  {
  }

  /** Every row is checked in full; parsing never stops at an error. */
  method ParseRows(p: Parser, rows: seq<Row>) returns (r: ParseResult)
    ensures r == ParseOf(p, rows)
  {
    var records: seq<Record> := [];
    var errors: seq<FieldError> := [];
    var violations: seq<StateViolation> := [];
    for k := 0 to |rows|
      invariant records == RecordsOf(p, rows[..k])
      invariant errors == FieldErrorsOf(p, records) && violations == ViolationsOf(p, records)
    {
      OneMoreRow(p, rows, k);
      var record := RecordOf(p, rows[k], k);
      var es, vs := CheckRow(p, record);
      errors := errors + es;
      violations := violations + vs;
      records := records + [record];
    }
    assert rows[..|rows|] == rows;
    r := ParseResult(|rows|, records, errors, violations);
  }

  /** The checks of one row, one after the other. */
  method CheckRow(p: Parser, r: Record) returns (errors: seq<FieldError>, violations: seq<StateViolation>)
    ensures errors == RowErrors(p, r) && violations == RowViolations(p, r)
  {
    errors, violations := [], [];
    if r.trackingNo.None? {
      errors := errors + [FieldError(r.row, TrackingNo, MissingTracking, r.trackingNo)];
    } else if !p.isTracking(r.trackingNo.value) {
      errors := errors + [FieldError(r.row, TrackingNo, BadTracking, r.trackingNo)];
    }
    assert errors == TrackingErrors(p, r);
    if r.address.None? || |r.address.value| < 5 {
      errors := errors + [FieldError(r.row, Address, BadAddress, r.trackingNo)];
    } else if p.isPlaceholder(r.address.value) {
      errors := errors + [FieldError(r.row, Address, PlaceholderAddress, r.trackingNo)];
    }
    assert errors == TrackingErrors(p, r) + AddressErrors(p, r);
    if r.cardNo.Some? && !p.isCard(r.cardNo.value) {
      errors := errors + [FieldError(r.row, CardNo, BadCard, r.trackingNo)];
    }
    assert errors == TrackingErrors(p, r) + AddressErrors(p, r) + CardErrors(p, r);
    ghost var sofar := errors;
    var prev, next := p.normalize(r.prev), p.normalize(r.next);
    if r.prev.Some? && prev.None? {
      errors := errors + [FieldError(r.row, PrevStatus, UnknownPrev(r.prev.value), r.trackingNo)];
    }
    if r.next.Some? && next.None? {
      errors := errors + [FieldError(r.row, NewStatus, UnknownNew(r.next.value), r.trackingNo)];
    }
    assert errors == sofar + StatusErrors(p, r);
    if prev.Some? && next.Some? && prev != next && !IsAllowed(prev, next) {
      violations := violations + [StateViolation(r.row, prev.value, next.value, r.trackingNo)];
    }
  }

  // ------------------------------------------------------------- aggregation

  datatype ReportedError = ReportedError(row: nat, field: Logical, reason: Reason)

  datatype ReportedViolation = ReportedViolation(row: nat, prev: Status, next: Status)

  datatype Report = Report(
    validated: int, invalid: nat, fieldErrors: seq<ReportedError>, violations: seq<ReportedViolation>)

  function ReportErrors(es: seq<FieldError>): (r: seq<ReportedError>)
    ensures |r| == |es|
    ensures forall k :: 0 <= k < |r| ==> r[k] == ReportedError(es[k].row + 1, es[k].field, es[k].reason)
  {
    if es == [] then [] else [ReportedError(es[0].row + 1, es[0].field, es[0].reason)] + ReportErrors(es[1..])
  }

  function ReportViolations(vs: seq<StateViolation>): (r: seq<ReportedViolation>)
    ensures |r| == |vs|
    ensures forall k :: 0 <= k < |r| ==> r[k] == ReportedViolation(vs[k].row + 1, vs[k].prev, vs[k].next)
  {
    if vs == [] then [] else [ReportedViolation(vs[0].row + 1, vs[0].prev, vs[0].next)] + ReportViolations(vs[1..])
  }

  /** The rows that carry an error or a violation. */
  function RowsWithIssues(parsed: ParseResult): set<nat> {
    (set e | e in parsed.fieldErrors :: e.row) + (set v | v in parsed.violations :: v.row)
  }

  function Aggregate(parsed: ParseResult): Report {
    var invalid := |RowsWithIssues(parsed)|;
    Report(parsed.rowCount - invalid, invalid, ReportErrors(parsed.fieldErrors), ReportViolations(parsed.violations))
  }

  // ------------------------------------------------------------ main results

  /** The errors about one row. */
  function ErrorsAbout(es: seq<FieldError>, row: nat): seq<FieldError> {
    if es == [] then [] else ErrorsAbout(es[..|es| - 1], row) + (if Last(es).row == row then [Last(es)] else [])
  }

  lemma {:induction false} ErrorsAboutJoin(a: seq<FieldError>, b: seq<FieldError>, row: nat)
    ensures ErrorsAbout(a + b, row) == ErrorsAbout(a, row) + ErrorsAbout(b, row)
  {
    if b == [] {
      assert a + b == a;
    } else {
      assert (a + b)[..|a + b| - 1] == a + b[..|b| - 1];
      ErrorsAboutJoin(a, b[..|b| - 1], row);
    }
  }

  lemma {:induction false} ErrorsAboutSame(es: seq<FieldError>, row: nat, about: nat)
    requires forall k :: 0 <= k < |es| ==> es[k].row == about
    ensures ErrorsAbout(es, row) == if row == about then es else []
  {
    if es != [] {
      ErrorsAboutSame(es[..|es| - 1], row, about);
      assert es == es[..|es| - 1] + [Last(es)];
    }
  }

  lemma {:induction false} RowErrorsAreAboutRow(p: Parser, r: Record)
    ensures forall k :: 0 <= k < |RowErrors(p, r)| ==> RowErrors(p, r)[k].row == r.row
    ensures forall k :: 0 <= k < |RowViolations(p, r)| ==> RowViolations(p, r)[k].row == r.row
  {
  }

  ghost predicate RowsAreIndices(records: seq<Record>) {
    forall i :: 0 <= i < |records| ==> records[i].row == i
  }

  /** Each row's errors are exactly those of its own checks, in order, whatever the other rows. */
  lemma {:induction false} ErrorsAreRowwise(p: Parser, records: seq<Record>, i: nat)
    requires RowsAreIndices(records)
    ensures ErrorsAbout(FieldErrorsOf(p, records), i) == if i < |records| then RowErrors(p, records[i]) else []
  {
    if records != [] {
      var front, r := records[..|records| - 1], Last(records);
      ErrorsAreRowwise(p, front, i);
      RowErrorsAreAboutRow(p, r);
      ErrorsAboutJoin(FieldErrorsOf(p, front), RowErrors(p, r), i);
      ErrorsAboutSame(RowErrors(p, r), i, r.row);
    }
  }

  lemma {:induction false} ErrorsAboutMembers(es: seq<FieldError>, row: nat)
    ensures ErrorsAbout(es, row) != [] <==> exists k :: 0 <= k < |es| && es[k].row == row
  {
    if es != [] {
      ErrorsAboutMembers(es[..|es| - 1], row);
      if k :| 0 <= k < |es| && es[k].row == row && k < |es| - 1 {
        assert es[..|es| - 1][k].row == row;
      }
    }
  }

  /** In row order, one entry for each violating row and none for any other. */
  ghost predicate ReportsExactly(p: Parser, records: seq<Record>, vs: seq<StateViolation>) {
    && (forall j, k :: 0 <= j < k < |vs| ==> vs[j].row < vs[k].row)
    && (forall k :: 0 <= k < |vs| ==> vs[k].row < |records| && RowViolations(p, records[vs[k].row]) == [vs[k]])
    && (forall i :: 0 <= i < |records| && Violates(p, records[i]) ==> exists k :: 0 <= k < |vs| && vs[k].row == i)
  }

  lemma {:induction false} ReportsOneMore(p: Parser, records: seq<Record>, r: Record, vs: seq<StateViolation>)
    requires ReportsExactly(p, records, vs) && r.row == |records|
    ensures ReportsExactly(p, records + [r], vs + RowViolations(p, r))
  {
    var all, vs' := records + [r], vs + RowViolations(p, r);
    forall i | 0 <= i < |all| && Violates(p, all[i]) ensures exists k :: 0 <= k < |vs'| && vs'[k].row == i {
      if i < |records| {
        var k :| 0 <= k < |vs| && vs[k].row == i;
        assert vs'[k].row == i;
      } else {
        assert vs'[|vs|].row == i;
      }
    }
  }

  /** A state violation is reported at a row exactly when both its statuses normalise,
      differ, and the edge is not allowed; and then once. */
  lemma {:induction false} ViolationsExact(p: Parser, records: seq<Record>)
    requires RowsAreIndices(records)
    ensures ReportsExactly(p, records, ViolationsOf(p, records))
  {
    if records != [] {
      var front := records[..|records| - 1];
      ViolationsExact(p, front);
      ReportsOneMore(p, front, Last(records), ViolationsOf(p, front));
      assert records == front + [Last(records)];
    }
  }

  /** Whether a row is sound. */
  predicate RowIsValid(p: Parser, r: Record) {
    RowErrors(p, r) == [] && !Violates(p, r)
  }

  lemma {:induction false} ErrorRowIff(p: Parser, records: seq<Record>, i: nat)
    requires RowsAreIndices(records)
    ensures (exists e :: e in FieldErrorsOf(p, records) && e.row == i) <==>
            i < |records| && RowErrors(p, records[i]) != []
  {
    var es := FieldErrorsOf(p, records);
    ErrorsAreRowwise(p, records, i);
    ErrorsAboutMembers(es, i);
    if k :| 0 <= k < |es| && es[k].row == i {
      assert es[k] in es;
    }
  }

  lemma {:induction false} ViolationRowIff(p: Parser, records: seq<Record>, i: nat)
    requires RowsAreIndices(records)
    ensures (exists v :: v in ViolationsOf(p, records) && v.row == i) <==> i < |records| && Violates(p, records[i])
  {
    var vs := ViolationsOf(p, records);
    ViolationsExact(p, records);
    if i < |records| && Violates(p, records[i]) {
      var k :| 0 <= k < |vs| && vs[k].row == i;
      assert vs[k] in vs;
    }
    if v :| v in vs && v.row == i {
      var k :| 0 <= k < |vs| && vs[k] == v;
    }
  }

  lemma {:induction false} IssueRowIff(p: Parser, rows: seq<Row>, i: nat)
    ensures i in RowsWithIssues(ParseOf(p, rows)) <==> i < |rows| && !RowIsValid(p, RecordOf(p, rows[i], i))
  {
    ErrorRowIff(p, RecordsOf(p, rows), i);
    ViolationRowIff(p, RecordsOf(p, rows), i);
  }

  lemma {:induction false} CountBelow(s: set<nat>, n: nat)
    requires forall i :: i in s ==> i < n
    ensures |s| <= n
  {
    if n > 0 {
      CountBelow(s - {n - 1}, n - 1);
    }
  }

  /** Rows are conserved: validated and invalid add up to the rows, both non-negative;
      invalid counts exactly the rows that fail a check of their own; every reported row
      number is one of 1..n. */
  lemma {:induction false} AggregateConservesRows(p: Parser, rows: seq<Row>)
    ensures var report := Aggregate(ParseOf(p, rows));
            && report.validated + report.invalid == |rows|
            && report.validated >= 0
            && report.invalid == |set i: nat | i < |rows| && !RowIsValid(p, RecordOf(p, rows[i], i))|
            && (forall k :: 0 <= k < |report.fieldErrors| ==> 1 <= report.fieldErrors[k].row <= |rows|)
            && (forall k :: 0 <= k < |report.violations| ==> 1 <= report.violations[k].row <= |rows|)
  {
    var parsed := ParseOf(p, rows);
    var bad := set i: nat | i < |rows| && !RowIsValid(p, RecordOf(p, rows[i], i));
    forall i: nat ensures i in RowsWithIssues(parsed) <==> i in bad {
      IssueRowIff(p, rows, i);
    }
    assert RowsWithIssues(parsed) == bad;
    CountBelow(bad, |rows|);
    forall k | 0 <= k < |parsed.fieldErrors| ensures parsed.fieldErrors[k].row < |rows| {
      assert parsed.fieldErrors[k] in parsed.fieldErrors;
      assert parsed.fieldErrors[k].row in RowsWithIssues(parsed);
    }
    forall k | 0 <= k < |parsed.violations| ensures parsed.violations[k].row < |rows| {
      assert parsed.violations[k] in parsed.violations;
      assert parsed.violations[k].row in RowsWithIssues(parsed);
    }
  }

  /** The placeholder check on addresses can never fire in the program's parser: every
      placeholder is already too short to be an address. */
  lemma PlaceholdersAreTooShort(fieldMap: map<Logical, string>, r: Record)
    ensures forall k :: 0 <= k < |AddressErrors(TableParser(fieldMap), r)| ==>
              AddressErrors(TableParser(fieldMap), r)[k].reason == BadAddress
  {
  }
}
