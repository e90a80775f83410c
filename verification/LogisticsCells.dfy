/** What a parsed logistics table and its report say of their rows, reason by reason. */
module LogisticsCells {
  import opened Common
  import opened LogisticsStatus
  import opened Tables
  import opened Logistics
  import Amounts
  import Luhn

  // ----------------------------------------------------------------- cells

  ghost predicate ShowsField(p: Parser, row: Row, field: Logical, value: Option<string>) {
    exists cell :: HoldsCell(p.fieldMap, row, field, cell) && Shown(cell, value)
  }

  lemma {:induction false} FieldShows(p: Parser, row: Row, field: Logical)
    ensures ShowsField(p, row, field, Field(p, row, field))
  {
    var cell := if field in p.fieldMap && p.fieldMap[field] in row then row[p.fieldMap[field]] else None;
    NormShows(cell);
    assert HoldsCell(p.fieldMap, row, field, cell);
  }

  /** One record per row, in order, each field showing its own cell. */
  lemma {:induction false} RecordShowsRow(p: Parser, rows: seq<Row>, i: nat)
    requires i < |rows|
    ensures ParseOf(p, rows).rowCount == |rows| == |ParseOf(p, rows).records|
    ensures var (row, r) := (rows[i], ParseOf(p, rows).records[i]);
            && r.row == i
            && ShowsField(p, row, TrackingNo, r.trackingNo) && ShowsField(p, row, PrevStatus, r.prev)
            && ShowsField(p, row, NewStatus, r.next) && ShowsField(p, row, Address, r.address)
            && ShowsField(p, row, CardNo, r.cardNo) && ShowsField(p, row, UpdatedAt, r.updatedAt)
  {
    FieldShows(p, rows[i], TrackingNo);
    FieldShows(p, rows[i], PrevStatus);
    FieldShows(p, rows[i], NewStatus);
    FieldShows(p, rows[i], Address);
    FieldShows(p, rows[i], CardNo);
    FieldShows(p, rows[i], UpdatedAt);
  }

  // ---------------------------------------------------------------- errors

  /** Whether a record gives rise to a field error, reason by reason. */
  ghost predicate ErrorOf(p: Parser, r: Record, e: FieldError) {
    && e.row == r.row && e.trackingNo == r.trackingNo
    && match e.reason
       case MissingTracking => e.field == TrackingNo && r.trackingNo == None
       case BadTracking => e.field == TrackingNo && r.trackingNo.Some? && !p.isTracking(r.trackingNo.value)
       case BadAddress => e.field == Address && (r.address == None || |r.address.value| < 5)
       case PlaceholderAddress =>
         e.field == Address && r.address.Some? && |r.address.value| >= 5 && p.isPlaceholder(r.address.value)
       case BadCard => e.field == CardNo && r.cardNo.Some? && !p.isCard(r.cardNo.value)
       case UnknownPrev(raw) => e.field == PrevStatus && r.prev == Some(raw) && p.normalize(r.prev) == None
       case UnknownNew(raw) => e.field == NewStatus && r.next == Some(raw) && p.normalize(r.next) == None
  }

  lemma {:induction false} RowErrorsExact(p: Parser, r: Record, e: FieldError)
    ensures e in RowErrors(p, r) <==> ErrorOf(p, r, e)
  {
    assert e in RowErrors(p, r) <==>
           e in TrackingErrors(p, r) || e in AddressErrors(p, r) || e in CardErrors(p, r) || e in StatusErrors(p, r);
  }

  /** Some record gives rise to it. */
  ghost predicate SomeErrorOf(p: Parser, records: seq<Record>, e: FieldError) {
    exists r :: r in records && ErrorOf(p, r, e)
  }

  lemma {:induction false} OneMoreRecord(p: Parser, records: seq<Record>, r: Record, e: FieldError)
    ensures SomeErrorOf(p, records + [r], e) <==> SomeErrorOf(p, records, e) || ErrorOf(p, r, e)
  {
    var all := records + [r];
    assert r in all && forall x :: x in records ==> x in all;
  }

  lemma {:induction false} FieldErrorsExact(p: Parser, records: seq<Record>, e: FieldError)
    ensures e in FieldErrorsOf(p, records) <==> SomeErrorOf(p, records, e)
  {
    if records != [] {
      var front, r := records[..|records| - 1], Last(records);
      FieldErrorsExact(p, front, e);
      RowErrorsExact(p, r, e);
      OneMoreRecord(p, front, r, e);
      assert records == front + [r];
    }
  }

  /** Whether a record's statuses are a forbidden change, and which. */
  ghost predicate ViolationOf(p: Parser, r: Record, v: StateViolation) {
    && v.row == r.row && v.trackingNo == r.trackingNo
    && p.normalize(r.prev) == Some(v.prev) && p.normalize(r.next) == Some(v.next)
    && v.prev != v.next && !IsAllowed(Some(v.prev), Some(v.next))
  }

  lemma {:induction false} AllViolationsExact(p: Parser, records: seq<Record>, v: StateViolation)
    ensures v in ViolationsOf(p, records) <==> exists r :: r in records && ViolationOf(p, r, v)
  {
    if records != [] {
      var front := records[..|records| - 1];
      AllViolationsExact(p, front, v);
      assert records == front + [Last(records)];
      assert v in RowViolations(p, Last(records)) <==> ViolationOf(p, Last(records), v);
    }
  }

  // ------------------------------------------------- the program's own table

  lemma {:induction false} OwnChecks(fieldMap: map<Logical, string>, text: string)
    ensures var p := TableParser(fieldMap);
            && (p.isTracking(text) <==>
                  && 6 <= |text| <= 32 && text[0] != '-'
                  && forall c :: c in text ==> 'A' <= c <= 'Z' || 'a' <= c <= 'z' || '0' <= c <= '9' || c == '-')
            && (p.isCard(text) <==> Luhn.CardValid(Some(text)))
            && p.normalize(Some(text)) == NormalizeStatus(Some(text)) && p.normalize(None) == None
  {
    if 6 <= |text| <= 32 {
      assert text[0] in text;
      assert forall i :: 0 <= i < |text| ==> text[i] in text;
      assert forall c :: c in text ==> exists i :: 0 <= i < |text| && text[i] == c;
    }
  }

  /** A row is without issues exactly when its number is 6 to 32 letters, digits and hyphens and
      starts with none of the latter, its address has five characters, its card number, if any,
      is valid, and its statuses, if any, are known and the change between them allowed. */
  lemma {:induction false} SoundRowMeans(fieldMap: map<Logical, string>, rows: seq<Row>, i: nat)
    requires i < |rows|
    ensures var parsed := ParseOf(TableParser(fieldMap), rows);
            && |parsed.records| == |rows|
            && var r := parsed.records[i];
               i !in RowsWithIssues(parsed) <==>
                 && r.trackingNo.Some? && IsTrackingNo(r.trackingNo.value)
                 && r.address.Some? && |r.address.value| >= 5
                 && (r.cardNo.Some? ==> Luhn.CardValid(r.cardNo))
                 && (r.prev.Some? ==> NormalizeStatus(r.prev).Some?)
                 && (r.next.Some? ==> NormalizeStatus(r.next).Some?)
                 && (r.prev.Some? && r.next.Some? ==> IsAllowed(NormalizeStatus(r.prev), NormalizeStatus(r.next)))
  {
    var p := TableParser(fieldMap);
    var r := RecordOf(p, rows[i], i);
    IssueRowIff(p, rows, i);
    SoundRecord(fieldMap, r);
  }

  lemma {:induction false} SoundRecord(fieldMap: map<Logical, string>, r: Record)
    ensures RowIsValid(TableParser(fieldMap), r) <==>
              && r.trackingNo.Some? && IsTrackingNo(r.trackingNo.value)
              && r.address.Some? && |r.address.value| >= 5
              && (r.cardNo.Some? ==> Luhn.CardValid(r.cardNo))
              && (r.prev.Some? ==> NormalizeStatus(r.prev).Some?)
              && (r.next.Some? ==> NormalizeStatus(r.next).Some?)
              && (r.prev.Some? && r.next.Some? ==> IsAllowed(NormalizeStatus(r.prev), NormalizeStatus(r.next)))
  {
    var p := TableParser(fieldMap);
    PlaceholdersAreTooShort(fieldMap, r);
    assert AddressErrors(p, r) == [] <==> r.address.Some? && |r.address.value| >= 5 by {
      assert AddressErrors(p, r) != [] ==> AddressErrors(p, r)[0].reason == BadAddress;
    }
    assert RowErrors(p, r) == [] <==>
           TrackingErrors(p, r) == [] && AddressErrors(p, r) == [] && CardErrors(p, r) == []
               && StatusErrors(p, r) == [];
  }

  // ----------------------------------------------------------------- report

  /** The report repeats every error and violation, in order, with rows counted from one. */
  lemma {:induction false} ReportShows(p: Parser, rows: seq<Row>)
    ensures var (parsed, report) := (ParseOf(p, rows), Aggregate(ParseOf(p, rows)));
            && |report.fieldErrors| == |parsed.fieldErrors| && |report.violations| == |parsed.violations|
            && (forall k :: 0 <= k < |parsed.fieldErrors| ==>
                  var (e, shown) := (parsed.fieldErrors[k], report.fieldErrors[k]);
                  shown.row == e.row + 1 && shown.field == e.field && shown.reason == e.reason)
            && (forall k :: 0 <= k < |parsed.violations| ==>
                  var (v, shown) := (parsed.violations[k], report.violations[k]);
                  shown.row == v.row + 1 && shown.prev == v.prev && shown.next == v.next)
            && forall i :: i in RowsWithIssues(parsed) <==>
                 (exists e :: e in parsed.fieldErrors && e.row == i) || exists v :: v in parsed.violations && v.row == i
  {
  }
}
