/** What a parsed table says of its cells: each field shows its own cell, each flag its own
    reason. */
module CashbackCells {
  import opened Common
  import opened Amounts
  import opened Tables
  import opened Cashback
  import AmountSoundness

  /** The value shows the row's cell for the field. */
  ghost predicate ShowsField(p: Parser, row: Row, field: Logical, value: Option<string>) {
    exists cell :: HoldsCell(p.fieldMap, row, field, cell) && Shown(cell, value)
  }

  lemma {:induction false} FieldShows(p: Parser, row: Row, field: Logical)
    ensures ShowsField(p, row, field, Field(p, row, field))
  {
    NormShows(Lookup(p, row, field));
    assert HoldsCell(p.fieldMap, row, field, Lookup(p, row, field));
  }

  /** The amount is what the row's amount text reads as, if it has one and it can be read. */
  ghost predicate ShowsAmount(p: Parser, row: Row, amount: Option<Decimal>) {
    exists cell :: HoldsCell(p.fieldMap, row, AmountField, cell) &&
      if cell.None? || Blank(cell.value) || p.parseAmount(cell.value).Err? then amount == None
      else amount == Some(p.parseAmount(cell.value).value)
  }

  /** Every record shows its own row, field by field. */
  lemma {:induction false} RecordShowsRow(p: Parser, rows: seq<Row>, i: nat)
    requires i < |rows|
    ensures |ParseOf(p, rows).records| == |rows|
    ensures var (row, r) := (rows[i], ParseOf(p, rows).records[i]);
            && r.row == i
            && ShowsField(p, row, TxnId, r.txnId) && ShowsField(p, row, UserId, r.userId)
            && ShowsField(p, row, CurrencyField, r.currency) && ShowsField(p, row, StatusField, r.status)
            && ShowsField(p, row, DateField, r.date) && ShowsAmount(p, row, r.amount)
  {
    RecordsExact(p, rows, |rows|);
    FieldShows(p, rows[i], TxnId);
    FieldShows(p, rows[i], UserId);
    FieldShows(p, rows[i], CurrencyField);
    FieldShows(p, rows[i], StatusField);
    FieldShows(p, rows[i], DateField);
    AmountShows(p, rows[i], i);
  }

  lemma {:induction false} AmountShows(p: Parser, row: Row, i: nat)
    ensures ShowsAmount(p, row, RecordOf(p, row, i).amount)
  {
    var cell := Lookup(p, row, AmountField);
    NormShows(cell);
    assert HoldsCell(p.fieldMap, row, AmountField, cell);
  }

  /** A row is in error for its amount exactly when it shows none, and the error says whether
      the cell was blank or what was wrong with its text. */
  lemma {:induction false} AmountErrorShows(p: Parser, rows: seq<Row>, i: nat)
    requires i < |rows|
    ensures Names(ParseOf(p, rows).amountErrors, i) <==> RecordOf(p, rows[i], i).amount == None
    ensures forall k :: 0 <= k < |ParseOf(p, rows).amountErrors| && ParseOf(p, rows).amountErrors[k].row == i ==>
              var (issue, cell) := (ParseOf(p, rows).amountErrors[k], Lookup(p, rows[i], AmountField));
              && issue.kind == AmountFormat && issue.txnId == RecordOf(p, rows[i], i).txnId
              && (if cell.None? || Blank(cell.value) then issue.detail == MissingAmount
                  else p.parseAmount(cell.value).Err? && issue.detail == BadAmount(p.parseAmount(cell.value).error))
  {
    NamedIff(p, rows, i);
    AmountErrorsExact(p, rows, |rows|);
    NormShows(Lookup(p, rows[i], AmountField));
  }

  /** A row repeats an earlier one's key. */
  ghost predicate RepeatsKey(p: Parser, rows: seq<Row>, i: nat, j: nat, key: string)
    requires i < |rows|
  {
    j < i && KeyOf(p, rows[i]) == Some(key) && KeyOf(p, rows[j]) == Some(key)
  }

  /** The key of a row is what it shows of the configured field; a duplicate names the key and
      the first row that has it. */
  lemma {:induction false} DuplicateShows(p: Parser, rows: seq<Row>, i: nat)
    requires i < |rows|
    ensures ShowsField(p, rows[i], p.dedupKey, KeyOf(p, rows[i]))
    ensures Names(ParseOf(p, rows).duplicates, i) <==> exists j: nat, key :: RepeatsKey(p, rows, i, j, key)
    ensures forall k :: 0 <= k < |ParseOf(p, rows).duplicates| && ParseOf(p, rows).duplicates[k].row == i ==>
              var issue := ParseOf(p, rows).duplicates[k];
              && issue.kind == Duplicate && issue.txnId == KeyOf(p, rows[i]) && issue.txnId.Some?
              && issue.detail.DuplicateOf? && issue.detail.key == issue.txnId.value
              && issue.detail.firstRow < i
              && KeyOf(p, rows[issue.detail.firstRow]) == issue.txnId
              && forall j :: 0 <= j < issue.detail.firstRow ==> KeyOf(p, rows[j]) != issue.txnId
  {
    FieldShows(p, rows[i], p.dedupKey);
    NamedIff(p, rows, i);
    DuplicatesExact(p, rows, |rows|);
    if IsDuplicate(p, rows, i) {
      var key := KeyOf(p, rows[i]).value;
      var j :| 0 <= j < i && KeyOf(p, rows[..i][j]) == Some(key);
      assert RepeatsKey(p, rows, i, j, key);
      FirstIsFirst(p, rows, i, key);
    }
    if j: nat, key :| RepeatsKey(p, rows, i, j, key) {
      assert KeyOf(p, rows[..i][j]) == Some(key);
    }
  }

  lemma {:induction false} FirstIsFirst(p: Parser, rows: seq<Row>, i: nat, key: string)
    requires i < |rows| && KeyOccurs(p, rows[..i], key)
    ensures var f := FirstRow(p, rows[..i], key);
            && f < i && KeyOf(p, rows[f]) == Some(key)
            && forall j :: 0 <= j < f ==> KeyOf(p, rows[j]) != Some(key)
  {
    var f := FirstRow(p, rows[..i], key);
    assert forall j :: 0 <= j < i ==> rows[..i][j] == rows[j];
  }

  /** In the parser the program builds, an amount cell without a digit, or with a letter or any
      other foreign character, puts its row in error. */
  lemma {:induction false} NoNumberNoAmount(fieldMap: map<Logical, string>, dedupKey: Logical, rows: seq<Row>, i: nat)
    requires i < |rows|
    requires var cell := Lookup(TableParser(fieldMap, dedupKey), rows[i], AmountField);
             cell.Some? ==> (forall c :: c in cell.value ==> !IsDigit(c)) ||
                            exists c :: c in cell.value && !IsDigit(c) && !AmountSoundness.IsPunctuation(c)
    ensures Names(ParseOf(TableParser(fieldMap, dedupKey), rows).amountErrors, i)
  {
    var p := TableParser(fieldMap, dedupKey);
    var cell := Lookup(p, rows[i], AmountField);
    NamedIff(p, rows, i);
    if cell.Some? {
      AmountSoundness.OthersAreRefused(cell.value);
    }
  }
}
