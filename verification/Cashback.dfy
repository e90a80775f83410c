/** Parsing a rebate table into records, duplicate flags and amount errors. */
module Cashback {
  import opened Common
  import opened Amounts
  import opened Tables

  /** The logical fields the parser reads, and any others a field map may name. */
  datatype Logical = TxnId | UserId | AmountField | CurrencyField | StatusField | DateField | OtherField(name: string)

  /** Which header holds which field, the field whose value identifies a row, and how
      amount texts are read.  Nothing below depends on how they are read. */
  datatype Parser = Parser(
    fieldMap: map<Logical, string>, dedupKey: Logical, parseAmount: string -> Result<Decimal, AmountError>)

  /** The parser the program builds: amounts are read by `AmountOf`. */
  function TableParser(fieldMap: map<Logical, string>, dedupKey: Logical): Parser {
    Parser(fieldMap, dedupKey, text => AmountOf(Some(text)))
  }

  datatype Record = Record(
    row: nat,
    txnId: Option<string>,
    userId: Option<string>,
    amount: Option<Decimal>,
    currency: Option<string>,
    status: Option<string>,
    date: Option<string>)

  datatype Kind = Duplicate | AmountFormat | StatusInvalid | StatusMissing | ArrivalGap

  datatype Detail =
    | DuplicateOf(key: string, firstRow: nat)
    | MissingAmount
    | BadAmount(error: AmountError)
    | AboutStatus(status: Option<string>)

  datatype Issue = Issue(kind: Kind, row: nat, detail: Detail, txnId: Option<string>)

  datatype ParseResult = ParseResult(
    rowCount: nat, records: seq<Record>, duplicates: seq<Issue>, amountErrors: seq<Issue>)

  function Lookup(p: Parser, row: Row, logical: Logical): Option<string> {
    if logical in p.fieldMap && p.fieldMap[logical] in row then row[p.fieldMap[logical]] else None
  }

  function Field(p: Parser, row: Row, logical: Logical): Option<string> {
    Norm(Lookup(p, row, logical))
  }

  /** The row's amount, or what is wrong with it. */
  function AmountIn(p: Parser, row: Row): Result<Decimal, Detail> {
    var cell := Lookup(p, row, AmountField);
    if Norm(cell).None? then Err(MissingAmount)
    else match p.parseAmount(cell.value)
      case Ok(v) => Ok(v)
      case Err(e) => Err(BadAmount(e))
  }

  function RecordOf(p: Parser, row: Row, i: nat): Record {
    Record(i, Field(p, row, TxnId), Field(p, row, UserId),
           if AmountIn(p, row).Ok? then Some(AmountIn(p, row).value) else None,
           Field(p, row, CurrencyField), Field(p, row, StatusField), Field(p, row, DateField))
  }

  function KeyOf(p: Parser, row: Row): Option<string> {
    Field(p, row, p.dedupKey)
  }

  // ------------------------------------------------- what parsing should say

  predicate KeyOccurs(p: Parser, rows: seq<Row>, key: string) {
    exists i :: 0 <= i < |rows| && KeyOf(p, rows[i]) == Some(key)
  }

  /** The first row with that key. */
  function FirstRow(p: Parser, rows: seq<Row>, key: string): (i: nat)
    requires KeyOccurs(p, rows, key)
    ensures i < |rows| && KeyOf(p, rows[i]) == Some(key)
    ensures forall j :: 0 <= j < i ==> KeyOf(p, rows[j]) != Some(key)
  {
    if KeyOf(p, rows[0]) == Some(key) then 0
    else
      assert KeyOccurs(p, rows[1..], key) by {
        var i :| 0 <= i < |rows| && KeyOf(p, rows[i]) == Some(key);
        assert rows[1..][i - 1] == rows[i];
      }
      FirstRow(p, rows[1..], key) + 1
  }

  /** A row is a duplicate when an earlier row has its key. */
  predicate IsDuplicate(p: Parser, rows: seq<Row>, i: nat)
    requires i < |rows|
  {
    KeyOf(p, rows[i]).Some? && KeyOccurs(p, rows[..i], KeyOf(p, rows[i]).value)
  }

  function DuplicateIssue(p: Parser, rows: seq<Row>, i: nat): Issue
    requires i < |rows| && IsDuplicate(p, rows, i)
  {
    var key := KeyOf(p, rows[i]).value;
    Issue(Duplicate, i, DuplicateOf(key, FirstRow(p, rows[..i], key)), Some(key))
  }

  predicate HasNoAmount(p: Parser, rows: seq<Row>, i: nat)
    requires i < |rows|
  {
    AmountIn(p, rows[i]).Err?
  }

  function AmountIssue(p: Parser, rows: seq<Row>, i: nat): Issue
    requires i < |rows| && HasNoAmount(p, rows, i)
  {
    Issue(AmountFormat, i, AmountIn(p, rows[i]).error, Field(p, rows[i], TxnId))
  }

  /** Issues are listed by row. */
  ghost predicate ByRow(issues: seq<Issue>) {
    forall j, k :: 0 <= j < k < |issues| ==> issues[j].row < issues[k].row
  }

  /** Some issue names the row. */
  predicate Names(issues: seq<Issue>, row: nat) {
    exists k :: 0 <= k < |issues| && issues[k].row == row
  }

  /** Of the first n rows, exactly the duplicates are listed, in order, each with its key's first row. */
  ghost predicate FlagsDuplicates(p: Parser, rows: seq<Row>, n: nat, issues: seq<Issue>)
    requires n <= |rows|
  {
    && ByRow(issues)
    && (forall k :: 0 <= k < |issues| ==>
          issues[k].row < n && IsDuplicate(p, rows, issues[k].row)
              && issues[k] == DuplicateIssue(p, rows, issues[k].row))
    && (forall i :: 0 <= i < n && IsDuplicate(p, rows, i) ==> Names(issues, i))
  }

  /** Of the first n rows, exactly those without an amount are listed, in order, each with the reason. */
  ghost predicate FlagsAmounts(p: Parser, rows: seq<Row>, n: nat, issues: seq<Issue>)
    requires n <= |rows|
  {
    && ByRow(issues)
    && (forall k :: 0 <= k < |issues| ==>
          issues[k].row < n && HasNoAmount(p, rows, issues[k].row) && issues[k] == AmountIssue(p, rows, issues[k].row))
    && (forall i :: 0 <= i < n && HasNoAmount(p, rows, i) ==> Names(issues, i))
  }

  ghost predicate Parses(p: Parser, rows: seq<Row>, r: ParseResult) {
    && r.rowCount == |rows| && |r.records| == |rows|
    && (forall i :: 0 <= i < |rows| ==> r.records[i] == RecordOf(p, rows[i], i))
    && FlagsDuplicates(p, rows, |rows|, r.duplicates)
    && FlagsAmounts(p, rows, |rows|, r.amountErrors)
  }

  // ------------------------------------------------------------- the parser

  /** Adding at most one issue, about row n, to a list about earlier rows. */
  lemma {:induction false} ListMore(issues: seq<Issue>, n: nat, more: seq<Issue>)
    requires ByRow(issues) && forall k :: 0 <= k < |issues| ==> issues[k].row < n
    requires more == [] || (|more| == 1 && more[0].row == n)
    ensures ByRow(issues + more) && forall k :: 0 <= k < |issues + more| ==> (issues + more)[k].row < n + 1
    ensures forall i :: Names(issues + more, i) <==> Names(issues, i) || (more != [] && i == n)
  {
    var all := issues + more;
    forall i ensures Names(all, i) <==> Names(issues, i) || (more != [] && i == n) {
      if Names(issues, i) {
        var j :| 0 <= j < |issues| && issues[j].row == i;
        assert all[j].row == i;
      }
      if more != [] && i == n {
        assert all[|issues|].row == i;
      }
    }
  }

  function RecordsOf(p: Parser, rows: seq<Row>, n: nat): (r: seq<Record>)
    requires n <= |rows|
    ensures |r| == n
  {
    if n == 0 then [] else RecordsOf(p, rows, n - 1) + [RecordOf(p, rows[n - 1], n - 1)]
  }

  function DuplicatesOf(p: Parser, rows: seq<Row>, n: nat): seq<Issue>
    requires n <= |rows|
  {
    if n == 0 then []
    else DuplicatesOf(p, rows, n - 1) + (if IsDuplicate(p, rows, n - 1) then [DuplicateIssue(p, rows, n - 1)] else [])
  }

  function AmountErrorsOf(p: Parser, rows: seq<Row>, n: nat): seq<Issue>
    requires n <= |rows|
  {
    if n == 0 then []
    else AmountErrorsOf(p, rows, n - 1) + (if HasNoAmount(p, rows, n - 1) then [AmountIssue(p, rows, n - 1)] else [])
  }

  function ParseOf(p: Parser, rows: seq<Row>): ParseResult {
    var n := |rows|;
    ParseResult(n, RecordsOf(p, rows, n), DuplicatesOf(p, rows, n), AmountErrorsOf(p, rows, n))
  }

  lemma {:induction false} DuplicatesExact(p: Parser, rows: seq<Row>, n: nat)
    requires n <= |rows|
    ensures FlagsDuplicates(p, rows, n, DuplicatesOf(p, rows, n))
  {
    if n > 0 {
      DuplicatesExact(p, rows, n - 1);
      FlagsMoreDuplicates(p, rows, n - 1, DuplicatesOf(p, rows, n - 1));
      DuplicatesStep(p, rows, n - 1);
    }
  }

  lemma {:induction false} DuplicatesStep(p: Parser, rows: seq<Row>, n: nat)
    requires n < |rows|
    ensures var more := if IsDuplicate(p, rows, n) then [DuplicateIssue(p, rows, n)] else [];
            DuplicatesOf(p, rows, n + 1) == DuplicatesOf(p, rows, n) + more
  {
  }

  lemma {:induction false} FlagsMoreDuplicates(p: Parser, rows: seq<Row>, n: nat, issues: seq<Issue>)
    requires n < |rows| && FlagsDuplicates(p, rows, n, issues)
    ensures var more := if IsDuplicate(p, rows, n) then [DuplicateIssue(p, rows, n)] else [];
            FlagsDuplicates(p, rows, n + 1, issues + more)
  {
    ListMore(issues, n, if IsDuplicate(p, rows, n) then [DuplicateIssue(p, rows, n)] else []);
  }

  lemma {:induction false} AmountErrorsExact(p: Parser, rows: seq<Row>, n: nat)
    requires n <= |rows|
    ensures FlagsAmounts(p, rows, n, AmountErrorsOf(p, rows, n))
  {
    if n > 0 {
      AmountErrorsExact(p, rows, n - 1);
      FlagsMoreAmounts(p, rows, n - 1, AmountErrorsOf(p, rows, n - 1));
    }
  }

  lemma {:induction false} FlagsMoreAmounts(p: Parser, rows: seq<Row>, n: nat, issues: seq<Issue>)
    requires n < |rows| && FlagsAmounts(p, rows, n, issues)
    ensures FlagsAmounts(p, rows, n + 1, issues + if HasNoAmount(p, rows, n) then [AmountIssue(p, rows, n)] else [])
  {
    var more := if HasNoAmount(p, rows, n) then [AmountIssue(p, rows, n)] else [];
    ListMore(issues, n, more);
  }

  lemma {:induction false} RecordsExact(p: Parser, rows: seq<Row>, n: nat)
    requires n <= |rows|
    ensures forall i :: 0 <= i < n ==> RecordsOf(p, rows, n)[i] == RecordOf(p, rows[i], i)
  {
    if n > 0 {
      RecordsExact(p, rows, n - 1);
    }
  }

  /** One record per row in order; exactly the rows whose key occurred before are flagged,
      each with the key's first row; exactly the rows without an amount are in error. */
  lemma {:induction false} ParseIsExact(p: Parser, rows: seq<Row>)
    ensures Parses(p, rows, ParseOf(p, rows))
  {
    RecordsExact(p, rows, |rows|);
    DuplicatesExact(p, rows, |rows|);
    AmountErrorsExact(p, rows, |rows|);
  }

  /** What the dictionary of first-seen rows knows after `done`. */
  ghost predicate Remembers(p: Parser, done: seq<Row>, seen: map<string, nat>) {
    forall key :: (key in seen <==> KeyOccurs(p, done, key)) && (key in seen ==> seen[key] == FirstRow(p, done, key))
  }

  lemma {:induction false} OccursAfter(p: Parser, rows: seq<Row>, row: Row, key: string)
    ensures KeyOccurs(p, rows + [row], key) <==> KeyOccurs(p, rows, key) || KeyOf(p, row) == Some(key)
    ensures KeyOccurs(p, rows, key) ==> FirstRow(p, rows + [row], key) == FirstRow(p, rows, key)
    ensures !KeyOccurs(p, rows, key) && KeyOf(p, row) == Some(key) ==> FirstRow(p, rows + [row], key) == |rows|
  {
    var now := rows + [row];
    assert forall i :: 0 <= i < |rows| ==> now[i] == rows[i];
    assert now[|rows|] == row;
    if KeyOccurs(p, rows, key) {
      assert KeyOf(p, now[FirstRow(p, rows, key)]) == Some(key);
    }
  }

  lemma {:induction false} RemembersMore(p: Parser, rows: seq<Row>, k: nat, seen: map<string, nat>)
    requires k < |rows| && Remembers(p, rows[..k], seen)
    ensures var key := KeyOf(p, rows[k]);
            Remembers(p, rows[..k + 1], if key.Some? && key.value !in seen then seen[key.value := k] else seen)
  {
    RemembersOneMore(p, rows[..k], rows[k], seen);
    assert rows[..k + 1] == rows[..k] + [rows[k]];
  }

  lemma {:induction false} RemembersOneMore(p: Parser, rows: seq<Row>, row: Row, seen: map<string, nat>)
    requires Remembers(p, rows, seen)
    ensures var key := KeyOf(p, row);
            Remembers(p, rows + [row], if key.Some? && key.value !in seen then seen[key.value := |rows|] else seen)
  {
    var own := KeyOf(p, row);
    var seen' := if own.Some? && own.value !in seen then seen[own.value := |rows|] else seen;
    forall key
      ensures key in seen' <==> KeyOccurs(p, rows + [row], key)
      ensures key in seen' ==> seen'[key] == FirstRow(p, rows + [row], key)
    {
      OccursAfter(p, rows, row, key);
    }
  }

  /** Later occurrences of a key are flagged from a dictionary of first-seen rows; amount
      anomalies are recorded without aborting. */
  method ParseRows(p: Parser, rows: seq<Row>) returns (r: ParseResult)
    ensures r == ParseOf(p, rows)
  {
    var records: seq<Record> := [];
    var duplicates: seq<Issue> := [];
    var amountErrors: seq<Issue> := [];
    var seen: map<string, nat> := map[];
    for k := 0 to |rows|
      invariant records == RecordsOf(p, rows, k)
      invariant duplicates == DuplicatesOf(p, rows, k)
      invariant amountErrors == AmountErrorsOf(p, rows, k)
      invariant Remembers(p, rows[..k], seen)
    {
      RemembersMore(p, rows, k, seen);
      var amount := AmountIn(p, rows[k]);
      if amount.Err? {
        amountErrors := amountErrors + [AmountIssue(p, rows, k)];
      }
      var key := KeyOf(p, rows[k]);
      if key.Some? {
        if key.value in seen {
          duplicates := duplicates + [Issue(Duplicate, k, DuplicateOf(key.value, seen[key.value]), key)];
        } else {
          seen := seen[key.value := k];
        }
      }
      records := records + [RecordOf(p, rows[k], k)];
    }
    r := ParseResult(|rows|, records, duplicates, amountErrors);
  }

  /** So a row is named by a duplicate, or an amount error, exactly when it is one. */
  lemma {:induction false} NamedIff(p: Parser, rows: seq<Row>, i: nat)
    requires i < |rows|
    ensures Names(ParseOf(p, rows).duplicates, i) <==> IsDuplicate(p, rows, i)
    ensures Names(ParseOf(p, rows).amountErrors, i) <==> HasNoAmount(p, rows, i)
  {
    DuplicatesExact(p, rows, |rows|);
    AmountErrorsExact(p, rows, |rows|);
  }
}
