/** Laws of cashback parsing that do not depend on how rows are ordered. */
module CashbackLaws {
  import opened Common
  import opened Amounts
  import opened Tables
  import opened Cashback

  function WorthOf(amount: Option<Decimal>): real {
    if amount.Some? then Worth(amount.value) else 0.0
  }

  function RowWorth(p: Parser, row: Row): real {
    if AmountIn(p, row).Ok? then Worth(AmountIn(p, row).value) else 0.0
  }

  /** How many rows carry a key. */
  function Keyed(p: Parser, rows: seq<Row>): nat {
    if rows == [] then 0
    else Keyed(p, rows[..|rows| - 1]) + (if KeyOf(p, Last(rows)).Some? then 1 else 0)
  }

  /** The sum of the amounts that can be read. */
  function Total(p: Parser, rows: seq<Row>): real {
    if rows == [] then 0.0
    else Total(p, rows[..|rows| - 1]) + RowWorth(p, Last(rows))
  }

  ghost function Keys(p: Parser, rows: seq<Row>): set<string> {
    set row | row in rows && KeyOf(p, row).Some? :: KeyOf(p, row).value
  }

  lemma {:induction false} KeysOccur(p: Parser, rows: seq<Row>, key: string)
    ensures key in Keys(p, rows) <==> KeyOccurs(p, rows, key)
  {
  }

  lemma {:induction false} OneMoreKey(p: Parser, rows: seq<Row>, row: Row)
    ensures Keyed(p, rows + [row]) == Keyed(p, rows) + (if KeyOf(p, row).Some? then 1 else 0)
    ensures |Keys(p, rows + [row])| == |Keys(p, rows)| +
              (if KeyOf(p, row).Some? && !KeyOccurs(p, rows, KeyOf(p, row).value) then 1 else 0)
  {
    assert (rows + [row])[..|rows|] == rows;
    if KeyOf(p, row).Some? {
      KeysOccur(p, rows, KeyOf(p, row).value);
      assert Keys(p, rows + [row]) == Keys(p, rows) + {KeyOf(p, row).value};
    } else {
      assert Keys(p, rows + [row]) == Keys(p, rows);
    }
  }

  /** There are as many duplicates as keyed rows beyond the distinct keys. */
  lemma {:induction false} DuplicateCount(p: Parser, rows: seq<Row>, n: nat)
    requires n <= |rows|
    ensures |DuplicatesOf(p, rows, n)| == Keyed(p, rows[..n]) - |Keys(p, rows[..n])|
  {
    if n > 0 {
      DuplicateCount(p, rows, n - 1);
      assert rows[..n] == rows[..n - 1] + [rows[n - 1]];
      OneMoreKey(p, rows[..n - 1], rows[n - 1]);
    }
  }

  function Omit(rows: seq<Row>, i: nat): (r: seq<Row>)
    requires i < |rows|
    ensures |r| == |rows| - 1
  {
    rows[..i] + rows[i + 1..]
  }

  /** Taking one row out takes out its share. */
  lemma {:induction false} KeyedWithout(p: Parser, rows: seq<Row>, i: nat)
    requires i < |rows|
    ensures Keyed(p, rows) == Keyed(p, Omit(rows, i)) + (if KeyOf(p, rows[i]).Some? then 1 else 0)
  {
    var front := rows[..|rows| - 1];
    if i < |front| {
      KeyedWithout(p, front, i);
      assert Omit(rows, i)[..|front| - 1] == Omit(front, i);
    } else {
      assert Omit(rows, i) == front;
    }
  }

  lemma {:induction false} TotalWithout(p: Parser, rows: seq<Row>, i: nat)
    requires i < |rows|
    ensures Total(p, rows) == Total(p, Omit(rows, i)) + RowWorth(p, rows[i])
  {
    var front := rows[..|rows| - 1];
    if i < |front| {
      TotalWithout(p, front, i);
      assert Omit(rows, i)[..|front| - 1] == Omit(front, i);
    } else {
      assert Omit(rows, i) == front;
    }
  }

  lemma CancelOne(a: multiset<Row>, b: multiset<Row>, x: Row)
    requires a + multiset{x} == b + multiset{x}
    ensures a == b
  {
    assert a == a + multiset{x} - multiset{x};
    assert b == b + multiset{x} - multiset{x};
  }

  lemma {:induction false} WithoutOne(rows: seq<Row>, i: nat)
    requires i < |rows|
    ensures multiset(rows) == multiset(Omit(rows, i)) + multiset{rows[i]}
  {
    assert rows == rows[..i] + [rows[i]] + rows[i + 1..];
  }

  /** A permutation holds the other's last row somewhere, and permutes the rest. */
  lemma {:induction false} FindLast(a: seq<Row>, b: seq<Row>) returns (i: nat)
    requires a != [] && multiset(a) == multiset(b)
    ensures i < |b| && b[i] == Last(a) && multiset(Omit(b, i)) == multiset(a[..|a| - 1])
  {
    var front, x := a[..|a| - 1], Last(a);
    assert a == front + [x];
    assert x in multiset(b);
    i :| 0 <= i < |b| && b[i] == x;
    WithoutOne(b, i);
    assert multiset(a) == multiset(front) + multiset{x};
    CancelOne(multiset(front), multiset(Omit(b, i)), x);
  }

  lemma {:induction false} SumsPermuted(p: Parser, a: seq<Row>, b: seq<Row>)
    requires multiset(a) == multiset(b)
    ensures Keyed(p, a) == Keyed(p, b) && Total(p, a) == Total(p, b)
  {
    assert |a| == |multiset(a)| == |multiset(b)| == |b|;
    if a != [] {
      var i := FindLast(a, b);
      SumsPermuted(p, a[..|a| - 1], Omit(b, i));
      KeyedWithout(p, b, i);
      TotalWithout(p, b, i);
    }
  }

  /** Neither the number of duplicates nor the total depends on the order of the rows. */
  lemma {:induction false} OrderDoesNotMatter(p: Parser, a: seq<Row>, b: seq<Row>)
    requires multiset(a) == multiset(b)
    ensures |ParseOf(p, a).duplicates| == |ParseOf(p, b).duplicates|
    ensures TotalOf(ParseOf(p, a).records) == TotalOf(ParseOf(p, b).records)
  {
    SumsPermuted(p, a, b);
    DuplicateCount(p, a, |a|);
    DuplicateCount(p, b, |b|);
    assert a[..|a|] == a && b[..|b|] == b;
    assert Keys(p, a) == Keys(p, b) by {
      assert forall row :: row in a <==> row in multiset(a);
      assert forall row :: row in b <==> row in multiset(b);
    }
    TotalIsSum(p, a, |a|);
    TotalIsSum(p, b, |b|);
  }

  /** The sum of the amounts that could be read. */
  function TotalOf(records: seq<Record>): real {
    if records == [] then 0.0
    else TotalOf(records[..|records| - 1]) + WorthOf(Last(records).amount)
  }

  lemma {:induction false} TotalIsSum(p: Parser, rows: seq<Row>, n: nat)
    requires n <= |rows|
    ensures TotalOf(RecordsOf(p, rows, n)) == Total(p, rows[..n])
  {
    if n > 0 {
      TotalIsSum(p, rows, n - 1);
      assert rows[..n][..n - 1] == rows[..n - 1];
      var records := RecordsOf(p, rows, n);
      assert records[..n - 1] == RecordsOf(p, rows, n - 1);
    }
  }
}
