/** Rows of a table as they are read from a file, before any field is interpreted. */
module Tables {
  import opened Common
  import Amounts

  /** A row maps column headers to cells; a cell may be empty. */
  type Row = map<string, Option<string>>

  /** Trimmed text, or nothing when blank. */
  function Norm(cell: Option<string>): Option<string> {
    if cell.None? || Amounts.Strip(cell.value) == [] then None else Some(Amounts.Strip(cell.value))
  }

  /** The cell a row has under the header that holds a field, if it has one. */
  ghost predicate HoldsCell<Field>(headers: map<Field, string>, row: Row, field: Field, cell: Option<string>) {
    if field in headers && headers[field] in row then cell == row[headers[field]] else cell == None
  }

  ghost predicate Blank(text: string) {
    forall c :: c in text ==> Amounts.IsSpace(c)
  }

  /** What is shown of a cell: nothing of an empty or blank one, else its text without the
      white space around it. */
  ghost predicate Shown(cell: Option<string>, value: Option<string>) {
    if cell.None? || Blank(cell.value) then value == None
    else
      && value.Some? && value.value != []
      && !Amounts.IsSpace(value.value[0]) && !Amounts.IsSpace(Last(value.value))
      && exists a, b :: Blank(a) && Blank(b) && cell.value == a + value.value + b
  }

  lemma {:induction false} LStripIs(s: string) returns (a: string)
    ensures Blank(a) && s == a + Amounts.LStrip(s)
    ensures Amounts.LStrip(s) != [] ==> !Amounts.IsSpace(Amounts.LStrip(s)[0])
  {
    if s != [] && Amounts.IsSpace(s[0]) {
      var rest := LStripIs(s[1..]);
      a := [s[0]] + rest;
      assert s == [s[0]] + s[1..];
    } else {
      a := [];
    }
  }

  lemma {:induction false} RStripIs(s: string) returns (b: string)
    ensures Blank(b) && s == Amounts.RStrip(s) + b
    ensures Amounts.RStrip(s) != [] ==> !Amounts.IsSpace(Last(Amounts.RStrip(s)))
  {
    if s != [] && Amounts.IsSpace(Last(s)) {
      var rest := RStripIs(s[..|s| - 1]);
      b := rest + [Last(s)];
      assert s == s[..|s| - 1] + [Last(s)];
    } else {
      b := [];
    }
  }

  lemma {:induction false} StripIs(s: string) returns (a: string, b: string)
    ensures Blank(a) && Blank(b) && s == a + Amounts.Strip(s) + b
    ensures var t := Amounts.Strip(s);
            t != [] ==> !Amounts.IsSpace(t[0]) && !Amounts.IsSpace(Last(t))
  {
    a := LStripIs(s);
    var t := Amounts.LStrip(s);
    b := RStripIs(t);
    assert Amounts.RStrip(t) != [] ==> Amounts.RStrip(t)[0] == t[0];
  }

  lemma {:induction false} NormShows(cell: Option<string>)
    ensures Shown(cell, Norm(cell))
  {
    if cell.Some? {
      var a, b := StripIs(cell.value);
      var t := Amounts.Strip(cell.value);
      assert t != [] ==> t[0] in cell.value;
      assert t == [] ==> forall c :: c in cell.value ==> c in a || c in b;
    }
  }
}
