/** Parsing messy amount strings, and the renderings it inverts.  A decimal is an exact
    scaled integer: `coefficient / 10^scale`. */
module Amounts {
  import opened Common

  datatype Decimal = Decimal(coefficient: int, scale: nat)

  datatype AmountError = EmptyAmount | Unparseable(raw: string)

  function Pow10(n: nat): (r: nat)
    ensures r > 0
  {
    if n == 0 then 1 else 10 * Pow10(n - 1)
  }

  /** The number a decimal stands for. */
  function Worth(d: Decimal): real {
    d.coefficient as real / Pow10(d.scale) as real
  }

  // ---------------------------------------------------------- string pieces

  /** Python's ASCII whitespace. */
  predicate IsSpace(c: char) {
    c == ' ' || '\t' <= c <= '\r' || '\U{001C}' <= c <= '\U{001F}'
  }

  predicate IsDigit(c: char) {
    '0' <= c <= '9'
  }

  predicate AllDigits(s: string) {
    forall i :: 0 <= i < |s| ==> IsDigit(s[i])
  }

  function LStrip(s: string): string {
    if s != [] && IsSpace(s[0]) then LStrip(s[1..]) else s
  }

  function RStrip(s: string): string {
    if s != [] && IsSpace(Last(s)) then RStrip(s[..|s| - 1]) else s
  }

  function Strip(s: string): string {
    RStrip(LStrip(s))
  }

  /** The text without its leading signs. */
  function LStripSigns(s: string): string {
    if s != [] && (s[0] == '+' || s[0] == '-') then LStripSigns(s[1..]) else s
  }

  function LowerChar(c: char): char {
    if 'A' <= c <= 'Z' then (c as int + 32) as char else c
  }

  function Lower(s: string): (t: string)
    ensures |t| == |s| && forall i :: 0 <= i < |s| ==> t[i] == LowerChar(s[i])
  {
    if s == [] then [] else [LowerChar(s[0])] + Lower(s[1..])
  }

  /** The characters of `s` outside `gone`. */
  function Without(s: string, gone: string): string {
    if s == [] then []
    else if s[0] in gone then Without(s[1..], gone)
    else [s[0]] + Without(s[1..], gone)
  }

  /** `s.replace(a, b)` on single characters. */
  function Subst(s: string, a: char, b: char): string {
    if s == [] then [] else [if s[0] == a then b else s[0]] + Subst(s[1..], a, b)
  }

  /** The last position of `c`, or -1. */
  function RFind(s: string, c: char): (k: int)
    ensures -1 <= k < |s|
    ensures k >= 0 ==> s[k] == c
    ensures forall i :: k < i < |s| ==> s[i] != c
  {
    if s == [] then -1
    else if Last(s) == c then |s| - 1
    else RFind(s[..|s| - 1], c)
  }

  /** The parts between separators; one more than there are separators. */
  function Split(s: string, c: char): (parts: seq<string>)
    ensures parts != []
  {
    if s == [] then [[]]
    else if s[0] == c then [[]] + Split(s[1..], c)
    else
      var rest := Split(s[1..], c);
      [[s[0]] + rest[0]] + rest[1..]
  }

  // ---------------------------------------------------------------- parsing

  const CURRENCY_SYMBOLS: string := ['\U{00A5}', '$', '\U{20AC}', '\U{00A3}', '\U{FFE5}']

  const DECORATION: string := CURRENCY_SYMBOLS + " "

  /** Texts that stand for a missing amount, after lower-casing. */
  predicate IsPlaceholder(s: string) {
    s == "n/a" || s == "na" || s == "null" || s == "none" || s == "-"
  }

  function Number(digits: string): nat
    requires AllDigits(digits)
  {
    if digits == [] then 0
    else 10 * Number(digits[..|digits| - 1]) + (Last(digits) as int - '0' as int)
  }

  /** Python's decimal literal: optional sign, digits, optional point and digits. */
  function ParseDecimal(s: string): Option<Decimal> {
    var t := Strip(s);
    var signed := t != [] && (t[0] == '+' || t[0] == '-');
    var body := if signed then t[1..] else t;
    var parts := Split(body, '.');
    var whole := parts[0];
    var fraction := if |parts| == 2 then parts[1] else [];
    if |parts| <= 2 && whole + fraction != [] && AllDigits(whole + fraction) then
      var n: int := Number(whole + fraction);
      Some(Decimal(if signed && t[0] == '-' then -n else n, |fraction|))
    else None
  }

  /** The last separator is the decimal point, with a heuristic for a lone comma. */
  function ResolveSeparators(s: string): string {
    if ',' in s && '.' in s then
      if RFind(s, ',') > RFind(s, '.') then Subst(Without(s, "."), ',', '.') else Without(s, ",")
    else if ',' in s then
      var parts := Split(s, ',');
      if |parts| == 2 && parts[0] != [] && AllDigits(parts[0]) && 1 <= |parts[1]| <= 2
      then Subst(s, ',', '.') else Without(s, ",")
    else s
  }

  predicate InParentheses(s: string) {
    |s| >= 2 && s[0] == '(' && Last(s) == ')'
  }

  /** No amount at all: blank, or a placeholder. */
  predicate IsMissing(s: string) {
    s == [] || IsPlaceholder(Lower(s))
  }

  /** The figures left of a trimmed text: no parentheses, leading signs, symbols or spaces. */
  function Bare(s: string): string {
    Without(LStripSigns(if InParentheses(s) then s[1..|s| - 1] else s), DECORATION)
  }

  function Negated(v: Decimal): Decimal {
    v.(coefficient := -v.coefficient)
  }

  /** What `parse_amount` computes. */
  function AmountOf(raw: Option<string>): Result<Decimal, AmountError> {
    if raw.None? then Err(EmptyAmount)
    else
      var s := Strip(raw.value);
      if IsMissing(s) then Err(Unparseable(raw.value))
      else
        match ParseDecimal(ResolveSeparators(Bare(s)))
        case None => Err(Unparseable(raw.value))
        case Some(v) => Ok(if InParentheses(s) then Negated(v) else v)
  }

  /** Removing the symbols one kind at a time removes them all. */
  lemma {:induction false} WithoutOneMore(s: string, gone: string, c: char)
    ensures Without(Without(s, gone), [c]) == Without(s, gone + [c])
  {
    if s != [] {
      WithoutOneMore(s[1..], gone, c);
      if s[0] !in gone {
        assert ([s[0]] + Without(s[1..], gone))[1..] == Without(s[1..], gone);
      }
    }
  }

  lemma {:induction false} WithoutNothing(s: string)
    ensures Without(s, []) == s
  {
    if s != [] {
      WithoutNothing(s[1..]);
    }
  }

  method Undecorate(text: string) returns (s: string)
    ensures s == Without(text, DECORATION)
  {
    s := text;
    var symbols := DECORATION;
    WithoutNothing(text);
    for i := 0 to |symbols|
      invariant s == Without(text, symbols[..i])
    {
      WithoutOneMore(text, symbols[..i], symbols[i]);
      assert symbols[..i + 1] == symbols[..i] + [symbols[i]];
      s := Without(s, [symbols[i]]);
    }
    assert symbols[..|symbols|] == symbols;
  }

  method ParseAmount(raw: Option<string>) returns (r: Result<Decimal, AmountError>)
    ensures r == AmountOf(raw)
  {
    if raw.None? {
      return Err(EmptyAmount);
    }
    var s := Strip(raw.value);
    if IsMissing(s) {
      return Err(Unparseable(raw.value));
    }
    var negative := false;
    if InParentheses(s) {
      negative := true;
      s := s[1..|s| - 1];
    }
    s := LStripSigns(s);
    s := Undecorate(s);
    s := ResolveSeparators(s);
    var value := ParseDecimal(s);
    if value.None? {
      return Err(Unparseable(raw.value));
    }
    r := Ok(if negative then Negated(value.value) else value.value);
  }
}
