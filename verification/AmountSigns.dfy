/** Amounts written with a sign: where the sign is dropped, and what is read where it is not. */
module AmountSigns {
  import opened Common
  import opened Amounts
  import opened AmountRoundTrip

  predicate IsSign(c: char) {
    c == '+' || c == '-'
  }

  predicate AllSpaces(s: string) {
    forall i :: 0 <= i < |s| ==> IsSpace(s[i])
  }

  /** A rendering with a sign somewhere before the figures. */
  function RenderSigned(a: Amount, style: Style, before: string, sign: char, between: string, after: string): string {
    var inner := before + ([sign] + (between + Figures(a, style) + after));
    if a.negative then "(" + inner + ")" else inner
  }

  /** The sign is dropped where it comes first: after nothing but spaces, which are trimmed,
      or right after the opening parenthesis, where they are not. */
  predicate SignDropped(a: Amount, before: string) {
    if a.negative then before == [] else AllSpaces(before)
  }

  function Applied(sign: char, v: Decimal): Decimal {
    if sign == '-' then Negated(v) else v
  }

  /** The amount with the sign that is not dropped. */
  function SignedValue(a: Amount, before: string, sign: char): Decimal
    requires WellFormed(a)
  {
    if SignDropped(a, before) then Value(a) else Applied(sign, Value(a))
  }

  // ------------------------------------------------------ trimming the text

  lemma {:induction false} RStripAfter(head: string, s: string)
    requires head != [] && !IsSpace(Last(head))
    ensures RStrip(head + s) == head + RStrip(s)
  {
    var t := head + s;
    if s == [] {
      assert t == head;
    } else if IsSpace(Last(s)) {
      assert t[..|t| - 1] == head + s[..|s| - 1];
      RStripAfter(head, s[..|s| - 1]);
    }
  }

  lemma {:induction false} LStripSpaces(before: string, rest: string)
    requires AllSpaces(before) && rest != [] && !IsSpace(rest[0])
    ensures LStrip(before + rest) == rest
  {
    if before == [] {
      assert before + rest == rest;
    } else {
      assert (before + rest)[1..] == before[1..] + rest;
      LStripSpaces(before[1..], rest);
    }
  }

  lemma {:induction false} LStripStops(before: string, rest: string)
    requires !AllSpaces(before)
    ensures LStrip(before + rest) == LStrip(before) + rest
    ensures LStrip(before) != [] && !IsSpace(LStrip(before)[0])
  {
    if IsSpace(before[0]) {
      assert (before + rest)[1..] == before[1..] + rest;
      LStripStops(before[1..], rest);
    }
  }

  lemma {:induction false} LStripDecoration(before: string)
    requires IsDecoration(before)
    ensures IsDecoration(LStrip(before))
  {
    if before != [] && IsSpace(before[0]) {
      LStripDecoration(before[1..]);
    }
  }

  lemma {:induction false} RStripBehind(b: string, sign: char, rest: string)
    requires IsSign(sign)
    ensures RStrip(b + ([sign] + rest)) == b + ([sign] + RStrip(rest))
  {
    assert b + ([sign] + rest) == b + [sign] + rest;
    RStripAfter(b + [sign], rest);
    assert b + [sign] + RStrip(rest) == b + ([sign] + RStrip(rest));
  }

  /** Figures among decoration. */
  ghost predicate Holds(r: string, figures: string) {
    IsPlain(r) && Without(r, DECORATION) == figures != [] && IsDigit(figures[0])
  }

  lemma HeldDigit(r: string, figures: string) returns (k: nat)
    requires Holds(r, figures)
    ensures k < |r| && IsDigit(r[k])
  {
    WithoutMembers(r, DECORATION);
    assert figures[0] in r;
    k :| 0 <= k < |r| && r[k] == figures[0];
  }

  lemma SignFirst(sign: char, r: string, figures: string)
    requires IsSign(sign) && Holds(r, figures)
    ensures !IsMissing([sign] + r) && !InParentheses([sign] + r) && LStripSigns([sign] + r) == r
  {
    var k := HeldDigit(r, figures);
    assert ([sign] + r)[k + 1] == r[k];
    DigitMeansNoPlaceholder([sign] + r, k + 1);
    PlainHasNoSign(r);
    assert ([sign] + r)[1..] == r;
  }

  lemma {:induction false} SignLater(b: string, sign: char, r: string, figures: string)
    requires IsSign(sign) && Holds(r, figures) && b != [] && IsDecoration(b)
    ensures var s := b + ([sign] + r);
            !IsMissing(s) && !InParentheses(s) && LStripSigns(s) == s && Without(s, DECORATION) == [sign] + figures
  {
    var k := HeldDigit(r, figures);
    assert (b + ([sign] + r))[|b| + 1 + k] == r[k];
    DigitMeansNoPlaceholder(b + ([sign] + r), |b| + 1 + k);
    SymbolFirst(b, [sign] + r);
    SignKept(b, sign, r);
  }

  lemma {:induction false} SymbolFirst(b: string, rest: string)
    requires b != [] && IsDecoration(b)
    ensures !InParentheses(b + rest) && LStripSigns(b + rest) == b + rest
  {
    assert (b + rest)[0] == b[0] && b[0] in DECORATION;
  }

  lemma SignKept(b: string, sign: char, r: string)
    requires IsSign(sign) && IsDecoration(b)
    ensures Without(b + ([sign] + r), DECORATION) == [sign] + Without(r, DECORATION)
  {
    WithoutConcat(b, [sign] + r, DECORATION);
    WithoutConcat([sign], r, DECORATION);
    WithoutAll(b, DECORATION);
    WithoutAbsent([sign], DECORATION);
  }

  lemma SpacesBeforeSign(before: string, sign: char, rest: string, figures: string)
    requires AllSpaces(before) && IsSign(sign) && Holds(rest, figures)
    ensures var s := Strip(before + ([sign] + rest));
            !IsMissing(s) && !InParentheses(s) && Bare(s) == figures
  {
    LStripSpaces(before, [sign] + rest);
    RStripAfter([sign], rest);
    RStripPlain(rest);
    SignFirst(sign, RStrip(rest), figures);
  }

  lemma StripPastSymbols(before: string, sign: char, rest: string)
    requires !AllSpaces(before) && IsSign(sign)
    ensures Strip(before + ([sign] + rest)) == LStrip(before) + ([sign] + RStrip(rest))
  {
    LStripStops(before, [sign] + rest);
    RStripBehind(LStrip(before), sign, rest);
  }

  lemma SymbolsBeforeSign(before: string, sign: char, rest: string, figures: string)
    requires IsDecoration(before) && !AllSpaces(before) && IsSign(sign) && Holds(rest, figures)
    ensures var s := Strip(before + ([sign] + rest));
            !IsMissing(s) && !InParentheses(s) && Bare(s) == [sign] + figures
  {
    StripPastSymbols(before, sign, rest);
    LStripStops(before, []);
    LStripDecoration(before);
    RStripPlain(rest);
    SignLater(LStrip(before), sign, RStrip(rest), figures);
  }

  /** Parentheses keep spaces from being trimmed. */
  lemma AroundDigit(inner: string, k: nat)
    requires k < |inner| && IsDigit(inner[k])
    ensures var s := Strip("(" + inner + ")");
            !IsMissing(s) && InParentheses(s) && Bare(s) == Without(LStripSigns(inner), DECORATION)
  {
    var s := "(" + inner + ")";
    StripNothing(s);
    assert s[1..|s| - 1] == inner;
    assert s[k + 1] == inner[k];
    DigitMeansNoPlaceholder(s, k + 1);
  }

  lemma SignInParentheses(before: string, sign: char, rest: string, figures: string)
    requires IsDecoration(before) && IsSign(sign) && Holds(rest, figures)
    ensures var s := Strip("(" + (before + ([sign] + rest)) + ")");
            && !IsMissing(s) && InParentheses(s)
            && Bare(s) == (if before == [] then [] else [sign]) + figures
  {
    var inner := before + ([sign] + rest);
    var k := HeldDigit(rest, figures);
    assert inner[|before| + 1 + k] == rest[k];
    AroundDigit(inner, |before| + 1 + k);
    if before == [] {
      assert inner == [sign] + rest;
      SignFirst(sign, rest, figures);
    } else {
      SignLater(before, sign, rest, figures);
    }
  }

  /** Only the sign, if it is not dropped, is left before the figures. */
  lemma SignedToFigures(a: Amount, style: Style, before: string, sign: char, between: string, after: string)
    requires WellFormed(a) && (US(style) || EU(style)) && IsSign(sign)
    requires IsDecoration(before) && IsDecoration(between) && IsDecoration(after)
    ensures var s := Strip(RenderSigned(a, style, before, sign, between, after));
            && !IsMissing(s) && (InParentheses(s) <==> a.negative)
            && Bare(s) == (if SignDropped(a, before) then [] else [sign]) + Figures(a, style)
  {
    var figures := Figures(a, style);
    var rest := between + figures + after;
    FiguresPlain(a, style);
    UndecoratedInner(between, figures, after);
    assert [] + figures == figures;
    if a.negative {
      SignInParentheses(before, sign, rest, figures);
    } else if AllSpaces(before) {
      SpacesBeforeSign(before, sign, rest, figures);
    } else {
      SymbolsBeforeSign(before, sign, rest, figures);
    }
  }

  // --------------------------------------------------- reading behind a sign

  lemma {:induction false} RFindBehind(x: char, s: string, c: char)
    requires c in s
    ensures RFind([x] + s, c) == RFind(s, c) + 1
  {
    var k, t := RFind(s, c), [x] + s;
    assert t[k + 1] == c;
    assert forall i :: k + 1 < i < |t| ==> t[i] == s[i - 1];
  }

  /** Behind a sign the digits before a comma are no longer all digits, so that a lone comma
      is never taken for the decimal point. */
  function ResolvedBehindSign(figures: string): string {
    if ',' in figures && '.' !in figures then Without(figures, ",") else ResolveSeparators(figures)
  }

  lemma ResolveBehindSign(sign: char, figures: string)
    requires IsSign(sign)
    ensures ResolveSeparators([sign] + figures) == [sign] + ResolvedBehindSign(figures)
  {
    var s := [sign] + figures;
    assert s[1..] == figures;
    assert ',' in s <==> ',' in figures;
    assert '.' in s <==> '.' in figures;
    if ',' in figures && '.' in figures {
      RFindBehind(sign, figures, ',');
      RFindBehind(sign, figures, '.');
      WithoutBehind(sign, figures, ".");
      WithoutBehind(sign, figures, ",");
      SubstBehind(sign, Without(figures, "."));
    } else if ',' in figures {
      WithoutBehind(sign, figures, ",");
      NoDigitsBehind(sign, figures);
    }
  }

  lemma WithoutBehind(sign: char, s: string, gone: string)
    requires IsSign(sign) && sign !in gone
    ensures Without([sign] + s, gone) == [sign] + Without(s, gone)
  {
    assert ([sign] + s)[1..] == s;
  }

  lemma SubstBehind(sign: char, s: string)
    requires IsSign(sign)
    ensures Subst([sign] + s, ',', '.') == [sign] + Subst(s, ',', '.')
  {
    assert ([sign] + s)[1..] == s;
  }

  lemma NoDigitsBehind(sign: char, s: string)
    requires IsSign(sign)
    ensures !AllDigits(Split([sign] + s, ',')[0])
  {
    assert ([sign] + s)[1..] == s;
    assert Split([sign] + s, ',')[0][0] == sign;
  }

  lemma DecimalBehindSign(sign: char, t: string)
    requires IsSign(sign) && t != [] && IsDigit(t[0]) && !IsSpace(Last(t))
    ensures ParseDecimal([sign] + t) ==
            match ParseDecimal(t) case None => None case Some(v) => Some(Applied(sign, v))
  {
    StripNothing(t);
    StripNothing([sign] + t);
    assert ([sign] + t)[1..] == t;
  }

  /** Whether EU figures behind a sign are told apart from groups: a comma next to dots is,
      a lone comma is not, and neither are dots alone. */
  predicate EUReadableBehindSign(a: Amount, style: Style) {
    a.fraction != [] <==> ShowsGroups(a, style)
  }

  function Plain(a: Amount): string {
    a.whole + (if a.fraction == [] then [] else ['.'] + a.fraction)
  }

  lemma FiguresBehindSignUS(a: Amount, style: Style)
    requires WellFormed(a) && US(style)
    ensures ResolvedBehindSign(Figures(a, style)) == Plain(a)
  {
    ResolveUS(a, style);
    WholeShape(a, style);
    var w, figures := Whole(a, style), Figures(a, style);
    assert [style.group] == ",";
    if a.fraction == [] {
      assert figures == w;
    } else {
      assert figures[|w|] == '.';
    }
  }

  lemma FiguresBehindSignEU(a: Amount, style: Style)
    requires WellFormed(a) && EU(style)
    ensures ResolvedBehindSign(Figures(a, style)) ==
            if EUReadableBehindSign(a, style) then Plain(a)
            else if a.fraction == [] then Grouped(a.whole, '.') else a.whole + a.fraction
  {
    WholeShape(a, style);
    var w, figures := Whole(a, style), Figures(a, style);
    if a.fraction != [] {
      assert figures == w + [','] + a.fraction;
      assert figures[|w|] == ',';
      assert '.' in figures <==> '.' in w;
      if ShowsGroups(a, style) {
        ResolveEU(a, style);
      } else {
        CommaRemoved(a.whole, a.fraction);
      }
    } else if ShowsGroups(a, style) {
      GroupedIntegerMisread(a, style);
    } else {
      ResolveEU(a, style);
    }
  }

  lemma PlainReads(a: Amount)
    requires WellFormed(a)
    ensures ParseDecimal(Plain(a)) == Some(Decimal(Number(a.whole + a.fraction), |a.fraction|))
    ensures IsDigit(Plain(a)[0]) && !IsSpace(Last(Plain(a)))
  {
    ParseDecimalPlain(a.whole, a.fraction, a.fraction != []);
  }

  lemma GroupsReadBehindSign(digits: string)
    requires AllDigits(digits) && |digits| > 3
    ensures var t := Grouped(digits, '.');
            && t != [] && IsDigit(t[0]) && !IsSpace(Last(t))
            && ParseDecimal(t) == if |digits| <= 6 then Some(Decimal(Number(digits), 3)) else None
  {
    GroupedShape(digits, '.');
    GroupedReads(digits);
  }

  lemma DigitsRead(digits: string)
    requires AllDigits(digits) && digits != []
    ensures ParseDecimal(digits) == Some(Decimal(Number(digits), 0))
    ensures IsDigit(digits[0]) && !IsSpace(Last(digits))
  {
    ParseDecimalPlain(digits, [], false);
    assert digits + [] == digits;
  }

  /** What figures behind a sign that is kept read as, before the sign is applied. */
  function Unsigned(a: Amount, style: Style): Option<Decimal>
    requires WellFormed(a)
  {
    var n := Number(a.whole + a.fraction);
    if US(style) || EUReadableBehindSign(a, style) then Some(Decimal(n, |a.fraction|))
    else if a.fraction != [] then Some(Decimal(n, 0))
    else if |a.whole| <= 6 then Some(Decimal(n, 3))
    else None
  }

  lemma BehindSignReads(a: Amount, style: Style, sign: char)
    requires WellFormed(a) && (US(style) || EU(style)) && IsSign(sign)
    ensures ParseDecimal(ResolveSeparators([sign] + Figures(a, style))) ==
            match Unsigned(a, style) case None => None case Some(v) => Some(Applied(sign, v))
  {
    ResolveBehindSign(sign, Figures(a, style));
    if US(style) {
      FiguresBehindSignUS(a, style);
    } else {
      FiguresBehindSignEU(a, style);
    }
    UnsignedReads(a, style, ResolvedBehindSign(Figures(a, style)), sign);
  }

  lemma UnsignedReads(a: Amount, style: Style, t: string, sign: char)
    requires WellFormed(a) && IsSign(sign)
    requires t == if US(style) || EUReadableBehindSign(a, style) then Plain(a)
                  else if a.fraction == [] then Grouped(a.whole, '.') else a.whole + a.fraction
    ensures ParseDecimal([sign] + t) ==
            match Unsigned(a, style) case None => None case Some(v) => Some(Applied(sign, v))
  {
    if US(style) || EUReadableBehindSign(a, style) {
      PlainReads(a);
    } else if a.fraction == [] {
      GroupsReadBehindSign(a.whole);
      assert a.whole + a.fraction == a.whole;
    } else {
      DigitsRead(a.whole + a.fraction);
    }
    DecimalBehindSign(sign, t);
  }

  // ---------------------------------------------------------- main results

  /** What is read from a signed rendering. */
  function Read(a: Amount, style: Style, before: string, sign: char): Option<Decimal>
    requires WellFormed(a)
  {
    if SignDropped(a, before) then Reading(ResolveSeparators(Figures(a, style)), a.negative)
    else
      match Unsigned(a, style)
      case None => None
      case Some(v) => Some(if a.negative then Negated(Applied(sign, v)) else Applied(sign, v))
  }

  lemma SignedRenderingReads(a: Amount, style: Style, before: string, sign: char, between: string, after: string)
    requires WellFormed(a) && (US(style) || EU(style)) && IsSign(sign)
    requires IsDecoration(before) && IsDecoration(between) && IsDecoration(after)
    ensures var raw := RenderSigned(a, style, before, sign, between, after);
            AmountOf(Some(raw)) ==
            match Read(a, style, before, sign) case None => Err(Unparseable(raw)) case Some(v) => Ok(v)
  {
    SignedToFigures(a, style, before, sign, between, after);
    if SignDropped(a, before) {
      assert [] + Figures(a, style) == Figures(a, style);
    } else {
      BehindSignReads(a, style, sign);
    }
  }

  lemma ReadUS(a: Amount, style: Style, before: string, sign: char)
    requires WellFormed(a) && US(style)
    ensures Read(a, style, before, sign) == Some(SignedValue(a, before, sign))
  {
    if SignDropped(a, before) {
      ResolveUS(a, style);
      ResolvedReads(a);
    }
  }

  /** The condition under which signed EU figures are read digit for digit. */
  predicate SignedEUReadable(a: Amount, style: Style, before: string) {
    if SignDropped(a, before) then EUReadable(a, style) else EUReadableBehindSign(a, style)
  }

  lemma ReadEUIff(a: Amount, style: Style, before: string, sign: char)
    requires WellFormed(a) && EU(style) && IsSign(sign)
    ensures Read(a, style, before, sign) == Some(SignedValue(a, before, sign)) <==> SignedEUReadable(a, style, before)
  {
    if SignDropped(a, before) {
      EUReadingIff(a, style);
    }
  }

  lemma WorthNegated(d: Decimal)
    ensures Worth(Negated(d)) == -Worth(d)
  {
  }

  lemma UnsignedNumberIff(a: Amount, style: Style)
    requires WellFormed(a) && EU(style)
    ensures var r := Unsigned(a, style);
            (r.Some? && Worth(r.value) == Worth(Decimal(Number(a.whole + a.fraction), |a.fraction|))) <==>
            EUReadableBehindSign(a, style) || ReadableZero(a, style)
  {
    ShiftedIff(Number(a.whole + a.fraction), if a.fraction == [] then 3 else |a.fraction|);
  }

  /** Signs do not matter to whether two decimals are the same number. */
  lemma SameSigns(negative: bool, sign: char, v: Decimal, d: Decimal)
    ensures var (x, y) := (Applied(sign, v), Applied(sign, d));
            && (Worth(if negative then Negated(x) else x) == Worth(if negative then Negated(y) else y)
                <==> Worth(v) == Worth(d))
            && Applied(sign, if negative then Negated(d) else d) == (if negative then Negated(y) else y)
  {
    WorthNegated(v);
    WorthNegated(d);
    WorthNegated(Applied(sign, v));
    WorthNegated(Applied(sign, d));
  }

  lemma ReadEUNumberIff(a: Amount, style: Style, before: string, sign: char)
    requires WellFormed(a) && EU(style) && IsSign(sign)
    ensures var r := Read(a, style, before, sign);
            (r.Some? && Worth(r.value) == Worth(SignedValue(a, before, sign))) <==>
            SignedEUReadable(a, style, before) || ReadableZero(a, style)
  {
    if SignDropped(a, before) {
      EUNumberIff(a, style);
    } else {
      UnsignedNumberIff(a, style);
      var n := Decimal(Number(a.whole + a.fraction), |a.fraction|);
      assert Value(a) == if a.negative then Negated(n) else n;
      if Unsigned(a, style).Some? {
        SameSigns(a.negative, sign, Unsigned(a, style).value, n);
      }
    }
  }

  /** US figures are read with their sign wherever it is not dropped. */
  lemma SignedUSReads(a: Amount, style: Style, before: string, sign: char, between: string, after: string)
    requires WellFormed(a) && US(style) && IsSign(sign)
    requires IsDecoration(before) && IsDecoration(between) && IsDecoration(after)
    ensures AmountOf(Some(RenderSigned(a, style, before, sign, between, after))) == Ok(SignedValue(a, before, sign))
  {
    SignedRenderingReads(a, style, before, sign, between, after);
    ReadUS(a, style, before, sign);
  }

  /** EU figures behind a sign that is kept are read, with it, exactly when they show both a
      fraction and groups, or neither: a short fraction alone no longer helps. */
  lemma SignedEUReadsIff(a: Amount, style: Style, before: string, sign: char, between: string, after: string)
    requires WellFormed(a) && EU(style) && IsSign(sign)
    requires IsDecoration(before) && IsDecoration(between) && IsDecoration(after)
    ensures var r := AmountOf(Some(RenderSigned(a, style, before, sign, between, after)));
            r == Ok(SignedValue(a, before, sign)) <==> SignedEUReadable(a, style, before)
  {
    SignedRenderingReads(a, style, before, sign, between, after);
    ReadEUIff(a, style, before, sign);
  }

  /** As numbers, a zero whose figures make a number is read either way. */
  lemma SignedEUNumberIff(a: Amount, style: Style, before: string, sign: char, between: string, after: string)
    requires WellFormed(a) && EU(style) && IsSign(sign)
    requires IsDecoration(before) && IsDecoration(between) && IsDecoration(after)
    ensures var r := AmountOf(Some(RenderSigned(a, style, before, sign, between, after)));
            ReadsAs(r, SignedValue(a, before, sign)) <==>
            SignedEUReadable(a, style, before) || ReadableZero(a, style)
  {
    SignedRenderingReads(a, style, before, sign, between, after);
    ReadEUNumberIff(a, style, before, sign);
  }

  /** A minus sign makes the amount its negative exactly where it is not dropped, or the
      amount is zero, and the figures are read. */
  lemma LeadingMinusHonouredIff(a: Amount, style: Style, before: string, between: string, after: string)
    requires WellFormed(a) && (US(style) || EU(style))
    requires IsDecoration(before) && IsDecoration(between) && IsDecoration(after)
    ensures AmountOf(Some(RenderSigned(a, style, before, '-', between, after))) == Ok(Negated(Value(a))) <==>
            && (SignDropped(a, before) ==> Number(a.whole + a.fraction) == 0)
            && (US(style) || SignedEUReadable(a, style, before))
  {
    SignedRenderingReads(a, style, before, '-', between, after);
    ReadMinusIff(a, style, before);
  }

  lemma {:induction false} ReadMinusIff(a: Amount, style: Style, before: string)
    requires WellFormed(a) && (US(style) || EU(style))
    ensures Read(a, style, before, '-') == Some(Negated(Value(a))) <==>
            && (SignDropped(a, before) ==> Number(a.whole + a.fraction) == 0)
            && (US(style) || SignedEUReadable(a, style, before))
  {
    if US(style) {
      ReadUS(a, style, before, '-');
    } else if SignDropped(a, before) && !EUReadable(a, style) {
      EUMisreads(a, style);
      MisreadIsNot(a, style, Negated(Value(a)));
    } else {
      ReadEUIff(a, style, before, '-');
    }
  }

  /** A misreading never has the scale it should. */
  lemma MisreadIsNot(a: Amount, style: Style, v: Decimal)
    requires WellFormed(a) && EU(style) && !EUReadable(a, style) && v.scale == |a.fraction|
    requires ParseDecimal(ResolveSeparators(Figures(a, style))) ==
             if a.fraction != [] then Some(Decimal(Number(a.whole + a.fraction), 0))
             else if |a.whole| <= 6 then Some(Decimal(Number(a.whole + a.fraction), 3))
             else None
    ensures Reading(ResolveSeparators(Figures(a, style)), a.negative) != Some(v)
  {
  }
}
