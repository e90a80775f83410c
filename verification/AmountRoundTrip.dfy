/** The renderings of an amount, and when parsing inverts them. */
module AmountRoundTrip {
  import opened Common
  import opened Amounts

  /** A sign and two digit strings, of which the first is not empty. */
  datatype Amount = Amount(negative: bool, whole: string, fraction: string)

  predicate WellFormed(a: Amount) {
    a.whole != [] && AllDigits(a.whole) && AllDigits(a.fraction)
  }

  function Value(a: Amount): Decimal
    requires WellFormed(a)
  {
    var n: int := Number(a.whole + a.fraction);
    Decimal(if a.negative then -n else n, |a.fraction|)
  }

  /** Digits in groups of three from the right. */
  function Grouped(digits: string, sep: char): string {
    if |digits| <= 3 then digits
    else Grouped(digits[..|digits| - 3], sep) + [sep] + digits[|digits| - 3..]
  }

  datatype Style = Style(group: char, point: char, grouped: bool)

  predicate US(style: Style) {
    style.group == ',' && style.point == '.'
  }

  predicate EU(style: Style) {
    style.group == '.' && style.point == ','
  }

  function Figures(a: Amount, style: Style): string {
    (if style.grouped then Grouped(a.whole, style.group) else a.whole)
    + (if a.fraction == [] then [] else [style.point] + a.fraction)
  }

  /** Figures between any currency symbols and spaces, in parentheses when negative. */
  function Render(a: Amount, style: Style, before: string, after: string): string {
    var inner := before + Figures(a, style) + after;
    if a.negative then "(" + inner + ")" else inner
  }

  predicate IsDecoration(s: string) {
    forall i :: 0 <= i < |s| ==> s[i] in DECORATION
  }

  predicate IsFigure(c: char) {
    IsDigit(c) || c == ',' || c == '.'
  }

  predicate IsPlain(s: string) {
    forall i :: 0 <= i < |s| ==> IsFigure(s[i]) || s[i] in DECORATION
  }

  // ---------------------------------------------------- string-level lemmas

  lemma {:induction false} WithoutConcat(s: string, t: string, gone: string)
    ensures Without(s + t, gone) == Without(s, gone) + Without(t, gone)
  {
    if s == [] {
      assert s + t == t;
    } else {
      assert (s + t)[1..] == s[1..] + t;
      WithoutConcat(s[1..], t, gone);
    }
  }

  lemma {:induction false} WithoutAll(s: string, gone: string)
    requires forall i :: 0 <= i < |s| ==> s[i] in gone
    ensures Without(s, gone) == []
  {
    if s != [] {
      WithoutAll(s[1..], gone);
    }
  }

  lemma {:induction false} WithoutAbsent(s: string, gone: string)
    requires forall i :: 0 <= i < |s| ==> s[i] !in gone
    ensures Without(s, gone) == s
  {
    if s != [] {
      WithoutAbsent(s[1..], gone);
    }
  }

  lemma {:induction false} SubstConcat(s: string, t: string, a: char, b: char)
    ensures Subst(s + t, a, b) == Subst(s, a, b) + Subst(t, a, b)
  {
    if s == [] {
      assert s + t == t;
    } else {
      assert (s + t)[1..] == s[1..] + t;
      SubstConcat(s[1..], t, a, b);
    }
  }

  lemma {:induction false} SubstAbsent(s: string, a: char, b: char)
    requires a !in s
    ensures Subst(s, a, b) == s
  {
    if s != [] {
      SubstAbsent(s[1..], a, b);
    }
  }

  lemma {:induction false} SplitAbsent(s: string, c: char)
    requires c !in s
    ensures Split(s, c) == [s]
  {
    if s != [] {
      SplitAbsent(s[1..], c);
      assert [s[0]] + s[1..] == s;
    }
  }

  lemma {:induction false} SplitAt(s: string, t: string, c: char)
    requires c !in s
    ensures Split(s + [c] + t, c) == [s] + Split(t, c)
  {
    var u := s + [c] + t;
    if s == [] {
      assert u[1..] == t;
    } else {
      assert u[1..] == s[1..] + [c] + t;
      SplitAt(s[1..], t, c);
      assert [s[0]] + s[1..] == s;
    }
  }

  /** The rightmost part of a split is after the last separator. */
  lemma {:induction false} RFindLast(s: string, t: string, c: char)
    requires c !in t
    ensures RFind(s + [c] + t, c) == |s|
  {
    var u := s + [c] + t;
    assert u[|s|] == c;
    assert forall i :: |s| < i < |u| ==> u[i] == t[i - |s| - 1];
  }

  /** Where figures start there is nothing for the strips to take beyond decoration. */
  lemma {:induction false} LStripPlain(s: string)
    requires IsPlain(s)
    ensures IsPlain(LStrip(s)) && Without(LStrip(s), DECORATION) == Without(s, DECORATION)
  {
    if s != [] && IsSpace(s[0]) {
      LStripPlain(s[1..]);
    }
  }

  lemma {:induction false} RStripPlain(s: string)
    requires IsPlain(s)
    ensures IsPlain(RStrip(s)) && Without(RStrip(s), DECORATION) == Without(s, DECORATION)
  {
    if s != [] && IsSpace(Last(s)) {
      RStripPlain(s[..|s| - 1]);
      assert s == s[..|s| - 1] + [Last(s)];
      WithoutConcat(s[..|s| - 1], [Last(s)], DECORATION);
      WithoutAll([Last(s)], DECORATION);
    }
  }

  lemma StripPlain(s: string)
    requires IsPlain(s)
    ensures IsPlain(Strip(s)) && Without(Strip(s), DECORATION) == Without(s, DECORATION)
  {
    LStripPlain(s);
    RStripPlain(LStrip(s));
  }

  lemma StripNothing(s: string)
    requires s != [] && !IsSpace(s[0]) && !IsSpace(Last(s))
    ensures Strip(s) == s
  {
  }

  /** A string with a digit is no placeholder. */
  lemma DigitMeansNoPlaceholder(s: string, i: nat)
    requires i < |s| && IsDigit(s[i])
    ensures !IsMissing(s)
  {
  }

  lemma {:induction false} WithoutMembers(s: string, gone: string)
    ensures forall c :: c in Without(s, gone) ==> c in s
  {
    if s != [] {
      WithoutMembers(s[1..], gone);
    }
  }

  // ---------------------------------------------------- from text to figures

  /** Symbols, spaces and parentheses come off, leaving the figures; nothing else does. */
  lemma RenderedToFigures(a: Amount, style: Style, before: string, after: string)
    requires WellFormed(a) && (US(style) || EU(style)) && IsDecoration(before) && IsDecoration(after)
    ensures var s := Strip(Render(a, style, before, after));
            !IsMissing(s) && Bare(s) == Figures(a, style) && (InParentheses(s) <==> a.negative)
  {
    var figures := Figures(a, style);
    var inner := before + figures + after;
    FiguresPlain(a, style);
    UndecoratedInner(before, figures, after);
    assert inner[|before|] == figures[0];
    if a.negative {
      ParenthesisedCore(inner, |before|);
    } else {
      PlainCore(inner, figures);
    }
  }

  lemma ParenthesisedCore(inner: string, k: nat)
    requires IsPlain(inner) && k < |inner| && IsDigit(inner[k])
    ensures var s := Strip("(" + inner + ")");
            !IsMissing(s) && InParentheses(s) && Bare(s) == Without(inner, DECORATION)
  {
    var s := "(" + inner + ")";
    StripNothing(s);
    assert s[k + 1] == inner[k];
    DigitMeansNoPlaceholder(s, k + 1);
    ParenthesesComeOff(inner);
  }

  lemma ParenthesesComeOff(inner: string)
    requires IsPlain(inner)
    ensures InParentheses("(" + inner + ")") && Bare("(" + inner + ")") == Without(inner, DECORATION)
  {
    var s := "(" + inner + ")";
    assert s[1..|s| - 1] == inner;
    PlainHasNoSign(inner);
  }

  lemma PlainCore(inner: string, figures: string)
    requires IsPlain(inner) && Without(inner, DECORATION) == figures != [] && IsDigit(figures[0])
    ensures var s := Strip(inner);
            !IsMissing(s) && !InParentheses(s) && Bare(s) == figures
  {
    StripPlain(inner);
    var s := Strip(inner);
    WithoutMembers(s, DECORATION);
    assert figures[0] in s;
    var k :| 0 <= k < |s| && s[k] == figures[0];
    DigitMeansNoPlaceholder(s, k);
    PlainHasNoSign(s);
  }

  lemma PlainHasNoSign(s: string)
    requires IsPlain(s)
    ensures LStripSigns(s) == s && !InParentheses(s)
  {
  }

  lemma {:induction false} UndecoratedInner(before: string, figures: string, after: string)
    requires IsDecoration(before) && IsDecoration(after)
    requires forall i :: 0 <= i < |figures| ==> IsFigure(figures[i])
    ensures Without(before + figures + after, DECORATION) == figures
    ensures IsPlain(before + figures + after)
  {
    WithoutConcat(before + figures, after, DECORATION);
    WithoutConcat(before, figures, DECORATION);
    WithoutAll(before, DECORATION);
    WithoutAll(after, DECORATION);
    WithoutAbsent(figures, DECORATION);
  }

  lemma {:induction false} GroupedShape(digits: string, sep: char)
    requires digits != [] && AllDigits(digits) && !IsDigit(sep)
    ensures var g := Grouped(digits, sep);
            && g != [] && IsDigit(g[0])
            && (forall c :: c in g ==> IsDigit(c) || c == sep)
            && Without(g, [sep]) == digits
            && (sep in g <==> |digits| > 3)
  {
    if |digits| <= 3 {
      WithoutAbsent(digits, [sep]);
    } else {
      var front, back := digits[..|digits| - 3], digits[|digits| - 3..];
      GroupedShape(front, sep);
      JoinShape(front, Grouped(front, sep), back, sep);
      assert digits == front + back;
    }
  }

  lemma JoinShape(front: string, g: string, back: string, sep: char)
    requires AllDigits(back) && !IsDigit(sep) && Without(g, [sep]) == front && g != []
    requires forall c :: c in g ==> IsDigit(c) || c == sep
    ensures var joined := g + [sep] + back;
            && joined[0] == g[0] && sep in joined
            && (forall c :: c in joined ==> IsDigit(c) || c == sep)
            && Without(joined, [sep]) == front + back
  {
    WithoutConcat(g + [sep], back, [sep]);
    WithoutConcat(g, [sep], [sep]);
    WithoutAll([sep], [sep]);
    WithoutAbsent(back, [sep]);
    assert (g + [sep] + back)[|g|] == sep;
  }

  /** The whole part as rendered. */
  function Whole(a: Amount, style: Style): string {
    if style.grouped then Grouped(a.whole, style.group) else a.whole
  }

  /** Whether the rendering shows a group separator. */
  predicate ShowsGroups(a: Amount, style: Style) {
    style.grouped && |a.whole| > 3
  }

  lemma WholeShape(a: Amount, style: Style)
    requires WellFormed(a) && !IsDigit(style.group)
    ensures var w := Whole(a, style);
            && w != [] && IsDigit(w[0])
            && (forall c :: c in w ==> IsDigit(c) || c == style.group)
            && Without(w, [style.group]) == a.whole
            && (style.group in w <==> ShowsGroups(a, style))
            && (!ShowsGroups(a, style) ==> w == a.whole)
  {
    GroupedShape(a.whole, style.group);
    WithoutAbsent(a.whole, [style.group]);
  }

  lemma FiguresPlain(a: Amount, style: Style)
    requires WellFormed(a) && (US(style) || EU(style))
    ensures Figures(a, style) != [] && IsDigit(Figures(a, style)[0])
    ensures forall i :: 0 <= i < |Figures(a, style)| ==> IsFigure(Figures(a, style)[i])
  {
    WholeShape(a, style);
  }

  // ------------------------------------------------- from figures to a value

  /** Digits, or digits with one point, read as what they say. */
  lemma {:induction false} ParseDecimalPlain(whole: string, fraction: string, pointed: bool)
    requires AllDigits(whole) && AllDigits(fraction) && whole != []
    requires !pointed ==> fraction == []
    ensures ParseDecimal(whole + (if pointed then ['.'] + fraction else [])) ==
            Some(Decimal(Number(whole + fraction), |fraction|))
  {
    var s := whole + (if pointed then ['.'] + fraction else []);
    assert s[0] == whole[0];
    StripNothing(s);
    assert '.' !in whole && '.' !in fraction;
    if pointed {
      assert s == whole + ['.'] + fraction;
      SplitAt(whole, fraction, '.');
      SplitAbsent(fraction, '.');
    } else {
      assert s == whole;
      SplitAbsent(whole, '.');
      assert whole + fraction == whole;
    }
  }

  lemma {:induction false} PointAfterCommas(w: string, whole: string, fraction: string)
    requires (forall c :: c in w ==> IsDigit(c) || c == ',') && Without(w, ",") == whole && AllDigits(fraction)
    ensures ResolveSeparators(w + ['.'] + fraction) == (if ',' in w then whole else w) + ['.'] + fraction
  {
    var s := w + ['.'] + fraction;
    assert s[|w|] == '.';
    assert ',' in s <==> ',' in w;
    if ',' in w {
      RFindLast(w, fraction, '.');
      assert forall i :: |w| <= i < |s| ==> s[i] != ',';
      CommasRemoved(w, fraction);
    }
  }

  lemma {:induction false} CommasRemoved(w: string, fraction: string)
    requires AllDigits(fraction)
    ensures Without(w + ['.'] + fraction, ",") == Without(w, ",") + ['.'] + fraction
  {
    WithoutConcat(w + ['.'], fraction, ",");
    WithoutConcat(w, ['.'], ",");
    WithoutAbsent(['.'], ",");
    WithoutAbsent(fraction, ",");
  }

  /** US figures resolve to the digits with a point exactly where the fraction starts. */
  lemma {:induction false} ResolveUS(a: Amount, style: Style)
    requires WellFormed(a) && US(style)
    ensures ResolveSeparators(Figures(a, style)) == a.whole + (if a.fraction == [] then [] else ['.'] + a.fraction)
  {
    WholeShape(a, style);
    assert [style.group] == ",";
    if a.fraction != [] {
      assert Figures(a, style) == Whole(a, style) + ['.'] + a.fraction;
      PointAfterCommas(Whole(a, style), a.whole, a.fraction);
      assert a.whole + ['.'] + a.fraction == a.whole + (['.'] + a.fraction);
    } else {
      assert Figures(a, style) == Whole(a, style);
      if ShowsGroups(a, style) {
        GroupsAreNotADecimalComma(a.whole);
      } else {
        NothingToResolve(a.whole);
      }
    }
  }

  /** A comma-grouped whole never looks like digits, a comma and one or two digits. */
  lemma GroupsAreNotADecimalComma(digits: string)
    requires |digits| > 3 && AllDigits(digits)
    ensures var parts := Split(Grouped(digits, ','), ',');
            !(|parts| == 2 && 1 <= |parts[1]| <= 2)
  {
    var front, back := digits[..|digits| - 3], digits[|digits| - 3..];
    GroupedShape(front, ',');
    if |front| <= 3 {
      SplitAt(front, back, ',');
      SplitAbsent(back, ',');
    } else {
      SplitLength(Grouped(front, ','), back, ',');
    }
  }

  lemma {:induction false} SplitLength(s: string, t: string, c: char)
    requires c in s
    ensures |Split(s + [c] + t, c)| >= 3
  {
    var u := s + [c] + t;
    assert u[1..] == s[1..] + [c] + t;
    if s[0] == c {
      SplitHasOne(s[1..], t, c);
    } else {
      SplitLength(s[1..], t, c);
    }
  }

  lemma {:induction false} SplitHasOne(s: string, t: string, c: char)
    ensures |Split(s + [c] + t, c)| >= 2
  {
    var u := s + [c] + t;
    if s == [] {
      assert u[1..] == t;
    } else {
      assert u[1..] == s[1..] + [c] + t;
      SplitHasOne(s[1..], t, c);
    }
  }

  /** EU figures resolve alike when the comma can be told from a group separator. */
  predicate EUReadable(a: Amount, style: Style) {
    if a.fraction == [] then !ShowsGroups(a, style)
    else |a.fraction| <= 2 || ShowsGroups(a, style)
  }

  lemma {:induction false} ResolveEU(a: Amount, style: Style)
    requires WellFormed(a) && EU(style) && EUReadable(a, style)
    ensures ResolveSeparators(Figures(a, style)) == a.whole + (if a.fraction == [] then [] else ['.'] + a.fraction)
  {
    WholeShape(a, style);
    assert [style.group] == ".";
    if a.fraction == [] {
      NothingToResolve(a.whole);
      assert Figures(a, style) == a.whole;
    } else {
      assert Figures(a, style) == Whole(a, style) + [','] + a.fraction;
      assert a.whole + ['.'] + a.fraction == a.whole + (['.'] + a.fraction);
      if ShowsGroups(a, style) {
        DotsThenComma(Whole(a, style), a.whole, a.fraction);
      } else {
        ShortFraction(a.whole, a.fraction);
      }
    }
  }

  lemma {:induction false} DotsThenComma(w: string, whole: string, fraction: string)
    requires '.' in w && ',' !in w && Without(w, ".") == whole && AllDigits(whole) && AllDigits(fraction)
    ensures ResolveSeparators(w + [','] + fraction) == whole + ['.'] + fraction
  {
    CommaAfterDots(w, fraction);
    PointAfter(w, fraction, whole);
  }

  lemma NothingToResolve(whole: string)
    requires AllDigits(whole)
    ensures ResolveSeparators(whole) == whole
  {
  }

  lemma ShortFraction(whole: string, fraction: string)
    requires AllDigits(whole) && AllDigits(fraction) && whole != [] && 1 <= |fraction| <= 2
    ensures ResolveSeparators(whole + [','] + fraction) == whole + ['.'] + fraction
  {
    LoneComma(whole, fraction);
    NoDotToRemove(whole, fraction);
    WithoutAbsent(whole, ".");
    PointAfter(whole, fraction, whole);
  }

  lemma NoDotToRemove(whole: string, fraction: string)
    requires AllDigits(whole) && AllDigits(fraction)
    ensures Without(whole + [','] + fraction, ".") == whole + [','] + fraction
  {
    WithoutAbsent(whole + [','] + fraction, ".");
  }

  lemma CommaAfterDots(w: string, fraction: string)
    requires '.' in w && ',' !in w && AllDigits(fraction)
    ensures var s := w + [','] + fraction;
            ResolveSeparators(s) == Subst(Without(s, "."), ',', '.')
  {
  }

  lemma LoneComma(whole: string, fraction: string)
    requires AllDigits(whole) && AllDigits(fraction) && whole != []
    ensures var s := whole + [','] + fraction;
            && '.' !in s
            && ResolveSeparators(s) == if 1 <= |fraction| <= 2 then Subst(s, ',', '.') else Without(s, ",")
  {
    var s := whole + [','] + fraction;
    assert s[|whole|] == ',';
    SplitAt(whole, fraction, ',');
    SplitAbsent(fraction, ',');
  }

  lemma PointAfter(w: string, fraction: string, whole: string)
    requires AllDigits(whole) && AllDigits(fraction) && Without(w, ".") == whole
    ensures Subst(Without(w + [','] + fraction, "."), ',', '.') == whole + ['.'] + fraction
  {
    WithoutConcat(w + [','], fraction, ".");
    WithoutConcat(w, [','], ".");
    WithoutAbsent([','], ".");
    WithoutAbsent(fraction, ".");
    SubstConcat(whole + [','], fraction, ',', '.');
    SubstConcat(whole, [','], ',', '.');
    SubstAbsent(whole, ',', '.');
    SubstAbsent(fraction, ',', '.');
    assert Subst([','], ',', '.') == ['.'];
  }

  /** Three or more digits after a lone comma: the comma is taken for a group separator. */
  lemma LongFractionMisread(a: Amount, style: Style)
    requires WellFormed(a) && EU(style) && |a.fraction| >= 3 && !ShowsGroups(a, style)
    ensures ResolveSeparators(Figures(a, style)) == a.whole + a.fraction
  {
    WholeShape(a, style);
    assert Figures(a, style) == a.whole + [','] + a.fraction;
    LoneComma(a.whole, a.fraction);
    CommaRemoved(a.whole, a.fraction);
  }

  lemma CommaRemoved(whole: string, fraction: string)
    requires AllDigits(whole) && AllDigits(fraction)
    ensures Without(whole + [','] + fraction, ",") == whole + fraction
  {
    WithoutConcat(whole + [','], fraction, ",");
    WithoutConcat(whole, [','], ",");
    WithoutAbsent(whole, ",");
    WithoutAbsent(fraction, ",");
  }

  /** Dot groups without a fraction are left as they are... */
  lemma GroupedIntegerMisread(a: Amount, style: Style)
    requires WellFormed(a) && EU(style) && a.fraction == [] && ShowsGroups(a, style)
    ensures ResolveSeparators(Figures(a, style)) == Grouped(a.whole, '.')
  {
    WholeShape(a, style);
    assert Figures(a, style) == Grouped(a.whole, '.');
  }

  /** ...so one dot is taken for the decimal point, and two or more make no number. */
  lemma {:induction false} GroupedReads(digits: string)
    requires AllDigits(digits) && |digits| > 3
    ensures ParseDecimal(Grouped(digits, '.')) == if |digits| <= 6 then Some(Decimal(Number(digits), 3)) else None
  {
    var front, back := digits[..|digits| - 3], digits[|digits| - 3..];
    assert digits == front + back;
    if |front| <= 3 {
      OneDotReads(front, back);
    } else {
      GroupedShape(front, '.');
      TwoDotsDoNot(Grouped(front, '.'), back);
    }
  }

  lemma OneDotReads(front: string, back: string)
    requires AllDigits(front) && AllDigits(back) && front != []
    ensures ParseDecimal(front + ['.'] + back) == Some(Decimal(Number(front + back), |back|))
  {
    ParseDecimalPlain(front, back, true);
    assert front + ['.'] + back == front + (['.'] + back);
  }

  lemma TwoDotsDoNot(g: string, back: string)
    requires g != [] && IsDigit(g[0]) && '.' in g && back != [] && AllDigits(back)
    ensures ParseDecimal(g + ['.'] + back) == None
  {
    StripNothing(g + ['.'] + back);
    SplitLength(g, back, '.');
  }

  // --------------------------------------------------------- main results

  /** What resolved figures read as. */
  function Reading(resolved: string, negative: bool): Option<Decimal> {
    match ParseDecimal(resolved)
    case None => None
    case Some(v) => Some(if negative then Negated(v) else v)
  }

  lemma RenderedReads(a: Amount, style: Style, before: string, after: string)
    requires WellFormed(a) && (US(style) || EU(style)) && IsDecoration(before) && IsDecoration(after)
    ensures var raw := Render(a, style, before, after);
            AmountOf(Some(raw)) ==
            match Reading(ResolveSeparators(Figures(a, style)), a.negative)
            case None => Err(Unparseable(raw))
            case Some(v) => Ok(v)
  {
    RenderedToFigures(a, style, before, after);
  }

  /** Resolved to digits and at most one point, the figures read as the amount. */
  lemma ResolvedReads(a: Amount)
    requires WellFormed(a)
    ensures Reading(a.whole + (if a.fraction == [] then [] else ['.'] + a.fraction), a.negative) == Some(Value(a))
  {
    ParseDecimalPlain(a.whole, a.fraction, a.fraction != []);
  }

  /** Rendering in US style and parsing is the identity, for every amount, grouped or
      not, with any symbols and spaces around the figures. */
  lemma ParseInvertsUS(a: Amount, style: Style, before: string, after: string)
    requires WellFormed(a) && US(style) && IsDecoration(before) && IsDecoration(after)
    ensures AmountOf(Some(Render(a, style, before, after))) == Ok(Value(a))
  {
    RenderedReads(a, style, before, after);
    ResolveUS(a, style);
    ResolvedReads(a);
  }

  /** What misread figures read as, without sign. */
  lemma EUMisreads(a: Amount, style: Style)
    requires WellFormed(a) && EU(style) && !EUReadable(a, style)
    ensures ParseDecimal(ResolveSeparators(Figures(a, style))) ==
            if a.fraction != [] then Some(Decimal(Number(a.whole + a.fraction), 0))
            else if |a.whole| <= 6 then Some(Decimal(Number(a.whole + a.fraction), 3))
            else None
  {
    if a.fraction == [] {
      GroupedIntegerMisread(a, style);
      GroupedReads(a.whole);
      assert a.whole + a.fraction == a.whole;
    } else {
      LongFractionMisread(a, style);
      ParseDecimalPlain(a.whole + a.fraction, [], false);
      assert a.whole + a.fraction + [] == a.whole + a.fraction;
    }
  }

  lemma EUReadingIff(a: Amount, style: Style)
    requires WellFormed(a) && EU(style)
    ensures Reading(ResolveSeparators(Figures(a, style)), a.negative) == Some(Value(a)) <==> EUReadable(a, style)
  {
    if EUReadable(a, style) {
      ResolveEU(a, style);
      ResolvedReads(a);
    } else {
      EUMisreads(a, style);
    }
  }

  /** Rendering in EU style and parsing is the identity exactly when the fraction has one
      or two digits, or a group separator is shown beside a longer one, or neither is shown. */
  lemma ParseInvertsEUIff(a: Amount, style: Style, before: string, after: string)
    requires WellFormed(a) && EU(style) && IsDecoration(before) && IsDecoration(after)
    ensures AmountOf(Some(Render(a, style, before, after))) == Ok(Value(a)) <==> EUReadable(a, style)
  {
    RenderedReads(a, style, before, after);
    EUReadingIff(a, style);
  }

  /** Read as the same number, which is what comparing decimals compares. */
  predicate ReadsAs(r: Result<Decimal, AmountError>, d: Decimal) {
    r.Ok? && Worth(r.value) == Worth(d)
  }

  /** Zero reads as zero wherever the separators are taken to be, if they make a number. */
  predicate ReadableZero(a: Amount, style: Style)
    requires WellFormed(a)
  {
    Number(a.whole + a.fraction) == 0 && !(a.fraction == [] && ShowsGroups(a, style) && |a.whole| > 6)
  }

  /** Shifting the point changes the number unless it is zero. */
  lemma ShiftedIff(n: int, p: nat)
    requires p > 0
    ensures Worth(Decimal(n, p)) == Worth(Decimal(n, 0)) <==> n == 0
  {
    assert Pow10(p) == 10 * Pow10(p - 1) >= 10;
    assert Pow10(0) as real == 1.0;
    ScaledIff(n as real, Pow10(p) as real);
  }

  lemma ScaledIff(x: real, p: real)
    requires p > 1.0
    ensures x / p == x / 1.0 <==> x == 0.0
  {
    var q := x / p;
    assert q * p == x;
    if q == x {
      assert x * (p - 1.0) == 0.0;
      NonZeroProduct(x, p - 1.0);
    }
  }

  lemma NonZeroProduct(x: real, y: real)
    requires y > 0.0
    ensures x * y == 0.0 <==> x == 0.0
  {
    if x > 0.0 {
      assert x * y > 0.0;
    } else if x < 0.0 {
      assert -x * y > 0.0;
    }
  }

  function Signed(a: Amount): int
    requires WellFormed(a)
  {
    var n: int := Number(a.whole + a.fraction);
    if a.negative then -n else n
  }

  lemma SignedIsValue(a: Amount)
    requires WellFormed(a)
    ensures Value(a) == Decimal(Signed(a), |a.fraction|)
    ensures Signed(a) == 0 <==> Number(a.whole + a.fraction) == 0
  {
  }

  lemma EUNumberIff(a: Amount, style: Style)
    requires WellFormed(a) && EU(style)
    ensures var r := Reading(ResolveSeparators(Figures(a, style)), a.negative);
            r.Some? && Worth(r.value) == Worth(Value(a)) <==> EUReadable(a, style) || ReadableZero(a, style)
  {
    if EUReadable(a, style) {
      EUReadingIff(a, style);
    } else {
      EUMisreads(a, style);
      MisreadNumberIff(a, ResolveSeparators(Figures(a, style)));
    }
  }

  /** A misreading is the amount with its point elsewhere. */
  lemma MisreadNumberIff(a: Amount, resolved: string)
    requires WellFormed(a)
    requires ParseDecimal(resolved) ==
             if a.fraction != [] then Some(Decimal(Number(a.whole + a.fraction), 0))
             else if |a.whole| <= 6 then Some(Decimal(Number(a.whole + a.fraction), 3))
             else None
    ensures var r := Reading(resolved, a.negative);
            r.Some? && Worth(r.value) == Worth(Value(a)) <==>
            Number(a.whole + a.fraction) == 0 && (a.fraction != [] || |a.whole| <= 6)
  {
    SignedIsValue(a);
    ShiftedIff(Signed(a), if a.fraction == [] then 3 else |a.fraction|);
  }

  /** As numbers, the EU rendering also survives when the amount is zero and its figures
      still make a number, that is, show at most one dot when there is no comma. */
  lemma ParseKeepsEUNumberIff(a: Amount, style: Style, before: string, after: string)
    requires WellFormed(a) && EU(style) && IsDecoration(before) && IsDecoration(after)
    ensures ReadsAs(AmountOf(Some(Render(a, style, before, after))), Value(a)) <==>
            EUReadable(a, style) || ReadableZero(a, style)
  {
    RenderedReads(a, style, before, after);
    EUNumberIff(a, style);
  }

  /** So the two renderings of one amount parse to the same number exactly then. */
  lemma RenderingsAgree(a: Amount, us: Style, eu: Style, b0: string, a0: string, b1: string, a1: string)
    requires WellFormed(a) && US(us) && EU(eu)
    requires IsDecoration(b0) && IsDecoration(a0) && IsDecoration(b1) && IsDecoration(a1)
    ensures var (r, q) := (AmountOf(Some(Render(a, us, b0, a0))), AmountOf(Some(Render(a, eu, b1, a1))));
            && r.Ok?
            && (ReadsAs(q, r.value) <==> EUReadable(a, eu) || ReadableZero(a, eu))
            && (q == r <==> EUReadable(a, eu))
  {
    ParseInvertsUS(a, us, b0, a0);
    ParseInvertsEUIff(a, eu, b1, a1);
    ParseKeepsEUNumberIff(a, eu, b1, a1);
  }
}
