/** What an accepted amount text must look like, and that everything else is refused. */
module AmountSoundness {
  import opened Common
  import opened Amounts

  /** Everything that may stand beside the digits: separators, signs, parentheses, currency
      symbols and white space. */
  predicate IsPunctuation(c: char) {
    || c == ',' || c == '.' || c == '+' || c == '-' || c == '(' || c == ')'
    || c == '$' || c == '\U{00A5}' || c == '\U{20AC}' || c == '\U{00A3}' || c == '\U{FFE5}'
    || c == ' ' || '\t' <= c <= '\r' || '\U{001C}' <= c <= '\U{001F}'
  }

  /** The characters of a kind, in order. */
  function Only(s: string, kind: char -> bool): (r: string)
    ensures forall c :: c in r <==> c in s && kind(c)
  {
    if s == [] then [] else (if kind(s[0]) then [s[0]] else []) + Only(s[1..], kind)
  }

  /** A kind that no punctuation is of. */
  ghost predicate Lasting(kind: char -> bool) {
    forall c :: IsPunctuation(c) ==> !kind(c)
  }

  lemma {:induction false} OnlyJoin(s: string, t: string, kind: char -> bool)
    ensures Only(s + t, kind) == Only(s, kind) + Only(t, kind)
  {
    if s == [] {
      assert s + t == t;
    } else {
      assert (s + t)[1..] == s[1..] + t;
      OnlyJoin(s[1..], t, kind);
    }
  }

  lemma {:induction false} OnlyNothing(s: string, kind: char -> bool)
    requires forall c :: c in s ==> !kind(c)
    ensures Only(s, kind) == []
  {
    if s != [] {
      OnlyNothing(s[1..], kind);
    }
  }

  lemma {:induction false} OnlyAll(s: string, kind: char -> bool)
    requires forall c :: c in s ==> kind(c)
    ensures Only(s, kind) == s
  {
    if s != [] {
      OnlyAll(s[1..], kind);
    }
  }

  // -------------------------------------------- what each step of parsing keeps

  lemma {:induction false} LStripKeeps(s: string, kind: char -> bool)
    requires Lasting(kind)
    ensures Only(LStrip(s), kind) == Only(s, kind)
  {
    if s != [] && IsSpace(s[0]) {
      assert IsPunctuation(s[0]);
      LStripKeeps(s[1..], kind);
    }
  }

  lemma {:induction false} RStripKeeps(s: string, kind: char -> bool)
    requires Lasting(kind)
    ensures Only(RStrip(s), kind) == Only(s, kind)
  {
    if s != [] && IsSpace(Last(s)) {
      assert IsPunctuation(Last(s));
      var front := s[..|s| - 1];
      RStripKeeps(front, kind);
      assert s == front + [Last(s)];
      OnlyJoin(front, [Last(s)], kind);
      OnlyNothing([Last(s)], kind);
    }
  }

  lemma {:induction false} StripKeeps(s: string, kind: char -> bool)
    requires Lasting(kind)
    ensures Only(Strip(s), kind) == Only(s, kind)
  {
    LStripKeeps(s, kind);
    RStripKeeps(LStrip(s), kind);
  }

  lemma {:induction false} SignsKeep(s: string, kind: char -> bool)
    requires Lasting(kind)
    ensures Only(LStripSigns(s), kind) == Only(s, kind)
  {
    if s != [] && (s[0] == '+' || s[0] == '-') {
      assert IsPunctuation(s[0]);
      SignsKeep(s[1..], kind);
    }
  }

  lemma {:induction false} WithoutKeeps(s: string, gone: string, kind: char -> bool)
    requires Lasting(kind) && forall c :: c in gone ==> IsPunctuation(c)
    ensures Only(Without(s, gone), kind) == Only(s, kind)
  {
    if s != [] {
      WithoutKeeps(s[1..], gone, kind);
      var rest := Without(s[1..], gone);
      if s[0] !in gone {
        assert ([s[0]] + rest)[1..] == rest;
      }
    }
  }

  lemma {:induction false} SubstKeeps(s: string, kind: char -> bool)
    requires Lasting(kind)
    ensures Only(Subst(s, ',', '.'), kind) == Only(s, kind)
  {
    if s != [] {
      SubstKeeps(s[1..], kind);
      assert IsPunctuation(',') && IsPunctuation('.');
    }
  }

  lemma {:induction false} ResolvingKeeps(s: string, kind: char -> bool)
    requires Lasting(kind)
    ensures Only(ResolveSeparators(s), kind) == Only(s, kind)
  {
    WithoutKeeps(s, ",", kind);
    WithoutKeeps(s, ".", kind);
    SubstKeeps(s, kind);
    SubstKeeps(Without(s, "."), kind);
  }

  lemma {:induction false} ParenthesesKeep(s: string, kind: char -> bool)
    requires Lasting(kind) && InParentheses(s)
    ensures Only(s[1..|s| - 1], kind) == Only(s, kind)
  {
    var inner := s[1..|s| - 1];
    assert s == ['('] + inner + [')'];
    assert IsPunctuation('(') && IsPunctuation(')');
    OnlyJoin(['('] + inner, [')'], kind);
    OnlyJoin(['('], inner, kind);
    OnlyNothing(['('], kind);
    OnlyNothing([')'], kind);
  }

  lemma {:induction false} SymbolsArePunctuation()
    ensures forall c :: c in DECORATION ==> IsPunctuation(c)
  {
  }

  lemma {:induction false} BareKeeps(s: string, kind: char -> bool)
    requires Lasting(kind)
    ensures Only(Bare(s), kind) == Only(s, kind)
  {
    var inner := if InParentheses(s) then s[1..|s| - 1] else s;
    if InParentheses(s) {
      ParenthesesKeep(s, kind);
    }
    SignsKeep(inner, kind);
    SymbolsArePunctuation();
    WithoutKeeps(LStripSigns(inner), DECORATION, kind);
  }

  // ------------------------------------------------------ what a number is

  lemma {:induction false} SplitParts(s: string, c: char)
    ensures |Split(s, c)| == 1 ==> s == Split(s, c)[0]
    ensures |Split(s, c)| == 2 ==> s == Split(s, c)[0] + [c] + Split(s, c)[1]
  {
    if s != [] {
      SplitParts(s[1..], c);
      var rest := Split(s[1..], c);
      assert s == [s[0]] + s[1..];
      if s[0] != c && |rest| == 2 {
        assert Split(s, c)[0] + [c] + Split(s, c)[1] == [s[0]] + (rest[0] + [c] + rest[1]);
      }
    }
  }

  /** Neither a digit nor punctuation: letters, say. */
  predicate IsForeign(c: char) {
    !IsDigit(c) && !IsPunctuation(c)
  }

  lemma {:induction false} KindsLast()
    ensures Lasting(IsDigit) && Lasting(IsForeign)
  {
  }

  /** An accepted number holds digits and nothing foreign, and its coefficient is, up to its
      sign, the number its digits make. */
  ghost predicate MadeOf(s: string, v: Decimal) {
    && Only(s, IsForeign) == []
    && var digits := Only(s, IsDigit);
       && digits != [] && AllDigits(digits) && v.scale <= |digits|
       && var n: int := Number(digits);
          v.coefficient == n || v.coefficient == -n
  }

  lemma {:induction false} BodyIsMadeOf(body: string, whole: string, fraction: string)
    requires AllDigits(whole) && AllDigits(fraction)
    requires body == whole + ['.'] + fraction || (body == whole && fraction == [])
    ensures Only(body, IsDigit) == whole + fraction && Only(body, IsForeign) == []
  {
    OnlyAll(whole, IsDigit);
    if body == whole + ['.'] + fraction {
      PointApart(whole, fraction);
    }
    OnlyNothing(body, IsForeign);
  }

  lemma {:induction false} PointApart(whole: string, fraction: string)
    requires AllDigits(fraction)
    ensures Only(whole + ['.'] + fraction, IsDigit) == Only(whole, IsDigit) + fraction
  {
    AroundNothing(whole, ['.'], fraction, IsDigit);
    OnlyAll(fraction, IsDigit);
  }

  lemma {:induction false} AroundNothing(a: string, b: string, c: string, kind: char -> bool)
    requires forall x :: x in b ==> !kind(x)
    ensures Only(a + b + c, kind) == Only(a, kind) + Only(c, kind)
  {
    OnlyJoin(a + b, c, kind);
    OnlyJoin(a, b, kind);
    OnlyNothing(b, kind);
    assert Only(a, kind) + [] == Only(a, kind);
  }

  lemma {:induction false} SignBefore(t: string, body: string)
    requires t == body || (t != [] && (t[0] == '+' || t[0] == '-') && body == t[1..])
    ensures Only(t, IsDigit) == Only(body, IsDigit) && Only(t, IsForeign) == Only(body, IsForeign)
  {
  }

  lemma {:induction false} ParsedIsMadeOf(s: string)
    requires ParseDecimal(s).Some?
    ensures MadeOf(s, ParseDecimal(s).value)
  {
    KindsLast();
    StripKeeps(s, IsDigit);
    StripKeeps(s, IsForeign);
    var t := Strip(s);
    var body := if t != [] && (t[0] == '+' || t[0] == '-') then t[1..] else t;
    SignBefore(t, body);
    var parts := Split(body, '.');
    SplitParts(body, '.');
    var fraction := if |parts| == 2 then parts[1] else [];
    DigitsApart(parts[0], fraction);
    BodyIsMadeOf(body, parts[0], fraction);
  }

  lemma {:induction false} DigitsApart(whole: string, fraction: string)
    requires AllDigits(whole + fraction)
    ensures AllDigits(whole) && AllDigits(fraction)
  {
    assert forall i :: 0 <= i < |whole| ==> whole[i] == (whole + fraction)[i];
    assert forall i :: 0 <= i < |fraction| ==> fraction[i] == (whole + fraction)[|whole| + i];
  }

  // ---------------------------------------------------------- main results

  /** An accepted text has a digit, only digits and punctuation, and reads, up to its sign and
      the place of its point, as the number that its digits make. */
  lemma {:induction false} AcceptedIsNumber(raw: Option<string>)
    requires AmountOf(raw).Ok?
    ensures raw.Some? && MadeOf(raw.value, AmountOf(raw).value)
    ensures exists c :: c in raw.value && IsDigit(c)
    ensures forall c :: c in raw.value ==> IsDigit(c) || IsPunctuation(c)
  {
    var s := Strip(raw.value);
    TextKeeps(raw.value, IsDigit);
    TextKeeps(raw.value, IsForeign);
    ParsedIsMadeOf(ResolveSeparators(Bare(s)));
    assert Only(raw.value, IsDigit)[0] in Only(raw.value, IsDigit);
    forall c | c in raw.value ensures IsDigit(c) || IsPunctuation(c) {
      assert c !in Only(raw.value, IsForeign);
    }
  }

  lemma {:induction false} TextKeeps(text: string, kind: char -> bool)
    requires kind == IsDigit || kind == IsForeign
    ensures Only(ResolveSeparators(Bare(Strip(text))), kind) == Only(text, kind)
  {
    KindsLast();
    StripKeeps(text, kind);
    BareKeeps(Strip(text), kind);
    ResolvingKeeps(Bare(Strip(text)), kind);
  }

  /** So a text without a digit, or with anything foreign in it, is refused: blank text, a lone
      dash, "n/a", "none" and "null" in any case, and whatever has a letter. */
  lemma {:induction false} OthersAreRefused(text: string)
    requires (forall c :: c in text ==> !IsDigit(c)) || exists c :: c in text && !IsDigit(c) && !IsPunctuation(c)
    ensures AmountOf(Some(text)) == Err(Unparseable(text))
  {
    if AmountOf(Some(text)).Ok? {
      AcceptedIsNumber(Some(text));
    }
  }

  /** A letter is neither a digit nor punctuation. */
  lemma {:induction false} LettersAreRefused(text: string, i: nat)
    requires i < |text| && ('a' <= text[i] <= 'z' || 'A' <= text[i] <= 'Z')
    ensures AmountOf(Some(text)) == Err(Unparseable(text))
  {
    assert text[i] in text;
    OthersAreRefused(text);
  }

  lemma {:induction false} NothingIsRefused()
    ensures AmountOf(None) == Err(EmptyAmount)
  {
  }

  // -------------------------------------------------------- what digits mean

  /** A number written in decimal. */
  function Written(n: nat): (s: string)
    ensures s != [] && AllDigits(s)
  {
    if n < 10 then [(n + '0' as int) as char] else Written(n / 10) + [(n % 10 + '0' as int) as char]
  }

  /** Digits mean what they do in decimal: reading a written number gives it back. */
  lemma {:induction false} WrittenReads(n: nat)
    ensures Number(Written(n)) == n
  {
    if n >= 10 {
      WrittenReads(n / 10);
      var s := Written(n);
      assert s[..|s| - 1] == Written(n / 10);
    } else {
      assert Written(n)[..0] == [];
    }
  }

  /** A point further left makes a number ten times smaller. */
  lemma {:induction false} PointMeans(n: int, k: nat)
    ensures Worth(Decimal(n, 0)) == n as real
    ensures Worth(Decimal(n, k + 1)) * 10.0 == Worth(Decimal(n, k))
  {
    TenTimes(n as real, Pow10(k) as real);
    assert Pow10(k + 1) as real == 10.0 * Pow10(k) as real;
  }

  lemma {:induction false} TenTimes(x: real, p: real)
    requires p > 0.0
    ensures x / (10.0 * p) * 10.0 == x / p
  {
    var q := x / (10.0 * p);
    assert q * (10.0 * p) == x;
    assert q * 10.0 * p == x;
  }
}
