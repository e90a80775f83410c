/** The card-number check: 12 to 19 digits passing the Luhn formula of ISO/IEC 7812-1,
    Annex B, and what the formula detects. */
module Luhn {
  import opened Common
  import opened Amounts

  type Digit = d: int | 0 <= d <= 9

  /** The digit sum of twice a digit. */
  function Doubled(d: Digit): Digit {
    if 2 * d > 9 then 2 * d - 9 else 2 * d
  }

  function Weighted(d: Digit, double: bool): Digit {
    if double then Doubled(d) else d
  }

  /** The standard's sum: from the rightmost digit leftwards, every second digit doubled.
      `double` says whether the rightmost digit is. */
  function SumFromRight(ds: seq<Digit>, double: bool): nat {
    if ds == [] then 0
    else Weighted(ds[|ds| - 1], double) + SumFromRight(ds[..|ds| - 1], !double)
  }

  predicate Passes(ds: seq<Digit>) {
    SumFromRight(ds, false) % 10 == 0
  }

  // -------------------------------------------------- the check on a string

  /** `\s` on ASCII text, and `-`. */
  predicate IsSeparator(c: char) {
    c == '-' || IsSpace(c)
  }

  function Cleaned(s: string): string {
    if s == [] then []
    else (if IsSeparator(s[0]) then [] else [s[0]]) + Cleaned(s[1..])
  }

  function DigitOf(c: char): Digit
    requires IsDigit(c)
  {
    c as int - '0' as int
  }

  function DigitsOf(s: string): (ds: seq<Digit>)
    requires AllDigits(s)
    ensures |ds| == |s| && forall i :: 0 <= i < |s| ==> ds[i] == DigitOf(s[i])
  {
    if s == [] then [] else [DigitOf(s[0])] + DigitsOf(s[1..])
  }

  predicate CardValid(raw: Option<string>) {
    raw.Some? && ValidDigits(Cleaned(raw.value))
  }

  predicate ValidDigits(s: string) {
    12 <= |s| <= 19 && AllDigits(s) && Passes(DigitsOf(s))
  }

  /** Peeling the sum from the left: the weight of the first digit depends on how many follow. */
  lemma {:induction false} PeelLeft(ds: seq<Digit>, double: bool)
    requires ds != []
    ensures SumFromRight(ds, double) ==
            Weighted(ds[0], if |ds| % 2 == 1 then double else !double) + SumFromRight(ds[1..], double)
  {
    if |ds| > 1 {
      PeelLeft(ds[..|ds| - 1], !double);
      assert ds[1..][..|ds| - 2] == ds[..|ds| - 1][1..];
    }
  }

  /** The left-to-right parity loop decides the right-to-left formula, at every length. */
  method IsValidCardNo(raw: Option<string>) returns (ok: bool)
    ensures ok == CardValid(raw)
  {
    if raw.None? {
      return false;
    }
    var digits := Cleaned(raw.value);
    if !AllDigits(digits) || !(12 <= |digits| <= 19) {
      return false;
    }
    var total := LuhnTotal(DigitsOf(digits));
    ok := total % 10 == 0;
  }

  /** The loop: position i is doubled when its parity is that of the length. */
  method LuhnTotal(ds: seq<Digit>) returns (total: nat)
    ensures total == SumFromRight(ds, false)
  {
    total := 0;
    var parity := |ds| % 2;
    for i := 0 to |ds|
      invariant total + SumFromRight(ds[i..], false) == SumFromRight(ds, false)
    {
      PeelLeft(ds[i..], false);
      assert ds[i..][1..] == ds[i + 1..];
      SameParity(|ds|, i);
      var d: int := ds[i];
      if i % 2 == parity {
        d := d * 2;
        if d > 9 {
          d := d - 9;
        }
      }
      total := total + d;
    }
  }

  lemma SameParity(n: nat, i: nat)
    requires i <= n
    ensures i % 2 == n % 2 <==> (n - i) % 2 == 0
  {
  }

  // ------------------------------------------------------- what it detects

  lemma Alternate(k: nat)
    ensures (k + 1) % 2 == 0 <==> k % 2 != 0
  {
  }

  function WeightAt(n: nat, i: nat, double: bool): bool
    requires i < n
  {
    if (n - 1 - i) % 2 == 0 then double else !double
  }

  lemma WeightBelow(n: nat, i: nat, double: bool)
    requires i + 1 < n
    ensures WeightAt(n - 1, i, !double) == WeightAt(n, i, double)
  {
  }

  /** Changing the digit at `i` changes the sum by the difference of the weights. */
  lemma {:induction false} SumAfterChange(ds: seq<Digit>, i: nat, d: Digit, double: bool)
    requires i < |ds|
    ensures var w := WeightAt(|ds|, i, double);
            SumFromRight(ds[i := d], double) == SumFromRight(ds, double) - Weighted(ds[i], w) + Weighted(d, w)
  {
    var n := |ds| - 1;
    if i == n {
      assert ds[i := d][..n] == ds[..n];
    } else {
      assert ds[i := d][..n] == ds[..n][i := d];
      SumAfterChange(ds[..n], i, d, !double);
      WeightBelow(|ds|, i, double);
    }
  }

  lemma NearMultiple(s: nat, t: nat)
    requires s % 10 == 0 && -10 < t - s < 10
    ensures t % 10 == 0 <==> t == s
  {
  }

  /** No single-digit error goes undetected. */
  lemma {:induction false} SingleDigitErrorRejected(ds: seq<Digit>, i: nat, d: Digit)
    requires i < |ds| && d != ds[i] && Passes(ds)
    ensures !Passes(ds[i := d])
  {
    SumAfterChange(ds, i, d, false);
    NearMultiple(SumFromRight(ds, false), SumFromRight(ds[i := d], false));
  }

  function Swapped(ds: seq<Digit>, i: nat): seq<Digit>
    requires i + 1 < |ds|
  {
    ds[i := ds[i + 1]][i + 1 := ds[i]]
  }

  lemma {:induction false} SumAfterSwap(ds: seq<Digit>, i: nat)
    requires i + 1 < |ds|
    ensures var delta := SumFromRight(Swapped(ds, i), false) - SumFromRight(ds, false);
            var gain := (Doubled(ds[i]) - ds[i]) - (Doubled(ds[i + 1]) - ds[i + 1]);
            delta == gain || delta == -gain
  {
    SumAfterChange(ds, i, ds[i + 1], false);
    SumAfterChange(ds[i := ds[i + 1]], i + 1, ds[i], false);
    Alternate(|ds| - 2 - i);
  }

  /** Swapping two neighbours goes undetected exactly when they are equal or are 0 and 9. */
  lemma {:induction false} NeighbourSwapUndetectedIff(ds: seq<Digit>, i: nat)
    requires i + 1 < |ds| && Passes(ds)
    ensures Passes(Swapped(ds, i)) <==> ds[i] == ds[i + 1] || {ds[i], ds[i + 1]} == {0, 9}
  {
    SumAfterSwap(ds, i);
    DoublingGain(ds[i], ds[i + 1]);
    NearMultiple(SumFromRight(ds, false), SumFromRight(Swapped(ds, i), false));
  }

  /** Two digits gain the same from doubling exactly when they are equal or are 0 and 9;
      no two gains are ten or more apart. */
  lemma DoublingGain(a: Digit, b: Digit)
    ensures Doubled(a) - a == Doubled(b) - b <==> a == b || {a, b} == {0, 9}
    ensures -10 < (Doubled(a) - a) - (Doubled(b) - b) < 10
  {
  }

  function CheckDigit(payload: seq<Digit>): Digit {
    (10 - SumFromRight(payload, true) % 10) % 10
  }

  /** Every payload has exactly one check digit that makes it pass. */
  lemma {:induction false} CheckDigitUnique(payload: seq<Digit>, c: Digit)
    ensures Passes(payload + [c]) <==> c == CheckDigit(payload)
  {
    assert (payload + [c])[..|payload|] == payload;
  }

  // ---------------------------------------- what it detects on card numbers

  lemma {:induction false} CleanedJoin(s: string, t: string)
    ensures Cleaned(s + t) == Cleaned(s) + Cleaned(t)
  {
    if s == [] {
      assert s + t == t;
    } else {
      assert (s + t)[1..] == s[1..] + t;
      CleanedJoin(s[1..], t);
    }
  }

  lemma CleanedAround(before: string, c: char, after: string)
    requires IsDigit(c)
    ensures Cleaned(before + [c] + after) == Cleaned(before) + [c] + Cleaned(after)
  {
    CleanedJoin(before + [c], after);
    CleanedJoin(before, [c]);
  }

  lemma DigitReplaced(s: string, i: nat, c: char)
    requires AllDigits(s) && i < |s| && IsDigit(c)
    ensures AllDigits(s[i := c]) && DigitsOf(s[i := c]) == DigitsOf(s)[i := DigitOf(c)]
  {
  }

  lemma MistypedCleaned(s: string, i: nat, c: char)
    requires ValidDigits(s) && i < |s| && IsDigit(c) && c != s[i]
    ensures !ValidDigits(s[i := c])
  {
    MistypedDigits(s, DigitsOf(s), i, c);
  }

  lemma MistypedDigits(s: string, ds: seq<Digit>, i: nat, c: char)
    requires AllDigits(s) && ds == DigitsOf(s) && Passes(ds) && i < |s| && IsDigit(c) && c != s[i]
    ensures AllDigits(s[i := c]) && !Passes(DigitsOf(s[i := c]))
  {
    DigitReplaced(s, i, c);
    assert DigitOf(c) != ds[i];
    SingleDigitErrorRejected(ds, i, DigitOf(c));
  }

  lemma SwappedCleaned(s: string, i: nat)
    requires ValidDigits(s) && i + 1 < |s|
    ensures ValidDigits(s[i := s[i + 1]][i + 1 := s[i]]) <==> s[i] == s[i + 1] || {s[i], s[i + 1]} == {'0', '9'}
  {
    DigitReplaced(s, i, s[i + 1]);
    DigitReplaced(s[i := s[i + 1]], i + 1, s[i]);
    NeighbourSwapUndetectedIff(DigitsOf(s), i);
    SameDigits(s[i], s[i + 1]);
  }

  lemma SameDigits(c: char, d: char)
    requires IsDigit(c) && IsDigit(d)
    ensures DigitOf(c) == DigitOf(d) <==> c == d
    ensures {DigitOf(c), DigitOf(d)} == {0, 9} <==> {c, d} == {'0', '9'}
  {
  }

  lemma MiddleReplaced(p: string, c: char, c': char, q: string)
    ensures (p + [c] + q)[|p|] == c && (p + [c] + q)[|p| := c'] == p + [c'] + q
  {
  }

  /** Mistyping one digit of a valid card number makes it invalid, however it is spaced. */
  lemma MistypedDigitRejected(before: string, c: char, c': char, after: string)
    requires IsDigit(c) && IsDigit(c') && c != c' && CardValid(Some(before + [c] + after))
    ensures !CardValid(Some(before + [c'] + after))
  {
    CleanedAround(before, c, after);
    CleanedAround(before, c', after);
    MiddleReplaced(Cleaned(before), c, c', Cleaned(after));
    MistypedCleaned(Cleaned(before) + [c] + Cleaned(after), |Cleaned(before)|, c');
  }

  lemma PairSwapped(p: string, c: char, d: char, q: string)
    ensures var s := p + [c] + ([d] + q);
            s[|p|] == c && s[|p| + 1] == d && s[|p| := d][|p| + 1 := c] == p + [d] + ([c] + q)
  {
  }

  lemma SwappedPair(p: string, c: char, d: char, q: string)
    requires ValidDigits(p + [c] + ([d] + q))
    ensures ValidDigits(p + [d] + ([c] + q)) <==> c == d || {c, d} == {'0', '9'}
  {
    PairSwapped(p, c, d, q);
    SwappedCleaned(p + [c] + ([d] + q), |p|);
  }

  /** Typing two neighbouring digits of a valid card number in the wrong order, with any
      separators between them, goes undetected exactly when they are equal or are 0 and 9. */
  lemma SwappedDigitsUndetectedIff(before: string, c: char, between: string, d: char, after: string)
    requires IsDigit(c) && IsDigit(d) && Cleaned(between) == []
    requires CardValid(Some(before + [c] + (between + [d] + after)))
    ensures CardValid(Some(before + [d] + (between + [c] + after))) <==> c == d || {c, d} == {'0', '9'}
  {
    CleanedPair(before, c, between, d, after);
    CleanedPair(before, d, between, c, after);
    SwappedPair(Cleaned(before), c, d, Cleaned(after));
  }

  lemma CleanedPair(before: string, c: char, between: string, d: char, after: string)
    requires IsDigit(c) && IsDigit(d) && Cleaned(between) == []
    ensures Cleaned(before + [c] + (between + [d] + after)) == Cleaned(before) + [c] + ([d] + Cleaned(after))
  {
    CleanedAround(before, c, between + [d] + after);
    CleanedAround(between, d, after);
  }

  lemma DigitAppended(s: string, c: char)
    requires AllDigits(s) && IsDigit(c)
    ensures AllDigits(s + [c]) && DigitsOf(s + [c]) == DigitsOf(s) + [DigitOf(c)]
  {
  }

  lemma CheckedCleaned(s: string, c: char)
    requires 11 <= |s| <= 18 && AllDigits(s) && IsDigit(c)
    ensures ValidDigits(s + [c]) <==> DigitOf(c) == CheckDigit(DigitsOf(s))
  {
    DigitAppended(s, c);
    CheckDigitUnique(DigitsOf(s), DigitOf(c));
  }

  lemma CleanedLast(s: string, c: char)
    requires IsDigit(c)
    ensures Cleaned(s + [c]) == Cleaned(s) + [c]
  {
    CleanedJoin(s, [c]);
  }

  /** A payload of 11 to 18 digits has exactly one last digit that makes it a valid number. */
  lemma CardCheckDigitUnique(payload: string, c: char)
    requires 11 <= |Cleaned(payload)| <= 18 && AllDigits(Cleaned(payload)) && IsDigit(c)
    ensures CardValid(Some(payload + [c])) <==> DigitOf(c) == CheckDigit(DigitsOf(Cleaned(payload)))
  {
    CleanedLast(payload, c);
    CheckedCleaned(Cleaned(payload), c);
  }

  /** White space and hyphens mean nothing in a card number, wherever they stand. */
  lemma {:induction false} SeparatorsMeanNothing(before: string, c: char, after: string)
    requires c in {'-', ' ', '\t', '\n', '\r'}
    ensures CardValid(Some(before + [c] + after)) <==> CardValid(Some(before + after))
  {
    CleanedJoin(before + [c], after);
    CleanedJoin(before, [c]);
    CleanedJoin(before, after);
    assert Cleaned([c]) == [] && Cleaned(before) + [] + Cleaned(after) == Cleaned(before) + Cleaned(after);
  }

  /** Nothing else but digits may stand there. */
  lemma {:induction false} OthersInvalidate(before: string, c: char, after: string)
    requires !IsDigit(c) && c != '-' && c != ' ' && !('\t' <= c <= '\r') && !('\U{001C}' <= c <= '\U{001F}')
    ensures !CardValid(Some(before + [c] + after))
  {
    CleanedJoin(before + [c], after);
    CleanedJoin(before, [c]);
    assert !IsSeparator(c) && [c][1..] == [] && Cleaned([]) == [];
    assert Cleaned([c]) == [c];
    var s := Cleaned(before) + [c] + Cleaned(after);
    assert Cleaned(before + [c] + after) == s;
    assert s[|Cleaned(before)|] == c && !IsDigit(c);
    assert !AllDigits(s);
  }

  /** The digits of a text, in order. */
  function Figures(s: string): (r: string)
    ensures AllDigits(r)
  {
    if s == [] then [] else (if '0' <= s[0] <= '9' then [s[0]] else []) + Figures(s[1..])
  }

  /** White space, `-` and digits are all a card number may hold. */
  predicate Printable(c: char) {
    '0' <= c <= '9' || c in {'-', ' '} || '\t' <= c <= '\r' || '\U{001C}' <= c <= '\U{001F}'
  }

  lemma {:induction false} CleanedIs(s: string)
    ensures AllDigits(Cleaned(s)) <==> forall i :: 0 <= i < |s| ==> Printable(s[i])
    ensures AllDigits(Cleaned(s)) ==> Cleaned(s) == Figures(s)
  {
    if s != [] {
      CleanedIs(s[1..]);
      var own := if IsSeparator(s[0]) then [] else [s[0]];
      assert forall i :: 1 <= i < |s| ==> s[i] == s[1..][i - 1];
      DigitsInTwo(own, Cleaned(s[1..]));
    }
  }

  lemma DigitsInTwo(a: string, b: string)
    ensures AllDigits(a + b) <==> AllDigits(a) && AllDigits(b)
  {
    if AllDigits(a + b) {
      assert forall i :: 0 <= i < |a| ==> (a + b)[i] == a[i];
      assert forall i :: 0 <= i < |b| ==> (a + b)[|a| + i] == b[i];
    }
  }

  /** A card number is valid exactly when it holds nothing else, has 12 to 19 digits, and the
      standard's sum over them is a multiple of ten. */
  lemma {:induction false} ValidIff(text: string)
    ensures CardValid(Some(text)) <==>
            && (forall i :: 0 <= i < |text| ==> Printable(text[i]))
            && 12 <= |Figures(text)| <= 19
            && SumFromRight(DigitsOf(Figures(text)), false) % 10 == 0
    ensures !CardValid(None)
  {
    CleanedIs(text);
  }
}
