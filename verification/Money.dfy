/** Amounts in minor units (modules/ticket/withdrawal.go): parsing what a seller typed and printing
    what the ledger stores, within an int64. */
module Money {
  import opened Wrappers
  import opened Text
  import opened Decimal

  const CURRENCIES: set<string> := {
    "IDR", "MYR", "SGD", "PHP", "THB", "VND", "BND", "INR", "BDT", "PKR", "LKR", "CNY", "HKD", "TWD",
    "JPY", "KRW", "USD"
  }

  const ZERO_DECIMAL: set<string> := {"JPY", "KRW", "VND"}

  const MAX_INT64: int := 9223372036854775807

  datatype Amount = Amount(minor: int, currency: string, display: string)

  predicate ValidCurrency(code: string) {
    Upper(TrimSpace(code)) in CURRENCIES
  }

  /** currencyExponent */
  function Exponent(code: string): Option<nat> {
    if !ValidCurrency(code) then None
    else if code in ZERO_DECIMAL then Some(0)
    else Some(2)
  }

  function FormatAmount(minor: int, currency: string): string {
    var exp := Exponent(currency);
    if exp.None? || minor <= 0 then ""
    else if exp.value == 0 then Numeral(minor)
    else
      var padded := Padded(minor, 3);
      padded[..|padded| - 2] + "." + padded[|padded| - 2..]
  }

  /** ^[A-Za-z]{3}$ */
  predicate ThreeLetters(s: string) {
    |s| == 3 && forall i :: 0 <= i < 3 ==> IsUpper(s[i]) || IsLower(s[i])
  }

  /** 0|[1-9]\d* */
  predicate WholePart(s: string) {
    s != [] && (forall i :: 0 <= i < |s| ==> IsDigit(s[i])) && (s[0] == '0' ==> |s| == 1)
  }

  /** \d{1,2} */
  predicate Decimals(s: string) {
    1 <= |s| <= 2 && IsDigit(s[0]) && IsDigit(s[|s| - 1])
  }

  /** The position of the first dot, or the length when there is none. */
  function DotAt(s: string): (k: nat)
    ensures k <= |s|
    ensures k < |s| ==> s[k] == '.'
    ensures forall i :: 0 <= i < k ==> s[i] != '.'
  {
    if s == [] || s[0] == '.' then 0 else 1 + DotAt(s[1..])
  }

  /** The part of a text after its first dot. */
  function AfterDot(s: string): string {
    if DotAt(s) < |s| then s[DotAt(s) + 1..] else ""
  }

  /** The two patterns of ParseAmount: whole units only, or up to two decimals. */
  predicate MatchesPattern(s: string, exp: nat) {
    WholePart(s[..DotAt(s)]) && (DotAt(s) < |s| ==> exp == 2 && Decimals(AfterDot(s)))
  }

  /** The digits of both parts, padded to the exponent, read as one number. */
  function Units(s: string, exp: nat): nat
    requires MatchesPattern(s, exp)
  {
    var frac := AfterDot(s);
    Value(s[..DotAt(s)] + (frac + Zeros(exp - |frac|)))
  }

  function ParseAmount(value: string, code: string): Option<Amount> {
    var currency := Upper(TrimSpace(code));
    var exp := Exponent(currency);
    if exp.None? || !ThreeLetters(TrimSpace(code)) then None
    else
      var amount := TrimSpace(value);
      if amount == "" || Utf8Len(amount) > 40 || !MatchesPattern(amount, exp.value) then None
      else
        var n := Units(amount, exp.value);
        if n <= 0 || n > MAX_INT64 then None
        else Some(Amount(n, currency, FormatAmount(n, currency)))
  }

  // An independent reading of the accepted texts: a grammar, and the number it denotes.

  ghost predicate Reads(s: string, exp: nat, whole: string, frac: string) {
    && WholePart(whole) && AllDigits(frac)
    && (|| (frac == "" && s == whole)
        || (exp == 2 && Decimals(frac) && s == whole + "." + frac))
  }

  ghost function Scaled(exp: nat, whole: string, frac: string): nat
    requires AllDigits(whole) && AllDigits(frac) && |frac| <= exp
  {
    Value(whole) * Pow10(exp) + Value(frac) * Pow10(exp - |frac|)
  }

  ghost predicate Denotes(s: string, exp: nat, n: int) {
    exists whole, frac :: Reads(s, exp, whole, frac) && |frac| <= exp && n == Scaled(exp, whole, frac)
  }

  lemma ReadsSplitsAtDot(s: string, exp: nat, whole: string, frac: string)
    requires Reads(s, exp, whole, frac)
    ensures whole == s[..DotAt(s)]
    ensures frac == AfterDot(s)
    ensures MatchesPattern(s, exp)
  {
    var k := DotAt(s);
    if s == whole {
      assert k == |s|;
    } else {
      assert s[|whole|] == '.';
      assert k == |whole|;
    }
  }

  lemma CombinedValue(whole: string, frac: string, exp: nat)
    requires AllDigits(whole) && AllDigits(frac) && |frac| <= exp
    ensures Value(whole + (frac + Zeros(exp - |frac|))) == Scaled(exp, whole, frac)
  {
    hide Value, Pow10, Zeros;
    var zeros := Zeros(exp - |frac|);
    assert |zeros| == exp - |frac| && |frac + zeros| == exp;
    ValueConcat(whole, frac + zeros);
    ValueConcat(frac, zeros);
    ValueOfZeros(exp - |frac|);
  }

  lemma JoinAtDot(s: string, k: nat)
    requires k < |s| && s[k] == '.'
    ensures s == s[..k] + "." + s[k + 1..]
  {
  }

  lemma PatternReads(s: string, exp: nat)
    requires MatchesPattern(s, exp)
    ensures Reads(s, exp, s[..DotAt(s)], AfterDot(s))
  {
    var k := DotAt(s);
    if k < |s| {
      JoinAtDot(s, k);
      assert Decimals(AfterDot(s));
    } else {
      assert s[..k] == s;
    }
  }

  lemma PatternDenotes(s: string, exp: nat)
    requires MatchesPattern(s, exp)
    ensures Denotes(s, exp, Units(s, exp))
  {
    PatternReads(s, exp);
    var k := DotAt(s);
    CombinedValue(s[..k], AfterDot(s), exp);
    assert Units(s, exp) == Scaled(exp, s[..k], AfterDot(s));
  }

  lemma DenotesUnits(s: string, exp: nat, n: int)
    requires Denotes(s, exp, n)
    ensures MatchesPattern(s, exp) && n == Units(s, exp)
  {
    var whole, frac :| Reads(s, exp, whole, frac) && |frac| <= exp && n == Scaled(exp, whole, frac);
    ReadsSplitsAtDot(s, exp, whole, frac);
    CombinedValue(whole, frac, exp);
  }

  /** The decimal places of a currency that is one of the accepted codes. */
  function Places(currency: string): nat {
    if currency in ZERO_DECIMAL then 0 else 2
  }

  /** ParseAmount accepts exactly the amounts of the grammar whose scaled value is a positive int64,
      and answers that value, the canonical currency and the canonical display. */
  lemma ParseAmountExact(value: string, code: string)
    ensures var currency := Upper(TrimSpace(code));
            ParseAmount(value, code).Some? <==>
              && ValidCurrency(currency) && ThreeLetters(TrimSpace(code))
              && Utf8Len(TrimSpace(value)) <= 40
              && exists n :: 1 <= n <= MAX_INT64 && Denotes(TrimSpace(value), Places(currency), n)
    ensures var currency := Upper(TrimSpace(code));
            forall n :: ParseAmount(value, code).Some? && Denotes(TrimSpace(value), Places(currency), n) ==>
              ParseAmount(value, code).value == Amount(n, currency, FormatAmount(n, currency))
  {
    var amount, exp := TrimSpace(value), Places(Upper(TrimSpace(code)));
    if MatchesPattern(amount, exp) {
      PatternDenotes(amount, exp);
    }
    forall n | Denotes(amount, exp, n)
      ensures MatchesPattern(amount, exp) && n == Units(amount, exp)
    {
      DenotesUnits(amount, exp, n);
    }
  }

  /** Digits up to k, with no zero in front of another digit, and in a currency with decimals perhaps a dot and one
      or two digits. */
  ghost predicate SpelledAt(s: string, exp: nat, k: nat) {
    && 1 <= k <= |s| && (forall i :: 0 <= i < k ==> '0' <= s[i] <= '9') && (s[0] == '0' ==> k == 1)
    && (k == |s| || (exp == 2 && s[k] == '.' && k + 2 <= |s| <= k + 3
                     && forall i :: k < i < |s| ==> '0' <= s[i] <= '9'))
  }

  lemma PatternIsSpelling(s: string, exp: nat)
    ensures MatchesPattern(s, exp) <==> SpelledAt(s, exp, DotAt(s))
    ensures forall k: nat :: SpelledAt(s, exp, k) ==> k == DotAt(s)
  {
    var k := DotAt(s);
    if k < |s| {
      assert Decimals(s[k + 1..]) <==>
          k + 2 <= |s| <= k + 3 && forall i :: k < i < |s| ==> IsDigit(s[i]) by {
        assert forall i :: k < i < |s| ==> s[i] == s[k + 1..][i - k - 1];
      }
    }
  }

  /** The accepted spellings of an amount are exactly those. */
  lemma SpellingsAre(s: string, exp: nat)
    ensures (exists n :: Denotes(s, exp, n)) <==> exists k: nat :: SpelledAt(s, exp, k)
  {
    PatternIsSpelling(s, exp);
    hide SpelledAt, MatchesPattern, Denotes, Units;
    if exists n :: Denotes(s, exp, n) {
      var n :| Denotes(s, exp, n);
      DenotesUnits(s, exp, n);
    }
    if MatchesPattern(s, exp) {
      PatternDenotes(s, exp);
      assert Denotes(s, exp, Units(s, exp));
    }
  }

  lemma ReadsOneAndAHalf(s: string)
    requires |s| == 3 && s[0] == '1' && s[1] == '.' && s[2] == '5'
    ensures Denotes(s, 2, 150) && TrimSpace(s) == s && Utf8Len(s) == 3
  {
    PlainText(s);
    assert s == ['1'] + "." + ['5'];
    assert ['1'][..0] == [] && ['5'][..0] == [];
    assert Value(['1']) == 1 && Value(['5']) == 5 && Pow10(2) == 100 && Pow10(1) == 10;
    assert Reads(s, 2, ['1'], ['5']) && Scaled(2, ['1'], ['5']) == 150;
  }

  lemma PrintsOneAndAHalf()
    ensures FormatAmount(150, "USD") == "1.50"
  {
    assert Numeral(1) == "1" && Numeral(15) == "15" && Numeral(150) == "150";
    CanonicalCurrency("USD");
  }

  /** One and a half dollars are 150 cents, and there is no such amount of yen. */
  lemma OneAndAHalf()
    ensures ParseAmount("1.5", "USD") == Some(Amount(150, "USD", "1.50")) && ParseAmount("1.5", "JPY").None?
  {
    hide *;
    ReadsOneAndAHalf("1.5");
    PrintsOneAndAHalf();
    DollarsAndYen();
    CanonicalCurrency("USD");
    CanonicalCurrency("JPY");
    ParseAmountExact("1.5", "USD");
    ParseAmountExact("1.5", "JPY");
    NoDecimals("1.5");
  }

  lemma DollarsAndYen()
    ensures "USD" in CURRENCIES && "JPY" in CURRENCIES && Places("USD") == 2 && Places("JPY") == 0 && MAX_INT64 >= 150
  {
  }

  lemma NoDecimals(s: string)
    requires |s| == 3 && s[1] == '.'
    ensures forall n :: !Denotes(s, 0, n)
  {
    forall n
      ensures !Denotes(s, 0, n)
    {
      if Denotes(s, 0, n) {
        DenotesUnits(s, 0, n);
      }
    }
    hide Units, Denotes;
  }

  lemma CurrencyLetters(c: string)
    requires c in CURRENCIES
    ensures |c| == 3 && IsUpper(c[0]) && IsUpper(c[1]) && IsUpper(c[2])
  {
  }

  lemma CanonicalCurrency(c: string)
    requires c in CURRENCIES
    ensures |c| == 3 && (forall i :: 0 <= i < 3 ==> IsUpper(c[i]))
    ensures TrimSpace(c) == c && Upper(c) == c && ValidCurrency(c) && ThreeLetters(c)
  {
    CurrencyLetters(c);
    TrimSpaceTrims(c);
    assert Upper(c) == c;
  }

  lemma PowerOfNineteen()
    ensures Pow10(19) == 10000000000000000000
  {
    assert Pow10(9) == 1000000000;
  }

  lemma NumeralShort(n: int)
    requires 1 <= n <= MAX_INT64
    ensures |Numeral(n)| <= 19
  {
    var s := Numeral(n);
    if |s| > 19 {
      ValueLowerBound(s);
      Pow10Grows(19, |s| - 1);
      PowerOfNineteen();
    }
  }

  lemma ScaledOfDigits(whole: string, frac: string)
    requires AllDigits(whole) && AllDigits(frac) && |frac| == 2
    ensures Scaled(2, whole, frac) == Value(whole + frac)
  {
    ValueConcat(whole, frac);
    assert Pow10(0) == 1;
  }

  /** The padded digits split into a whole part and two decimals. */
  lemma PaddedReads(n: int)
    requires 1 <= n <= MAX_INT64
    ensures var p := Padded(n, 3);
            && Reads(p[..|p| - 2] + "." + p[|p| - 2..], 2, p[..|p| - 2], p[|p| - 2..])
            && Scaled(2, p[..|p| - 2], p[|p| - 2..]) == n
            && |p| <= 19
  {
    var p := Padded(n, 3);
    NumeralShort(n);
    PaddedValue(n, 3);
    var whole, frac := p[..|p| - 2], p[|p| - 2..];
    assert Value(whole + frac) == n by { assert p == whole + frac; }
    ScaledOfDigits(whole, frac);
    if |p| > 3 {
      assert whole[0] == Numeral(n)[0];
    }
  }

  lemma PlainText(s: string)
    requires forall i :: 0 <= i < |s| ==> IsDigit(s[i]) || s[i] == '.'
    ensures TrimSpace(s) == s && Utf8Len(s) == |s|
  {
    TrimSpaceTrims(s);
    Utf8LenAscii(s);
  }

  lemma WholeUnitsRead(n: int)
    requires 1 <= n <= MAX_INT64
    ensures Denotes(Numeral(n), 0, n)
    ensures TrimSpace(Numeral(n)) == Numeral(n) && Utf8Len(Numeral(n)) <= 20
  {
    NumeralShort(n);
    var display := Numeral(n);
    assert Reads(display, 0, display, "") && Scaled(0, display, "") == n;
    PlainText(display);
  }

  lemma TwoDecimalsRead(n: int)
    requires 1 <= n <= MAX_INT64
    ensures var p := Padded(n, 3);
            var display := p[..|p| - 2] + "." + p[|p| - 2..];
            Denotes(display, 2, n) && TrimSpace(display) == display && Utf8Len(display) <= 20
  {
    PaddedReads(n);
    var p := Padded(n, 3);
    PlainText(p[..|p| - 2] + "." + p[|p| - 2..]);
  }

  /** What FormatAmount prints is one reading of the amount it was given. */
  lemma FormatReads(n: int, c: string)
    requires 1 <= n <= MAX_INT64 && c in CURRENCIES
    ensures Denotes(FormatAmount(n, c), Places(c), n)
    ensures TrimSpace(FormatAmount(n, c)) == FormatAmount(n, c) && Utf8Len(FormatAmount(n, c)) <= 20
  {
    assert ValidCurrency(c) by { CanonicalCurrency(c); }
    WholeUnitsRead(n);
    TwoDecimalsRead(n);
  }

  /** Printing then parsing gives back the amount, and the same text. */
  lemma MoneyRoundTrip(n: int, c: string)
    requires 1 <= n <= MAX_INT64 && c in CURRENCIES
    ensures ParseAmount(FormatAmount(n, c), c) == Some(Amount(n, c, FormatAmount(n, c)))
  {
    CanonicalCurrency(c);
    FormatReads(n, c);
    ParseAmountExact(FormatAmount(n, c), c);
  }

  lemma UpperLettersStay(s: string)
    requires ThreeLetters(s)
    ensures TrimSpace(Upper(s)) == Upper(s) && Upper(Upper(s)) == Upper(s)
  {
    assert forall i :: 0 <= i < 3 ==> IsUpper(Upper(s)[i]);
    TrimSpaceTrims(Upper(s));
  }

  /** Every accepted spelling has one canonical display, which is itself accepted as the same amount;
      two amounts of one currency never share a display. */
  lemma DisplayIsCanonical(value: string, code: string)
    requires ParseAmount(value, code).Some?
    ensures var m := ParseAmount(value, code).value;
            && 1 <= m.minor <= MAX_INT64 && m.currency in CURRENCIES
            && ParseAmount(m.display, m.currency) == Some(m)
  {
    var m := ParseAmount(value, code).value;
    assert Upper(TrimSpace(Upper(TrimSpace(code)))) == m.currency by {
      UpperLettersStay(TrimSpace(code));
    }
    MoneyRoundTrip(m.minor, m.currency);
  }

  lemma DisplayInjective(a: int, b: int, c: string)
    requires 1 <= a <= MAX_INT64 && 1 <= b <= MAX_INT64 && c in CURRENCIES
    requires FormatAmount(a, c) == FormatAmount(b, c)
    ensures a == b
  {
    MoneyRoundTrip(a, c);
    MoneyRoundTrip(b, c);
  }

  lemma DotHasDecimals(n: int, s: string)
    requires n >= 1 && s == (var p := Padded(n, 3); p[..|p| - 2] + "." + p[|p| - 2..])
    ensures DotAt(s) < |s| && TrimSpace(s) == s
  {
    var p := Padded(n, 3);
    assert s[|p| - 2] == '.';
    PlainText(s);
  }

  /** FormatAmount compares the code as it stands with the codes that have no decimals, while ParseAmount
      reads it trimmed and in upper case. So the round trip holds for every accepted spelling of a currency in
      ASCII letters, except for one that has no decimals and is not written in its canonical form. */
  lemma RoundTripExactly(n: int, code: string)
    requires 1 <= n <= MAX_INT64 && ValidCurrency(code)
    ensures var currency := Upper(TrimSpace(code));
            ParseAmount(FormatAmount(n, code), code) == Some(Amount(n, currency, FormatAmount(n, currency)))
            <==> ThreeLetters(TrimSpace(code)) && (currency in ZERO_DECIMAL ==> code == currency)
  {
    var currency := Upper(TrimSpace(code));
    if !ThreeLetters(TrimSpace(code)) {
      return;
    }
    CanonicalCurrency(currency);
    MoneyRoundTrip(n, currency);
    UpperLettersStay(TrimSpace(code));
    if code in ZERO_DECIMAL {
      CanonicalCurrency(code);
    } else if currency in ZERO_DECIMAL {
      DotHasDecimals(n, FormatAmount(n, code));
    } else {
      assert FormatAmount(n, code) == FormatAmount(n, currency);
    }
  }

  /** Five yen under "jpy" print as "0.05", which does not read back. */
  lemma LowerCaseYenDoesNotReadBack()
    ensures ValidCurrency("jpy") && FormatAmount(5, "jpy") == "0.05" && FormatAmount(5, "JPY") == "5"
    ensures ParseAmount("0.05", "jpy").None?
  {
    UpperYen();
    assert Padded(5, 3) == "005" by { assert Numeral(5) == "5" && Zeros(2) == "00"; }
    hide Numeral, Padded, Value, Upper, TrimSpace;
    DotHasDecimals(5, "0.05");
  }

  lemma UpperYen()
    ensures TrimSpace("jpy") == "jpy" && Upper("jpy") == "JPY" && TrimSpace("JPY") == "JPY" && Upper("JPY") == "JPY"
  {
    TrimSpaceTrims("jpy");
    TrimSpaceTrims("JPY");
    assert Upper("jpy") == "JPY" && Upper("JPY") == "JPY";
  }
}
