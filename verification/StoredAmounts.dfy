/** The screen reads an amount as it was typed, and a withdrawal stores it as it is printed: what is printed can be what
    the screen looks for (modules/ticket/service.go, withdrawal.go). */
module StoredAmounts {
  import opened Wrappers
  import opened Text
  import opened Decimal
  import opened Money
  import opened CardNumber

  lemma {:induction false} NumeralOfDigits(s: string)
    requires AllDigits(s) && s != [] && s[0] != '0'
    ensures Numeral(Value(s)) == s
  {
    if |s| > 1 {
      var front, last := s[..|s| - 1], s[|s| - 1];
      NumeralOfDigits(front);
      ValueLowerBound(front);
      Pow10Grows(0, |front| - 1);
      NumeralNext(Value(front), DigitValue(last));
      DigitBack(last);
      hide Numeral, Pow10;
      assert Value(s) == 10 * Value(front) + DigitValue(last);
    } else {
      assert s[..0] == [];
      DigitBack(s[0]);
    }
  }

  lemma NumeralNext(v: nat, d: nat)
    requires v > 0 && d < 10
    ensures Numeral(10 * v + d) == Numeral(v) + [DigitChar(d)]
  {
    hide Value;
    assert (10 * v + d) / 10 == v && (10 * v + d) % 10 == d;
  }

  lemma DigitBack(c: char)
    requires IsDigit(c)
    ensures DigitChar(DigitValue(c)) == c
  {
  }

  lemma {:induction false} ValueUpperBound(s: string)
    requires AllDigits(s)
    ensures Value(s) < Pow10(|s|)
  {
    if s != [] {
      ValueUpperBound(s[..|s| - 1]);
    }
  }

  /** A five, thirteen ones and some zeros. */
  ghost predicate FiveOnes(digits: string, zeros: nat) {
    && |digits| == 14 + zeros && digits[0] == '5' && (forall i :: 1 <= i < 14 ==> digits[i] == '1')
    && forall i :: 14 <= i < |digits| ==> digits[i] == '0'
  }

  ghost function WithDot(digits: string): string
    requires |digits| >= 14
  {
    digits[..14] + "." + digits[14..]
  }

  lemma {:induction false} OnesAfter(front: string, ones: string, n: nat)
    requires |ones| == 2 * n && forall i :: 0 <= i < |ones| ==> ones[i] == '1'
    ensures AnnexB(front + ones) == AnnexB(front) + 3 * n
  {
    if n == 0 {
      assert front + ones == front;
    } else {
      var fewer := ones[..2 * n - 2];
      OnesAfter(front, fewer, n - 1);
      AnnexBOfTwoMore(front + fewer, '1', '1');
      assert (front + fewer) + ['1', '1'] == front + ones;
    }
  }

  lemma SumWithTwoZeros(digits: string)
    requires FiveOnes(digits, 2)
    ensures AnnexB(digits) == 20
  {
    AnnexBOfTwoMore([], '5', '1');
    OnesAfter(digits[..2], digits[2..14], 6);
    AnnexBOfTwoMore(digits[..14], '0', '0');
    assert AnnexB([]) == 0;
    hide AnnexB;
    assert [] + ['5', '1'] == digits[..2] && digits[..2] + digits[2..14] == digits[..14];
    assert digits[..14] + ['0', '0'] == digits;
  }

  lemma SumWithOneZero(digits: string)
    requires FiveOnes(digits, 1)
    ensures AnnexB(digits) == 25
  {
    assert AnnexB(digits[..1]) == 5;
    OnesAfter(digits[..1], digits[1..13], 6);
    AnnexBOfTwoMore(digits[..13], '1', '0');
    hide AnnexB;
    assert digits[..1] + digits[1..13] == digits[..13] && digits[..13] + ['1', '0'] == digits;
  }

  lemma DotIsNoDigit(digits: string, wide: WideDigits)
    requires AllDigits(digits) && 14 <= |digits| <= 19 && digits[0] != '0'
    ensures HasCard(WithDot(digits), wide) <==> AnnexB(digits) % 10 == 0
  {
    var whole, frac := digits[..14], digits[14..];
    DigitsConcat(whole + ".", frac);
    DigitsConcat(whole, ".");
    DigitsStay(whole);
    DigitsStay(frac);
    NoDigits(".");
    assert whole + [] + frac == digits;
    OnlyDigitsCount(WithDot(digits), wide);
    LuhnIsAnnexB(digits);
    hide AnnexB, LuhnSum, HasCard, DigitsOf;
  }

  lemma SixteenDigitsFit(digits: string)
    requires FiveOnes(digits, 2)
    ensures 1 <= Value(digits) <= MAX_INT64 && Padded(Value(digits), 3) == digits
  {
    ValueUpperBound(digits);
    ValueLowerBound(digits);
    assert Pow10(16) == 10_000_000_000_000_000 by { assert Pow10(8) == 100_000_000; }
    NumeralOfDigits(digits);
  }

  lemma TypedAmountReads(digits: string)
    requires FiveOnes(digits, 1)
    ensures Denotes(WithDot(digits), 2, Value(digits + "0"))
    ensures TrimSpace(WithDot(digits)) == WithDot(digits) && Utf8Len(WithDot(digits)) == 16
  {
    var whole, frac := digits[..14], digits[14..];
    PlainText(WithDot(digits));
    assert Reads(WithDot(digits), 2, whole, frac);
    CombinedValue(whole, frac, 2);
    assert Zeros(1) == "0" && whole + (frac + "0") == digits + "0";
  }

  /** A typed amount in which the screen finds nothing can be stored as a text in which it finds a card number:
      fifty-one trillion and some dollars, typed with one decimal and stored with two. */
  lemma StoredAmountCanShowCard(typed: string, wide: WideDigits)
    requires FiveOnes(typed, 1)
    ensures !HasCard(WithDot(typed), wide) && ParseAmount(WithDot(typed), "USD").Some?
    ensures ParseAmount(WithDot(typed), "USD").value.display == WithDot(typed + "0")
    ensures HasCard(WithDot(typed + "0"), wide)
  {
    var shown := typed + "0";
    hide *;
    Digits(typed, 1);
    Digits(shown, 2);
    ZeroAppended(typed);
    SumWithOneZero(typed);
    SumWithTwoZeros(shown);
    DotIsNoDigit(typed, wide);
    DotIsNoDigit(shown, wide);
    DollarsAndYen();
    CanonicalCurrency("USD");
    TypedAmountReads(typed);
    SixteenDigitsFit(shown);
    ParseAmountExact(WithDot(typed), "USD");
    PrintsWithDot(shown);
  }

  lemma Digits(digits: string, zeros: nat)
    ensures FiveOnes(digits, zeros) ==> |digits| == 14 + zeros && AllDigits(digits) && digits[0] != '0'
  {
  }

  lemma ZeroAppended(digits: string)
    requires FiveOnes(digits, 1)
    ensures FiveOnes(digits + "0", 2)
  {
  }

  lemma PrintsWithDot(digits: string)
    requires FiveOnes(digits, 2) && 1 <= Value(digits) && Padded(Value(digits), 3) == digits
    ensures FormatAmount(Value(digits), "USD") == WithDot(digits)
  {
    CanonicalCurrency("USD");
    hide Value, Padded;
  }
}
