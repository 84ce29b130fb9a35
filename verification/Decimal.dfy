/** Decimal numerals: the digits strconv prints and the number they stand for. */
module Decimal {
  import opened Text

  function DigitChar(d: nat): char
    requires d < 10
  {
    '0' + d as char
  }

  function DigitValue(c: char): (d: nat)
    requires IsDigit(c)
    ensures d < 10
  {
    (c - '0') as int
  }

  ghost predicate AllDigits(s: string) {
    forall i :: 0 <= i < |s| ==> IsDigit(s[i])
  }

  function Pow10(n: nat): (p: nat)
    ensures p >= 1
  {
    if n == 0 then 1 else 10 * Pow10(n - 1)
  }

  /** The number a string of digits stands for. */
  function Value(s: string): nat
    requires AllDigits(s)
  {
    if s == [] then 0 else 10 * Value(s[..|s| - 1]) + DigitValue(s[|s| - 1])
  }

  /** strconv.FormatInt for a natural number: no leading zero except for zero itself. */
  function Numeral(n: nat): (s: string)
    ensures s != [] && AllDigits(s) && Value(s) == n
    ensures s[0] == '0' ==> n == 0 && s == "0"
  {
    if n < 10 then
      var s := [DigitChar(n)];
      assert s[..0] == [] && Value(s[..0]) == 0;
      s
    else
      var front := Numeral(n / 10);
      var s := front + [DigitChar(n % 10)];
      assert s[..|s| - 1] == front;
      s
  }

  function Zeros(n: nat): (s: string)
    ensures |s| == n && AllDigits(s)
    ensures forall i :: 0 <= i < n ==> s[i] == '0'
  {
    seq(n, _ => '0')
  }

  /** fmt's %0wd for a natural number. */
  function Padded(n: nat, width: nat): (s: string)
    ensures AllDigits(s) && |s| >= width && s != []
  {
    var s := Numeral(n);
    if |s| >= width then s else Zeros(width - |s|) + s
  }

  lemma ShiftLeft(a: int, p: int, x: int)
    ensures 10 * (a * p + x) == a * (10 * p) + 10 * x
  {
  }

  lemma {:induction false} ValueConcat(a: string, b: string)
    requires AllDigits(a) && AllDigits(b)
    ensures Value(a + b) == Value(a) * Pow10(|b|) + Value(b)
  {
    if b == [] {
      assert a + b == a;
    } else {
      var front := b[..|b| - 1];
      var p := Pow10(|front|);
      ValueConcat(a, front);
      assert (a + b)[..|a + b| - 1] == a + front;
      assert Value(a + b) == 10 * Value(a + front) + DigitValue(b[|b| - 1]);
      ShiftLeft(Value(a), p, Value(front));
      assert Pow10(|b|) == 10 * p;
    }
  }

  lemma {:induction false} ValueOfZeros(n: nat)
    ensures Value(Zeros(n)) == 0
  {
    if n > 0 {
      ValueOfZeros(n - 1);
      assert Zeros(n)[..n - 1] == Zeros(n - 1);
    }
  }

  lemma {:induction false} Pow10Grows(a: nat, b: nat)
    requires a <= b
    ensures Pow10(a) <= Pow10(b)
  {
    if a < b {
      Pow10Grows(a, b - 1);
    }
  }

  /** A numeral of more than k digits that does not start with zero is at least 10^k. */
  lemma {:induction false} ValueLowerBound(s: string)
    requires AllDigits(s) && s != [] && s[0] != '0'
    ensures Value(s) >= Pow10(|s| - 1)
  {
    if |s| > 1 {
      ValueLowerBound(s[..|s| - 1]);
    } else {
      assert s[..0] == [];
    }
  }

  lemma PaddedValue(n: nat, width: nat)
    ensures Value(Padded(n, width)) == n
    ensures |Padded(n, width)| > width ==> Padded(n, width) == Numeral(n)
  {
    var s := Numeral(n);
    if |s| < width {
      var zeros := Zeros(width - |s|);
      ValueConcat(zeros, s);
      ValueOfZeros(width - |s|);
      assert Padded(n, width) == zeros + s;
    }
  }
}
