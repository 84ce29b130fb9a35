/** Printing a 64-bit integer into a buffer of twenty bytes (modules/discordbot/ops.go). */
module Itoa {
  import opened Decimal

  const MIN_INT64: int := -9223372036854775808
  const MAX_INT64: int := 9223372036854775807

  /** Negation wraps at the least integer. */
  function Negated(n: int): int {
    if n == MIN_INT64 then n else -n
  }

  /** The numeral of an integer. */
  function IntegerText(n: int): string {
    if n < 0 then "-" + Numeral(-n) else Numeral(n)
  }

  /** text ends the numeral of n, and left is what is still to be printed in front of it; a negative n
      prints nothing. */
  ghost predicate Printing(n: int, left: int, text: string) {
    if n < 0 then left == n && text == ""
    else left >= 0 && Numeral(n) == (if left == 0 then "" else Numeral(left)) + text
  }

  lemma PrintNext(n: int, left: int, text: string)
    requires left > 0 && n != 0 && Printing(n, left, text)
    ensures n > 0 && Printing(n, left / 10, [DigitChar(left % 10)] + text)
  {
    hide AllDigits, Value;
    assert Numeral(left) == (if left / 10 == 0 then "" else Numeral(left / 10)) + [DigitChar(left % 10)];
  }

  lemma PrintEnds(n: int, left: int, text: string)
    ensures n != 0 ==> Printing(n, n, "")
    ensures left <= 0 && Printing(n, left, text) ==> if n < 0 then text == "" else text == Numeral(n)
  {
    hide AllDigits, Value;
  }

  lemma DigitOffset(d: nat)
    requires d < 10
    ensures DigitChar(d) == '0' + d as char
  {
  }

  lemma RoomNext(left: nat, room: nat)
    requires 0 < left < Pow10(room)
    ensures room > 0 && left / 10 < Pow10(room - 1)
  {
  }

  /** The loop: the digits of n, last first, from the end of the buffer. */
  method FillDigits(buf: array<char>, n: int) returns (i: nat)
    requires buf.Length > 0 && n < Pow10(buf.Length - 1) && n != 0
    modifies buf
    ensures n < 0 ==> i == buf.Length
    ensures n > 0 ==> 1 <= i <= buf.Length && buf[i..] == Numeral(n)
  {
    hide *;
    var left := n;
    i := buf.Length;
    PrintEnds(n, n, "");
    assert buf[i..] == "";
    while left > 0
      invariant 1 <= i <= buf.Length && left < Pow10(i - 1)
      invariant Printing(n, left, buf[i..])
      invariant n < 0 ==> i == buf.Length
    {
      ghost var text := buf[i..];
      PrintNext(n, left, text);
      RoomNext(left, i - 1);
      i := i - 1;
      buf[i] := '0' + (left % 10) as char;
      DigitOffset(left % 10);
      assert buf[i + 1..] == text;
      assert buf[i..] == [DigitChar(left % 10)] + text;
      left := left / 10;
    }
    PrintEnds(n, left, buf[i..]);
  }

  method Format(input: int) returns (s: string)
    requires MIN_INT64 <= input <= MAX_INT64
    ensures s == (if input < 0 then "-" + Numeral(-input) else Numeral(input)) <==> input != MIN_INT64
    ensures input == MIN_INT64 ==> s == "-"
  {
    Texts(input);
    PowersOfTen();
    assert IntegerText(input) == if input < 0 then "-" + Numeral(-input) else Numeral(input);
    hide Numeral, Pow10, AllDigits, Value, IntegerText;
    if input == 0 {
      return "0";
    }
    var n := input;
    var neg := n < 0;
    if neg {
      n := Negated(n);
    }
    var buf := new char[20];
    var i := FillDigits(buf, n);
    if neg {
      i := i - 1;
      buf[i] := '-';
      assert buf[i..] == "-" + buf[i + 1..];
    }
    s := buf[i..];
  }

  lemma Texts(n: int)
    ensures n == 0 ==> IntegerText(n) == "0"
    ensures n > 0 ==> IntegerText(n) == Numeral(n)
    ensures n < 0 ==> IntegerText(n) == "-" + Numeral(-n) && IntegerText(n) != "-"
  {
    hide AllDigits, Value;
    if n < 0 {
      assert |Numeral(-n)| > 0;
    }
  }

  lemma PowersOfTen()
    ensures Pow10(19) == 10_000_000_000_000_000_000
  {
    assert Pow10(5) == 100_000;
    assert Pow10(10) == 10_000_000_000;
    assert Pow10(15) == 1_000_000_000_000_000;
  }
}
