/** The payment-card scan of modules/ticket/safety.go and what it can tell apart. */
module CardNumber {
  import opened Text
  import opened Decimal

  /** Which code points beyond ASCII are decimal digits to unicode.IsDigit. */
  type WideDigits = char -> bool

  predicate IsWide(c: char, wide: WideDigits) {
    c as int >= 0x80 && wide(c)
  }

  // The specification: cut the text at the digits beyond ASCII, and look at the ASCII digits of each
  // piece. Annex B of ISO/IEC 7812-1 doubles every second digit from the right.

  function Doubled(d: nat): (r: nat)
    requires d < 10
    ensures r < 10
  {
    if 2 * d > 9 then 2 * d - 9 else 2 * d
  }

  function Weight(c: char, fromRight: nat): (w: nat)
    requires IsDigit(c)
    ensures w < 10
  {
    if fromRight % 2 == 1 then Doubled(DigitValue(c)) else DigitValue(c)
  }

  function LuhnSum(run: string): nat
    requires AllDigits(run)
  {
    if run == [] then 0 else Weight(run[0], |run| - 1) + LuhnSum(run[1..])
  }

  function DigitsOf(s: string): (d: string)
    ensures AllDigits(d)
  {
    if s == [] then []
    else if IsDigit(s[0]) then [s[0]] + DigitsOf(s[1..])
    else DigitsOf(s[1..])
  }

  predicate IsCard(run: string)
    requires AllDigits(run)
  {
    13 <= |run| <= 19 && run[0] != '0' && LuhnSum(run) % 10 == 0
  }

  function FirstWide(s: string, wide: WideDigits): (k: nat)
    ensures k <= |s|
  {
    if s == [] || IsWide(s[0], wide) then 0 else 1 + FirstWide(s[1..], wide)
  }

  function HasCard(s: string, wide: WideDigits): bool
    decreases |s|
  {
    var k := FirstWide(s, wide);
    IsCard(DigitsOf(s[..k])) || (k < |s| && HasCard(s[k + 1..], wide))
  }

  ghost predicate NoWide(s: string, wide: WideDigits) {
    forall i :: 0 <= i < |s| ==> !IsWide(s[i], wide)
  }

  // The scan, as the code performs it.

  /** strings.ReplaceAll(s, "<@", " ") */
  function ReplaceMentions(s: string): string {
    if |s| >= 2 && s[0] == '<' && s[1] == '@' then " " + ReplaceMentions(s[2..])
    else if s == [] then []
    else [s[0]] + ReplaceMentions(s[1..])
  }

  predicate IsGap(c: char) { c == ' ' || c == '\t' || c == '-' }

  predicate Kept(c: char, wide: WideDigits) {
    IsDigit(c) || IsWide(c, wide) || IsGap(c)
  }

  function FieldEnd(s: string, wide: WideDigits): (k: nat)
    ensures k <= |s|
  {
    if s == [] || !Kept(s[0], wide) then 0 else 1 + FieldEnd(s[1..], wide)
  }

  /** strings.FieldsFunc, splitting at every rune that is not kept. */
  function Fields(s: string, wide: WideDigits): seq<string>
    decreases |s|
  {
    if s == [] then []
    else if !Kept(s[0], wide) then Fields(s[1..], wide)
    else [s[..FieldEnd(s, wide)]] + Fields(s[FieldEnd(s, wide)..], wide)
  }

  /** strings.Join(fields, " ") */
  function Join(fields: seq<string>): string {
    if fields == [] then ""
    else if |fields| == 1 then fields[0]
    else fields[0] + " " + Join(fields[1..])
  }

  /** The scan with a run of digits already collected. */
  function Scan(run: string, s: string, wide: WideDigits): bool
    requires AllDigits(run)
    decreases |s|
  {
    if s == [] then IsCard(run)
    else if IsDigit(s[0]) then Scan(run + [s[0]], s[1..], wide)
    else if IsWide(s[0], wide) then IsCard(run) || Scan([], s[1..], wide)
    else Scan(run, s[1..], wide)
  }

  lemma {:induction false} ScanIsHasCard(run: string, s: string, wide: WideDigits)
    requires AllDigits(run)
    ensures var k := FirstWide(s, wide);
            Scan(run, s, wide) == (IsCard(run + DigitsOf(s[..k])) || (k < |s| && HasCard(s[k + 1..], wide)))
    decreases |s|
  {
    hide IsCard;
    var k := FirstWide(s, wide);
    if s == [] {
      assert run + DigitsOf(s[..k]) == run;
    } else if IsDigit(s[0]) {
      ScanIsHasCard(run + [s[0]], s[1..], wide);
      assert s[..k][1..] == s[1..][..k - 1];
      assert run + [s[0]] + DigitsOf(s[1..][..k - 1]) == run + DigitsOf(s[..k]);
    } else if IsWide(s[0], wide) {
      ScanIsHasCard([], s[1..], wide);
      var rest := s[1..];
      var m := FirstWide(rest, wide);
      assert [] + DigitsOf(rest[..m]) == DigitsOf(rest[..m]);
      assert run + DigitsOf(s[..k]) == run;
    } else {
      ScanIsHasCard(run, s[1..], wide);
      assert s[..k][1..] == s[1..][..k - 1];
    }
  }

  /** The runes the scan can react to. */
  function Signal(s: string, wide: WideDigits): string {
    if s == [] then []
    else if IsDigit(s[0]) || IsWide(s[0], wide) then [s[0]] + Signal(s[1..], wide)
    else Signal(s[1..], wide)
  }

  lemma {:induction false} ScanOfSignal(run: string, s: string, wide: WideDigits)
    requires AllDigits(run)
    ensures Scan(run, s, wide) == Scan(run, Signal(s, wide), wide)
    decreases |s|
  {
    if s != [] {
      var t := Signal(s, wide);
      if IsDigit(s[0]) {
        ScanOfSignal(run + [s[0]], s[1..], wide);
        assert t[1..] == Signal(s[1..], wide);
      } else if IsWide(s[0], wide) {
        ScanOfSignal([], s[1..], wide);
        assert t[1..] == Signal(s[1..], wide);
      } else {
        ScanOfSignal(run, s[1..], wide);
      }
    }
  }

  lemma SameSignalSameVerdict(s: string, t: string, wide: WideDigits)
    requires Signal(s, wide) == Signal(t, wide)
    ensures HasCard(s, wide) == HasCard(t, wide) == Scan([], t, wide)
  {
    ScanOfSignal([], s, wide);
    ScanOfSignal([], t, wide);
    ScanIsHasCard([], s, wide);
    ScanIsHasCard([], t, wide);
    var k, m := FirstWide(s, wide), FirstWide(t, wide);
    assert [] + DigitsOf(s[..k]) == DigitsOf(s[..k]) && [] + DigitsOf(t[..m]) == DigitsOf(t[..m]);
  }

  lemma {:induction false} MentionsCarryNoSignal(s: string, wide: WideDigits)
    ensures Signal(ReplaceMentions(s), wide) == Signal(s, wide)
    decreases |s|
  {
    var r := ReplaceMentions(s);
    if |s| >= 2 && s[0] == '<' && s[1] == '@' {
      MentionsCarryNoSignal(s[2..], wide);
      assert r[1..] == ReplaceMentions(s[2..]) && s[1..][1..] == s[2..];
    } else if s != [] {
      MentionsCarryNoSignal(s[1..], wide);
      assert r[1..] == ReplaceMentions(s[1..]);
    }
  }

  lemma {:induction false} SignalAppend(s: string, c: char, wide: WideDigits)
    ensures Signal(s + [c], wide)
            == Signal(s, wide) + (if IsDigit(c) || IsWide(c, wide) then [c] else [])
  {
    if s != [] {
      SignalAppend(s[1..], c, wide);
      assert (s + [c])[1..] == s[1..] + [c];
    } else {
      assert (s + [c])[1..] == [];
    }
  }

  /** Nothing is left to split at once every rune is kept. */
  lemma {:induction false} NothingToSplit(s: string, wide: WideDigits)
    requires forall i :: 0 <= i < |s| ==> Kept(s[i], wide)
    ensures FieldEnd(s, wide) == |s| && Join(Fields(s, wide)) == s
  {
    if s != [] {
      NothingToSplit(s[1..], wide);
      assert s[..|s|] == s && s[|s|..] == [];
    }
  }

  /** flush: judge the collected run. */
  method Flush(run: string) returns (hit: bool)
    requires AllDigits(run)
    ensures hit == IsCard(run)
  {
    if |run| < 13 || |run| > 19 || run[0] == '0' {
      return false;
    }
    var sum := 0;
    var i := |run|;
    while i > 0
      invariant 0 <= i <= |run|
      invariant sum == LuhnSum(run[i..])
    {
      i := i - 1;
      var d := DigitValue(run[i]);
      if (|run| - 1 - i) % 2 == 1 {
        d := d * 2;
        if d > 9 {
          d := d - 9;
        }
      }
      sum := sum + d;
      assert run[i..][1..] == run[i + 1..];
    }
    return sum % 10 == 0;
  }

  /** hasCardNumber */
  method HasCardNumber(text: string, wide: WideDigits) returns (found: bool)
    ensures found == HasCard(text, wide)
  {
    var cleaned := ReplaceMentions(text);
    var b: string := [];
    for i := 0 to |cleaned|
      invariant forall j :: 0 <= j < |b| ==> Kept(b[j], wide)
      invariant Signal(b, wide) == Signal(cleaned[..i], wide)
    {
      var r := cleaned[i];
      SignalAppend(cleaned[..i], r, wide);
      assert cleaned[..i + 1] == cleaned[..i] + [r];
      if IsDigit(r) || IsWide(r, wide) || IsGap(r) {
        SignalAppend(b, r, wide);
        b := b + [r];
      } else {
        SignalAppend(b, ' ', wide);
        b := b + [' '];
      }
    }
    assert cleaned[..|cleaned|] == cleaned;
    MentionsCarryNoSignal(text, wide);
    SameSignalSameVerdict(text, b, wide);
    NothingToSplit(b, wide);
    var joined := Join(Fields(b, wide));
    var run: string := [];
    for i := 0 to |joined|
      invariant AllDigits(run)
      invariant Scan(run, joined[i..], wide) == HasCard(text, wide)
    {
      var c := joined[i];
      assert joined[i..][1..] == joined[i + 1..];
      if IsDigit(c) {
        run := run + [c];
      } else if !IsGap(c) {
        var hit := Flush(run);
        run := [];
        if hit {
          return true;
        }
      }
    }
    found := Flush(run);
  }

  // Annex B of ISO/IEC 7812-1 as it is worked out by hand, two digits at a time from the right.

  ghost function Digit(c: char): int {
    c as int - '0' as int
  }

  /** The last digit counts for itself, the one before it for twice itself, less nine from five on, and so on with the
      digits in front. */
  ghost function AnnexB(run: string): int {
    if run == [] then 0
    else if |run| == 1 then Digit(run[0])
    else
      var last, second := Digit(run[|run| - 1]), Digit(run[|run| - 2]);
      AnnexB(run[..|run| - 2]) + (if second <= 4 then 2 * second else 2 * second - 9) + last
  }

  lemma {:induction false} LuhnConcat(a: string, b: string)
    requires AllDigits(a) && AllDigits(b) && |b| == 2
    ensures AllDigits(a + b) && LuhnSum(a + b) == LuhnSum(a) + LuhnSum(b)
  {
    if a == [] {
      assert a + b == b;
    } else {
      LuhnConcat(a[1..], b);
      assert (a + b)[1..] == a[1..] + b;
      assert Weight(a[0], |a| + 1) == Weight(a[0], |a| - 1);
    }
  }

  lemma LuhnOfTwo(b: string)
    requires AllDigits(b) && |b| == 2
    ensures LuhnSum(b) == (if Digit(b[0]) <= 4 then 2 * Digit(b[0]) else 2 * Digit(b[0]) - 9) + Digit(b[1])
  {
    assert b[1..] == [b[1]] && b[1..][1..] == [];
    assert LuhnSum(b[1..]) == Weight(b[1], 0) + LuhnSum(b[1..][1..]);
    assert LuhnSum(b) == Weight(b[0], 1) + LuhnSum(b[1..]);
  }

  /** The sum of the code is that of the standard. */
  lemma {:induction false} LuhnIsAnnexB(run: string)
    requires AllDigits(run)
    ensures LuhnSum(run) == AnnexB(run)
  {
    if |run| == 1 {
      assert run[1..] == [];
    } else if run != [] {
      var front, b := run[..|run| - 2], run[|run| - 2..];
      assert run == front + b;
      LuhnIsAnnexB(front);
      LuhnConcat(front, b);
      LuhnOfTwo(b);
    }
  }

  /** A text has a card number if and only if between two digits beyond ASCII, or the ends, the ASCII digits are 13 to
      19, do not start with a zero, and have a sum divisible by ten. */
  ghost predicate CardAt(s: string, i: int, j: int, wide: WideDigits) {
    && 0 <= i <= j <= |s| && (i == 0 || (s[i - 1] as int >= 128 && wide(s[i - 1])))
    && (j == |s| || (s[j] as int >= 128 && wide(s[j])))
    && (forall k :: i <= k < j ==> s[k] as int < 128 || !wide(s[k]))
    && var d := DigitsOf(s[i..j]); 13 <= |d| <= 19 && d[0] != '0' && AnnexB(d) % 10 == 0
  }

  lemma {:induction false} FirstWideIs(s: string, wide: WideDigits)
    ensures var k := FirstWide(s, wide);
            (k < |s| ==> IsWide(s[k], wide)) && forall i :: 0 <= i < k ==> !IsWide(s[i], wide)
  {
    if s != [] && !IsWide(s[0], wide) {
      FirstWideIs(s[1..], wide);
      assert forall i :: 1 <= i < |s| ==> s[i] == s[1..][i - 1];
    }
  }

  lemma PieceOfRest(s: string, k: nat, i: int, j: int, wide: WideDigits)
    requires k < |s| && IsWide(s[k], wide) && k < i
    ensures CardAt(s, i, j, wide) <==> CardAt(s[k + 1..], i - k - 1, j - k - 1, wide)
  {
    var rest := s[k + 1..];
    assert forall m :: 0 <= m < |rest| ==> rest[m] == s[k + 1 + m];
    if k < i <= j <= |s| {
      assert rest[i - k - 1..j - k - 1] == s[i..j];
    }
    hide AnnexB, DigitsOf;
  }

  /** The first piece ends at the first digit beyond ASCII. */
  lemma FirstPiece(s: string, i: int, j: int, wide: WideDigits)
    requires CardAt(s, i, j, wide)
    ensures var k := FirstWide(s, wide); (i == 0 && j == k) || (k < |s| && i > k)
  {
    FirstWideIs(s, wide);
    hide AnnexB, DigitsOf;
  }

  lemma FirstPieceIs(s: string, wide: WideDigits)
    ensures var k := FirstWide(s, wide); IsCard(DigitsOf(s[..k])) <==> CardAt(s, 0, k, wide)
  {
    var k := FirstWide(s, wide);
    FirstWideIs(s, wide);
    assert s[0..k] == s[..k];
    LuhnIsAnnexB(DigitsOf(s[..k]));
    hide AnnexB, DigitsOf, LuhnSum;
  }

  lemma {:induction false} HasCardExactly(s: string, wide: WideDigits)
    ensures HasCard(s, wide) <==> exists i, j :: CardAt(s, i, j, wide)
    decreases |s|
  {
    var k := FirstWide(s, wide);
    FirstWideIs(s, wide);
    FirstPieceIs(s, wide);
    if k < |s| {
      HasCardExactly(s[k + 1..], wide);
    }
    hide AnnexB, DigitsOf, IsCard, CardAt;
    PiecesExactly(s, wide);
    assert HasCard(s, wide) <==> IsCard(DigitsOf(s[..k])) || (k < |s| && HasCard(s[k + 1..], wide));
    hide HasCard, FirstWide;
  }

  ghost predicate HasPiece(s: string, wide: WideDigits) {
    exists i, j :: CardAt(s, i, j, wide)
  }

  /** A piece is the first one or a piece of what follows the first digit beyond ASCII. */
  lemma PiecesExactly(s: string, wide: WideDigits)
    ensures var k := FirstWide(s, wide);
            HasPiece(s, wide) <==> CardAt(s, 0, k, wide) || (k < |s| && HasPiece(s[k + 1..], wide))
  {
    hide CardAt, FirstWide;
    var k := FirstWide(s, wide);
    if k < |s| && HasPiece(s[k + 1..], wide) {
      var i, j :| CardAt(s[k + 1..], i, j, wide);
      CardIsInside(s[k + 1..], i, j, wide);
      LaterPiece(s, i + k + 1, j + k + 1, wide);
      assert CardAt(s, i + k + 1, j + k + 1, wide);
    }
    if HasPiece(s, wide) {
      var i, j :| CardAt(s, i, j, wide);
      FirstPiece(s, i, j, wide);
      if !(i == 0 && j == k) {
        LaterPiece(s, i, j, wide);
        assert CardAt(s[k + 1..], i - k - 1, j - k - 1, wide);
      }
    }
  }

  lemma LaterPiece(s: string, i: int, j: int, wide: WideDigits)
    requires FirstWide(s, wide) < |s| && FirstWide(s, wide) < i
    ensures var k := FirstWide(s, wide); CardAt(s, i, j, wide) <==> CardAt(s[k + 1..], i - k - 1, j - k - 1, wide)
  {
    hide *;
    FirstWideIs(s, wide);
    PieceOfRest(s, FirstWide(s, wide), i, j, wide);
  }

  lemma CardIsInside(s: string, i: int, j: int, wide: WideDigits)
    requires CardAt(s, i, j, wide)
    ensures 0 <= i <= j <= |s|
  {
    hide AnnexB, DigitsOf;
  }

  lemma AnnexBOfTwoMore(run: string, a: char, b: char)
    ensures AnnexB(run + [a, b])
         == AnnexB(run) + (if Digit(a) <= 4 then 2 * Digit(a) else 2 * Digit(a) - 9) + Digit(b)
  {
    assert (run + [a, b])[..|run|] == run;
  }

  lemma {:induction false} DigitsStay(s: string)
    requires AllDigits(s)
    ensures DigitsOf(s) == s
  {
    if s != [] {
      DigitsStay(s[1..]);
    }
  }

  lemma SumOfOnes(run: string)
    requires |run| == 14 && run[0] == '4' && forall i :: 1 <= i < 14 ==> run[i] == '1'
    ensures AnnexB(run) == 27
  {
    AnnexBOfTwoMore([], '4', '1');
    AnnexBOfTwoMore(run[..2], '1', '1');
    AnnexBOfTwoMore(run[..4], '1', '1');
    AnnexBOfTwoMore(run[..6], '1', '1');
    AnnexBOfTwoMore(run[..8], '1', '1');
    AnnexBOfTwoMore(run[..10], '1', '1');
    AnnexBOfTwoMore(run[..12], '1', '1');
    assert AnnexB([]) == 0;
    hide AnnexB;
    assert [] + ['4', '1'] == run[..2] && run[..2] + ['1', '1'] == run[..4] && run[..4] + ['1', '1'] == run[..6];
    assert run[..6] + ['1', '1'] == run[..8] && run[..8] + ['1', '1'] == run[..10];
    assert run[..10] + ['1', '1'] == run[..12] && run[..12] + ['1', '1'] == run;
  }

  /** A four, fourteen ones and a last digit are a card number exactly when that digit is a one. */
  lemma KnownCard(s: string, wide: WideDigits)
    requires |s| == 16 && s[0] == '4' && (forall i :: 1 <= i < 15 ==> s[i] == '1') && '0' <= s[15] <= '9'
    ensures HasCard(s, wide) <==> s[15] == '1'
  {
    hide AnnexB, LuhnSum, HasCard, DigitsOf, DigitValue;
    OnlyDigitsCount(s, wide);
    DigitsStay(s);
    LuhnIsAnnexB(s);
    SumOfOnes(s[..14]);
    AnnexBOfTwoMore(s[..14], '1', s[15]);
    assert s[..14] + ['1', s[15]] == s;
  }

  lemma KnownCardIsFound(wide: WideDigits)
    ensures HasCard("4111111111111111", wide) && !HasCard("4111111111111112", wide)
  {
    hide *;
    KnownCard("4111111111111111", wide);
    KnownCard("4111111111111112", wide);
  }

  // What the scan detects, on texts without digits beyond ASCII.

  /** Without such digits, letters and punctuation break nothing: only the digits count. */
  lemma {:induction false} OnlyDigitsCount(s: string, wide: WideDigits)
    requires NoWide(s, wide)
    ensures HasCard(s, wide) == IsCard(DigitsOf(s))
  {
    NoWideNoCut(s, wide);
    assert s[..|s|] == s;
  }

  lemma {:induction false} NoWideNoCut(s: string, wide: WideDigits)
    requires NoWide(s, wide)
    ensures FirstWide(s, wide) == |s|
  {
    if s != [] {
      NoWideNoCut(s[1..], wide);
    }
  }

  lemma {:induction false} DigitsConcat(a: string, b: string)
    ensures DigitsOf(a + b) == DigitsOf(a) + DigitsOf(b)
  {
    if a == [] {
      assert a + b == b;
    } else {
      DigitsConcat(a[1..], b);
      assert (a + b)[1..] == a[1..] + b;
    }
  }

  lemma DigitsUpdate(s: string, p: nat, x: char)
    requires p < |s| && IsDigit(s[p]) && IsDigit(x)
    ensures var k := |DigitsOf(s[..p])|;
            && k < |DigitsOf(s)| && DigitsOf(s)[k] == s[p]
            && DigitsOf(s[p := x]) == DigitsOf(s)[k := x]
  {
    var a, b := s[..p], s[p + 1..];
    assert s == a + ([s[p]] + b) && s[p := x] == a + ([x] + b);
    DigitsConcat(a, [s[p]] + b);
    DigitsConcat(a, [x] + b);
    assert ([s[p]] + b)[1..] == b && ([x] + b)[1..] == b;
  }

  lemma {:induction false} LuhnUpdate(run: string, k: nat, x: char)
    requires AllDigits(run) && k < |run| && IsDigit(x)
    ensures AllDigits(run[k := x])
    ensures LuhnSum(run[k := x]) - Weight(x, |run| - 1 - k) == LuhnSum(run) - Weight(run[k], |run| - 1 - k)
  {
    if k == 0 {
      assert run[k := x][1..] == run[1..];
    } else {
      LuhnUpdate(run[1..], k - 1, x);
      assert run[k := x][1..] == run[1..][k - 1 := x];
    }
  }

  lemma WeightInjective(a: char, b: char, place: nat)
    requires IsDigit(a) && IsDigit(b) && a != b
    ensures Weight(a, place) != Weight(b, place)
  {
  }

  /** No card number turns into another by changing one of its digits. */
  lemma SingleDigitErrorDetected(s: string, p: nat, x: char, wide: WideDigits)
    requires NoWide(s, wide) && p < |s| && IsDigit(s[p]) && IsDigit(x) && x != s[p]
    requires HasCard(s, wide)
    ensures !HasCard(s[p := x], wide)
  {
    var d, k := DigitsOf(s), |DigitsOf(s[..p])|;
    DigitsUpdate(s, p, x);
    OnlyDigitsCount(s, wide);
    OnlyDigitsCount(s[p := x], wide);
    LuhnUpdate(d, k, x);
    WeightInjective(s[p], x, |d| - 1 - k);
    DifferentRemainder(LuhnSum(d[k := x]), LuhnSum(d), Weight(x, |d| - 1 - k), Weight(d[k], |d| - 1 - k));
  }

  lemma DifferentRemainder(a: int, b: int, v: nat, w: nat)
    requires a - v == b - w && v < 10 && w < 10 && v != w
    ensures a % 10 == 0 ==> b % 10 != 0
  {
  }

  predicate ZeroAndNine(a: char, b: char) {
    (a == '0' && b == '9') || (a == '9' && b == '0')
  }

  /** How much doubling adds to a digit, modulo ten, tells all digits apart but 0 and 9. */
  lemma DriftTellsApart(x: nat, y: nat)
    requires x < 10 && y < 10
    ensures (Doubled(x) + y) % 10 == (Doubled(y) + x) % 10
            <==> x == y || (x == 0 && y == 9) || (x == 9 && y == 0)
  {
  }

  /** Two adjacent digits in either order weigh the same, modulo ten, only as 0 and 9. */
  lemma SwapWeight(a: char, b: char, place: nat)
    requires IsDigit(a) && IsDigit(b) && place > 0
    ensures (Weight(a, place) + Weight(b, place - 1)) % 10 == (Weight(b, place) + Weight(a, place - 1)) % 10
            <==> a == b || ZeroAndNine(a, b)
  {
    DriftTellsApart(DigitValue(a), DigitValue(b));
  }

  lemma SwapSum(run: string, k: nat)
    requires AllDigits(run) && k + 1 < |run|
    ensures var t := run[k := run[k + 1]][k + 1 := run[k]];
            && AllDigits(t)
            && (LuhnSum(t) % 10 == LuhnSum(run) % 10 <==> run[k] == run[k + 1] || ZeroAndNine(run[k], run[k + 1]))
  {
    hide Weight, LuhnSum;
    var a, b, place := run[k], run[k + 1], |run| - 1 - k;
    LuhnUpdate(run, k, b);
    LuhnUpdate(run[k := b], k + 1, a);
    SwapWeight(a, b, place);
    var t := run[k := b][k + 1 := a];
    assert LuhnSum(t) - LuhnSum(run)
        == (Weight(b, place) + Weight(a, place - 1)) - (Weight(a, place) + Weight(b, place - 1));
    SameRemainder(LuhnSum(t), LuhnSum(run),
                  Weight(b, place) + Weight(a, place - 1), Weight(a, place) + Weight(b, place - 1));
  }

  lemma SameRemainder(a: int, b: int, c: int, d: int)
    requires a - b == c - d
    ensures a % 10 == b % 10 <==> c % 10 == d % 10
  {
  }

  /** Swapping two digits that follow each other in a card number is noticed exactly when they differ
      and are not 0 and 9, or when the swap brings a zero to the front. */
  lemma AdjacentSwapDetected(s: string, p: nat, q: nat, wide: WideDigits)
    requires NoWide(s, wide) && p < q < |s| && IsDigit(s[p]) && IsDigit(s[q])
    requires forall i :: p < i < q ==> !IsDigit(s[i])
    requires HasCard(s, wide)
    ensures !HasCard(s[p := s[q]][q := s[p]], wide) <==>
              || (s[p] != s[q] && !ZeroAndNine(s[p], s[q]))
              || (DigitsOf(s[..p]) == [] && s[q] == '0')
  {
    var d, k := DigitsOf(s), |DigitsOf(s[..p])|;
    var s1 := s[p := s[q]];
    var s2 := s1[q := s[p]];
    DigitsUpdate(s, p, s[q]);
    DigitsBetween(s, p, q);
    DigitsBetween(s1, p, q);
    assert s1[..p] == s[..p];
    DigitsUpdate(s1, q, s[p]);
    DigitsUpdate(s, q, s[q]);
    assert s[q := s[q]] == s;
    assert DigitsOf(s2) == d[k := d[k + 1]][k + 1 := d[k]];
    SwapSum(d, k);
    OnlyDigitsCount(s, wide);
    OnlyDigitsCount(s2, wide);
  }

  lemma DigitsBetween(s: string, p: nat, q: nat)
    requires p < q < |s| && IsDigit(s[p]) && forall i :: p < i < q ==> !IsDigit(s[i])
    ensures |DigitsOf(s[..q])| == |DigitsOf(s[..p])| + 1
  {
    var mid := s[p..q];
    assert s[..q] == s[..p] + mid;
    DigitsConcat(s[..p], mid);
    assert mid[1..] == s[p + 1..q];
    NoDigits(mid[1..]);
  }

  lemma {:induction false} NoDigits(s: string)
    requires forall i :: 0 <= i < |s| ==> !IsDigit(s[i])
    ensures DigitsOf(s) == []
  {
    if s != [] {
      NoDigits(s[1..]);
    }
  }
}
