/** Text as a sequence of Unicode code points: trimming, case mapping, UTF-8 length and the
    normalisation every ticket text goes through. */
module Text {

  /** unicode.IsSpace */
  predicate IsSpace(c: char) {
    var n := c as int;
    || 9 <= n <= 13 || n == 0x20 || n == 0x85 || n == 0xA0 || n == 0x1680 || 0x2000 <= n <= 0x200A
    || n == 0x2028 || n == 0x2029 || n == 0x202F || n == 0x205F || n == 0x3000
  }

  /** The characters NormalizeText removes: controls, zero-width and bidirectional marks. */
  predicate IsControl(c: char) {
    var n := c as int;
    || n <= 8 || 0x0B <= n <= 0x1F || n == 0x7F || 0x200B <= n <= 0x200F || 0x202A <= n <= 0x202E
    || 0x2066 <= n <= 0x2069
  }

  predicate IsDigit(c: char) { '0' <= c <= '9' }

  predicate IsUpper(c: char) { 'A' <= c <= 'Z' }

  predicate IsLower(c: char) { 'a' <= c <= 'z' }

  /** Upper case as far as ASCII can tell: dotless i and long s are the only other code points whose
      upper case is an ASCII letter. */
  function UpperChar(c: char): (u: char)
  {
    if IsLower(c) then c - 'a' + 'A'
    else if c as int == 0x131 then 'I'
    else if c as int == 0x17F then 'S'
    else c
  }

  /** Lower case as far as ASCII can tell: dotted I and the Kelvin sign map to ASCII letters. */
  function LowerChar(c: char): (l: char)
  {
    if IsUpper(c) then c - 'A' + 'a'
    else if c as int == 0x130 then 'i'
    else if c as int == 0x212A then 'k'
    else c
  }

  function Upper(s: string): (u: string)
    ensures |u| == |s|
    ensures forall i :: 0 <= i < |s| ==> u[i] == UpperChar(s[i])
  {
    seq(|s|, i requires 0 <= i < |s| => UpperChar(s[i]))
  }

  function Lower(s: string): (l: string)
    ensures |l| == |s|
    ensures forall i :: 0 <= i < |s| ==> l[i] == LowerChar(s[i])
  {
    seq(|s|, i requires 0 <= i < |s| => LowerChar(s[i]))
  }

  function TrimLeft(s: string): string {
    if s != [] && IsSpace(s[0]) then TrimLeft(s[1..]) else s
  }

  function TrimRight(s: string): string {
    if s != [] && IsSpace(s[|s| - 1]) then TrimRight(s[..|s| - 1]) else s
  }

  /** strings.TrimSpace */
  function TrimSpace(s: string): string {
    TrimRight(TrimLeft(s))
  }

  function StripControls(s: string): string {
    if s == [] then []
    else if IsControl(s[0]) then StripControls(s[1..])
    else [s[0]] + StripControls(s[1..])
  }

  /** NormalizeText: drop control characters, then surrounding white space. */
  function NormalizeText(s: string): string {
    TrimSpace(StripControls(s))
  }

  /** len(value) in Go: the number of UTF-8 bytes. */
  function Utf8Len(s: string): nat {
    if s == [] then 0 else CharBytes(s[0]) + Utf8Len(s[1..])
  }

  function CharBytes(c: char): nat {
    var n := c as int;
    if n < 0x80 then 1 else if n < 0x800 then 2 else if n < 0x10000 then 3 else 4
  }

  ghost predicate Trimmed(s: string) {
    s == [] || (!IsSpace(s[0]) && !IsSpace(s[|s| - 1]))
  }

  ghost predicate NoControls(s: string) {
    forall i :: 0 <= i < |s| ==> !IsControl(s[i])
  }

  // What trimming keeps and what it leaves.

  lemma {:induction false} TrimLeftSuffix(s: string)
    ensures |TrimLeft(s)| <= |s| && TrimLeft(s) == s[|s| - |TrimLeft(s)|..]
    ensures TrimLeft(s) != [] ==> !IsSpace(TrimLeft(s)[0])
  {
    if s != [] && IsSpace(s[0]) {
      TrimLeftSuffix(s[1..]);
    }
  }

  lemma {:induction false} TrimRightPrefix(s: string)
    ensures TrimRight(s) <= s
    ensures TrimRight(s) != [] ==> !IsSpace(TrimRight(s)[|TrimRight(s)| - 1])
  {
    if s != [] && IsSpace(s[|s| - 1]) {
      TrimRightPrefix(s[..|s| - 1]);
    }
  }

  lemma TrimSpaceTrims(s: string)
    ensures Trimmed(TrimSpace(s))
    ensures exists i, j :: 0 <= i <= j <= |s| && TrimSpace(s) == s[i..j]
    ensures Trimmed(s) ==> TrimSpace(s) == s
  {
    var l := TrimLeft(s);
    TrimLeftSuffix(s);
    TrimRightPrefix(l);
    var i := |s| - |l|;
    var j := i + |TrimRight(l)|;
    assert TrimSpace(s) == l[..|TrimRight(l)|] == s[i..j];
  }

  lemma {:induction false} StripControlsKeeps(s: string)
    ensures NoControls(StripControls(s))
    ensures NoControls(s) ==> StripControls(s) == s
    ensures Utf8Len(StripControls(s)) <= Utf8Len(s)
  {
    if s != [] {
      StripControlsKeeps(s[1..]);
      assert NoControls(s) ==> NoControls(s[1..]);
      var rest := StripControls(s[1..]);
      if !IsControl(s[0]) {
        assert ([s[0]] + rest)[1..] == rest;
        assert s == [s[0]] + s[1..];
      }
    }
  }

  lemma {:induction false} Utf8LenConcat(a: string, b: string)
    ensures Utf8Len(a + b) == Utf8Len(a) + Utf8Len(b)
  {
    if a == [] {
      assert a + b == b;
    } else {
      Utf8LenConcat(a[1..], b);
      assert (a + b)[1..] == a[1..] + b;
    }
  }

  lemma Utf8LenSlice(s: string, i: nat, j: nat)
    requires i <= j <= |s|
    ensures Utf8Len(s[i..j]) <= Utf8Len(s)
  {
    assert s == s[..i] + (s[i..j] + s[j..]);
    Utf8LenConcat(s[..i], s[i..j] + s[j..]);
    Utf8LenConcat(s[i..j], s[j..]);
  }

  lemma {:induction false} Utf8LenAtLeastRunes(s: string)
    ensures |s| <= Utf8Len(s)
  {
    if s != [] {
      Utf8LenAtLeastRunes(s[1..]);
    }
  }

  lemma {:induction false} Utf8LenAscii(s: string)
    requires forall i :: 0 <= i < |s| ==> s[i] as int < 0x80
    ensures Utf8Len(s) == |s|
  {
    if s != [] {
      Utf8LenAscii(s[1..]);
    }
  }

  /** Normalising twice is normalising once, and never makes a text longer. */
  lemma NormalizeIdempotent(s: string)
    ensures NormalizeText(NormalizeText(s)) == NormalizeText(s)
    ensures Utf8Len(NormalizeText(s)) <= Utf8Len(s)
    ensures Trimmed(NormalizeText(s)) && NoControls(NormalizeText(s))
  {
    var c := StripControls(s);
    StripControlsKeeps(s);
    TrimSpaceTrims(c);
    var i, j :| 0 <= i <= j <= |c| && TrimSpace(c) == c[i..j];
    Utf8LenSlice(c, i, j);
    StripControlsKeeps(c[i..j]);
    TrimSpaceTrims(c[i..j]);
  }

  // What normalising takes away, and that it takes away nothing else

  /** Controls but tab and line feed, zero-width characters and bidirectional marks. */
  ghost predicate Invisible(c: char) {
    var n := c as int;
    || (n < 32 && n != 9 && n != 10) || n == 127 || 8203 <= n <= 8207 || 8234 <= n <= 8238 || 8294 <= n <= 8297
  }

  lemma {:induction false} StripConcat(a: string, b: string)
    ensures StripControls(a + b) == StripControls(a) + StripControls(b)
  {
    if a == [] {
      assert a + b == b;
    } else {
      StripConcat(a[1..], b);
      assert (a + b)[1..] == a[1..] + b;
    }
  }

  lemma {:induction false} LeftTrimmed(a: string, core: string)
    requires (forall i :: 0 <= i < |a| ==> IsSpace(a[i])) && (core != [] ==> !IsSpace(core[0]))
    ensures TrimLeft(a + core) == core
  {
    if a == [] {
      assert a + core == core;
    } else {
      LeftTrimmed(a[1..], core);
      assert (a + core)[1..] == a[1..] + core;
    }
  }

  lemma {:induction false} RightTrimmed(core: string, b: string)
    requires (forall i :: 0 <= i < |b| ==> IsSpace(b[i])) && (core != [] ==> !IsSpace(core[|core| - 1]))
    ensures TrimRight(core + b) == core
  {
    if b == [] {
      assert core + b == core;
    } else {
      RightTrimmed(core, b[..|b| - 1]);
      assert (core + b)[..|core + b| - 1] == core + b[..|b| - 1];
    }
  }

  lemma {:induction false} AllSpaces(b: string)
    requires forall i :: 0 <= i < |b| ==> IsSpace(b[i])
    ensures TrimLeft(b) == []
  {
    if b != [] {
      AllSpaces(b[1..]);
    }
  }

  /** Blanks around a text go, and only those. */
  lemma TrimExactly(a: string, core: string, b: string)
    requires forall i :: 0 <= i < |a| ==> a[i] in {' ', '\t', '\n', '\r'}
    requires forall i :: 0 <= i < |b| ==> b[i] in {' ', '\t', '\n', '\r'}
    requires core != [] ==> '!' <= core[0] <= '~' && '!' <= core[|core| - 1] <= '~'
    ensures TrimSpace(a + core + b) == core
  {
    assert forall i :: 0 <= i < |b| ==> IsSpace(b[i]);
    if core == [] {
      assert a + core + b == a + b;
      AllSpaces(a + b);
    } else {
      assert a + core + b == a + (core + b) && (core + b)[0] == core[0];
      LeftTrimmed(a, core + b);
      RightTrimmed(core, b);
    }
  }

  /** Character by character: the invisible ones go, and all others stay in order. */
  lemma StripExactly(a: string, c: char, b: string)
    ensures StripControls(a + [c] + b) == StripControls(a) + (if Invisible(c) then [] else [c]) + StripControls(b)
  {
    StripConcat(a + [c], b);
    StripConcat(a, [c]);
    assert [c][1..] == [] && StripControls([]) == [];
  }

  /** A visible text between blanks normalises to itself, whatever invisible character is put into it. */
  lemma NormalizeExactly(a: string, left: string, c: char, right: string, b: string)
    requires (forall i :: 0 <= i < |a| ==> a[i] == ' ') && forall i :: 0 <= i < |b| ==> b[i] == ' '
    requires forall i :: 0 <= i < |left| ==> !Invisible(left[i])
    requires forall i :: 0 <= i < |right| ==> !Invisible(right[i])
    requires var core := left + right; core != [] ==> '!' <= core[0] <= '~' && '!' <= core[|core| - 1] <= '~'
    requires Invisible(c)
    ensures NormalizeText((a + left) + [c] + (right + b)) == left + right
  {
    VisibleStays(a + left);
    VisibleStays(right + b);
    hide *;
    StripExactly(a + left, c, right + b);
    assert (a + left) + [] + (right + b) == a + (left + right) + b;
    TrimExactly(a, left + right, b);
    NormalizeIs((a + left) + [c] + (right + b));
  }

  lemma NormalizeIs(s: string)
    ensures NormalizeText(s) == TrimSpace(StripControls(s))
  {
  }

  lemma VisibleStays(s: string)
    requires forall i :: 0 <= i < |s| ==> !Invisible(s[i])
    ensures StripControls(s) == s
  {
    StripControlsKeeps(s);
  }
}
