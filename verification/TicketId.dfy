/** Public ticket ids such as WD-ID-alex-00125 (modules/ticket/id.go). */
module TicketId {
  import opened Wrappers
  import opened Text
  import opened Decimal

  const REGIONS: set<string> := {
    "ID", "MY", "SG", "PH", "TH", "VN", "BN", "IN", "BD", "PK", "LK", "CN", "HK", "TW", "JP", "KR", "XX"
  }

  datatype Parts = Parts(code: string, region: string, user: string, seqNo: nat)

  predicate ValidRegion(code: string) {
    Upper(TrimSpace(code)) in REGIONS
  }

  /** [a-z0-9._-] */
  predicate IsUserChar(c: char) {
    IsLower(c) || IsDigit(c) || c == '.' || c == '_' || c == '-'
  }

  function KeepUserChars(s: string): (r: string)
    ensures forall i :: 0 <= i < |r| ==> IsUserChar(r[i])
  {
    if s == [] then []
    else if IsUserChar(s[0]) then [s[0]] + KeepUserChars(s[1..])
    else KeepUserChars(s[1..])
  }

  function SafeRegion(region: string): (r: string)
    ensures r in REGIONS
  {
    var upper := Upper(TrimSpace(region));
    if upper in REGIONS then upper else "XX"
  }

  /** The part of the user name an id may carry: at most twenty characters, never empty. */
  function SafeUser(username: string): (u: string)
    ensures 1 <= |u| <= 20 && forall i :: 0 <= i < |u| ==> IsUserChar(u[i])
  {
    var kept := KeepUserChars(Lower(username));
    var short := if |kept| > 20 then kept[..20] else kept;
    if short == "" then "member" else short
  }

  function FormatID(code: string, region: string, username: string, serial: nat): string {
    code + "-" + SafeRegion(region) + "-" + SafeUser(username) + "-" + Padded(serial, 5)
  }

  function FirstHyphen(s: string): (k: nat)
    ensures k <= |s|
    ensures k < |s| ==> s[k] == '-'
    ensures forall i :: 0 <= i < k ==> s[i] != '-'
  {
    if s == [] || s[0] == '-' then 0 else 1 + FirstHyphen(s[1..])
  }

  /** Just after the last hyphen, or zero when there is none. */
  function AfterLastHyphen(s: string): (k: nat)
    ensures k <= |s|
    ensures k > 0 ==> s[k - 1] == '-'
    ensures forall i :: k <= i < |s| ==> s[i] != '-'
  {
    if s == [] || s[|s| - 1] == '-' then |s| else AfterLastHyphen(s[..|s| - 1])
  }

  predicate AllUpper(s: string) {
    forall i :: 0 <= i < |s| ==> IsUpper(s[i])
  }

  predicate AllUserChars(s: string) {
    forall i :: 0 <= i < |s| ==> IsUserChar(s[i])
  }

  predicate SerialText(s: string) {
    5 <= |s| <= 16 && forall i :: 0 <= i < |s| ==> IsDigit(s[i])
  }

  /** ^([A-Z]+)-([A-Z]{2})-([a-z0-9._-]+)-(\d{5,16})$ with the number below an int's bound, which
      sixteen digits always are. */
  function ParseID(id: string): Option<Parts> {
    var h := FirstHyphen(id);
    var d := AfterLastHyphen(id);
    if h == 0 || d < h + 6 || id[h + 3] != '-' then None
    else
      var code, region, user, digits := id[..h], id[h + 1..h + 3], id[h + 4..d - 1], id[d..];
      if AllUpper(code) && AllUpper(region) && AllUserChars(user) && SerialText(digits)
      then Some(Parts(code, region, user, Value(digits)))
      else None
  }

  /** The pattern, read as a concatenation. */
  ghost predicate Shape(id: string, code: string, region: string, user: string, digits: string) {
    && id == code + "-" + region + "-" + user + "-" + digits
    && code != [] && (forall i :: 0 <= i < |code| ==> 'A' <= code[i] <= 'Z')
    && |region| == 2 && (forall i :: 0 <= i < 2 ==> 'A' <= region[i] <= 'Z')
    && user != []
    && (forall i :: 0 <= i < |user| ==> 'a' <= user[i] <= 'z' || '0' <= user[i] <= '9' || user[i] in {'.', '_', '-'})
    && 5 <= |digits| <= 16 && forall i :: 0 <= i < |digits| ==> '0' <= digits[i] <= '9'
  }

  lemma {:induction false} FirstHyphenAt(front: string, rest: string)
    requires forall i :: 0 <= i < |front| ==> front[i] != '-'
    ensures FirstHyphen(front + "-" + rest) == |front|
  {
    if front != [] {
      FirstHyphenAt(front[1..], rest);
      assert (front + "-" + rest)[1..] == front[1..] + "-" + rest;
    }
  }

  lemma {:induction false} AfterLastHyphenAt(front: string, tail: string)
    requires forall i :: 0 <= i < |tail| ==> tail[i] != '-'
    ensures AfterLastHyphen(front + "-" + tail) == |front| + 1
  {
    var s := front + "-" + tail;
    if tail != [] {
      var shorter := tail[..|tail| - 1];
      AfterLastHyphenAt(front, shorter);
      assert s[..|s| - 1] == front + "-" + shorter;
      assert s[|s| - 1] == tail[|tail| - 1];
    }
  }

  lemma Middle(a: string, b: string, c: string)
    ensures (a + b + c)[|a|..|a| + |b|] == b
  {
  }

  /** The hyphens found from either end are the two outer separators of the pattern. */
  lemma ShapeHyphens(id: string, code: string, region: string, user: string, digits: string)
    requires Shape(id, code, region, user, digits)
    ensures FirstHyphen(id) == |code|
    ensures AfterLastHyphen(id) == |id| - |digits| == |code| + |user| + 5
  {
    var rest := region + "-" + user + "-" + digits;
    assert id == code + "-" + rest;
    FirstHyphenAt(code, rest);
    AfterLastHyphenAt(code + "-" + region + "-" + user, digits);
  }

  lemma ShapeParts(id: string, code: string, region: string, user: string, digits: string)
    requires Shape(id, code, region, user, digits)
    ensures var h := |code|;
            var d := h + 5 + |user|;
            && |id| == d + |digits|
            && id[..h] == code && id[h + 1..h + 3] == region && id[h + 3] == '-'
            && id[h + 4..d - 1] == user && id[d..] == digits
  {
    var lead := code + "-" + region + "-";
    Middle(code + "-", region, "-" + user + "-" + digits);
    assert id == code + "-" + region + ("-" + user + "-" + digits);
    Middle(lead, user, "-" + digits);
    assert id == lead + user + ("-" + digits);
  }

  // Here the hyphens are known by position, so only the slices matter.
  lemma SlicesParse(id: string, code: string, region: string, user: string, digits: string)
    requires code != [] && AllUpper(code) && |region| == 2 && AllUpper(region)
    requires user != [] && AllUserChars(user) && SerialText(digits)
    requires FirstHyphen(id) == |code| && AfterLastHyphen(id) == |code| + 5 + |user|
    requires |id| == |code| + 5 + |user| + |digits|
    requires id[..|code|] == code && id[|code| + 1..|code| + 3] == region && id[|code| + 3] == '-'
    requires id[|code| + 4..|code| + 4 + |user|] == user && id[|code| + 5 + |user|..] == digits
    ensures ParseID(id) == Some(Parts(code, region, user, Value(digits)))
  {
    var h, d := FirstHyphen(id), AfterLastHyphen(id);
    assert d - 1 == |code| + 4 + |user|;
    assert !(h == 0 || d < h + 6 || id[h + 3] != '-');
  }

  /** An id of the pattern parses to its parts. */
  lemma ShapeParses(id: string, code: string, region: string, user: string, digits: string)
    requires Shape(id, code, region, user, digits)
    ensures ParseID(id) == Some(Parts(code, region, user, Value(digits)))
  {
    ShapeHyphens(id, code, region, user, digits);
    ShapeParts(id, code, region, user, digits);
    SlicesParse(id, code, region, user, digits);
  }

  lemma Regroup(id: string, h: nat, d: nat)
    requires h + 6 <= d <= |id| && id[h] == '-' && id[h + 3] == '-' && id[d - 1] == '-'
    ensures id == id[..h] + "-" + id[h + 1..h + 3] + "-" + id[h + 4..d - 1] + "-" + id[d..]
  {
    assert id[..h + 1] == id[..h] + "-";
    assert id[..h + 3] == id[..h + 1] + id[h + 1..h + 3];
    assert id[..h + 4] == id[..h + 3] + "-";
    assert id[..d - 1] == id[..h + 4] + id[h + 4..d - 1];
    assert id[..d] == id[..d - 1] + "-";
    assert id == id[..d] + id[d..];
  }

  /** What ParseID accepts is an id of the pattern. */
  lemma ParsedHasShape(id: string)
    requires ParseID(id).Some?
    ensures exists c, r, u, n :: Shape(id, c, r, u, n) && ParseID(id).value == Parts(c, r, u, Value(n))
  {
    var h, d := FirstHyphen(id), AfterLastHyphen(id);
    Regroup(id, h, d);
    var c, r, u, n := id[..h], id[h + 1..h + 3], id[h + 4..d - 1], id[d..];
    assert Shape(id, c, r, u, n);
  }

  /** ParseID answers exactly the ids the pattern matches, each with its only reading. */
  lemma ParseIDExact(id: string, p: Parts)
    ensures ParseID(id) == Some(p) <==>
              exists n :: Shape(id, p.code, p.region, p.user, n) && p.seqNo == Value(n)
  {
    if ParseID(id) == Some(p) {
      ParsedHasShape(id);
    }
    forall n | Shape(id, p.code, p.region, p.user, n) && p.seqNo == Value(n)
      ensures ParseID(id) == Some(p)
    {
      ShapeParses(id, p.code, p.region, p.user, n);
    }
  }

  lemma SerialDigits(serial: nat)
    requires serial < Pow10(16)
    ensures 5 <= |Padded(serial, 5)| <= 16
  {
    PaddedValue(serial, 5);
    if |Padded(serial, 5)| > 16 {
      ValueLowerBound(Numeral(serial));
      Pow10Grows(16, |Numeral(serial)| - 1);
    }
  }

  lemma RegionText(r: string)
    requires r in REGIONS
    ensures |r| == 2 && AllUpper(r)
  {
    assert |r| == 2 && IsUpper(r[0]) && IsUpper(r[1]);
  }

  /** An id gives back what it was built from, even when the user name has hyphens and digits. */
  lemma IdRoundTrip(code: string, region: string, username: string, serial: nat)
    requires code != [] && AllUpper(code)
    requires serial < Pow10(16)
    ensures ParseID(FormatID(code, region, username, serial))
            == Some(Parts(code, SafeRegion(region), SafeUser(username), serial))
  {
    hide *;
    SerialDigits(serial);
    PaddedValue(serial, 5);
    FormatShape(code, region, username, serial);
    ShapeParses(FormatID(code, region, username, serial), code, SafeRegion(region), SafeUser(username),
                Padded(serial, 5));
  }

  lemma FormatShape(code: string, region: string, username: string, serial: nat)
    requires code != [] && AllUpper(code) && 5 <= |Padded(serial, 5)| <= 16
    ensures Shape(FormatID(code, region, username, serial), code, SafeRegion(region), SafeUser(username),
                  Padded(serial, 5))
  {
    RegionText(SafeRegion(region));
    hide SafeRegion, SafeUser, Padded;
  }

  /** The number an id ends with, whatever precedes it. */
  function Serial(id: string): nat {
    var tail := id[AfterLastHyphen(id)..];
    if forall i :: 0 <= i < |tail| ==> IsDigit(tail[i]) then Value(tail) else 0
  }

  /** Ids built from different numbers differ, with no bound on the numbers or the other parts. */
  lemma SerialOfFormat(code: string, region: string, username: string, serial: nat)
    ensures Serial(FormatID(code, region, username, serial)) == serial
  {
    var front := code + "-" + SafeRegion(region) + "-" + SafeUser(username);
    var n := Padded(serial, 5);
    AfterLastHyphenAt(front, n);
    assert (front + "-" + n)[|front| + 1..] == n;
    PaddedValue(serial, 5);
  }

  /** A known region, however it is spelled, goes into the id in upper case; anything else as XX. */
  lemma RegionExactly(region: string)
    ensures var upper := Upper(TrimSpace(region));
            SafeRegion(region)
            == if upper in {"ID", "MY", "SG", "PH", "TH", "VN", "BN", "IN", "BD", "PK", "LK", "CN", "HK", "TW", "JP",
                            "KR", "XX"}
               then upper else "XX"
  {
    hide Upper, TrimSpace;
  }

  /** The characters of a user name an id keeps, in lower case. */
  ghost function KeptOf(username: string): string {
    KeepUserChars(Lower(username))
  }

  lemma {:induction false} KeepConcat(a: string, b: string)
    ensures KeepUserChars(a + b) == KeepUserChars(a) + KeepUserChars(b)
  {
    if a == [] {
      assert a + b == b;
    } else {
      KeepConcat(a[1..], b);
      assert (a + b)[1..] == a[1..] + b;
    }
  }

  /** Character by character: small ASCII letters, digits, dots, underscores and hyphens stay, capital letters become
      small, and every other ASCII character goes. */
  lemma KeptExactly(a: string, c: char, b: string)
    requires c < 128 as char
    ensures KeptOf(a + [c] + b)
         == KeptOf(a)
            + (if 'a' <= c <= 'z' || '0' <= c <= '9' || c in {'.', '_', '-'} then [c]
               else if 'A' <= c <= 'Z' then [c + 32 as char] else [])
            + KeptOf(b)
  {
    var l := Lower([c]);
    assert Lower(a + [c] + b) == Lower(a) + l + Lower(b);
    KeepConcat(Lower(a) + l, Lower(b));
    KeepConcat(Lower(a), l);
    assert l == [LowerChar(c)] && l[1..] == [];
  }

  /** The user part of an id is the first twenty of them, or "member" when there are none. */
  lemma UserExactly(username: string)
    ensures KeptOf(username) == "" ==> SafeUser(username) == "member"
    ensures 1 <= |KeptOf(username)| <= 20 ==> SafeUser(username) == KeptOf(username)
    ensures |KeptOf(username)| > 20 ==> SafeUser(username) == KeptOf(username)[..20]
    ensures KeptOf("") == ""
  {
    assert Lower("") == "";
  }

  /** The 125th ticket, a withdrawal of alex in Indonesia. */
  lemma SomeId()
    ensures FormatID("WD", " id ", "Alex", 125) == "WD-ID-alex-00125"
  {
    hide *;
    SomeRegion();
    SomeUser();
    SomeNumber();
    FormatIs("WD", " id ", "Alex", 125);
    assert "WD" + "-" + "ID" + "-" + "alex" + "-" + "00125" == "WD-ID-alex-00125";
  }

  lemma FormatIs(code: string, region: string, username: string, serial: nat)
    ensures FormatID(code, region, username, serial)
         == code + "-" + SafeRegion(region) + "-" + SafeUser(username) + "-" + Padded(serial, 5)
  {
    hide SafeRegion, SafeUser, Padded;
  }

  lemma SomeNumber()
    ensures Padded(125, 5) == "00125"
  {
    assert Numeral(1) == "1" && Numeral(12) == "12" && Numeral(125) == "125" && Zeros(2) == "00";
  }

  lemma SomeRegion()
    ensures SafeRegion(" id ") == "ID"
  {
    TrimExactly(" ", "id", " ");
    assert " " + "id" + " " == " id ";
    assert Upper("id") == "ID";
    hide TrimSpace;
  }

  lemma SomeUser()
    ensures SafeUser("Alex") == "alex"
  {
    assert Lower("Alex") == "alex";
    AllKept("alex");
    UserExactly("Alex");
  }

  lemma {:induction false} AllKept(s: string)
    requires forall i :: 0 <= i < |s| ==> IsUserChar(s[i])
    ensures KeepUserChars(s) == s
  {
    if s != [] {
      AllKept(s[1..]);
    }
  }
}
