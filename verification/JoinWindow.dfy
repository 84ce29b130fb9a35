/** The sliding window of joins behind the raid signal (modules/discordbot/ops.go). */
module JoinWindow {
  /** One minute, in milliseconds. */
  const RAID_WINDOW := 60_000
  const RAID_THRESHOLD := 8

  /** The list without the joins at its start that came before the cut. */
  function Trimmed(joins: seq<int>, cut: int): seq<int> {
    if joins != [] && joins[0] < cut then Trimmed(joins[1..], cut) else joins
  }

  /** The list kept after every join so far. */
  function Recent(joins: seq<int>): seq<int> {
    if joins == [] then []
    else
      var now := joins[|joins| - 1];
      Trimmed(Recent(joins[..|joins| - 1]) + [now], now - RAID_WINDOW)
  }

  class Bot {
    var recentJoins: seq<int>
    ghost var joins: seq<int>

    ghost predicate Valid()
      reads this
    {
      recentJoins == Recent(joins)
    }

    constructor ()
      ensures Valid() && joins == []
    {
      recentJoins, joins := [], [];
    }

    /** alarm says whether the raid signal goes out, burst what it reports. */
    method NoteJoin(now: int) returns (burst: nat, alarm: bool)
      requires Valid()
      modifies this
      ensures Valid() && joins == old(joins) + [now]
      ensures burst == |Recent(joins)| && (alarm <==> burst >= 8)
    {
      recentJoins := recentJoins + [now];
      var cut := now - RAID_WINDOW;
      var i := 0;
      while i < |recentJoins| && recentJoins[i] < cut
        invariant i <= |recentJoins|
        invariant Trimmed(recentJoins, cut) == Trimmed(recentJoins[i..], cut)
      {
        assert recentJoins[i..][1..] == recentJoins[i + 1..];
        i := i + 1;
      }
      assert Trimmed(recentJoins[i..], cut) == recentJoins[i..];
      recentJoins := recentJoins[i..];
      assert (joins + [now])[..|joins|] == joins;
      joins := joins + [now];
      burst := |recentJoins|;
      alarm := burst >= RAID_THRESHOLD;
    }
  }

  ghost predicate InOrder(joins: seq<int>) {
    forall i, j :: 0 <= i < j < |joins| ==> joins[i] <= joins[j]
  }

  /** In an ordered list trimming is cutting: what is left is everything from some place on. */
  lemma {:induction false} TrimmedIsSuffix(joins: seq<int>, cut: int) returns (n: nat)
    requires InOrder(joins)
    ensures n <= |joins| && Trimmed(joins, cut) == joins[n..]
    ensures forall i :: 0 <= i < |joins| ==> (joins[i] >= cut <==> i >= n)
  {
    if joins != [] && joins[0] < cut {
      var k := TrimmedIsSuffix(joins[1..], cut);
      n := k + 1;
      assert joins[1..][k..] == joins[n..];
      assert forall i :: 1 <= i < |joins| ==> joins[i] == joins[1..][i - 1];
    } else {
      n := 0;
    }
  }

  /** Trimming what was kept is trimming everything, when all that went earlier is too old as well. */
  lemma SuffixTrims(joins: seq<int>, m: nat, cut: int) returns (n: nat)
    requires InOrder(joins) && m <= |joins| && forall i :: 0 <= i < m ==> joins[i] < cut
    ensures n <= |joins| && Trimmed(joins[m..], cut) == joins[n..]
    ensures forall i :: 0 <= i < |joins| ==> (joins[i] >= cut <==> i >= n)
  {
    var kept := joins[m..];
    var k := TrimmedIsSuffix(kept, cut);
    n := m + k;
    assert kept[k..] == joins[n..];
    forall i | 0 <= i < |joins|
      ensures joins[i] >= cut <==> i >= n
    {
      if i >= m {
        assert joins[i] == kept[i - m];
      }
    }
  }

  /** The list kept is everything from some place on, and all before that place is too old. */
  lemma {:induction false} RecentIsSuffix(joins: seq<int>) returns (n: nat)
    requires InOrder(joins) && joins != []
    ensures n <= |joins| && Recent(joins) == joins[n..]
    ensures forall i :: 0 <= i < |joins| ==> (joins[i] >= joins[|joins| - 1] - RAID_WINDOW <==> i >= n)
  {
    var front, now := joins[..|joins| - 1], joins[|joins| - 1];
    var m := 0;
    if front != [] {
      m := RecentIsSuffix(front);
      var before := front[|front| - 1];
      forall i | 0 <= i < m
        ensures joins[i] < now - RAID_WINDOW
      {
        assert front[i] < before - RAID_WINDOW;
      }
      assert Recent(front) == front[m..];
    }
    assert Recent(front) + [now] == joins[m..];
    hide Trimmed;
    n := SuffixTrims(joins, m, now - RAID_WINDOW);
  }

  /** The joins no older than the cut. */
  ghost function Since(joins: seq<int>, cut: int): set<nat> {
    set i | 0 <= i < |joins| && joins[i] >= cut
  }

  lemma {:induction false} SinceSize(joins: seq<int>, cut: int, n: nat)
    requires n <= |joins| && forall i :: 0 <= i < |joins| ==> (joins[i] >= cut <==> i >= n)
    ensures |Since(joins, cut)| == |joins| - n
  {
    if joins == [] {
      assert Since(joins, cut) == {};
    } else {
      var front, last := joins[..|joins| - 1], |joins| - 1;
      SinceSize(front, cut, if n < |joins| then n else last);
      assert Since(joins, cut) == if n < |joins| then Since(front, cut) + {last} else Since(front, cut);
    }
  }

  /** While the clock does not run backwards, the list is as long as the joins ever seen that are at most
      one minute old, however often it was trimmed. */
  lemma BurstCountsTheLastMinute(joins: seq<int>)
    requires InOrder(joins) && joins != []
    ensures |Recent(joins)| == |set i | 0 <= i < |joins| && joins[i] >= joins[|joins| - 1] - 60_000|
  {
    var n := RecentIsSuffix(joins);
    var cut := joins[|joins| - 1] - 60_000;
    SinceSize(joins, cut, n);
    assert Since(joins, cut) == set i | 0 <= i < |joins| && joins[i] >= cut;
  }
}
