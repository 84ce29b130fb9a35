/** Making the stored tiers agree with the guild's roles: reconcileTiers, tierCounts and guildMembers in
    modules/discordbot/members.go over the member table of modules/membership/service.go. */
module Reconcile {
  import opened Wrappers
  import opened Roles

  datatype Account = Account(id: nat, bot: bool, username: string, ageDays: int)

  /** A guild member; the user can be missing. Roles are held by id. */
  datatype Member = Member(account: Option<Account>, roleIds: seq<nat>)

  type RoleNames = map<nat, RoleName>

  datatype Row = Row(username: string, tier: Tier, ageDays: int, restricted: bool)

  type Table = map<nat, Row>

  /** The names of the roles held; a role id the guild does not list has none. */
  function NamesOf(ids: seq<nat>, names: RoleNames): seq<RoleName> {
    if ids == [] then []
    else
      var last := ids[|ids| - 1];
      NamesOf(ids[..|ids| - 1], names) + if last in names then [names[last]] else []
  }

  method ComputeNames(ids: seq<nat>, names: RoleNames) returns (held: seq<RoleName>)
    ensures held == NamesOf(ids, names)
  {
    held := [];
    for i := 0 to |ids|
      invariant held == NamesOf(ids[..i], names)
    {
      assert ids[..i + 1][..i] == ids[..i];
      if ids[i] in names {
        held := held + [names[ids[i]]];
      }
    }
    assert ids[..|ids|] == ids;
  }

  /** The tier a member's roles stand for; bots and members without a user have none. */
  function LiveTier(names: RoleNames, m: Member): Option<Tier> {
    if m.account.None? || m.account.value.bot then None else Some(MemberTier(Some(NamesOf(m.roleIds, names))))
  }

  function LiveRestricted(names: RoleNames, m: Member): bool {
    Restricted(NamesOf(m.roleIds, names))
  }

  // The specification of one run, on the rows listed at its start

  /** The row written for one member, if one is. */
  function Repair(stored: Table, names: RoleNames, m: Member): Option<Row> {
    if LiveTier(names, m) in {None, Some(TierConflict)} then None
    else
      var id, tier, restricted := m.account.value.id, LiveTier(names, m).value, LiveRestricted(names, m);
      if id in stored && stored[id].tier == tier && stored[id].restricted == restricted then None
      else if id in stored then
        var username :=
          if stored[id].username == "" && tier != TierNone then m.account.value.username else stored[id].username;
        Some(Row(username, tier, stored[id].ageDays, restricted))
      else if tier == TierNone then None
      else Some(Row(m.account.value.username, tier, m.account.value.ageDays, restricted))
  }

  function Repaired(stored: Table, names: RoleNames, members: seq<Member>): Table {
    if members == [] then stored
    else
      var before := Repaired(stored, names, members[..|members| - 1]);
      var m := members[|members| - 1];
      var row := Repair(stored, names, m);
      if row.Some? then before[m.account.value.id := row.value] else before
  }

  function RepairCount(stored: Table, names: RoleNames, members: seq<Member>): nat {
    if members == [] then 0
    else
      RepairCount(stored, names, members[..|members| - 1])
      + if Repair(stored, names, members[|members| - 1]).Some? then 1 else 0
  }

  function PresentIds(members: seq<Member>): set<nat> {
    set m | m in members && m.account.Some? :: m.account.value.id
  }

  function Departed(stored: Table, members: seq<Member>): set<nat> {
    stored.Keys - PresentIds(members)
  }

  function Reconciled(stored: Table, names: RoleNames, members: seq<Member>): Table {
    Repaired(stored, names, members) - Departed(stored, members)
  }

  // The program

  ghost predicate Distinct(ids: seq<nat>) {
    forall i, j :: 0 <= i < j < |ids| ==> ids[i] != ids[j]
  }

  /** guild_members; the w-th write since the start fails when faults(w) says so. */
  class MemberTable {
    const faults: nat -> bool
    var rows: Table
    var writes: nat

    constructor (rows: Table, faults: nat -> bool)
      ensures this.rows == rows && this.faults == faults && writes == 0
    {
      this.rows := rows;
      this.faults := faults;
      this.writes := 0;
    }

    method Upsert(id: nat, row: Row) returns (ok: bool)
      modifies this
      ensures writes == old(writes) + 1 && ok == !faults(old(writes))
      ensures rows == if ok then old(rows)[id := row] else old(rows)
    {
      ok := !faults(writes);
      writes := writes + 1;
      if ok {
        rows := rows[id := row];
      }
    }

    method Delete(id: nat) returns (ok: bool)
      modifies this
      ensures writes == old(writes) + 1 && ok == !faults(old(writes))
      ensures rows == if ok then old(rows) - {id} else old(rows)
    {
      ok := !faults(writes);
      writes := writes + 1;
      if ok {
        rows := rows - {id};
      }
    }

    /** Every row once; the order is the store's. */
    method List() returns (ids: seq<nat>)
      ensures Distinct(ids)
      ensures forall id :: id in ids <==> id in rows
    {
      ids := [];
      var todo := rows.Keys;
      while todo != {}
        invariant todo <= rows.Keys
        invariant forall id :: id in rows && id !in todo <==> id in ids
        invariant Distinct(ids)
        decreases todo
      {
        var id :| id in todo;
        todo := todo - {id};
        ids := ids + [id];
      }
    }
  }

  /** One turn of the loop. */
  lemma RepairNext(stored: Table, names: RoleNames, members: seq<Member>, i: nat)
    requires i < |members|
    ensures var before, row := Repaired(stored, names, members[..i]), Repair(stored, names, members[i]);
            && Repaired(stored, names, members[..i + 1])
               == (if row.Some? then before[members[i].account.value.id := row.value] else before)
            && RepairCount(stored, names, members[..i + 1])
               == RepairCount(stored, names, members[..i]) + if row.Some? then 1 else 0
  {
    assert members[..i + 1][..i] == members[..i];
  }

  lemma RepairEnds(stored: Table, names: RoleNames, members: seq<Member>)
    ensures Repaired(stored, names, members[..0]) == stored && RepairCount(stored, names, members[..0]) == 0
  {
  }

  /** The loop over the members: every repair up to the first write that fails. */
  method RepairMembers(table: MemberTable, stored: Table, members: seq<Member>, names: RoleNames)
    returns (repaired: nat, ok: bool, ghost upTo: nat)
    requires table.rows == stored
    modifies table
    ensures upTo <= |members| && (ok ==> upTo == |members|)
    ensures table.rows == Repaired(stored, names, members[..upTo])
    ensures repaired == RepairCount(stored, names, members[..upTo])
    ensures table.writes == old(table.writes) + repaired + if ok then 0 else 1
    ensures forall w :: old(table.writes) <= w < old(table.writes) + repaired ==> !table.faults(w)
    ensures !ok ==> table.faults(table.writes - 1)
  {
    RepairEnds(stored, names, members);
    hide Repaired, RepairCount, MemberTier, NamesOf, Restricted;
    repaired, ok, upTo := 0, true, 0;
    for i := 0 to |members|
      invariant upTo == i && ok
      invariant table.rows == Repaired(stored, names, members[..i])
      invariant repaired == RepairCount(stored, names, members[..i])
      invariant table.writes == old(table.writes) + repaired
      invariant forall w :: old(table.writes) <= w < table.writes ==> !table.faults(w)
    {
      var m := members[i];
      RepairNext(stored, names, members, i);
      upTo := i + 1;
      if m.account.None? || m.account.value.bot {
        continue;
      }
      var id := m.account.value.id;
      var held := ComputeNames(m.roleIds, names);
      var tier := ComputeMemberTier(Some(held));
      if tier == TierConflict {
        continue;
      }
      var known := id in stored;
      var row := if known then stored[id] else Row("", TierNone, 0, false);
      var restricted := Restricted(held);
      if tier == TierNone {
        if !known || (row.tier == TierNone && row.restricted == restricted) {
          continue;
        }
        ok := table.Upsert(id, Row(row.username, TierNone, row.ageDays, restricted));
        if !ok {
          upTo := i;
          return;
        }
        repaired := repaired + 1;
        continue;
      }
      var age := row.ageDays;
      if !known {
        age := m.account.value.ageDays;
      }
      if known && row.tier == tier && row.restricted == restricted {
        continue;
      }
      var username := row.username;
      if username == "" {
        username := m.account.value.username;
      }
      ok := table.Upsert(id, Row(username, tier, age, restricted));
      if !ok {
        upTo := i;
        return;
      }
      repaired := repaired + 1;
    }
    assert members[..|members|] == members;
  }

  method ComputePresent(members: seq<Member>) returns (present: set<nat>)
    ensures present == PresentIds(members)
  {
    present := {};
    for i := 0 to |members|
      invariant present == PresentIds(members[..i])
    {
      assert members[..i + 1] == members[..i] + [members[i]];
      if members[i].account.Some? {
        present := present + {members[i].account.value.id};
      }
    }
    assert members[..|members|] == members;
  }

  ghost function Leavers(ids: seq<nat>, present: set<nat>): set<nat> {
    set id | id in ids && id !in present
  }

  lemma LeaversNext(ids: seq<nat>, present: set<nat>, i: nat)
    requires i < |ids| && Distinct(ids)
    ensures Leavers(ids[..i + 1], present) == Leavers(ids[..i], present) + if ids[i] in present then {} else {ids[i]}
    ensures ids[i] !in Leavers(ids[..i], present) && Leavers(ids[..i], present) <= Leavers(ids, present)
  {
    assert ids[..i + 1] == ids[..i] + [ids[i]];
  }

  lemma LeaversEnds(ids: seq<nat>, present: set<nat>)
    ensures Leavers(ids[..0], present) == {} && Leavers(ids[..|ids|], present) == Leavers(ids, present)
  {
    assert ids[..|ids|] == ids;
  }

  lemma MinusOneMore(rows: Table, gone: set<nat>, id: nat)
    ensures rows - gone - {id} == rows - (gone + {id})
  {
  }

  /** The loop over the rows listed at the start: every departed row up to the first write that fails. */
  method PruneRows(table: MemberTable, listed: seq<nat>, present: set<nat>)
    returns (pruned: nat, ok: bool, ghost gone: set<nat>)
    requires Distinct(listed)
    modifies table
    ensures gone <= Leavers(listed, present) && (ok ==> gone == Leavers(listed, present))
    ensures pruned == |gone| && table.rows == old(table.rows) - gone
    ensures table.writes == old(table.writes) + pruned + if ok then 0 else 1
    ensures forall w :: old(table.writes) <= w < old(table.writes) + pruned ==> !table.faults(w)
    ensures !ok ==> table.faults(table.writes - 1)
  {
    hide *;
    pruned, ok, gone := 0, true, {};
    LeaversEnds(listed, present);
    for i := 0 to |listed|
      invariant ok && gone == Leavers(listed[..i], present)
      invariant pruned == |gone| && table.rows == old(table.rows) - gone
      invariant table.writes == old(table.writes) + pruned
      invariant forall w :: old(table.writes) <= w < table.writes ==> !table.faults(w)
    {
      var id := listed[i];
      LeaversNext(listed, present, i);
      if id in present {
        continue;
      }
      ok := table.Delete(id);
      if !ok {
        return;
      }
      pruned := pruned + 1;
      MinusOneMore(old(table.rows), gone, id);
      gone := gone + {id};
    }
  }

  lemma MinusNothing(rows: Table)
    ensures rows - {} == rows
  {
  }

  lemma LeaversAreDeparted(listed: seq<nat>, stored: Table, members: seq<Member>)
    requires forall id :: id in listed <==> id in stored
    ensures Leavers(listed, PresentIds(members)) == Departed(stored, members)
  {
    hide PresentIds;
  }

  /** One run. When a write fails the run stops: upTo members were repaired, and the rows in gone deleted. */
  method ReconcileTiers(table: MemberTable, members: seq<Member>, names: RoleNames)
    returns (repaired: nat, pruned: nat, ok: bool, ghost upTo: nat, ghost gone: set<nat>)
    modifies table
    ensures ok <==> forall w :: old(table.writes) <= w < table.writes ==> !table.faults(w)
    ensures ok ==> && table.rows == Reconciled(old(table.rows), names, members)
                   && repaired == RepairCount(old(table.rows), names, members)
                   && pruned == |Departed(old(table.rows), members)|
    ensures upTo <= |members| && gone <= Departed(old(table.rows), members) && (upTo < |members| ==> gone == {})
    ensures table.rows == Repaired(old(table.rows), names, members[..upTo]) - gone
    ensures repaired == RepairCount(old(table.rows), names, members[..upTo]) && pruned == |gone|
  {
    hide Repaired, RepairCount, Leavers, Departed, PresentIds, Distinct;
    var listed := table.List();
    var stored := table.rows;
    repaired, ok, upTo := RepairMembers(table, stored, members, names);
    pruned, gone := 0, {};
    MinusNothing(table.rows);
    if !ok {
      return;
    }
    assert members[..|members|] == members;
    var present := ComputePresent(members);
    LeaversAreDeparted(listed, stored, members);
    pruned, ok, gone := PruneRows(table, listed, present);
  }

  // What a run leaves, for members whose ids are unique

  ghost predicate UniqueIds(members: seq<Member>) {
    forall i, j :: 0 <= i < j < |members| && members[i].account.Some? && members[j].account.Some? ==>
      members[i].account.value.id != members[j].account.value.id
  }

  ghost predicate SameRow(a: Table, b: Table, id: nat) {
    (id in a <==> id in b) && (id in a ==> a[id] == b[id])
  }

  lemma {:induction false} AbsentUntouched(stored: Table, names: RoleNames, members: seq<Member>, id: nat)
    requires id !in PresentIds(members)
    ensures SameRow(stored, Repaired(stored, names, members), id)
  {
    if members != [] {
      assert members[|members| - 1] in members;
      AbsentUntouched(stored, names, members[..|members| - 1], id);
    }
  }

  lemma {:induction false} RepairedAt(stored: Table, names: RoleNames, members: seq<Member>, i: nat)
    requires UniqueIds(members) && i < |members| && members[i].account.Some?
    ensures var after, row := Repaired(stored, names, members), Repair(stored, names, members[i]);
            var id := members[i].account.value.id;
            if row.Some? then id in after && after[id] == row.value else SameRow(stored, after, id)
  {
    var front, last := members[..|members| - 1], members[|members| - 1];
    if i == |members| - 1 {
      AbsentUntouched(stored, names, front, last.account.value.id);
    } else {
      RepairedAt(stored, names, front, i);
      assert front[i] == members[i];
    }
  }

  /** What the run promises for one member. */
  ghost predicate Settled(stored: Table, after: Table, names: RoleNames, m: Member) {
    m.account.None? ||
    var id := m.account.value.id;
    var tier := LiveTier(names, m);
    if tier in {None, Some(TierConflict)} then SameRow(stored, after, id)
    else if tier == Some(TierNone) && id !in stored then id !in after
    else
      && id in after && after[id].tier == tier.value && after[id].restricted == LiveRestricted(names, m)
      && after[id].ageDays == (if id in stored then stored[id].ageDays else m.account.value.ageDays)
      && (id in stored && (stored[id].username != "" || tier == Some(TierNone)) ==>
           after[id].username == stored[id].username)
      && (id in stored && stored[id].tier == tier.value && stored[id].restricted == LiveRestricted(names, m)
          ==> after[id] == stored[id])
      && (id in stored && stored[id].username == "" && tier != Some(TierNone) && after[id] != stored[id]
          ==> after[id].username == m.account.value.username)
      && (id !in stored ==> after[id].username == m.account.value.username)
  }

  /** Every member is settled, and exactly the rows of the departed are gone. */
  lemma EveryMemberSettled(stored: Table, names: RoleNames, members: seq<Member>)
    requires UniqueIds(members)
    ensures var after := Reconciled(stored, names, members);
            && (forall i :: 0 <= i < |members| ==> Settled(stored, after, names, members[i]))
            && (forall id :: id in after ==> id in PresentIds(members))
            && (forall id :: id in stored ==> (id in after <==> id in PresentIds(members)))
  {
    var after := Reconciled(stored, names, members);
    forall i | 0 <= i < |members|
      ensures Settled(stored, after, names, members[i])
    {
      if members[i].account.Some? {
        RepairedAt(stored, names, members, i);
        assert members[i] in members;
        assert members[i].account.value.id in PresentIds(members);
      }
    }
    forall id | id !in PresentIds(members)
      ensures id !in after
    {
      AbsentUntouched(stored, names, members, id);
    }
    forall id | id in stored && id in PresentIds(members)
      ensures id in after
    {
      RepairedKeeps(stored, names, members, id);
    }
  }

  lemma {:induction false} RepairedKeeps(stored: Table, names: RoleNames, members: seq<Member>, id: nat)
    requires id in stored
    ensures id in Repaired(stored, names, members)
  {
    if members != [] {
      RepairedKeeps(stored, names, members[..|members| - 1], id);
    }
  }

  ghost function Changed(stored: Table, after: Table): set<nat> {
    set id | id in after && (id !in stored || after[id] != stored[id])
  }

  /** The first count is the number of rows that are new or different. */
  lemma {:induction false} RepairCountExact(stored: Table, names: RoleNames, members: seq<Member>)
    requires UniqueIds(members)
    ensures RepairCount(stored, names, members) == |Changed(stored, Repaired(stored, names, members))|
  {
    if members == [] {
      assert Changed(stored, stored) == {};
    } else {
      var front, last := members[..|members| - 1], members[|members| - 1];
      RepairCountExact(stored, names, front);
      var row := Repair(stored, names, last);
      if row.Some? {
        var id := last.account.value.id;
        AbsentUntouched(stored, names, front, id);
        assert Changed(stored, Repaired(stored, names, members))
                 == Changed(stored, Repaired(stored, names, front)) + {id};
      }
    }
  }

  lemma {:induction false} QuietRun(stored: Table, names: RoleNames, members: seq<Member>)
    requires forall m :: m in members ==> Repair(stored, names, m).None?
    ensures Repaired(stored, names, members) == stored && RepairCount(stored, names, members) == 0
  {
    if members != [] {
      assert members[|members| - 1] in members;
      QuietRun(stored, names, members[..|members| - 1]);
    }
  }

  /** A second run changes nothing and returns (0, 0). */
  lemma SecondRunIsQuiet(stored: Table, names: RoleNames, members: seq<Member>)
    requires UniqueIds(members)
    ensures var after := Reconciled(stored, names, members);
            && Reconciled(after, names, members) == after
            && RepairCount(after, names, members) == 0
            && Departed(after, members) == {}
  {
    var after := Reconciled(stored, names, members);
    EveryMemberSettled(stored, names, members);
    forall m | m in members
      ensures Repair(after, names, m).None?
    {
      var i :| 0 <= i < |members| && members[i] == m;
      assert Settled(stored, after, names, members[i]);
    }
    QuietRun(after, names, members);
  }

  // tierCounts

  function Tally(names: RoleNames, members: seq<Member>, t: Tier): nat {
    if members == [] then 0
    else
      Tally(names, members[..|members| - 1], t) + if LiveTier(names, members[|members| - 1]) == Some(t) then 1 else 0
  }

  method TierCounts(members: seq<Member>, names: RoleNames) returns (buyers: nat, sellers: nat, neither: nat)
    ensures buyers == Tally(names, members, TierBuyer) && sellers == Tally(names, members, TierSeller)
    ensures neither
              == Tally(names, members, TierUser) + Tally(names, members, TierNone) + Tally(names, members, TierConflict)
  {
    buyers, sellers, neither := 0, 0, 0;
    for i := 0 to |members|
      invariant buyers == Tally(names, members[..i], TierBuyer) && sellers == Tally(names, members[..i], TierSeller)
      invariant neither == Tally(names, members[..i], TierUser) + Tally(names, members[..i], TierNone)
                           + Tally(names, members[..i], TierConflict)
    {
      assert members[..i + 1][..i] == members[..i];
      var m := members[i];
      if m.account.None? || m.account.value.bot {
        continue;
      }
      var held := ComputeNames(m.roleIds, names);
      var tier := ComputeMemberTier(Some(held));
      match tier {
        case TierBuyer => buyers := buyers + 1;
        case TierSeller => sellers := sellers + 1;
        case _ => neither := neither + 1;
      }
    }
    assert members[..|members|] == members;
  }

  /** The members whose roles say t. */
  ghost function HoldersOf(names: RoleNames, members: seq<Member>, t: Tier): set<nat> {
    set m | m in members && LiveTier(names, m) == Some(t) :: m.account.value.id
  }

  lemma HoldersNext(names: RoleNames, front: seq<Member>, last: Member, t: Tier)
    requires UniqueIds(front + [last])
    ensures var before, now := HoldersOf(names, front, t), HoldersOf(names, front + [last], t);
            now == before + (if LiveTier(names, last) == Some(t) then {last.account.value.id} else {})
            && (LiveTier(names, last) == Some(t) ==> last.account.value.id !in before)
  {
    hide MemberTier;
    forall m | m in front && m.account.Some? && last.account.Some?
      ensures m.account.value.id != last.account.value.id
    {
      var i :| 0 <= i < |front| && front[i] == m;
      assert (front + [last])[i] == m && (front + [last])[|front|] == last;
    }
  }

  lemma {:induction false} TallyCountsHolders(names: RoleNames, members: seq<Member>, t: Tier)
    requires UniqueIds(members)
    ensures Tally(names, members, t) == |HoldersOf(names, members, t)|
  {
    if members == [] {
      assert HoldersOf(names, members, t) == {};
    } else {
      hide LiveTier, HoldersOf;
      var front, last := members[..|members| - 1], members[|members| - 1];
      assert members == front + [last];
      TallyCountsHolders(names, front, t);
      HoldersNext(names, front, last, t);
    }
  }

  /** Rows a run is free to set: those of humans whose roles do not conflict. */
  ghost predicate Decided(names: RoleNames, members: seq<Member>, id: nat) {
    exists m :: m in members && LiveTier(names, m) !in {None, Some(TierConflict)} && m.account.value.id == id
  }

  lemma SettledTier(stored: Table, names: RoleNames, members: seq<Member>, m: Member, t: Tier)
    requires UniqueIds(members) && m in members && LiveTier(names, m) !in {None, Some(TierConflict)} && t != TierNone
    ensures var after, id := Reconciled(stored, names, members), m.account.value.id;
            id in after && after[id].tier == t <==> LiveTier(names, m) == Some(t)
  {
    EveryMemberSettled(stored, names, members);
    var i :| 0 <= i < |members| && members[i] == m;
    assert Settled(stored, Reconciled(stored, names, members), names, members[i]);
  }

  /** After a run the stored headcount of a tier, over humans without a conflict, is the live count. */
  lemma StoredCountsAreLive(stored: Table, names: RoleNames, members: seq<Member>, t: Tier)
    requires UniqueIds(members) && RoleOf(t).Some?
    ensures var after := Reconciled(stored, names, members);
            |set id | id in after && after[id].tier == t && Decided(names, members, id)| == Tally(names, members, t)
  {
    hide Reconciled, UniqueIds, MemberTier, NamesOf, Tally;
    var after := Reconciled(stored, names, members);
    TallyCountsHolders(names, members, t);
    var rows := set id | id in after && after[id].tier == t && Decided(names, members, id);
    forall id | id in rows
      ensures id in HoldersOf(names, members, t)
    {
      var m :| m in members && LiveTier(names, m) !in {None, Some(TierConflict)} && m.account.value.id == id;
      SettledTier(stored, names, members, m, t);
    }
    forall id | id in HoldersOf(names, members, t)
      ensures id in rows
    {
      var m :| m in members && LiveTier(names, m) == Some(t) && m.account.value.id == id;
      SettledTier(stored, names, members, m, t);
    }
    assert rows == HoldersOf(names, members, t);
  }

  /** setTier records the target of a grant that is reported as done, with the restriction the roles then
      show. The next run leaves that row alone, and the row agrees with the roles if and only if no legacy
      role is held and every rival role held could be taken away; otherwise the roles are a conflict. */
  lemma GrantedRowIsSettled(stored: Table, names: RoleNames, m: Member, before: seq<RoleName>, target: Tier,
                            works: set<RoleName>, username: string, age: int)
    requires m.account.Some? && !m.account.value.bot
    requires forall r :: r in works ==> Count(before, r) <= 1
    requires ExclusiveTier(before, target, works).1
    requires NamesOf(m.roleIds, names) == ExclusiveTier(before, target, works).0
    ensures Repair(stored[m.account.value.id := Row(username, target, age, LiveRestricted(names, m))], names, m).None?
    ensures LiveTier(names, m) in {Some(target), Some(TierConflict)}
    ensures LiveTier(names, m) == Some(target)
            <==> forall r :: r in before ==> !IsLegacy(r) && (r in Rivals(target) ==> r in works)
  {
    GrantIsTargetOrConflict(before, target, works);
    GrantHasRole(before, target, works);
    GrantIsExclusive(before, target, works);
    hide ExclusiveTier, NamesOf, MemberTier, IsLegacy;
  }

  lemma GrantHasRole(before: seq<RoleName>, target: Tier, works: set<RoleName>)
    requires ExclusiveTier(before, target, works).1
    ensures RoleOf(target).Some? && RoleOf(target).value in works
  {
  }

  lemma GrantIsTargetOrConflict(before: seq<RoleName>, target: Tier, works: set<RoleName>)
    requires forall r :: r in works ==> Count(before, r) <= 1
    requires ExclusiveTier(before, target, works).1
    ensures MemberTier(Some(ExclusiveTier(before, target, works).0)) in {target, TierConflict}
  {
    var after := ExclusiveTier(before, target, works).0;
    GrantHasRole(before, target, works);
    GrantCounts(before, target, works);
    hide ExclusiveTier, IsLegacy, RoleOf, TiersHeld, Rivals;
    TiersHeldCounts(after);
    assert RoleOf(target).value in after by { assert Count(after, RoleOf(target).value) == 1; }
    assert target in TiersHeld(after);
  }

  // guildMembers: the list endpoint answers the members after an id, at most PAGE_SIZE of them

  const PAGE_SIZE := 1000

  /** The guild's members under their ids, in the order of the endpoint. */
  datatype Listed = Listed(id: nat, member: Member)

  ghost predicate ById(all: seq<Listed>) {
    && (forall i :: 0 <= i < |all| ==> all[i].id > 0)
    && (forall i :: 0 <= i < |all| && all[i].member.account.Some? ==> all[i].member.account.value.id == all[i].id)
    && (forall i, j :: 0 <= i < j < |all| ==> all[i].id < all[j].id)
  }

  function After(all: seq<Listed>, after: nat): seq<Listed> {
    if all != [] && all[0].id <= after then After(all[1..], after) else all
  }

  function Members(all: seq<Listed>): (members: seq<Member>)
    ensures |members| == |all| && forall i :: 0 <= i < |all| ==> members[i] == all[i].member
  {
    seq(|all|, i requires 0 <= i < |all| => all[i].member)
  }

  function Page(all: seq<Listed>, after: nat): seq<Member> {
    var rest := After(all, after);
    Members(if |rest| <= PAGE_SIZE then rest else rest[..PAGE_SIZE])
  }

  lemma {:induction false} AfterDrops(all: seq<Listed>, n: nat)
    requires ById(all) && n < |all|
    ensures After(all, all[n].id) == all[n + 1..]
  {
    if n == 0 {
      assert After(all, all[0].id) == After(all[1..], all[0].id);
    } else {
      AfterDrops(all[1..], n - 1);
      assert all[1..][n - 1] == all[n] && all[1..][n..] == all[n + 1..];
    }
  }

  lemma PageIsNext(all: seq<Listed>, n: nat, after: nat)
    requires n <= |all| && After(all, after) == all[n..]
    ensures var size := if |all| - n <= PAGE_SIZE then |all| - n else PAGE_SIZE;
            Page(all, after) == Members(all[n..n + size])
  {
    hide After;
  }

  lemma MembersConcat(a: seq<Listed>, b: seq<Listed>)
    ensures Members(a + b) == Members(a) + Members(b)
  {
  }

  /** Only the last member of a full page needs a user; the source fails without one. */
  ghost predicate FullPagesNamed(all: seq<Listed>) {
    forall i :: 0 <= i < |all| && (i + 1) % 1000 == 0 ==> all[i].member.account.Some?
  }

  lemma IdOf(all: seq<Listed>, i: nat)
    requires ById(all) && i < |all| && all[i].member.account.Some?
    ensures all[i].member.account.value.id == all[i].id
  {
  }

  lemma LastIsNamed(all: seq<Listed>, n: nat)
    requires FullPagesNamed(all) && n % PAGE_SIZE == 0 && n + PAGE_SIZE <= |all|
    ensures all[n + PAGE_SIZE - 1].member.account.Some?
  {
    assert (n + PAGE_SIZE - 1 + 1) % PAGE_SIZE == 0;
  }

  lemma Extends(all: seq<Listed>, n: nat, size: nat)
    requires n + size <= |all|
    ensures Members(all[..n]) + Members(all[n..n + size]) == Members(all[..n + size])
    ensures |Members(all[n..n + size])| == size
    ensures size > 0 ==> Members(all[n..n + size])[size - 1] == all[n + size - 1].member
    ensures n + size == |all| ==> Members(all[..n + size]) == Members(all)
  {
    MembersConcat(all[..n], all[n..n + size]);
    assert all[..n] + all[n..n + size] == all[..n + size];
    assert n + size == |all| ==> all[..n + size] == all;
  }

  /** A page that starts at n goes on from n, and ends the list exactly when it is short. */
  lemma PageContinues(all: seq<Listed>, n: nat, after: nat)
    requires ById(all) && n <= |all| && After(all, after) == all[n..]
    requires n % PAGE_SIZE == 0 && FullPagesNamed(all)
    ensures var page := Page(all, after);
            && |page| <= PAGE_SIZE && n + |page| <= |all| && Members(all[..n]) + page == Members(all[..n + |page|])
            && (|page| < PAGE_SIZE ==> Members(all[..n + |page|]) == Members(all))
            && (|page| == PAGE_SIZE ==>
                page[|page| - 1].account.Some? && After(all, page[|page| - 1].account.value.id) == all[n + |page|..])
  {
    hide After, Page, Members, ById, FullPagesNamed;
    var size := if |all| - n <= PAGE_SIZE then |all| - n else PAGE_SIZE;
    PageIsNext(all, n, after);
    Extends(all, n, size);
    if size == PAGE_SIZE {
      LastIsNamed(all, n);
      AfterDrops(all, n + size - 1);
      IdOf(all, n + size - 1);
    }
  }

  method GuildMembers(all: seq<Listed>) returns (out: seq<Member>)
    requires ById(all) && FullPagesNamed(all)
    ensures out == Members(all)
  {
    out := [];
    var after := 0;
    assert After(all, 0) == all;
    while true
      invariant |out| <= |all| && |out| % PAGE_SIZE == 0
      invariant out == Members(all[..|out|])
      invariant After(all, after) == all[|out|..]
      decreases |all| - |out|
    {
      var page := Page(all, after);
      ghost var n := |out|;
      PageContinues(all, n, after);
      hide *;
      out := out + page;
      if |page| < PAGE_SIZE {
        return;
      }
      after := page[|page| - 1].account.value.id;
    }
  }

  /** Each listed id contributes its name, in order, and each other id nothing. */
  lemma {:induction false} NamesExactly(a: seq<nat>, id: nat, names: RoleNames)
    ensures NamesOf(a + [id], names) == NamesOf(a, names) + (if id in names then [names[id]] else [])
    ensures NamesOf([], names) == []
  {
    assert (a + [id])[..|a|] == a;
  }

  /** The live tier, role by role: no tier for bots and missing users; otherwise the one member role held, none, or a
      conflict. */
  lemma LiveTierExactly(names: RoleNames, m: Member)
    ensures LiveTier(names, m).Some? <==> m.account.Some? && !m.account.value.bot
    ensures LiveTier(names, m).Some? ==>
              var held := NamesOf(m.roleIds, names);
              && (LiveTier(names, m) == Some(TierUser) <==> HoldsOnly(held, User))
              && (LiveTier(names, m) == Some(TierBuyer) <==> HoldsOnly(held, Buyer))
              && (LiveTier(names, m) == Some(TierSeller) <==> HoldsOnly(held, Seller))
              && (LiveTier(names, m) == Some(TierNone) <==>
                  forall r :: r in held ==> r !in {User, Buyer, Seller, NewMember, VerifiedSeller, ProvisionalSeller,
                                                   VerifiedBuyer})
              && (LiveRestricted(names, m) <==> !Unrestricted(held))
  {
    var held := NamesOf(m.roleIds, names);
    TierExactly(held);
    NoTierExactly(held);
    hide MemberTier, NamesOf, HoldsOnly, Restricted, Unrestricted;
  }
}
