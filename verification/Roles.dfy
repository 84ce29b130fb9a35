/** Member tiers as the guild's roles decide them (modules/membership/roles.go, verify.go and
    exclusiveTier in modules/discordbot/bot.go). */
module Roles {
  import opened Wrappers
  import opened Catalog

  datatype RoleName =
    | User | Buyer | Seller
    | NewMember | VerifiedSeller | ProvisionalSeller | VerifiedBuyer
    | UnderReview | Suspended | Blacklisted
    | OtherRole(name: string)

  datatype Tier = TierUser | TierBuyer | TierSeller | TierNone | TierConflict

  predicate IsLegacy(r: RoleName) {
    r in {NewMember, VerifiedSeller, ProvisionalSeller, VerifiedBuyer}
  }

  predicate IsRestriction(r: RoleName) {
    r in {UnderReview, Suspended, Blacklisted}
  }

  /** The tier a role stands for. */
  function TierOf(r: RoleName): Option<Tier> {
    match r
    case User => Some(TierUser)
    case Buyer => Some(TierBuyer)
    case Seller => Some(TierSeller)
    case _ => None
  }

  /** MemberRoles: the role a tier is granted by. */
  function RoleOf(t: Tier): Option<RoleName> {
    match t
    case TierUser => Some(User)
    case TierBuyer => Some(Buyer)
    case TierSeller => Some(Seller)
    case _ => None
  }

  /** The tiers the roles stand for, one entry per role held. */
  function TiersHeld(roles: seq<RoleName>): seq<Tier> {
    if roles == [] then []
    else
      var rest := TiersHeld(roles[..|roles| - 1]);
      var t := TierOf(roles[|roles| - 1]);
      if t.Some? then rest + [t.value] else rest
  }

  /** The tier of a member; roles that could not be read are a conflict. */
  function MemberTier(roles: Option<seq<RoleName>>): Tier {
    if roles.None? || (exists r :: r in roles.value && IsLegacy(r)) then TierConflict
    else
      var held := TiersHeld(roles.value);
      if |held| > 1 then TierConflict else if |held| == 1 then held[0] else TierNone
  }

  predicate Restricted(roles: seq<RoleName>) {
    exists r :: r in roles && IsRestriction(r)
  }

  /** MemberTier as the code computes it, one role after the other. */
  method ComputeMemberTier(roles: Option<seq<RoleName>>) returns (tier: Tier)
    ensures tier == MemberTier(roles)
  {
    if roles.None? {
      return TierConflict;
    }
    var tiers: seq<Tier> := [];
    var names := roles.value;
    for i := 0 to |names|
      invariant forall j :: 0 <= j < i ==> !IsLegacy(names[j])
      invariant tiers == TiersHeld(names[..i])
    {
      if IsLegacy(names[i]) {
        return TierConflict;
      }
      assert names[..i + 1][..i] == names[..i];
      var t := TierOf(names[i]);
      if t.Some? {
        tiers := tiers + [t.value];
      }
    }
    assert names[..|names|] == names;
    if |tiers| > 1 {
      return TierConflict;
    }
    if |tiers| == 1 {
      return tiers[0];
    }
    return TierNone;
  }

  function Count(roles: seq<RoleName>, r: RoleName): nat {
    multiset(roles)[r]
  }

  lemma {:induction false} TiersHeldCounts(roles: seq<RoleName>)
    ensures |TiersHeld(roles)| == Count(roles, User) + Count(roles, Buyer) + Count(roles, Seller)
    ensures forall t :: t in TiersHeld(roles) <==> RoleOf(t).Some? && RoleOf(t).value in roles
  {
    if roles != [] {
      var front, last := roles[..|roles| - 1], roles[|roles| - 1];
      TiersHeldCounts(front);
      assert roles == front + [last];
      assert multiset(roles) == multiset(front) + multiset{last};
    }
  }

  /** Definite tiers, by counting: no legacy role, one copy of the tier's role and none of the others. */
  lemma MemberTierCounts(roles: seq<RoleName>, t: Tier)
    ensures RoleOf(t).Some? ==>
              (MemberTier(Some(roles)) == t <==>
                && (forall r :: r in roles ==> !IsLegacy(r))
                && RoleOf(t).value in roles
                && Count(roles, User) + Count(roles, Buyer) + Count(roles, Seller) == 1)
    ensures MemberTier(Some(roles)) == TierNone <==>
              forall r :: r in roles ==> !IsLegacy(r) && TierOf(r).None?
  {
    TiersHeldCounts(roles);
    var held := TiersHeld(roles);
    if |held| == 1 {
      assert held[0] in held;
    }
    assert forall r :: r in roles <==> Count(roles, r) > 0;
    assert User in roles ==> TierOf(User).Some?;
    assert Buyer in roles ==> TierOf(Buyer).Some?;
    assert Seller in roles ==> TierOf(Seller).Some?;
    forall r | r in roles && TierOf(r).Some?
      ensures held != []
    {
      assert TierOf(r).value in held;
    }
  }

  const TIER_ROLES: set<RoleName> := {User, Buyer, Seller}

  /** Two roles of one name are a conflict too. */
  lemma DuplicateRoleConflicts(roles: seq<RoleName>, r: RoleName)
    requires r in TIER_ROLES && Count(roles, r) > 1
    ensures MemberTier(Some(roles)) == TierConflict
  {
    TiersHeldCounts(roles);
  }

  predicate EligibleTicketApplicant(ticketType: TicketType, roles: Option<seq<RoleName>>) {
    if ticketType !in {Withdraw, SellerVerification, Campaign, Affiliate} then true
    else if roles.Some? && Restricted(roles.value) then false
    else
      var tier := MemberTier(roles);
      if ticketType == Withdraw then tier == TierSeller
      else if ticketType == SellerVerification then tier == TierBuyer
      else tier in {TierBuyer, TierSeller}
  }

  /** The member roles that stand in the way of a tier. */
  function Rivals(target: Tier): seq<RoleName> {
    match target
    case TierUser => [Buyer, Seller]
    case TierBuyer => [User, Seller]
    case TierSeller => [User, Buyer]
    case _ => []
  }

  /** ExclusiveGrant: which role to add and which to remove, each as often as it is held. */
  method ExclusiveGrant(current: seq<RoleName>, target: Tier)
    returns (add: Option<RoleName>, remove: seq<RoleName>)
    ensures add == match target
                   case TierUser => Some(User) case TierBuyer => Some(Buyer) case TierSeller => Some(Seller)
                   case _ => None
    ensures forall r :: r in remove <==> add.Some? && r in {User, Buyer, Seller} && add != Some(r) && r in current
    ensures forall r :: r in remove ==> multiset(remove)[r] == multiset(current)[r]
  {
    add := RoleOf(target);
    remove := [];
    if add.None? {
      return;
    }
    var rivals := Rivals(target);
    for k := 0 to |rivals|
      invariant forall r :: r in remove <==> r in rivals[..k] && r in current
      invariant forall r :: r in remove ==> Count(remove, r) == Count(current, r)
    {
      var name := rivals[k];
      ghost var before := remove;
      assert rivals[..k + 1] == rivals[..k] + [name];
      assert name !in rivals[..k];
      for i := 0 to |current|
        invariant forall r :: r in before || (r == name && name in current[..i]) <==> r in remove
        invariant forall r :: r != name ==> Count(remove, r) == Count(before, r)
        invariant Count(remove, name) == Count(current[..i], name)
      {
        assert current[..i + 1] == current[..i] + [current[i]];
        if current[i] == name {
          remove := remove + [name];
        }
      }
      assert current[..|current|] == current;
    }
    assert rivals[..|rivals|] == rivals;
  }

  function Without(roles: seq<RoleName>, gone: set<RoleName>): (r: seq<RoleName>)
    ensures forall x :: x in r <==> x in roles && x !in gone
    ensures forall x :: x !in gone ==> Count(r, x) == Count(roles, x)
  {
    if roles == [] then []
    else
      var front, last := roles[..|roles| - 1], roles[|roles| - 1];
      assert roles == front + [last];
      if last in gone then Without(front, gone) else Without(front, gone) + [last]
  }

  /** exclusiveTier on the guild: rival roles are taken away where the guild lets it (the role exists
      once under its name and the removal succeeds), then the role of the tier is added. A removal that
      fails is ignored; a grant that fails is reported. */
  function ExclusiveTier(roles: seq<RoleName>, target: Tier, works: set<RoleName>): (seq<RoleName>, bool) {
    var add := RoleOf(target);
    if add.None? then (roles, false)
    else
      var left := Without(roles, (set r | r in Rivals(target)) * works);
      if add.value !in works then (left, false)
      else if add.value in left then (left, true)
      else (left + [add.value], true)
  }

  lemma GrantCounts(roles: seq<RoleName>, target: Tier, works: set<RoleName>)
    requires forall r :: r in works ==> Count(roles, r) <= 1
    requires RoleOf(target).Some?
    ensures var add, after := RoleOf(target).value, ExclusiveTier(roles, target, works).0;
            && Count(after, add) == (if add in works then 1 else Count(roles, add))
            && (forall r :: r in Rivals(target) ==> Count(after, r) == if r in works then 0 else Count(roles, r))
            && (forall r :: r != add && r !in Rivals(target) ==> Count(after, r) == Count(roles, r))
  {
    var add := RoleOf(target).value;
    var gone := (set r | r in Rivals(target)) * works;
    var left := Without(roles, gone);
    var after := ExclusiveTier(roles, target, works).0;
    assert after == if add !in works || add in left then left else left + [add];
    assert add !in Rivals(target);
    forall r | r in Rivals(target)
      ensures Count(after, r) == if r in works then 0 else Count(roles, r)
    {
      assert Count(after, r) == Count(left, r);
      assert r in gone ==> r !in left;
    }
  }

  lemma NoConflictMeansFew(roles: seq<RoleName>)
    requires MemberTier(Some(roles)) != TierConflict
    ensures forall r :: r in roles ==> !IsLegacy(r)
    ensures forall r :: r in TIER_ROLES ==> Count(roles, r) <= 1
  {
    TiersHeldCounts(roles);
  }

  lemma MemberTierIsDefinite(roles: seq<RoleName>)
    ensures MemberTier(Some(roles)) in {TierNone, TierConflict} || RoleOf(MemberTier(Some(roles))).Some?
  {
    TiersHeldCounts(roles);
    var held := TiersHeld(roles);
    if |held| == 1 {
      assert held[0] in held;
    }
  }

  lemma Held(roles: seq<RoleName>, r: RoleName)
    ensures Count(roles, r) > 0 <==> r in roles
  {
  }

  /** How many member roles are held. */
  function Sum(roles: seq<RoleName>): nat {
    Count(roles, User) + Count(roles, Buyer) + Count(roles, Seller)
  }

  ghost predicate HasLegacy(roles: seq<RoleName>) {
    exists r :: r in roles && IsLegacy(r)
  }

  /** The tier in terms of the number of member roles. */
  lemma TierBySum(roles: seq<RoleName>, target: Tier)
    requires RoleOf(target).Some?
    ensures MemberTier(Some(roles)) == TierConflict <==> Sum(roles) > 1 || HasLegacy(roles)
    ensures MemberTier(Some(roles)) == target
            <==> Sum(roles) == 1 && Count(roles, RoleOf(target).value) == 1 && !HasLegacy(roles)
  {
    TiersHeldCounts(roles);
    MemberTierCounts(roles, target);
    var held := TiersHeld(roles);
    if |held| == 1 {
      assert held[0] in held;
    }
  }

  lemma NoneBySum(roles: seq<RoleName>)
    ensures MemberTier(Some(roles)) == TierNone <==> Sum(roles) == 0 && !HasLegacy(roles)
  {
    TiersHeldCounts(roles);
    var held := TiersHeld(roles);
    if |held| == 1 {
      assert held[0] in held;
    }
  }

  lemma GrantsTouchTiers(target: Tier, r: RoleName)
    requires RoleOf(target).Some? && (IsLegacy(r) || IsRestriction(r))
    ensures r != RoleOf(target).value && r !in Rivals(target)
  {
  }

  /** Legacy and restriction roles are neither granted nor removed. */
  lemma LegacyStays(roles: seq<RoleName>, target: Tier, works: set<RoleName>)
    requires RoleOf(target).Some? && forall r :: r in works ==> Count(roles, r) <= 1
    ensures var after := ExclusiveTier(roles, target, works).0;
            HasLegacy(after) == HasLegacy(roles) && Restricted(after) == Restricted(roles)
  {
    GrantCounts(roles, target, works);
    hide ExclusiveTier, Count, Rivals, RoleOf, IsLegacy, IsRestriction;
    var after := ExclusiveTier(roles, target, works).0;
    forall r | IsLegacy(r) || IsRestriction(r)
      ensures r in after <==> r in roles
    {
      GrantsTouchTiers(target, r);
      Held(after, r);
      Held(roles, r);
    }
  }

  /** The two member roles other than that of the tier. */
  lemma RivalsAreTheRest(target: Tier, roles: seq<RoleName>)
    requires RoleOf(target).Some?
    ensures |Rivals(target)| == 2
    ensures Sum(roles)
         == Count(roles, RoleOf(target).value) + Count(roles, Rivals(target)[0]) + Count(roles, Rivals(target)[1])
  {
  }

  /** A grant, reported as done or not, leaves exactly the tier granted if and only if no legacy role is held,
      every rival role held could be taken away, and the role could be added or was held once already. */
  lemma GrantIsExclusive(roles: seq<RoleName>, target: Tier, works: set<RoleName>)
    requires RoleOf(target).Some? && forall r :: r in works ==> Count(roles, r) <= 1
    ensures MemberTier(Some(ExclusiveTier(roles, target, works).0)) == target
            <==> && (forall r :: r in roles ==> !IsLegacy(r) && (r in Rivals(target) ==> r in works))
                 && (RoleOf(target).value in works || Count(roles, RoleOf(target).value) == 1)
  {
    var after := ExclusiveTier(roles, target, works).0;
    GrantCounts(roles, target, works);
    LegacyStays(roles, target, works);
    RivalsAreTheRest(target, after);
    TierBySum(after, target);
    var a, b := Rivals(target)[0], Rivals(target)[1];
    RivalPair(target, a, b);
    Held(roles, a);
    Held(roles, b);
    hide MemberTier, ExclusiveTier, IsLegacy, RoleOf, Rivals, Count, Sum;
    assert MemberTier(Some(after)) == target ==> Count(after, a) == 0 && Count(after, b) == 0;
  }

  lemma RivalPair(target: Tier, a: RoleName, b: RoleName)
    requires RoleOf(target).Some? && |Rivals(target)| == 2 && a == Rivals(target)[0] && b == Rivals(target)[1]
    ensures forall r :: r in Rivals(target) <==> r == a || r == b
    ensures a != b && a != RoleOf(target).value && b != RoleOf(target).value
  {
    assert Rivals(target) == [a, b];
  }

  // Grants to a member without a conflict

  function Rank(t: Tier): int {
    match t
    case TierNone => 0 case TierUser => 1 case TierBuyer => 2 case TierSeller => 3 case TierConflict => -1
  }

  /** Every rival role held comes off exactly when the role of the tier goes on, and is then no higher. */
  ghost predicate Clean(roles: seq<RoleName>, target: Tier, works: set<RoleName>) {
    RoleOf(target).Some? &&
    forall r :: r in roles && r in Rivals(target) ==>
      && (r in works <==> RoleOf(target).value in works)
      && (r in works ==> Rank(MemberTier(Some(roles))) <= Rank(target))
  }

  ghost predicate Keeps(before: seq<RoleName>, after: seq<RoleName>) {
    MemberTier(Some(after)) != TierConflict && Rank(MemberTier(Some(before))) <= Rank(MemberTier(Some(after)))
  }

  lemma FewWorks(roles: seq<RoleName>, works: set<RoleName>)
    requires MemberTier(Some(roles)) != TierConflict
    ensures forall r :: r in works * TIER_ROLES ==> Count(roles, r) <= 1
  {
    NoConflictMeansFew(roles);
  }

  /** Only the member roles among those that work matter. */
  lemma WorksOnTiers(roles: seq<RoleName>, target: Tier, works: set<RoleName>)
    requires RoleOf(target).Some?
    ensures ExclusiveTier(roles, target, works) == ExclusiveTier(roles, target, works * TIER_ROLES)
    ensures Clean(roles, target, works) <==> Clean(roles, target, works * TIER_ROLES)
  {
    assert (set r | r in Rivals(target)) * works == (set r | r in Rivals(target)) * (works * TIER_ROLES);
  }

  lemma OtherTier(target: Tier, before: Tier, a: RoleName, b: RoleName)
    requires RoleOf(target).Some? && forall r :: r in Rivals(target) <==> r == a || r == b
    ensures before == target || RoleOf(before).None? || RoleOf(before) == Some(a) || RoleOf(before) == Some(b)
    ensures RoleOf(target).value in TIER_ROLES && a in TIER_ROLES && b in TIER_ROLES
  {
    assert a in Rivals(target) && b in Rivals(target);
    assert before != target && RoleOf(before).Some? ==> RoleOf(before).value in Rivals(target);
  }

  lemma TierAfterTierGrant(roles: seq<RoleName>, target: Tier, works: set<RoleName>)
    requires MemberTier(Some(roles)) != TierConflict && RoleOf(target).Some? && works <= TIER_ROLES
    ensures var before, after := MemberTier(Some(roles)), MemberTier(Some(ExclusiveTier(roles, target, works).0));
            if before == target then after == target
            else if before == TierNone then after == (if RoleOf(target).value in works then target else TierNone)
            else
              && RoleOf(before).Some? && RoleOf(before).value in Rivals(target)
              && after == (if RoleOf(before).value in works
                           then if RoleOf(target).value in works then target else TierNone
                           else if RoleOf(target).value in works then TierConflict else before)
  {
    FewWorks(roles, works);
    assert works * TIER_ROLES == works;
    var before, after := MemberTier(Some(roles)), ExclusiveTier(roles, target, works).0;
    GrantCounts(roles, target, works);
    LegacyStays(roles, target, works);
    MemberTierIsDefinite(roles);
    RivalsAreTheRest(target, roles);
    RivalsAreTheRest(target, after);
    TierBySum(roles, target);
    TierBySum(after, target);
    NoneBySum(roles);
    NoneBySum(after);
    if before != TierNone {
      TierBySum(roles, before);
      TierBySum(after, before);
    }
    var a, b := Rivals(target)[0], Rivals(target)[1];
    RivalPair(target, a, b);
    OtherTier(target, before, a, b);
    hide MemberTier, ExclusiveTier, HasLegacy, Sum, Count, Rivals, RoleOf;
  }

  /** What a member without a conflict holds after a grant. */
  lemma TierAfterGrant(roles: seq<RoleName>, target: Tier, works: set<RoleName>)
    requires MemberTier(Some(roles)) != TierConflict && RoleOf(target).Some?
    ensures var before, after := MemberTier(Some(roles)), MemberTier(Some(ExclusiveTier(roles, target, works).0));
            if before == target then after == target
            else if before == TierNone then after == (if RoleOf(target).value in works then target else TierNone)
            else
              && RoleOf(before).Some? && RoleOf(before).value in Rivals(target)
              && after == (if RoleOf(before).value in works
                           then if RoleOf(target).value in works then target else TierNone
                           else if RoleOf(target).value in works then TierConflict else before)
  {
    WorksOnTiers(roles, target, works);
    TierAfterTierGrant(roles, target, works * TIER_ROLES);
    InTiers(target);
    InTiers(MemberTier(Some(roles)));
    hide MemberTier, ExclusiveTier, Rivals, RoleOf;
  }

  lemma InTiers(t: Tier)
    ensures RoleOf(t).Some? ==> RoleOf(t).value in TIER_ROLES
  {
  }

  lemma RivalsHeld(roles: seq<RoleName>, target: Tier)
    requires MemberTier(Some(roles)) != TierConflict && RoleOf(target).Some?
    ensures forall r :: r in roles && r in Rivals(target)
              <==> r in Rivals(target) && RoleOf(MemberTier(Some(roles))) == Some(r)
  {
    MemberTierIsDefinite(roles);
    TiersHeldCounts(roles);
    NoConflictMeansFew(roles);
    var t := MemberTier(Some(roles));
    if t != TierNone {
      MemberTierCounts(roles, t);
    } else {
      MemberTierCounts(roles, TierUser);
    }
    Held(roles, User);
    Held(roles, Buyer);
    Held(roles, Seller);
    hide MemberTier, Count, TiersHeld, IsLegacy;
  }

  /** A grant to a member without a conflict makes none and lowers no tier if and only if it is clean. */
  lemma GrantKeepsExactly(roles: seq<RoleName>, target: Tier, works: set<RoleName>)
    requires MemberTier(Some(roles)) != TierConflict && RoleOf(target).Some?
    ensures Keeps(roles, ExclusiveTier(roles, target, works).0) <==> Clean(roles, target, works)
  {
    TierAfterGrant(roles, target, works);
    RivalsHeld(roles, target);
    TargetIsNoRival(target);
    hide MemberTier, ExclusiveTier, Rivals;
    var before := MemberTier(Some(roles));
    if before != target && before != TierNone {
      assert RoleOf(before).value in roles && RoleOf(before).value in Rivals(target);
    }
  }

  lemma TargetIsNoRival(target: Tier)
    requires RoleOf(target).Some?
    ensures RoleOf(target).value !in Rivals(target)
  {
  }

  // Decisions

  datatype Verification = Refuse | Already | Misconfigured | Verify(removeUser: bool, flagYoung: bool)

  const YOUNG_ACCOUNT_DAYS := 7

  function DecideVerification(roles: Option<seq<RoleName>>, ageDays: int, exists_: bool, assignable: bool)
    : Verification
  {
    if roles.None? then Refuse
    else if Suspended in roles.value || Blacklisted in roles.value then Refuse
    else if UnderReview in roles.value then Refuse
    else if MemberTier(roles) == TierConflict then Refuse
    else if Buyer in roles.value || Seller in roles.value then Already
    else if !exists_ || !assignable then Misconfigured
    else Verify(User in roles.value, ageDays < YOUNG_ACCOUNT_DAYS)
  }

  predicate DecideSellerApproval(roles: Option<seq<RoleName>>) {
    !(roles.Some? && Restricted(roles.value)) && MemberTier(roles) in {TierSeller, TierBuyer}
  }

  predicate IsTicketAdmin(memberId: string, ownerId: string, isBot: bool, hasAdministrator: bool) {
    memberId != "" && !isBot && (memberId == ownerId || hasAdministrator)
  }

  /** Only that member role, once, and no role of the old scheme. */
  ghost predicate HoldsOnly(roles: seq<RoleName>, r: RoleName) {
    && multiset(roles)[r] == 1
    && (forall other :: other in {User, Buyer, Seller} && other != r ==> other !in roles)
    && forall other :: other in {NewMember, VerifiedSeller, ProvisionalSeller, VerifiedBuyer} ==> other !in roles
  }

  ghost predicate Unrestricted(roles: seq<RoleName>) {
    UnderReview !in roles && Suspended !in roles && Blacklisted !in roles
  }

  lemma TierExactly(roles: seq<RoleName>)
    ensures MemberTier(Some(roles)) == TierUser <==> HoldsOnly(roles, User)
    ensures MemberTier(Some(roles)) == TierBuyer <==> HoldsOnly(roles, Buyer)
    ensures MemberTier(Some(roles)) == TierSeller <==> HoldsOnly(roles, Seller)
    ensures Restricted(roles) <==> !Unrestricted(roles)
  {
    MemberTierCounts(roles, TierUser);
    MemberTierCounts(roles, TierBuyer);
    MemberTierCounts(roles, TierSeller);
    forall r
      ensures Count(roles, r) > 0 <==> r in roles
    {
      Held(roles, r);
    }
    hide MemberTier;
  }

  /** Which tickets a member may open: a withdrawal as a Seller, a seller verification as a Buyer, a campaign or an
      affiliate ticket as either, never under a restriction; all others anyone. */
  lemma EligibleExactly(ticketType: TicketType, roles: Option<seq<RoleName>>)
    ensures EligibleTicketApplicant(ticketType, roles) <==>
              match ticketType
              case Withdraw => roles.Some? && Unrestricted(roles.value) && HoldsOnly(roles.value, Seller)
              case SellerVerification => roles.Some? && Unrestricted(roles.value) && HoldsOnly(roles.value, Buyer)
              case Campaign | Affiliate =>
                && roles.Some? && Unrestricted(roles.value)
                && (HoldsOnly(roles.value, Buyer) || HoldsOnly(roles.value, Seller))
              case _ => true
  {
    if roles.Some? {
      TierExactly(roles.value);
    }
    hide HoldsOnly, Restricted, Unrestricted;
  }

  /** Who is approved as a seller: a Buyer, or a Seller again, without a restriction. */
  lemma SellerApprovalExactly(roles: Option<seq<RoleName>>)
    ensures DecideSellerApproval(roles) <==>
              && roles.Some? && Unrestricted(roles.value)
              && (HoldsOnly(roles.value, Buyer) || HoldsOnly(roles.value, Seller))
  {
    if roles.Some? {
      TierExactly(roles.value);
    }
    hide HoldsOnly, Restricted, Unrestricted;
  }

  /** What a press of the verify button does: a Buyer or Seller is verified already, a member without a tier or with
      the User role is verified, any other combination, or any restriction, is refused. */
  lemma VerificationExactly(roles: Option<seq<RoleName>>, ageDays: int, exists_: bool, assignable: bool)
    ensures var d := DecideVerification(roles, ageDays, exists_, assignable);
            var clear := && roles.Some? && Unrestricted(roles.value)
                         && forall r :: r in {NewMember, VerifiedSeller, ProvisionalSeller, VerifiedBuyer} ==>
                              r !in roles.value;
            && (d.Already? <==> clear && (HoldsOnly(roles.value, Buyer) || HoldsOnly(roles.value, Seller)))
            && (d.Verify? || d.Misconfigured? <==>
                clear && (HoldsOnly(roles.value, User) || forall r :: r in {User, Buyer, Seller} ==> r !in roles.value))
            && (d.Verify? ==> exists_ && assignable && d.removeUser == (User in roles.value)
                              && d.flagYoung == (ageDays < 7))
            && (d.Misconfigured? ==> !exists_ || !assignable)
  {
    if roles.Some? {
      TierExactly(roles.value);
      NoTierExactly(roles.value);
      MemberTierIsDefinite(roles.value);
      assert Buyer in roles.value ==> !HoldsOnly(roles.value, User);
      assert Seller in roles.value ==> !HoldsOnly(roles.value, User);
    }
    hide MemberTier;
  }

  lemma NoTierExactly(roles: seq<RoleName>)
    ensures MemberTier(Some(roles)) == TierNone
            <==> && (forall r :: r in {NewMember, VerifiedSeller, ProvisionalSeller, VerifiedBuyer} ==> r !in roles)
                 && forall r :: r in {User, Buyer, Seller} ==> r !in roles
  {
    MemberTierCounts(roles, TierUser);
    assert User in roles ==> TierOf(User).Some?;
    assert Buyer in roles ==> TierOf(Buyer).Some?;
    assert Seller in roles ==> TierOf(Seller).Some?;
  }

  // Runs of membership actions on one member. Any role change can fail: the role may be missing or exist
  // twice, or the guild refuse it.

  /** works names the roles whose changes succeed; a picked role changes or not. */
  datatype Action =
    | PressVerify(ageDays: int, works: set<RoleName>)
    | SellerApproved(works: set<RoleName>)
    | PickRole(name: string, changes: bool)

  /** The tier an action grants, if it grants one. */
  function Granted(roles: seq<RoleName>, a: Action): Option<Tier> {
    match a
    case PressVerify(age, _) =>
      if DecideVerification(Some(roles), age, true, true).Verify? then Some(TierBuyer) else None
    case SellerApproved(_) => if DecideSellerApproval(Some(roles)) then Some(TierSeller) else None
    case PickRole(_, _) => None
  }

  function Act(roles: seq<RoleName>, a: Action): seq<RoleName> {
    match a
    case PickRole(name, changes) =>
      if !changes then roles
      else if OtherRole(name) in roles then Without(roles, {OtherRole(name)})
      else roles + [OtherRole(name)]
    case _ =>
      var tier := Granted(roles, a);
      if tier.Some? then ExclusiveTier(roles, tier.value, a.works).0 else roles
  }

  function ActAll(roles: seq<RoleName>, actions: seq<Action>): seq<RoleName> {
    if actions == [] then roles
    else Act(ActAll(roles, actions[..|actions| - 1]), actions[|actions| - 1])
  }

  /** Roles of the same member and legacy names stand for the same tier. */
  lemma TierByCounts(a: seq<RoleName>, b: seq<RoleName>)
    requires forall r :: r in TIER_ROLES ==> Count(a, r) == Count(b, r)
    requires HasLegacy(a) == HasLegacy(b)
    ensures MemberTier(Some(a)) == MemberTier(Some(b))
  {
    MemberTierIsDefinite(a);
    MemberTierIsDefinite(b);
    NoneBySum(a);
    NoneBySum(b);
    TierBySum(a, TierUser);
    TierBySum(a, TierBuyer);
    TierBySum(a, TierSeller);
    TierBySum(b, TierUser);
    TierBySum(b, TierBuyer);
    TierBySum(b, TierSeller);
    hide MemberTier, Count, HasLegacy;
  }

  lemma PickKeepsTier(roles: seq<RoleName>, name: string, changes: bool)
    ensures MemberTier(Some(Act(roles, PickRole(name, changes)))) == MemberTier(Some(roles))
    ensures Restricted(Act(roles, PickRole(name, changes))) == Restricted(roles)
  {
    var after := Act(roles, PickRole(name, changes));
    assert forall r :: r != OtherRole(name) ==> (r in after <==> r in roles);
    assert forall r :: r in TIER_ROLES ==> Count(after, r) == Count(roles, r);
    TierByCounts(after, roles);
  }

  /** An action that grants starts from a member without restriction and below or at the tier granted. */
  lemma GrantedStarts(roles: seq<RoleName>, a: Action)
    requires Granted(roles, a).Some?
    ensures MemberTier(Some(roles)) != TierConflict && !Restricted(roles)
    ensures RoleOf(Granted(roles, a).value).Some? && Rank(MemberTier(Some(roles))) <= Rank(Granted(roles, a).value)
  {
    MemberTierIsDefinite(roles);
    if a.PressVerify? {
      MemberTierCounts(roles, TierBuyer);
      MemberTierCounts(roles, TierSeller);
    }
  }

  /** A grant leaves restrictions alone, whatever works. */
  lemma GrantKeepsRestriction(roles: seq<RoleName>, target: Tier, works: set<RoleName>)
    requires MemberTier(Some(roles)) != TierConflict && RoleOf(target).Some?
    ensures Restricted(ExclusiveTier(roles, target, works).0) == Restricted(roles)
  {
    WorksOnTiers(roles, target, works);
    FewWorks(roles, works);
    LegacyStays(roles, target, works * TIER_ROLES);
    hide ExclusiveTier, MemberTier;
  }

  /** The action grants nothing, or its grant is clean: the role of the tier goes on exactly when the rival
      role held comes off. */
  ghost predicate ActsCleanly(roles: seq<RoleName>, a: Action) {
    Granted(roles, a).Some? ==>
      forall r :: r in roles && r in Rivals(Granted(roles, a).value) ==>
        (r in a.works <==> RoleOf(Granted(roles, a).value).value in a.works)
  }

  /** One action makes no conflict and lowers no tier if and only if it acts cleanly; it never changes the tier
      of a restricted member, nor any restriction. */
  lemma ActKeepsTiers(roles: seq<RoleName>, a: Action)
    ensures MemberTier(Some(roles)) != TierConflict ==> (Keeps(roles, Act(roles, a)) <==> ActsCleanly(roles, a))
    ensures Restricted(roles) ==> MemberTier(Some(Act(roles, a))) == MemberTier(Some(roles))
    ensures Restricted(Act(roles, a)) == Restricted(roles)
  {
    var tier := Granted(roles, a);
    if a.PickRole? {
      PickKeepsTier(roles, a.name, a.changes);
    } else if tier.Some? {
      GrantedStarts(roles, a);
      GrantKeepsExactly(roles, tier.value, a.works);
      GrantKeepsRestriction(roles, tier.value, a.works);
      hide MemberTier, ExclusiveTier, Granted, Rivals, Restricted;
    }
  }

  /** A restricted member keeps the tier through any run of actions, whatever works. */
  lemma {:induction false} RestrictedNeverPromoted(roles: seq<RoleName>, actions: seq<Action>)
    ensures Restricted(ActAll(roles, actions)) == Restricted(roles)
    ensures Restricted(roles) ==> MemberTier(Some(ActAll(roles, actions))) == MemberTier(Some(roles))
  {
    if actions != [] {
      var front := actions[..|actions| - 1];
      RestrictedNeverPromoted(roles, front);
      ActKeepsTiers(ActAll(roles, front), actions[|actions| - 1]);
    }
    hide MemberTier, Restricted, Act;
  }

  ghost predicate KeepsAt(roles: seq<RoleName>, actions: seq<Action>, i: nat)
    requires i < |actions|
  {
    Keeps(ActAll(roles, actions[..i]), ActAll(roles, actions[..i + 1]))
  }

  ghost predicate CleanAt(roles: seq<RoleName>, actions: seq<Action>, i: nat)
    requires i < |actions|
  {
    ActsCleanly(ActAll(roles, actions[..i]), actions[i])
  }

  ghost predicate FreeAt(roles: seq<RoleName>, actions: seq<Action>, i: nat)
    requires i <= |actions|
  {
    MemberTier(Some(ActAll(roles, actions[..i]))) != TierConflict
  }

  lemma FreeAtStart(roles: seq<RoleName>, actions: seq<Action>)
    ensures FreeAt(roles, actions, 0) <==> MemberTier(Some(roles)) != TierConflict
  {
    assert actions[..0] == [];
  }

  lemma KeepsNext(roles: seq<RoleName>, actions: seq<Action>, i: nat)
    requires i < |actions| && FreeAt(roles, actions, i)
    ensures KeepsAt(roles, actions, i) <==> CleanAt(roles, actions, i)
    ensures KeepsAt(roles, actions, i) ==> FreeAt(roles, actions, i + 1)
  {
    assert actions[..i + 1][..i] == actions[..i];
    ActKeepsTiers(ActAll(roles, actions[..i]), actions[i]);
    hide MemberTier, Act, ActsCleanly;
  }

  /** Over a run of actions on a member who starts without a conflict, no action ever makes a conflict or
      lowers the tier if and only if every action acts cleanly. */
  lemma TiersKeptExactly(roles: seq<RoleName>, actions: seq<Action>)
    requires MemberTier(Some(roles)) != TierConflict
    ensures (forall i :: 0 <= i < |actions| ==> KeepsAt(roles, actions, i))
            <==> forall i :: 0 <= i < |actions| ==> CleanAt(roles, actions, i)
  {
    FreeAtStart(roles, actions);
    hide *;
    var n := 0;
    while n < |actions| && CleanAt(roles, actions, n)
      invariant n <= |actions| && FreeAt(roles, actions, n)
      invariant forall i :: 0 <= i < n ==> KeepsAt(roles, actions, i) && CleanAt(roles, actions, i)
    {
      KeepsNext(roles, actions, n);
      n := n + 1;
    }
    if n < |actions| {
      KeepsNext(roles, actions, n);
      assert !KeepsAt(roles, actions, n);
    }
  }

  /** When every change of a member role works, a member who starts without a conflict ends holding at most
      one member role, and with the tier kept or raised. */
  lemma {:induction false} TiersStayExclusive(roles: seq<RoleName>, actions: seq<Action>)
    requires MemberTier(Some(roles)) != TierConflict
    requires forall a :: a in actions && !a.PickRole? ==> TIER_ROLES <= a.works
    ensures var end := ActAll(roles, actions);
            && MemberTier(Some(end)) != TierConflict
            && Count(end, User) + Count(end, Buyer) + Count(end, Seller) <= 1
            && Rank(MemberTier(Some(roles))) <= Rank(MemberTier(Some(end)))
  {
    if actions != [] {
      var front, a := actions[..|actions| - 1], actions[|actions| - 1];
      TiersStayExclusive(roles, front);
      assert a in actions;
      AllWorksCleanly(ActAll(roles, front), a);
      ActKeepsTiers(ActAll(roles, front), a);
    }
    TiersHeldCounts(ActAll(roles, actions));
  }

  lemma AllWorksCleanly(roles: seq<RoleName>, a: Action)
    requires !a.PickRole? ==> TIER_ROLES <= a.works
    ensures ActsCleanly(roles, a)
  {
    if Granted(roles, a).Some? {
      GrantedStarts(roles, a);
      hide MemberTier, Granted;
    }
  }

  // What a grant that is not clean does

  /** The Buyer role comes off and the Seller role does not go on: the approved Buyer is left with no tier. */
  lemma FailedAddDemotes()
    ensures Granted([Buyer], SellerApproved({Buyer})) == Some(TierSeller)
    ensures Act([Buyer], SellerApproved({Buyer})) == []
    ensures MemberTier(Some([Buyer])) == TierBuyer && MemberTier(Some([])) == TierNone
  {
    SingleRole(Buyer, TierBuyer);
    assert Without([Buyer], {Buyer}) == [];
    assert (set r | r in Rivals(TierSeller)) * {Buyer} == {Buyer};
  }

  /** The Seller role goes on and the Buyer role does not come off: the member holds both, a conflict. */
  lemma FailedRemovalConflicts()
    ensures Act([Buyer], SellerApproved({Seller})) == [Buyer, Seller]
    ensures MemberTier(Some([Buyer])) == TierBuyer && MemberTier(Some([Buyer, Seller])) == TierConflict
  {
    SingleRole(Buyer, TierBuyer);
    assert (set r | r in Rivals(TierSeller)) * {Seller} == {};
    assert [Buyer][..0] == [] && Without([Buyer], {}) == [Buyer];
    TierBySum([Buyer, Seller], TierSeller);
    hide MemberTier;
  }

  lemma SingleRole(r: RoleName, t: Tier)
    requires RoleOf(t) == Some(r)
    ensures MemberTier(Some([r])) == t && !Restricted([r])
  {
    TierBySum([r], t);
    hide MemberTier;
  }
}
