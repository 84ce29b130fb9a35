/** When a ticket is created and what it then holds, field by field in terms of what was typed
    (modules/ticket/service.go, withdrawal.go). */
module Creation {
  import opened Wrappers
  import opened Text
  import opened Catalog
  import opened Validation
  import opened Records
  import opened Store
  import opened SequentialRuns
  import CardNumber
  import Decimal
  import Money
  import Roles
  import TicketId

  /** A finding of the screen. */
  ghost predicate Secret(lex: Lexicon, text: string) {
    CardNumber.HasCard(text, lex.wideDigit) || lex.otherFinding(text)
  }

  /** What was typed into a field, normalised. */
  ghost function Typed(data: map<string, string>, key: string): string {
    if key in data && data[key] != "" then NormalizeText(data[key]) else ""
  }

  /** The text that stands in for required fields left blank. */
  ghost function StandIn(data: map<string, string>): string {
    if Typed(data, "chronology") != "" then Typed(data, "chronology")
    else if Typed(data, "summary") != "" then Typed(data, "summary")
    else if Typed(data, "notes") != "" then Typed(data, "notes")
    else if Typed(data, "amount") != "" then Typed(data, "amount")
    else Typed(data, "product")
  }

  ghost function Given(data: map<string, string>): set<string> {
    set k | k in data && data[k] != ""
  }

  /** The fields of a ticket that is not a withdrawal. */
  ghost function FieldsOf(typ: TicketType, data: map<string, string>): map<string, string> {
    map k | k in Given(data) + (set r | r in Requires(typ)) + {"region"} ::
      if Typed(data, k) == "" && k in Requires(typ) && k != "region" then StandIn(data) else Typed(data, k)
  }

  ghost predicate RegionOk(data: map<string, string>) {
    Upper(TrimSpace(Typed(data, "region"))) in TicketId.REGIONS
  }

  ghost predicate Eligible(typ: TicketType, roles: Option<seq<Roles.RoleName>>) {
    match typ
    case Withdraw =>
      roles.Some? && Roles.Unrestricted(roles.value) && Roles.HoldsOnly(roles.value, Roles.RoleName.Seller)
    case SellerVerification =>
      roles.Some? && Roles.Unrestricted(roles.value) && Roles.HoldsOnly(roles.value, Roles.RoleName.Buyer)
    case Campaign | Affiliate =>
      && roles.Some? && Roles.Unrestricted(roles.value)
      && (Roles.HoldsOnly(roles.value, Roles.RoleName.Buyer) || Roles.HoldsOnly(roles.value, Roles.RoleName.Seller))
    case _ => true
  }

  // Filling in

  lemma FromAliasIs(data: map<string, string>)
    ensures FromAlias(data, ALIASES)
         == if Field(data, "chronology") != "" then Field(data, "chronology")
            else if Field(data, "summary") != "" then Field(data, "summary")
            else if Field(data, "notes") != "" then Field(data, "notes")
            else if Field(data, "amount") != "" then Field(data, "amount")
            else Field(data, "product")
  {
    var a4, a3, a2 := ["amount", "product"], ["notes", "amount", "product"], ["summary", "notes", "amount", "product"];
    assert FromAlias(data, []) == "";
    assert ["product"][1..] == [] && a4[1..] == ["product"] && a3[1..] == a4 && a2[1..] == a3 && ALIASES[1..] == a2;
    hide Field;
    assert FromAlias(data, ["product"]) == if Field(data, "product") != "" then Field(data, "product") else "";
    assert FromAlias(data, a4) == if Field(data, "amount") != "" then Field(data, "amount") else Field(data, "product");
    assert FromAlias(data, a3) == if Field(data, "notes") != "" then Field(data, "notes") else FromAlias(data, a4);
    assert FromAlias(data, a2) == if Field(data, "summary") != "" then Field(data, "summary") else FromAlias(data, a3);
  }

  /** Filling a blank field with the stand-in leaves the stand-in what it was. */
  lemma StandInStays(data: map<string, string>, key: string)
    requires Field(data, key) == ""
    ensures var text := FromAlias(data, ALIASES); FromAlias(data[key := text], ALIASES) == text
  {
    FromAliasIs(data);
    FromAliasIs(data[key := FromAlias(data, ALIASES)]);
  }

  lemma {:induction false} FilledIs(data: map<string, string>, keys: seq<string>, text: string)
    requires FromAlias(data, ALIASES) == text
    ensures var filled := FillRequired(data, keys);
            && (filled.Some? <==> forall k :: k in keys ==> k == "region" || Field(data, k) != "" || text != "")
            && (filled.Some? ==>
                && filled.value.Keys == data.Keys + (set k | k in keys && k != "region" && Field(data, k) == "")
                && forall k :: k in filled.value ==>
                     filled.value[k] == if k in keys && k != "region" && Field(data, k) == "" then text else data[k])
    decreases |keys|
  {
    hide FromAlias;
    if keys != [] {
      var k, rest := keys[0], keys[1..];
      assert keys == [k] + rest;
      if k == "region" || Field(data, k) != "" {
        FilledIs(data, rest, text);
      } else if text != "" {
        StandInStays(data, k);
        FilledIs(data[k := text], rest, text);
      }
    }
  }

  lemma TypedIsField(data: map<string, string>, key: string)
    ensures Field(CleanData(data), key) == Typed(data, key)
    ensures NormalizeText(Typed(data, key)) == Typed(data, key)
  {
    if key in data {
      NormalizeIdempotent(data[key]);
    }
    assert NormalizeText("") == "";
    hide NormalizeText;
  }

  /** The region is normalised once more, which changes nothing. */
  lemma WithRegion(data: map<string, string>, key: string)
    ensures var d := CleanData(data)["region" := NormalizeText(Field(CleanData(data), "region"))];
            && d.Keys == Given(data) + {"region"} && Field(d, key) == Typed(data, key)
            && (key in d ==> d[key] == Typed(data, key))
  {
    TypedIsField(data, key);
    TypedIsField(data, "region");
    hide NormalizeText;
  }

  lemma FieldsFrom(typ: TicketType, data: map<string, string>, d: map<string, string>)
    requires d.Keys == Given(data) + {"region"}
    requires forall k :: Field(d, k) == Typed(data, k) && (k in d ==> d[k] == Typed(data, k))
    requires FromAlias(d, ALIASES) == StandIn(data)
    ensures FillRequired(d, Requires(typ))
            == if forall k :: k in Requires(typ) ==> k == "region" || Typed(data, k) != "" || StandIn(data) != ""
               then Some(FieldsOf(typ, data)) else None
  {
    hide *;
    var text, filled, fields := StandIn(data), FillRequired(d, Requires(typ)), FieldsOf(typ, data);
    FilledIs(d, Requires(typ), text);
    FieldsAre(typ, data);
    TypedIsGiven(data);
    assert filled.Some? <==> forall k :: k in Requires(typ) ==> k == "region" || Typed(data, k) != "" || text != "";
    if filled.Some? {
      assert filled.value.Keys == fields.Keys;
      assert forall k :: k in fields ==> filled.value[k] == fields[k];
      assert filled.value == fields;
    }
  }

  lemma TypedIsGiven(data: map<string, string>)
    ensures forall k :: Typed(data, k) != "" ==> k in Given(data)
  {
  }

  lemma FieldsAre(typ: TicketType, data: map<string, string>)
    ensures forall k :: k in FieldsOf(typ, data) <==> k in Given(data) || k in Requires(typ) || k == "region"
    ensures forall k :: k in FieldsOf(typ, data) ==>
              FieldsOf(typ, data)[k]
              == if k in Requires(typ) && k != "region" && Typed(data, k) == "" then StandIn(data) else Typed(data, k)
  {
    hide Typed, StandIn, Requires, Given;
  }

  lemma FieldsFilled(typ: TicketType, data: map<string, string>)
    ensures var d := CleanData(data)["region" := NormalizeText(Field(CleanData(data), "region"))];
            FillRequired(d, Requires(typ))
            == if forall k :: k in Requires(typ) ==> k == "region" || Typed(data, k) != "" || StandIn(data) != ""
               then Some(FieldsOf(typ, data)) else None
  {
    hide *;
    var d := CleanData(data)["region" := NormalizeText(Field(CleanData(data), "region"))];
    forall k
      ensures Field(d, k) == Typed(data, k) && (k in d ==> d[k] == Typed(data, k))
    {
      WithRegion(data, k);
    }
    WithRegion(data, "region");
    FromAliasIs(d);
    StandInIs(data);
    FieldsFrom(typ, data, d);
  }

  lemma StandInIs(data: map<string, string>)
    ensures StandIn(data)
         == if Typed(data, "chronology") != "" then Typed(data, "chronology")
            else if Typed(data, "summary") != "" then Typed(data, "summary")
            else if Typed(data, "notes") != "" then Typed(data, "notes")
            else if Typed(data, "amount") != "" then Typed(data, "amount")
            else Typed(data, "product")
  {
    hide Typed;
  }

  // What is prepared

  ghost predicate Prepares(lex: Lexicon, actor: Actor, input: Input) {
    && !input.typ.UnknownType? && Eligible(input.typ, actor.roles) && RegionOk(input.data)
    && (forall k :: k in Requires(input.typ) ==> Typed(input.data, k) != "" || StandIn(input.data) != "")
    && forall k :: k in FieldsOf(input.typ, input.data) ==> !Secret(lex, FieldsOf(input.typ, input.data)[k])
  }

  lemma RegionTyped(data: map<string, string>)
    ensures var region := NormalizeText(Field(CleanData(data), "region"));
            region == Typed(data, "region") && (TicketId.ValidRegion(region) <==> RegionOk(data))
    ensures RegionOk(data) ==> Typed(data, "region") != ""
  {
    TypedIsField(data, "region");
    assert Upper(TrimSpace("")) == "";
    hide NormalizeText, Upper, TrimSpace;
  }

  lemma Screened(lex: Lexicon, data: map<string, string>)
    ensures AnySensitive(lex, data) <==> exists k :: k in data && Secret(lex, data[k])
  {
    assert forall k :: k in data ==> (Sensitive(lex, data[k]) <==> Secret(lex, data[k]));
  }

  /** A ticket other than a withdrawal is prepared if and only if its type is known, the member may open it, the
      region exists, every required field was filled in or can be by the stand-in, and no field holds a secret; it
      then holds what was typed, normalised, and the stand-in where a required field was left blank. */
  lemma PreparedExactly(lex: Lexicon, actor: Actor, input: Input)
    requires input.typ != Withdraw
    ensures DraftTicket(lex, actor, input).Ok? <==> Prepares(lex, actor, input)
    ensures DraftTicket(lex, actor, input).Ok? ==>
              && WorkflowForType(input.typ).Some?
              && DraftTicket(lex, actor, input).value
                 == Draft(WorkflowForType(input.typ).value, FieldsOf(input.typ, input.data), None)
  {
    Roles.EligibleExactly(input.typ, actor.roles);
    RegionTyped(input.data);
    FieldsFilled(input.typ, input.data);
    Screened(lex, FieldsOf(input.typ, input.data));
    hide Roles.EligibleTicketApplicant, CleanData, Field, FillRequired, Requires, FieldsOf, AnySensitive, Typed,
         StandIn, NormalizeText, Upper, TrimSpace, Secret, TicketId.ValidRegion, Roles.HoldsOnly, Roles.Unrestricted,
         ValidateWithdrawalInput;
  }

  // Withdrawals

  ghost predicate MethodOk(lex: Lexicon, m: string) {
    && m != "" && Utf8Len(m) <= 60 && lex.letter(m[0])
    && (forall i :: 0 <= i < |m| ==> lex.letter(m[i]) || m[i] in {' ', '.', '&', '(', ')', '/', '-'})
    && !exists i :: 0 <= i && i + 2 < |m| && m[i] == ':' && m[i + 1] == '/' && m[i + 2] == '/'
  }

  ghost predicate PreparesWithdrawal(lex: Lexicon, actor: Actor, input: Input) {
    var data := input.data;
    && Eligible(Withdraw, actor.roles) && RegionOk(data)
    && Given(data) + {"region"} == {"region", "transactionId", "amount", "currency", "method"}
    && (forall k :: k in Given(data) ==> !Secret(lex, Typed(data, k)))
    && Money.ParseAmount(Typed(data, "amount"), Typed(data, "currency")).Some?
    && ValidatePaymentReference(lex, Typed(data, "transactionId")).Ok?
    && MethodOk(lex, Typed(data, "method"))
  }

  lemma MethodExactly(lex: Lexicon, m: string)
    ensures MethodOk(lex, m) <==> m != "" && Utf8Len(m) <= METHOD_LIMIT && MethodPattern(lex, m) && !HasScheme(m)
  {
  }

  lemma TypedIsTrimmed(data: map<string, string>, key: string)
    ensures TrimSpace(Typed(data, key)) == Typed(data, key)
  {
    if key in data {
      NormalizeIdempotent(data[key]);
    }
    TrimSpaceTrims(Typed(data, key));
    hide NormalizeText, TrimSpace;
  }

  lemma UpperTwice(s: string)
    ensures Upper(Upper(s)) == Upper(s)
  {
  }

  lemma FormFields(data: map<string, string>)
    ensures var d := CleanData(data)["region" := NormalizeText(Field(CleanData(data), "region"))];
            && d.Keys == Given(data) + {"region"} && forall k :: k in d ==> d[k] == Typed(data, k)
  {
    var d := CleanData(data)["region" := NormalizeText(Field(CleanData(data), "region"))];
    WithRegion(data, "region");
    forall k | k in d
      ensures d[k] == Typed(data, k)
    {
      WithRegion(data, k);
    }
  }

  lemma FormExactly(lex: Lexicon, data: map<string, string>)
    requires RegionOk(data)
    requires Given(data) + {"region"} == {"region", "transactionId", "amount", "currency", "method"}
    requires !Secret(lex, Typed(data, "method"))
    ensures var amount := Money.ParseAmount(Typed(data, "amount"), Typed(data, "currency"));
            var sale := ValidatePaymentReference(lex, Typed(data, "transactionId"));
            var form := ValidateFields(lex, Typed(data, "region"), Typed(data, "amount"), Typed(data, "currency"),
                                       Typed(data, "transactionId"), Typed(data, "method"));
            && (form.Ok? <==> amount.Some? && sale.Ok? && MethodOk(lex, Typed(data, "method")))
            && (form.Ok? ==>
                form.value == (map["region" := Upper(TrimSpace(Typed(data, "region"))), "transactionId" := sale.value,
                                   "amount" := amount.value.display, "currency" := amount.value.currency,
                                   "method" := Typed(data, "method")],
                               Request(amount.value.minor, amount.value.currency, sale.value, Typed(data, "method"))))
  {
    TypedIsTrimmed(data, "method");
    MethodExactly(lex, Typed(data, "method"));
    RegionIsStable(Typed(data, "region"));
    hide ValidatePaymentReference, Money.ParseAmount, MethodPattern, HasScheme, MethodOk, Upper, TrimSpace, Typed,
         Utf8Len;
  }

  lemma RegionIsStable(region: string)
    ensures TicketId.ValidRegion(Upper(TrimSpace(region))) <==> Upper(TrimSpace(region)) in TicketId.REGIONS
  {
    TrimSpaceTrims(region);
    UpperKeepsEnds(TrimSpace(region));
    TrimSpaceTrims(Upper(TrimSpace(region)));
    UpperTwice(TrimSpace(region));
    hide Upper, TrimSpace;
  }

  /** A withdrawal is prepared if and only if a Seller without restriction typed exactly the five fields of the form,
      none with a secret, a known region, an amount that parses, a receipt and a payment method; the request and
      the stored form are then those. */
  lemma WithdrawalPreparedExactly(lex: Lexicon, actor: Actor, input: Input)
    requires input.typ == Withdraw
    ensures DraftTicket(lex, actor, input).Ok? <==> PreparesWithdrawal(lex, actor, input)
    ensures DraftTicket(lex, actor, input).Ok? ==>
              && ValidatePaymentReference(lex, Typed(input.data, "transactionId")).Ok?
              && Money.ParseAmount(Typed(input.data, "amount"), Typed(input.data, "currency")).Some?
              && var a := Money.ParseAmount(Typed(input.data, "amount"), Typed(input.data, "currency")).value;
                 var sale := ValidatePaymentReference(lex, Typed(input.data, "transactionId")).value;
                 var m := Typed(input.data, "method");
                 DraftTicket(lex, actor, input).value
                 == Draft(WithdrawalV1,
                          map["region" := Upper(TrimSpace(Typed(input.data, "region"))), "transactionId" := sale,
                              "amount" := a.display, "currency" := a.currency, "method" := m],
                          Some(Request(a.minor, a.currency, sale, m)))
  {
    hide *;
    var data := input.data;
    var d := CleanData(data)["region" := NormalizeText(Field(CleanData(data), "region"))];
    EligibleWithdrawal(actor.roles);
    RegionTyped(data);
    FormFields(data);
    Screened(lex, d);
    SecretRegion(lex, data, d);
    DraftOfWithdrawal(lex, actor, input);
    PreparesMeans(lex, actor, input);
    FormKeys();
    assert d.Keys == FORM_KEYS
        <==> Given(data) + {"region"} == {"region", "transactionId", "amount", "currency", "method"};
    if RegionOk(data) && d.Keys == FORM_KEYS && !AnySensitive(lex, d) {
      assert "method" in d;
      FormExactly(lex, data);
    }
  }

  lemma FormKeys()
    ensures FORM_KEYS == {"region", "transactionId", "amount", "currency", "method"}
  {
  }

  lemma EligibleWithdrawal(roles: Option<seq<Roles.RoleName>>)
    ensures Roles.EligibleTicketApplicant(Withdraw, roles) <==> Eligible(Withdraw, roles)
  {
    Roles.EligibleExactly(Withdraw, roles);
  }

  lemma PreparesMeans(lex: Lexicon, actor: Actor, input: Input)
    ensures PreparesWithdrawal(lex, actor, input) <==>
              var data := input.data;
              && Eligible(Withdraw, actor.roles) && RegionOk(data)
              && Given(data) + {"region"} == {"region", "transactionId", "amount", "currency", "method"}
              && (forall k :: k in Given(data) ==> !Secret(lex, Typed(data, k)))
              && Money.ParseAmount(Typed(data, "amount"), Typed(data, "currency")).Some?
              && ValidatePaymentReference(lex, Typed(data, "transactionId")).Ok?
              && MethodOk(lex, Typed(data, "method"))
  {
    hide Eligible, RegionOk, Given, Secret, Typed, Money.ParseAmount, ValidatePaymentReference, MethodOk;
  }

  lemma DraftOfWithdrawal(lex: Lexicon, actor: Actor, input: Input)
    requires input.typ == Withdraw
    ensures var region := NormalizeText(Field(CleanData(input.data), "region"));
            var d := CleanData(input.data)["region" := region];
            var draft := DraftTicket(lex, actor, input);
            if Roles.EligibleTicketApplicant(Withdraw, actor.roles) && TicketId.ValidRegion(region)
               && !AnySensitive(lex, d) && d.Keys == FORM_KEYS
            then
              var form := ValidateFields(lex, d["region"], d["amount"], d["currency"], d["transactionId"], d["method"]);
              && (draft.Ok? <==> form.Ok?)
              && (form.Ok? ==> draft.value == Draft(WithdrawalV1, form.value.0, Some(form.value.1)))
            else draft.Err?
  {
    hide Roles.EligibleTicketApplicant, TicketId.ValidRegion, AnySensitive, ValidateFields, CleanData, NormalizeText;
  }

  lemma SecretRegion(lex: Lexicon, data: map<string, string>, d: map<string, string>)
    requires d.Keys == Given(data) + {"region"} && forall k :: k in d ==> d[k] == Typed(data, k)
    ensures RegionOk(data) ==> "region" in Given(data)
    ensures RegionOk(data) ==>
              ((exists k :: k in d && Secret(lex, d[k]))
               <==> exists k :: k in Given(data) && Secret(lex, Typed(data, k)))
  {
    RegionTyped(data);
    hide Secret, RegionOk;
  }

  // What is created

  ghost predicate Drafts(lex: Lexicon, actor: Actor, input: Input) {
    if input.typ == Withdraw then PreparesWithdrawal(lex, actor, input) else Prepares(lex, actor, input)
  }

  lemma DraftedExactly(lex: Lexicon, actor: Actor, input: Input)
    ensures DraftTicket(lex, actor, input).Ok? <==> Drafts(lex, actor, input)
  {
    if input.typ == Withdraw {
      WithdrawalPreparedExactly(lex, actor, input);
    } else {
      PreparedExactly(lex, actor, input);
    }
    hide DraftTicket, PreparesWithdrawal, Prepares;
  }

  /** Fewer than three open tickets, none of the type. */
  ghost predicate HasRoom(s: Store, member: string, typ: TicketType) {
    var open := set id | id in s.tickets && s.tickets[id].openerId == member && s.tickets[id].status != Closed;
    |open| < 3 && forall id :: id in open ==> s.tickets[id].typ != typ
  }

  lemma RoomExactly(s: Store, member: string, typ: TicketType)
    requires Keyed(s)
    ensures ActiveLimit(ListByOpener(s, member), member, typ).None? <==> HasRoom(s, member, typ)
  {
    ActiveLimitIsQuota(s, member, typ);
    var open := set id | id in s.tickets && s.tickets[id].openerId == member && s.tickets[id].status != Closed;
    assert OpenIds(s, member) == open;
    hide ListByOpener, ActiveLimit, Keyed;
  }

  ghost predicate AnotherAdmin(actor: Actor) {
    exists admin :: admin in actor.availableAdmins && admin != "" && admin != actor.id
  }

  lemma AnotherAdminExactly(actor: Actor)
    ensures HasOtherAdmin(actor) <==> AnotherAdmin(actor)
  {
    assert forall i :: 0 <= i < |actor.availableAdmins| ==> actor.availableAdmins[i] in actor.availableAdmins;
  }

  /** The region of what is prepared is a region of the catalog, in upper case. */
  lemma DraftRegion(lex: Lexicon, actor: Actor, input: Input)
    requires DraftTicket(lex, actor, input).Ok?
    ensures TicketId.SafeRegion(Field(DraftTicket(lex, actor, input).value.data, "region"))
         == Upper(TrimSpace(Typed(input.data, "region")))
  {
    hide *;
    DraftedExactly(lex, actor, input);
    DraftsHaveRegion(lex, actor, input);
    var region := Typed(input.data, "region");
    SafeRegionOf(region);
    if input.typ == Withdraw {
      WithdrawalPreparedExactly(lex, actor, input);
      var d := DraftTicket(lex, actor, input).value.data;
      FieldIs(d, "region");
      UpperTrimTwice(region);
      SafeRegionOf(Upper(TrimSpace(region)));
    } else {
      PreparedExactly(lex, actor, input);
      FieldsAre(input.typ, input.data);
      FieldIs(FieldsOf(input.typ, input.data), "region");
    }
  }

  lemma FieldIs(data: map<string, string>, key: string)
    ensures key in data ==> Field(data, key) == data[key]
  {
  }

  lemma SafeRegionOf(region: string)
    ensures Upper(TrimSpace(region)) in TicketId.REGIONS ==> TicketId.SafeRegion(region) == Upper(TrimSpace(region))
  {
  }

  lemma DraftsHaveRegion(lex: Lexicon, actor: Actor, input: Input)
    requires Drafts(lex, actor, input)
    ensures Upper(TrimSpace(Typed(input.data, "region"))) in TicketId.REGIONS
  {
    assert RegionOk(input.data);
  }

  lemma UpperTrimTwice(s: string)
    ensures Upper(TrimSpace(Upper(TrimSpace(s)))) == Upper(TrimSpace(s))
  {
    TrimSpaceTrims(s);
    UpperKeepsEnds(TrimSpace(s));
    TrimSpaceTrims(Upper(TrimSpace(s)));
    UpperTwice(TrimSpace(s));
    hide Upper, TrimSpace;
  }

  /** The id a new ticket gets: its type, its region, its opener and the next number. */
  ghost function NewId(s: Store, actor: Actor, input: Input): string {
    Code(input.typ) + "-" + Upper(TrimSpace(Typed(input.data, "region"))) + "-" + TicketId.SafeUser(actor.username)
    + "-" + Decimal.Padded(s.counter + 1, 5)
  }

  ghost function NewThread(s: Store, actor: Actor, input: Input): string {
    if input.threadId == "" then NewId(s, actor, input) else input.threadId
  }

  lemma BuiltFrom(lex: Lexicon, s: Store, actor: Actor, input: Input, now: Time)
    requires DraftTicket(lex, actor, input).Ok?
    ensures var d := DraftTicket(lex, actor, input).value;
            var rec := BuildTicket(d, actor, input, s.counter + 1, now);
            && rec.id == NewId(s, actor, input) && rec.threadId == NewThread(s, actor, input)
            && rec == Record(rec.id, input.typ, Code(input.typ), rec.region, d.workflow, actor.id, actor.tag,
                             rec.threadId, Status.Open, None, now, None, d.data,
                             [Event(now, Created, actor.id, "", "", "")], None,
                             if d.request.None? then None
                             else Some(Withdrawal(actor.id, d.request.value, None, None)), None)
            && rec.region == Field(d.data, "region")
  {
    DraftRegion(lex, actor, input);
    hide DraftTicket, Typed, Upper, TrimSpace, TicketId.SafeUser, Code, Decimal.Padded, TicketId.SafeRegion, Field;
  }

  /** Exactly when Create succeeds: the ticket can be prepared, the member has fewer than three open tickets and none
      of the type, an admin other than the member is available, and no ticket has the thread. */
  lemma CreatedExactly(lex: Lexicon, s: Store, actor: Actor, input: Input, now: Time)
    requires Inv(lex, s)
    ensures ExecCreate(lex, s, actor, input, now).result.Ok? <==>
              && Drafts(lex, actor, input) && HasRoom(s, actor.id, input.typ) && AnotherAdmin(actor)
              && forall id :: id in s.tickets ==> s.tickets[id].threadId != NewThread(s, actor, input)
  {
    hide *;
    InvSound(lex, s);
    SoundIsKeyed(lex, s);
    DraftedExactly(lex, actor, input);
    RoomExactly(s, actor.id, input.typ);
    AnotherAdminExactly(actor);
    CreateSteps(lex, s, actor, input, now);
    if DraftTicket(lex, actor, input).Ok? {
      BuiltFrom(lex, s, actor, input, now);
      FreshId(lex, s, actor, input, now);
      ThreadFreeExactly(s, BuildTicket(DraftTicket(lex, actor, input).value, actor, input, s.counter + 1, now));
    }
  }

  lemma SoundIsKeyed(lex: Lexicon, s: Store)
    requires Sound(lex, s)
    ensures Keyed(s)
  {
  }

  lemma ThreadFreeExactly(s: Store, rec: Record)
    requires rec.id !in s.tickets
    ensures ThreadTaken(s, rec) <==> exists id :: id in s.tickets && s.tickets[id].threadId == rec.threadId
  {
  }

  lemma CreateSteps(lex: Lexicon, s: Store, actor: Actor, input: Input, now: Time)
    ensures var o := ExecCreate(lex, s, actor, input, now);
            var draft := DraftTicket(lex, actor, input);
            if draft.Err? || ActiveLimit(ListByOpener(s, actor.id), actor.id, input.typ).Some? || !HasOtherAdmin(actor)
            then o.result.Err? && o.store == s
            else
              var rec := BuildTicket(draft.value, actor, input, s.counter + 1, now);
              var counted := s.(counter := s.counter + 1);
              if ThreadTaken(s, rec) then o == Outcome(counted, Err(StoreRejected))
              else o == Outcome(Put(counted, rec), Ok(rec))
  {
    hide DraftTicket, ActiveLimit, ListByOpener, HasOtherAdmin, BuildTicket, Put;
  }

  /** What a successful Create stores: one row under a new id and the next number, open, unassigned, logged as opened by
      the member now, with the fields prepared and, on a withdrawal, the request; nothing else changes. */
  lemma CreateEffect(lex: Lexicon, s: Store, actor: Actor, input: Input, now: Time)
    requires Inv(lex, s) && ExecCreate(lex, s, actor, input, now).result.Ok?
    ensures DraftTicket(lex, actor, input).Ok?
    ensures var o := ExecCreate(lex, s, actor, input, now);
            var d := DraftTicket(lex, actor, input).value;
            var rec := o.result.value;
            && rec.id == NewId(s, actor, input) && rec.id !in s.tickets
            && o.store == Store(s.order + [rec.id], s.tickets[rec.id := rec], s.ledger, s.counter + 1)
            && rec == Record(rec.id, input.typ, Code(input.typ), Field(d.data, "region"), d.workflow, actor.id,
                             actor.tag, NewThread(s, actor, input), Status.Open, None, now, None, d.data,
                             [Event(now, Created, actor.id, "", "", "")], None,
                             if d.request.None? then None
                             else Some(Withdrawal(actor.id, d.request.value, None, None)), None)
  {
    hide *;
    InvSound(lex, s);
    CreateSteps(lex, s, actor, input, now);
    BuiltFrom(lex, s, actor, input, now);
    FreshId(lex, s, actor, input, now);
    PutNew(s.(counter := s.counter + 1),
           BuildTicket(DraftTicket(lex, actor, input).value, actor, input, s.counter + 1, now));
  }

  lemma PutNew(s: Store, rec: Record)
    requires rec.id !in s.tickets
    ensures Put(s, rec) == Store(s.order + [rec.id], s.tickets[rec.id := rec], s.ledger, s.counter)
  {
  }

  /** A refused Create changes nothing, except that a thread another ticket has is found out only after the number was
      taken. */
  lemma RefusedCreate(lex: Lexicon, s: Store, actor: Actor, input: Input, now: Time)
    requires ExecCreate(lex, s, actor, input, now).result.Err?
    ensures var o := ExecCreate(lex, s, actor, input, now);
            o.store == s || (o.result.error == StoreRejected && o.store == s.(counter := s.counter + 1))
  {
    CreateSteps(lex, s, actor, input, now);
    hide ExecCreate, DraftTicket, ActiveLimit, ListByOpener, HasOtherAdmin, BuildTicket, Put, ThreadTaken;
  }
}
