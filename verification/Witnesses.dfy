/** Runs with concrete values: the conditions of the results can be met, and what they say can fail does
    fail (modules/ticket/service.go). */
module Witnesses {
  import opened Wrappers
  import opened Text
  import opened Catalog
  import opened Validation
  import opened Records
  import opened Store
  import opened SequentialRuns
  import opened PaymentRules
  import opened Payout
  import opened Interleaving
  import opened Embedding
  import Approvals
  import CardNumber
  import Decimal
  import InterleavedResults
  import Money
  import Roles
  import StaleWrites
  import Stamps
  import TicketId

  // A withdrawal form that passes, a seller who may use it and an admin

  const LEXICON := Lexicon(_ => true, _ => false, _ => false)

  const FORM := map["region" := "ID", "transactionId" := "A", "amount" := "1", "currency" := "JPY", "method" := "B"]

  const SELLER := Actor("1", "ann", "ann", Some([Roles.RoleName.Seller]), false, false, "2", ["2"])

  const OWNER := Actor("2", "bob", "bob", None, false, false, "2", [])

  const INPUT := Input(Withdraw, FORM, "")

  ghost predicate Plain(s: string) {
    s != [] && forall i :: 0 <= i < |s| ==> IsUpper(s[i]) || IsDigit(s[i])
  }

  lemma PlainStays(s: string)
    requires Plain(s)
    ensures NormalizeText(s) == s && TrimSpace(s) == s && Upper(s) == s && Utf8Len(s) == |s|
  {
    PlainChars(s);
    hide *;
    StripControlsKeeps(s);
    TrimSpaceTrims(s);
    Utf8LenAscii(s);
    NormalizeIs(s);
  }

  lemma PlainChars(s: string)
    requires Plain(s)
    ensures NoControls(s) && Trimmed(s) && Upper(s) == s
    ensures forall i :: 0 <= i < |s| ==> s[i] as int < 0x80
  {
    assert forall i :: 0 <= i < |s| ==> UpperChar(s[i]) == s[i];
    assert Upper(s) == s;
  }

  lemma NormalizeIs(s: string)
    ensures NormalizeText(s) == TrimSpace(StripControls(s))
  {
  }

  lemma {:induction false} FewerDigits(s: string)
    ensures |CardNumber.DigitsOf(s)| <= |s|
  {
    if s != [] {
      FewerDigits(s[1..]);
    }
  }

  lemma ShortIsHarmless(s: string)
    requires |s| < 13
    ensures !Sensitive(LEXICON, s)
  {
    FewerDigits(s);
    CardNumber.OnlyDigitsCount(s, LEXICON.wideDigit);
  }

  lemma ShortReference(s: string)
    requires |s| == 1 && IsUpper(s[0])
    ensures ValidatePaymentReference(LEXICON, s) == Ok(s)
  {
    PlainStays(s);
    ShortIsHarmless(s);
    assert |Unpunctuated(s)| <= 1 by { assert Unpunctuated(s[1..]) == []; }
  }

  lemma OneUnit()
    ensures Money.ParseAmount("1", "JPY").Some?
  {
    assert Decimal.Numeral(1) == "1";
    Money.MoneyRoundTrip(1, "JPY");
    PlainStays("JPY");
  }

  lemma FormIsClean()
    ensures CleanData(FORM) == FORM
    ensures forall k :: k in FORM ==> Plain(FORM[k]) && |FORM[k]| <= 3
  {
    assert forall k :: k in FORM ==> Plain(FORM[k]) && |FORM[k]| <= 3;
    forall k | k in FORM
      ensures NormalizeText(FORM[k]) == FORM[k]
    {
      PlainStays(FORM[k]);
    }
    hide *;
    CleanIsSame(FORM);
  }

  lemma CleanIsSame(data: map<string, string>)
    requires forall k :: k in data ==> data[k] != "" && NormalizeText(data[k]) == data[k]
    ensures CleanData(data) == data
  {
    hide NormalizeText;
  }

  lemma SellerIsEligible()
    ensures Roles.EligibleTicketApplicant(Withdraw, SELLER.roles)
  {
    var roles := [Roles.RoleName.Seller];
    assert roles[..0] == [] && Roles.TiersHeld([]) == [];
    assert Roles.TiersHeld(roles) == [Roles.TierSeller];
  }

  lemma FormIsHarmless()
    ensures !AnySensitive(LEXICON, FORM)
  {
    FormIsClean();
    forall k | k in FORM
      ensures !Sensitive(LEXICON, FORM[k])
    {
      ShortIsHarmless(FORM[k]);
    }
  }

  lemma FieldsValidate(region: string, amount: string, currency: string, sale: string, m: string)
    requires Upper(TrimSpace(region)) == region && TicketId.ValidRegion(region)
    requires Money.ParseAmount(amount, currency).Some? && ValidatePaymentReference(LEXICON, sale).Ok?
    requires TrimSpace(m) == m && m != "" && Utf8Len(m) <= METHOD_LIMIT && MethodPattern(LEXICON, m) && !HasScheme(m)
    requires !Sensitive(LEXICON, m)
    ensures ValidateFields(LEXICON, region, amount, currency, sale, m).Ok?
  {
    hide *;
    FieldsUnfold(region, amount, currency, sale, m);
  }

  lemma FieldsUnfold(region: string, amount: string, currency: string, sale: string, m: string)
    ensures Upper(TrimSpace(region)) == region && TicketId.ValidRegion(region)
            && Money.ParseAmount(amount, currency).Some? && ValidatePaymentReference(LEXICON, sale).Ok?
            && TrimSpace(m) == m && m != "" && Utf8Len(m) <= METHOD_LIMIT && MethodPattern(LEXICON, m) && !HasScheme(m)
            && !Sensitive(LEXICON, m)
            ==> ValidateFields(LEXICON, region, amount, currency, sale, m).Ok?
  {
    hide Upper, TrimSpace, TicketId.ValidRegion, Money.ParseAmount, ValidatePaymentReference, Utf8Len, MethodPattern,
         HasScheme, Sensitive, CleanForm;
  }

  lemma RegionIsKnown()
    ensures Upper(TrimSpace("ID")) == "ID" && TicketId.ValidRegion("ID") && NormalizeText("ID") == "ID"
  {
    PlainStays("ID");
  }

  lemma MethodIsFine()
    ensures TrimSpace("B") == "B" && Utf8Len("B") <= METHOD_LIMIT && MethodPattern(LEXICON, "B") && !HasScheme("B")
  {
    PlainStays("B");
  }

  lemma FormFields()
    ensures FORM.Keys == FORM_KEYS && FORM["region"] == "ID" && FORM["transactionId"] == "A" && FORM["amount"] == "1"
            && FORM["currency"] == "JPY" && FORM["method"] == "B"
    ensures FORM["region" := "ID"] == FORM
    ensures ValidateWithdrawalInput(LEXICON, FORM) == ValidateFields(LEXICON, "ID", "1", "JPY", "A", "B")
  {
    hide ValidateFields;
  }

  lemma FormValidates()
    ensures ValidateWithdrawalInput(LEXICON, FORM).Ok?
  {
    hide *;
    FormFields();
    RegionIsKnown();
    OneUnit();
    Letters();
    ShortReference("A");
    MethodIsFine();
    ShortIsHarmless("B");
    FieldsValidate("ID", "1", "JPY", "A", "B");
  }

  lemma Letters()
    ensures IsUpper('A') && IsUpper('R')
  {
  }

  /** A withdrawal draft, check by check. */
  lemma DraftPasses(lex: Lexicon, actor: Actor, input: Input, data: map<string, string>, region: string)
    requires input.typ == Withdraw && Roles.EligibleTicketApplicant(Withdraw, actor.roles)
    requires CleanData(input.data) == data && NormalizeText(Field(data, "region")) == region
    requires TicketId.ValidRegion(region) && !AnySensitive(lex, data["region" := region])
    requires ValidateWithdrawalInput(lex, data["region" := region]).Ok?
    ensures DraftTicket(lex, actor, input).Ok?
  {
    hide CleanData, ValidateWithdrawalInput, AnySensitive, Roles.EligibleTicketApplicant, NormalizeText,
         TicketId.ValidRegion, Field, FillRequired;
  }

  lemma RegionField()
    ensures Field(FORM, "region") == "ID" && INPUT.typ == Withdraw && INPUT.data == FORM
  {
  }

  lemma DraftExists()
    ensures DraftTicket(LEXICON, SELLER, INPUT).Ok?
  {
    hide *;
    FormIsClean();
    FormFields();
    RegionField();
    RegionIsKnown();
    SellerIsEligible();
    FormIsHarmless();
    FormValidates();
    DraftPasses(LEXICON, SELLER, INPUT, FORM, "ID");
  }

  lemma OwnerIsAdmin()
    ensures Admin(OWNER) && OWNER.id != SELLER.id && INPUT.typ == Withdraw
    ensures !OutgoingExists(EMPTY.ledger, "R") && |EMPTY.ledger| == 0
  {
  }

  // Runs of uninterrupted calls

  lemma {:induction false} RunConcat(lex: Lexicon, s: Store, a: seq<Call>, b: seq<Call>)
    ensures Run(lex, s, a + b) == Run(lex, Run(lex, s, a), b)
  {
    hide Exec;
    if b == [] {
      assert a + b == a;
    } else {
      RunConcat(lex, s, a, b[..|b| - 1]);
      assert (a + b)[..|a + b| - 1] == a + b[..|b| - 1];
    }
  }

  lemma NothingStored(now: Time)
    requires DraftTicket(LEXICON, SELLER, INPUT).Ok?
    ensures MayOpen(LEXICON, EMPTY, SELLER, INPUT, now)
  {
    hide DraftTicket, BuildTicket;
    assert ListByOpener(EMPTY, SELLER.id) == [];
    assert SELLER.availableAdmins[0] == "2";
  }

  /** The form can be opened in the empty tables, and the owner is an admin who can approve and pay it. */
  lemma Start()
    ensures DraftTicket(LEXICON, SELLER, INPUT).Ok? && MayOpen(LEXICON, EMPTY, SELLER, INPUT, 0) && Inv(LEXICON, EMPTY)
    ensures Admin(OWNER) && OWNER.id != SELLER.id && INPUT.typ == Withdraw
    ensures ValidatePaymentReference(LEXICON, "R") == Ok("R") && ValidatePaymentReference(LEXICON, "S") == Ok("S")
    ensures !OutgoingExists(EMPTY.ledger, "R") && |EMPTY.ledger| == 0 && EMPTY.tickets == map[] && EMPTY.counter == 0
  {
    DraftExists();
    Letters();
    ShortReference("R");
    ShortReference("S");
    NothingStored(0);
    OwnerIsAdmin();
    EmptyInv(LEXICON);
    hide *;
    EmptyIsEmpty();
  }

  lemma EmptyIsEmpty()
    ensures EMPTY.tickets == map[] && EMPTY.counter == 0
  {
  }

  /** From the empty tables this seller's withdrawal ends paid, stamped and booked. */
  lemma SomeWithdrawalIsPaid()
    ensures exists calls, id ::
              var t := Run(LEXICON, EMPTY, calls);
              id in t.tickets && t.tickets[id].status == Paid && Shows(t.tickets[id]) && |t.ledger| == 1
  {
    hide *;
    Start();
    FirstPath();
    var id := Opened(LEXICON, EMPTY, SELLER, INPUT, 0).id;
    assert id in Run(LEXICON, EMPTY, PathOf(LEXICON, EMPTY, SELLER, INPUT, OWNER, "R", 0)).tickets;
  }

  lemma FirstPath()
    requires DraftTicket(LEXICON, SELLER, INPUT).Ok?
    ensures var rec := Opened(LEXICON, EMPTY, SELLER, INPUT, 0);
            var t := Run(LEXICON, EMPTY, PathOf(LEXICON, EMPTY, SELLER, INPUT, OWNER, "R", 0));
            && Inv(LEXICON, t) && t.tickets.Keys == {rec.id} && t.counter == 1 && SameCore(rec, t.tickets[rec.id])
            && t.tickets[rec.id].status == Paid && Shows(t.tickets[rec.id]) && rec.openerId == SELLER.id
            && |t.ledger| == 1 && t.ledger[0].reference == "R"
  {
    PathUnfolds(EMPTY, SELLER, "R");
    hide *;
    Start();
    PathAddsOne(LEXICON, EMPTY, SELLER, INPUT, OWNER, "R", 0);
    WithdrawalCanBePaid(LEXICON, EMPTY, SELLER, INPUT, OWNER, "R", 0);
    var rec := Opened(LEXICON, EMPTY, SELLER, INPUT, 0);
    OnlyKey(Run(LEXICON, EMPTY, PathOf(LEXICON, EMPTY, SELLER, INPUT, OWNER, "R", 0)).tickets, rec.id);
  }

  lemma OnlyKey(tickets: map<string, Record>, id: string)
    requires id in tickets && tickets == map[id := tickets[id]]
    ensures tickets.Keys == {id}
  {
  }

  lemma PathUnfolds(s: Store, seller: Actor, reference: string)
    requires DraftTicket(LEXICON, seller, INPUT).Ok?
    ensures var id := Opened(LEXICON, s, seller, INPUT, 0).id;
            PathOf(LEXICON, s, seller, INPUT, OWNER, reference, 0)
            == [Call.Open(seller, INPUT, 0), Update(OWNER, id, ApproveWithdrawal, 0), Pay(OWNER, id, reference, 0)]
  {
    hide DraftTicket, Opened;
  }

  // One sale, two sellers

  const OTHER_SELLER := Actor("3", "cat", "cat", Some([Roles.RoleName.Seller]), false, false, "2", ["2"])

  /** A draft depends on its actor only through the roles. */
  lemma DraftByRoles(lex: Lexicon, a: Actor, b: Actor, input: Input)
    requires a.roles == b.roles
    ensures DraftTicket(lex, a, input) == DraftTicket(lex, b, input)
  {
    hide CleanData, ValidateWithdrawalInput, AnySensitive, Roles.EligibleTicketApplicant, NormalizeText, FillRequired,
         TicketId.ValidRegion, Field;
  }

  lemma NoTicketsNoLimit(lex: Lexicon, s: Store, member: string, typ: TicketType)
    requires Inv(lex, s) && forall id :: id in s.tickets ==> s.tickets[id].openerId != member
    ensures ActiveLimit(ListByOpener(s, member), member, typ).None?
  {
    assert OpenIds(s, member) == {};
    ActiveLimitIsQuota(s, member, typ);
    hide ActiveLimit, ListByOpener, Good, AllGood, LedgerSound, AllBacked;
  }

  lemma OtherSellerMayAsk()
    ensures SELLER.roles == OTHER_SELLER.roles && HasOtherAdmin(OTHER_SELLER) && OWNER.id != OTHER_SELLER.id
    ensures SELLER.id != OTHER_SELLER.id && INPUT.threadId == ""
  {
    assert OTHER_SELLER.availableAdmins[0] == "2";
  }

  lemma OpenedThread(lex: Lexicon, s: Store, seller: Actor, input: Input, now: Time)
    requires DraftTicket(lex, seller, input).Ok? && input.threadId == ""
    ensures var rec := Opened(lex, s, seller, input, now);
            rec.threadId == rec.id && TicketId.Serial(rec.id) == s.counter + 1
    ensures input.typ == Withdraw ==>
              var rec := Opened(lex, s, seller, input, now);
              rec.withdrawal.Some? && DraftTicket(lex, seller, input).value.request.Some?
              && SaleOf(rec) == DraftTicket(lex, seller, input).value.request.value.saleReference
  {
    DraftIsOfType(lex, seller, input);
    BuildTicketGood(lex, seller, input, s.counter + 1, now);
    hide DraftTicket, TicketId.FormatID, Good, Code, Field;
  }

  lemma FreeThread(s: Store, rec: Record)
    requires forall id :: id in s.tickets ==> s.tickets[id].threadId != rec.threadId
    ensures !ThreadTaken(s, rec)
  {
  }

  lemma SameCoreMeans(a: Record, b: Record)
    requires SameCore(a, b)
    ensures a.openerId == b.openerId && a.threadId == b.threadId
    ensures a.withdrawal.Some? ==> b.withdrawal.Some? && SaleOf(b) == SaleOf(a)
  {
  }

  lemma OnlyTicket(t: Store, only: string, member: string, thread: string)
    requires t.tickets.Keys == {only}
    ensures t.tickets[only].openerId != member ==> forall id :: id in t.tickets ==> t.tickets[id].openerId != member
    ensures t.tickets[only].threadId != thread ==> forall id :: id in t.tickets ==> t.tickets[id].threadId != thread
  {
    assert forall id :: id in t.tickets ==> id in t.tickets.Keys;
  }

  /** After the first seller's path the other seller may open the same form. */
  lemma OtherMayOpen(t: Store, first: Record)
    requires DraftTicket(LEXICON, OTHER_SELLER, INPUT).Ok? && Inv(LEXICON, t)
    requires t.tickets.Keys == {first.id} && t.counter == 1 && SameCore(first, t.tickets[first.id])
    requires first.openerId == SELLER.id && first.threadId == first.id && TicketId.Serial(first.id) == 1
    ensures MayOpen(LEXICON, t, OTHER_SELLER, INPUT, 0)
    ensures Opened(LEXICON, t, OTHER_SELLER, INPUT, 0).id != first.id
  {
    hide *;
    OtherSellerMayAsk();
    SameCoreMeans(first, t.tickets[first.id]);
    OnlyTicket(t, first.id, OTHER_SELLER.id, Opened(LEXICON, t, OTHER_SELLER, INPUT, 0).threadId);
    NoTicketsNoLimit(LEXICON, t, OTHER_SELLER.id, INPUT.typ);
    OpenedThread(LEXICON, t, OTHER_SELLER, INPUT, 0);
    FreeThread(t, Opened(LEXICON, t, OTHER_SELLER, INPUT, 0));
    MayOpenIs(LEXICON, t, OTHER_SELLER, INPUT, 0);
  }

  lemma MayOpenIs(lex: Lexicon, s: Store, seller: Actor, input: Input, now: Time)
    requires DraftTicket(lex, seller, input).Ok?
    ensures MayOpen(lex, s, seller, input, now) <==>
              && ActiveLimit(ListByOpener(s, seller.id), seller.id, input.typ).None? && HasOtherAdmin(seller)
              && !ThreadTaken(s, Opened(lex, s, seller, input, now))
  {
    hide DraftTicket, Opened, ThreadTaken, ActiveLimit, HasOtherAdmin;
  }

  lemma NewReceipt(t: Store, r: string)
    requires |t.ledger| == 1 && t.ledger[0].reference != r
    ensures !OutgoingExists(t.ledger, r)
  {
  }

  lemma PaidTwice(t: Store, a: string, b: string)
    requires a in t.tickets && b in t.tickets && a != b && Shows(t.tickets[a]) && Shows(t.tickets[b])
    requires SaleOf(t.tickets[a]) == SaleOf(t.tickets[b])
    ensures !SaleOnce(t)
  {
  }

  /** From the empty tables two sellers are paid for one sale. */
  lemma SomeSaleIsPaidTwice() returns (calls: seq<Call>)
    ensures !SaleOnce(Run(LEXICON, EMPTY, calls)) && |Run(LEXICON, EMPTY, calls).ledger| == 2
  {
    hide *;
    Start();
    FirstPath();
    OtherSellerMayAsk();
    DraftByRoles(LEXICON, SELLER, OTHER_SELLER, INPUT);
    var first := Opened(LEXICON, EMPTY, SELLER, INPUT, 0);
    var path := PathOf(LEXICON, EMPTY, SELLER, INPUT, OWNER, "R", 0);
    var t := Run(LEXICON, EMPTY, path);
    OpenedThread(LEXICON, EMPTY, SELLER, INPUT, 0);
    OtherMayOpen(t, first);
    NewReceipt(t, "S");
    var second := Opened(LEXICON, t, OTHER_SELLER, INPUT, 0);
    var more := PathOf(LEXICON, t, OTHER_SELLER, INPUT, OWNER, "S", 0);
    SecondPath(t);
    OpenedThread(LEXICON, t, OTHER_SELLER, INPUT, 0);
    var u := Run(LEXICON, t, more);
    SameCoreMeans(first, t.tickets[first.id]);
    SameCoreMeans(second, u.tickets[second.id]);
    PaidTwice(u, first.id, second.id);
    RunConcat(LEXICON, EMPTY, path, more);
    calls := path + more;
  }

  lemma SecondPath(t: Store)
    requires Inv(LEXICON, t) && DraftTicket(LEXICON, OTHER_SELLER, INPUT).Ok?
    requires MayOpen(LEXICON, t, OTHER_SELLER, INPUT, 0) && !OutgoingExists(t.ledger, "S")
    ensures var rec := Opened(LEXICON, t, OTHER_SELLER, INPUT, 0);
            var u := Run(LEXICON, t, PathOf(LEXICON, t, OTHER_SELLER, INPUT, OWNER, "S", 0));
            && rec.id in u.tickets && u.tickets == t.tickets[rec.id := u.tickets[rec.id]]
            && SameCore(rec, u.tickets[rec.id]) && Shows(u.tickets[rec.id]) && |u.ledger| == |t.ledger| + 1
  {
    PathUnfolds(t, OTHER_SELLER, "S");
    hide *;
    Start();
    OtherSellerMayAsk();
    PathAddsOne(LEXICON, t, OTHER_SELLER, INPUT, OWNER, "S", 0);
    WithdrawalCanBePaid(LEXICON, t, OTHER_SELLER, INPUT, OWNER, "S", 0);
  }

  // Paid without a stamp

  /** The tables after the form is opened, and its ticket. */
  lemma AfterOpening()
    requires DraftTicket(LEXICON, SELLER, INPUT).Ok?
    ensures var rec := Opened(LEXICON, EMPTY, SELLER, INPUT, 0);
            var t := Run(LEXICON, EMPTY, [Call.Open(SELLER, INPUT, 0)]);
            && Inv(LEXICON, t) && rec.id in t.tickets && t.tickets[rec.id] == rec && t.ledger == []
            && rec.typ == Withdraw && rec.status == Status.Open && !Approvals.Stamped(rec) && rec.assignedTo.None?
            && RequireAdmin(OWNER, rec).None?
  {
    OneCall(LEXICON, EMPTY, Call.Open(SELLER, INPUT, 0));
    ExecOpen(LEXICON, EMPTY, SELLER, INPUT, 0);
    NoRows();
    hide *;
    Start();
    Opening(LEXICON, EMPTY, SELLER, INPUT, 0);
    CreateKeepsInv(LEXICON, EMPTY, SELLER, INPUT, 0);
    var rec := Opened(LEXICON, EMPTY, SELLER, INPUT, 0);
    PutIsThere(EMPTY.(counter := EMPTY.counter + 1), rec);
    InvGood(LEXICON, ExecCreate(LEXICON, EMPTY, SELLER, INPUT, 0).store, rec.id);
    Stamps.OpenIsUnstamped(LEXICON, rec);
    AdminOfAnother(OWNER, rec);
  }

  lemma NoRows()
    ensures EMPTY.ledger == []
  {
  }

  lemma ExecOpen(lex: Lexicon, s: Store, seller: Actor, input: Input, now: Time)
    ensures Exec(lex, s, Call.Open(seller, input, now)) == ExecCreate(lex, s, seller, input, now)
  {
    hide ExecCreate;
  }

  lemma OneCall(lex: Lexicon, s: Store, c: Call)
    ensures Run(lex, s, [c]) == Exec(lex, s, c).store
  {
    hide Exec;
    assert [c][..0] == [];
  }

  lemma AdminOfAnother(admin: Actor, rec: Record)
    requires Admin(admin) && rec.openerId != admin.id
    ensures RequireAdmin(admin, rec).None?
  {
  }

  /** From the empty tables a withdrawal is approved generically and paid, and never stamped. */
  lemma SomePaymentIsUnstamped() returns (calls: seq<Call>, id: string)
    ensures var t := Run(LEXICON, EMPTY, calls);
            id in t.tickets && t.tickets[id].status == Paid && !Approvals.Stamped(t.tickets[id])
  {
    hide *;
    Start();
    AfterOpening();
    NoRows();
    id := Opened(LEXICON, EMPTY, SELLER, INPUT, 0).id;
    var t := Run(LEXICON, EMPTY, [Call.Open(SELLER, INPUT, 0)]);
    Stamps.PaidWithoutStampOnTables(LEXICON, t, OWNER, id, "R", 0);
    var more := [Update(OWNER, id, Transition(Approved), 0), Pay(OWNER, id, "R", 0)];
    RunConcat(LEXICON, EMPTY, [Call.Open(SELLER, INPUT, 0)], more);
    calls := [Call.Open(SELLER, INPUT, 0)] + more;
  }

  // Calls in flight

  lemma IdleIsSound(lex: Lexicon, events: seq<ServiceStep>, s: Store)
    requires RunSteps(lex, START, events) == Idle(s)
    ensures SysInv(lex, Idle(s)) && Idle(s).calls == map[] && Idle(s).store == s
  {
    InterleavedResults.RunDecided(lex, events);
    hide SysInv, RunSteps;
  }

  lemma StartIsIdle()
    ensures Idle(EMPTY) == START
  {
  }

  lemma SixSteps(lex: Lexicon, y: Sys, e1: ServiceStep, e2: ServiceStep, e3: ServiceStep, e4: ServiceStep,
                 e5: ServiceStep, e6: ServiceStep)
    ensures RunSteps(lex, y, [e1, e2, e3, e4, e5])
         == Step(lex, Step(lex, Step(lex, Step(lex, Step(lex, y, e1), e2), e3), e4), e5)
    ensures RunSteps(lex, y, [e1, e2, e3, e4, e5, e6])
         == Step(lex, Step(lex, Step(lex, Step(lex, Step(lex, Step(lex, y, e1), e2), e3), e4), e5), e6)
  {
    hide *;
    FourSteps(lex, y, e1, e2, e3, e4);
    var z := RunSteps(lex, y, [e1, e2, e3, e4]);
    TwoSteps(lex, z, e5, e6);
    RunStepsConcat(lex, y, [e1, e2, e3, e4], [e5]);
    RunStepsConcat(lex, y, [e1, e2, e3, e4], [e5, e6]);
    assert [e1, e2, e3, e4] + [e5] == [e1, e2, e3, e4, e5];
    assert [e1, e2, e3, e4] + [e5, e6] == [e1, e2, e3, e4, e5, e6];
  }

  lemma LostPayment(s: Store, i: nat, id: string)
    requires i < |s.ledger| && s.ledger[i].ticketId == id && id in s.tickets && !Shows(s.tickets[id])
    ensures !Settled(s)
  {
  }

  /** From the start an approved and unpaid withdrawal is reached with no call left in flight. */
  lemma ReachApproved() returns (events: seq<ServiceStep>)
    requires DraftTicket(LEXICON, SELLER, INPUT).Ok?
    ensures RunSteps(LEXICON, START, events) == Idle(ApprovedStore(LEXICON, EMPTY, SELLER, INPUT, OWNER, 0))
  {
    var id := Opened(LEXICON, EMPTY, SELLER, INPUT, 0).id;
    var calls := [Call.Open(SELLER, INPUT, 0), Update(OWNER, id, ApproveWithdrawal, 0)];
    TwoCalls(LEXICON, EMPTY, calls[0], calls[1]);
    ApprovedIsRun(LEXICON, EMPTY, SELLER, INPUT, OWNER, 0);
    hide *;
    StartIsIdle();
    events := RunsAreInterleavings(LEXICON, EMPTY, calls);
  }

  lemma ApprovedIsRun(lex: Lexicon, s: Store, seller: Actor, input: Input, admin: Actor, now: Time)
    requires DraftTicket(lex, seller, input).Ok?
    ensures var id := Opened(lex, s, seller, input, now).id;
            ApprovedStore(lex, s, seller, input, admin, now)
            == Exec(lex, Exec(lex, s, Call.Open(seller, input, now)).store,
                    Update(admin, id, ApproveWithdrawal, now)).store
  {
    hide DraftTicket, Opened, ExecCreate, ExecUpdate;
  }

  lemma ShorterLog(s: Store, t: Store, id: string)
    requires id in s.tickets && id in t.tickets && !(s.tickets[id].history <= t.tickets[id].history)
    ensures !StaleWrites.LogsExtend(s, t)
  {
  }

  /** From the start a schedule whose last save erases a payment from its ticket and from its log, while the
      row stays. */
  lemma SomePaymentIsErased() returns (events: seq<ServiceStep>, last: ServiceStep)
    ensures var s, t := RunSteps(LEXICON, START, events).store, RunSteps(LEXICON, START, events + [last]).store;
            !Settled(t) && !StaleWrites.LogsExtend(s, t)
  {
    hide *;
    Start();
    var before := ReachApproved();
    var s := ApprovedStore(LEXICON, EMPTY, SELLER, INPUT, OWNER, 0);
    var id := Opened(LEXICON, EMPTY, SELLER, INPUT, 0).id;
    OpenedAndApproved(LEXICON, EMPTY, SELLER, INPUT, OWNER, 0);
    IdleIsSound(LEXICON, before, s);
    AdminOfAnother(OWNER, s.tickets[id]);
    InterleavedResults.StaleClaimErasesPayment(LEXICON, Idle(s), id, OWNER, OWNER, "R", 0, 0);
    var others := ListOpen(s) + ListByOpener(s, s.tickets[id].openerId);
    var more := [BeginUpdate(0, OWNER, id, Claim, 0), BeginPay(1, OWNER, id, "R"), DecidePay(1, others, 0), CheckPay(1),
                 CommitPay(1)];
    last := CommitSave(0);
    SixSteps(LEXICON, Idle(s), more[0], more[1], more[2], more[3], more[4], last);
    assert more + [last] == [more[0], more[1], more[2], more[3], more[4], last];
    RunStepsConcat(LEXICON, START, before, more);
    RunStepsConcat(LEXICON, START, before, more + [last]);
    assert before + (more + [last]) == (before + more) + [last];
    events := before + more;
    var lost := RunSteps(LEXICON, START, events + [last]).store;
    LostPayment(lost, |s.ledger|, id);
    ShorterLog(RunSteps(LEXICON, START, events).store, lost, id);
  }

  // Closed and open again

  lemma UpdateSucceeds(lex: Lexicon, s: Store, actor: Actor, id: string, action: Action, now: Time)
    requires Inv(lex, s) && id in s.tickets && Decide(lex, s.tickets[id], actor, action, now).Ok?
    ensures var o := ExecUpdate(lex, s, actor, id, action, now);
            && o.result == Decide(lex, s.tickets[id], actor, action, now) && Inv(lex, o.store)
            && id in o.store.tickets && o.store.tickets[id] == o.result.value
  {
    UpdateKeepsInv(lex, s, actor, id, action, now);
    InvSound(lex, s);
    InvGood(lex, s, id);
    DecideKeeps(lex, s.tickets[id], actor, action, now);
    hide Inv, Sound, Good, Decide, ThreadTaken;
    ThreadFree(lex, s, Decide(lex, s.tickets[id], actor, action, now).value);
  }

  lemma Cancels(lex: Lexicon, rec: Record, admin: Actor, now: Time)
    requires Good(lex, rec) && rec.typ == Withdraw && rec.status == Status.Open && RequireAdmin(admin, rec).None?
    ensures var r := Decide(lex, rec, admin, Transition(Cancelled), now);
            r.Ok? && r.value == rec.(status := Cancelled, history := r.value.history)
  {
    hide RequireAdmin, ValidResolution;
  }

  lemma Resolves(lex: Lexicon, rec: Record, admin: Actor, note: string, now: Time)
    requires RequireAdmin(admin, rec).None? && ValidateTicketText(lex, note).Ok?
    ensures var r := Decide(lex, rec, admin, SetResolution(note), now);
            r.Ok? && r.value.status == rec.status && r.value.typ == rec.typ && r.value.workflow == rec.workflow
            && r.value.openerId == rec.openerId && r.value.assignedTo == rec.assignedTo && r.value.resolution.Some?
            && ValidResolution(lex, r.value.resolution.value.text, r.value.resolution.value.who)
  {
    AcceptedTextStable(lex, note);
    AdminIsSomeoneElse(admin, rec);
    hide RequireAdmin, ValidateTicketText, ValidResolution;
  }

  lemma Closes(lex: Lexicon, rec: Record, admin: Actor, now: Time)
    requires Good(lex, rec) && rec.typ == Withdraw && rec.status == Cancelled && RequireAdmin(admin, rec).None?
    requires rec.resolution.Some? && ValidResolution(lex, rec.resolution.value.text, rec.resolution.value.who)
    ensures Decide(lex, rec, admin, Transition(Closed), now).Ok?
  {
    hide RequireAdmin, ValidResolution;
  }

  lemma NoteIsFine()
    ensures ValidateTicketText(LEXICON, "R").Ok?
  {
    PlainStays("R");
    ShortIsHarmless("R");
    hide NormalizeText, Sensitive, Utf8Len;
  }

  /** The tables with the form opened, cancelled and resolved. */
  lemma ReachClosable() returns (calls: seq<Call>, id: string)
    ensures var t := Run(LEXICON, EMPTY, calls);
            && Inv(LEXICON, t) && id in t.tickets && t.tickets[id].assignedTo.None?
            && RequireAdmin(OWNER, t.tickets[id]).None?
            && Decide(LEXICON, t.tickets[id], OWNER, Transition(Closed), 0).Ok?
  {
    hide *;
    Start();
    AfterOpening();
    NoteIsFine();
    var rec := Opened(LEXICON, EMPTY, SELLER, INPUT, 0);
    id := rec.id;
    var opening := [Call.Open(SELLER, INPUT, 0)];
    var s := Run(LEXICON, EMPTY, opening);
    InvGood(LEXICON, s, id);
    Cancels(LEXICON, rec, OWNER, 0);
    UpdateSucceeds(LEXICON, s, OWNER, id, Transition(Cancelled), 0);
    var s1 := ExecUpdate(LEXICON, s, OWNER, id, Transition(Cancelled), 0).store;
    Stamps.AdminStays(OWNER, rec, s1.tickets[id]);
    Resolves(LEXICON, s1.tickets[id], OWNER, "R", 0);
    UpdateSucceeds(LEXICON, s1, OWNER, id, SetResolution("R"), 0);
    var s2 := ExecUpdate(LEXICON, s1, OWNER, id, SetResolution("R"), 0).store;
    Stamps.AdminStays(OWNER, rec, s2.tickets[id]);
    InvGood(LEXICON, s2, id);
    Closes(LEXICON, s2.tickets[id], OWNER, 0);
    var more := [Update(OWNER, id, Transition(Cancelled), 0), Update(OWNER, id, SetResolution("R"), 0)];
    TwoUpdates(s, OWNER, id, Transition(Cancelled), SetResolution("R"));
    RunConcat(LEXICON, EMPTY, opening, more);
    calls := opening + more;
  }

  lemma TwoUpdates(s: Store, admin: Actor, id: string, a: Action, b: Action)
    ensures Run(LEXICON, s, [Update(admin, id, a, 0), Update(admin, id, b, 0)])
         == ExecUpdate(LEXICON, ExecUpdate(LEXICON, s, admin, id, a, 0).store, admin, id, b, 0).store
  {
    hide ExecUpdate;
    TwoCalls(LEXICON, s, Update(admin, id, a, 0), Update(admin, id, b, 0));
  }

  /** From the start a schedule closes a ticket and opens it again. */
  lemma SomeClosedTicketReopens() returns (events: seq<ServiceStep>, last: ServiceStep, id: string)
    ensures var y, z := RunSteps(LEXICON, START, events), RunSteps(LEXICON, START, events + [last]);
            && id in y.store.tickets && y.store.tickets[id].status == Closed
            && id in z.store.tickets && z.store.tickets[id].status != Closed
  {
    hide *;
    var calls, at := ReachClosable();
    id := at;
    var s := Run(LEXICON, EMPTY, calls);
    var before := RunsAreInterleavings(LEXICON, EMPTY, calls);
    StartIsIdle();
    IdleIsSound(LEXICON, before, s);
    InterleavedResults.StaleClaimReopens(LEXICON, Idle(s), id, OWNER, OWNER, 0, 0);
    var more := [BeginUpdate(0, OWNER, id, Claim, 0), BeginUpdate(1, OWNER, id, Transition(Closed), 0), CommitSave(1)];
    last := CommitSave(0);
    FourSteps(LEXICON, Idle(s), more[0], more[1], more[2], last);
    RunStepsConcat(LEXICON, START, before, more);
    RunStepsConcat(LEXICON, START, before, more + [last]);
    assert before + (more + [last]) == (before + more) + [last];
    assert more + [last] == [more[0], more[1], more[2], last];
    events := before + more;
  }

  /** From the start a schedule opens two tickets of one type for one member. */
  lemma SomeQuotaIsExceeded() returns (events: seq<ServiceStep>)
    ensures !AllWithinQuota(RunSteps(LEXICON, START, events).store)
  {
    hide *;
    Start();
    OtherSellerMayAsk();
    MayOpenIs(LEXICON, EMPTY, SELLER, INPUT, 0);
    InterleavedResults.StaleListsExceedQuota(LEXICON, SELLER, INPUT, 0);
    events := [BeginCreate(0, SELLER, INPUT, []), BeginCreate(1, SELLER, INPUT, []), TakeNumber(0, 0), TakeNumber(1, 0),
               CommitSave(0), CommitSave(1)];
    SixSteps(LEXICON, START, events[0], events[1], events[2], events[3], events[4], events[5]);
    OneOver(RunSteps(LEXICON, START, events).store, SELLER.id);
  }

  lemma OneOver(s: Store, member: string)
    requires !WithinQuota(s, member)
    ensures !AllWithinQuota(s)
  {
  }
}
