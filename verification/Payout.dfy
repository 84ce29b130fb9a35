/** A withdrawal from its opening to its payment: when the whole path is free, and what it changes
    (modules/ticket/service.go). */
module Payout {
  import opened Wrappers
  import opened Catalog
  import opened Validation
  import opened Records
  import opened Store
  import opened SequentialRuns
  import opened PaymentRules
  import Roles
  import TicketId

  ghost predicate Admin(actor: Actor) {
    !actor.isBot && actor.id != "" && (actor.id == actor.ownerId || actor.isAdmin)
  }

  /** The ticket an opening would create. */
  function Opened(lex: Lexicon, s: Store, seller: Actor, input: Input, now: Time): Record
    requires DraftTicket(lex, seller, input).Ok?
  {
    BuildTicket(DraftTicket(lex, seller, input).value, seller, input, s.counter + 1, now)
  }

  ghost predicate MayOpen(lex: Lexicon, s: Store, seller: Actor, input: Input, now: Time) {
    && DraftTicket(lex, seller, input).Ok?
    && ActiveLimit(ListByOpener(s, seller.id), seller.id, input.typ).None? && HasOtherAdmin(seller)
    && !ThreadTaken(s, Opened(lex, s, seller, input, now))
  }

  lemma Opening(lex: Lexicon, s: Store, seller: Actor, input: Input, now: Time)
    requires MayOpen(lex, s, seller, input, now) && input.typ == Withdraw
    ensures var rec := Opened(lex, s, seller, input, now);
            && ExecCreate(lex, s, seller, input, now) == Outcome(Put(s.(counter := s.counter + 1), rec), Ok(rec))
            && rec.typ == Withdraw && rec.workflow == WithdrawalV1 && rec.status == Status.Open
                 && rec.openerId == seller.id
            && rec.openedAt == now && rec.withdrawal.Some? && rec.withdrawal.value.approval.None?
            && rec.assignedTo.None?
  {
    hide *;
    MayOpenMeans(lex, s, seller, input, now);
    DraftIsOfType(lex, seller, input);
    var draft := DraftTicket(lex, seller, input).value;
    OpenedIsBuilt(lex, s, seller, input, now);
    BuiltFields(draft, seller, input, s.counter + 1, now);
    CreateSaves(lex, s, seller, input, now);
    WithdrawalWorkflow(input.typ, draft.workflow);
  }

  lemma MayOpenMeans(lex: Lexicon, s: Store, seller: Actor, input: Input, now: Time)
    requires MayOpen(lex, s, seller, input, now)
    ensures DraftTicket(lex, seller, input).Ok?
    ensures ActiveLimit(ListByOpener(s, seller.id), seller.id, input.typ).None? && HasOtherAdmin(seller)
    ensures !ThreadTaken(s, Opened(lex, s, seller, input, now))
  {
    hide DraftTicket, BuildTicket, ThreadTaken, ActiveLimit, HasOtherAdmin;
  }

  lemma OpenedIsBuilt(lex: Lexicon, s: Store, seller: Actor, input: Input, now: Time)
    requires DraftTicket(lex, seller, input).Ok?
    ensures Opened(lex, s, seller, input, now)
         == BuildTicket(DraftTicket(lex, seller, input).value, seller, input, s.counter + 1, now)
  {
    hide DraftTicket, BuildTicket;
  }

  lemma BuiltFields(draft: Draft, seller: Actor, input: Input, number: nat, now: Time)
    ensures var rec := BuildTicket(draft, seller, input, number, now);
            && rec.typ == input.typ && rec.workflow == draft.workflow && rec.status == Status.Open
            && rec.openerId == seller.id && rec.openedAt == now && rec.assignedTo.None?
            && (draft.request.Some? ==> rec.withdrawal.Some? && rec.withdrawal.value.approval.None?)
  {
    hide TicketId.FormatID, Code, Field;
  }

  lemma WithdrawalWorkflow(typ: TicketType, w: WorkflowId)
    ensures typ == Withdraw && WorkflowForType(typ) == Some(w) ==> w == WithdrawalV1
  {
  }

  lemma CreateSaves(lex: Lexicon, s: Store, seller: Actor, input: Input, now: Time)
    requires DraftTicket(lex, seller, input).Ok?
    requires ActiveLimit(ListByOpener(s, seller.id), seller.id, input.typ).None? && HasOtherAdmin(seller)
    requires !ThreadTaken(s, BuildTicket(DraftTicket(lex, seller, input).value, seller, input, s.counter + 1, now))
    ensures var rec := BuildTicket(DraftTicket(lex, seller, input).value, seller, input, s.counter + 1, now);
            ExecCreate(lex, s, seller, input, now) == Outcome(Put(s.(counter := s.counter + 1), rec), Ok(rec))
  {
    hide DraftTicket, BuildTicket, ActiveLimit, HasOtherAdmin, ListByOpener, Put;
  }

  lemma Approving(lex: Lexicon, s: Store, id: string, admin: Actor, now: Time)
    requires Inv(lex, s) && id in s.tickets && Admin(admin)
    requires var rec := s.tickets[id];
             && rec.typ == Withdraw && rec.workflow == WithdrawalV1 && rec.status == Status.Open && rec.withdrawal.Some?
             && rec.withdrawal.value.approval.None? && rec.openerId != admin.id && rec.openedAt <= now
    ensures var o := ExecUpdate(lex, s, admin, id, ApproveWithdrawal, now);
            && o.result.Ok? && id in o.store.tickets && o.store.ledger == s.ledger
            && o.store.tickets[id].typ == Withdraw && o.store.tickets[id].status == Approved
            && o.store.tickets[id].openerId == s.tickets[id].openerId
            && o.store.tickets[id].assignedTo == s.tickets[id].assignedTo
            && o.store.tickets[id].withdrawal
                 == Some(s.tickets[id].withdrawal.value.(approval := Some(Stamp(admin.id, now))))
  {
    InvSound(lex, s);
    InvGood(lex, s, id);
    hide Inv, Sound, Good, ThreadTaken;
    var rec := s.tickets[id];
    var next := ApproveWithdrawalRecord(rec, admin.id, now).value;
    assert Decide(lex, rec, admin, ApproveWithdrawal, now) == Ok(next);
    ThreadFree(lex, s, next);
  }

  /** The tables after the opening and the approval. */
  function ApprovedStore(lex: Lexicon, s: Store, seller: Actor, input: Input, admin: Actor, now: Time): Store
    requires DraftTicket(lex, seller, input).Ok?
  {
    ExecUpdate(lex, ExecCreate(lex, s, seller, input, now).store, admin, Opened(lex, s, seller, input, now).id,
               ApproveWithdrawal, now).store
  }

  lemma ApprovedStoreIs(lex: Lexicon, s: Store, seller: Actor, input: Input, admin: Actor, now: Time)
    requires DraftTicket(lex, seller, input).Ok?
    ensures ApprovedStore(lex, s, seller, input, admin, now)
         == ExecUpdate(lex, ExecCreate(lex, s, seller, input, now).store, admin,
                       Opened(lex, s, seller, input, now).id, ApproveWithdrawal, now).store
  {
    hide DraftTicket, ExecUpdate, ExecCreate, Opened;
  }

  lemma OpenedAndApproved(lex: Lexicon, s: Store, seller: Actor, input: Input, admin: Actor, now: Time)
    requires Inv(lex, s) && input.typ == Withdraw && MayOpen(lex, s, seller, input, now)
    requires Admin(admin) && admin.id != seller.id
    ensures var id := Opened(lex, s, seller, input, now).id;
            var t := ApprovedStore(lex, s, seller, input, admin, now);
            && Inv(lex, t) && t.ledger == s.ledger && id in t.tickets
            && t.tickets[id].typ == Withdraw && t.tickets[id].status == Approved && t.tickets[id].openerId == seller.id
            && t.tickets[id].withdrawal.Some? && t.tickets[id].withdrawal.value.approval == Some(Stamp(admin.id, now))
            && t.tickets[id].assignedTo.None?
  {
    var rec := Opened(lex, s, seller, input, now);
    var t := ApprovedStore(lex, s, seller, input, admin, now);
    var s1 := ExecCreate(lex, s, seller, input, now).store;
    assert t == ExecUpdate(lex, s1, admin, rec.id, ApproveWithdrawal, now).store;
    hide *;
    Opening(lex, s, seller, input, now);
    CreateKeepsInv(lex, s, seller, input, now);
    PutIsThere(s.(counter := s.counter + 1), rec);
    Approving(lex, s1, rec.id, admin, now);
    UpdateKeepsInv(lex, s1, admin, rec.id, ApproveWithdrawal, now);
  }

  lemma ApprovedAndPaid(lex: Lexicon, s: Store, admin: Actor, id: string, reference: string, now: Time)
    requires Inv(lex, s) && id in s.tickets && s.tickets[id].typ == Withdraw && s.tickets[id].status == Approved
    requires Admin(admin) && admin.id != s.tickets[id].openerId
    requires s.tickets[id].withdrawal.Some? && s.tickets[id].withdrawal.value.approval.Some?
    requires ValidatePaymentReference(lex, reference).Ok?
             && !OutgoingExists(s.ledger, ValidatePaymentReference(lex, reference).value)
    ensures var t := ExecPay(lex, s, admin, id, reference, now).store;
            && id in t.tickets && t.tickets[id].status == Paid && Shows(t.tickets[id])
            && t.tickets[id].withdrawal.value.approval == s.tickets[id].withdrawal.value.approval
            && |t.ledger| == |s.ledger| + 1 && t.ledger[|s.ledger|] == RowFor(t.tickets[id])
            && t.ledger[|s.ledger|].reference == ValidatePaymentReference(lex, reference).value
  {
    hide *;
    ApprovedIsPayable(lex, s, admin, id, reference);
    PaymentLeavesOthers(lex, s, admin, id, reference, now);
    PayKeepsInv(lex, s, admin, id, reference, now);
    var t := ExecPay(lex, s, admin, id, reference, now).store;
    RowIsShown(lex, t, |s.ledger|);
    StampStays(s, t, id);
  }

  /** A seller's withdrawal that may be opened can be approved and then paid by any other admin under a new
      receipt, and ends paid, stamped and booked. */
  lemma WithdrawalCanBePaid(lex: Lexicon, s: Store, seller: Actor, input: Input, admin: Actor, reference: string,
                            now: Time)
    requires Inv(lex, s) && input.typ == Withdraw && MayOpen(lex, s, seller, input, now)
    requires Admin(admin) && admin.id != seller.id
    requires ValidatePaymentReference(lex, reference).Ok?
             && !OutgoingExists(s.ledger, ValidatePaymentReference(lex, reference).value)
    ensures var id := Opened(lex, s, seller, input, now).id;
            var calls := [Call.Open(seller, input, now), Update(admin, id, ApproveWithdrawal, now),
                          Pay(admin, id, reference, now)];
            var t := Run(lex, s, calls);
            && id in t.tickets && t.tickets[id].status == Paid && Shows(t.tickets[id])
            && t.tickets[id].withdrawal.value.approval == Some(Stamp(admin.id, now))
            && |t.ledger| == |s.ledger| + 1 && t.ledger[|s.ledger|] == RowFor(t.tickets[id])
            && t.ledger[|s.ledger|].reference == ValidatePaymentReference(lex, reference).value
  {
    var id := Opened(lex, s, seller, input, now).id;
    var mid := ApprovedStore(lex, s, seller, input, admin, now);
    var first := ExecCreate(lex, s, seller, input, now).store;
    assert mid == ExecUpdate(lex, first, admin, id, ApproveWithdrawal, now).store;
    hide *;
    OpenedAndApproved(lex, s, seller, input, admin, now);
    ApprovedAndPaid(lex, mid, admin, id, reference, now);
    ThreeCalls(lex, s, seller, input, admin, id, reference, now);
  }

  lemma PutIsThere(s: Store, rec: Record)
    ensures rec.id in Put(s, rec).tickets && Put(s, rec).tickets[rec.id] == rec && Put(s, rec).ledger == s.ledger
  {
  }

  lemma ApprovedIsPayable(lex: Lexicon, s: Store, admin: Actor, id: string, reference: string)
    requires id in s.tickets && s.tickets[id].typ == Withdraw && s.tickets[id].status == Approved
    requires Admin(admin) && admin.id != s.tickets[id].openerId
    requires ValidatePaymentReference(lex, reference).Ok?
             && !OutgoingExists(s.ledger, ValidatePaymentReference(lex, reference).value)
    ensures Payable(lex, s, admin, id, reference)
  {
    hide ValidatePaymentReference;
  }

  lemma RowIsShown(lex: Lexicon, t: Store, i: nat)
    requires Inv(lex, t) && i < |t.ledger|
    ensures t.ledger[i].ticketId in t.tickets && Shows(t.tickets[t.ledger[i].ticketId])
    ensures t.ledger[i] == RowFor(t.tickets[t.ledger[i].ticketId])
  {
  }

  lemma StampStays(s: Store, t: Store, id: string)
    requires TicketsEvolve(s, t) && id in s.tickets && s.tickets[id].withdrawal.Some?
    requires s.tickets[id].withdrawal.value.approval.Some?
    ensures id in t.tickets && t.tickets[id].withdrawal.Some?
    ensures t.tickets[id].withdrawal.value.approval == s.tickets[id].withdrawal.value.approval
  {
    assert Evolves(s.tickets[id], t.tickets[id]);
  }

  lemma ThreeCalls(lex: Lexicon, s: Store, seller: Actor, input: Input, admin: Actor, id: string, reference: string,
                   now: Time)
    ensures var first := ExecCreate(lex, s, seller, input, now).store;
            var approved := ExecUpdate(lex, first, admin, id, ApproveWithdrawal, now).store;
            Run(lex, s, [Call.Open(seller, input, now), Update(admin, id, ApproveWithdrawal, now),
                         Pay(admin, id, reference, now)])
            == ExecPay(lex, approved, admin, id, reference, now).store
  {
    hide ExecCreate, ExecUpdate, ExecPay;
    var c1, c2 := Call.Open(seller, input, now), Update(admin, id, ApproveWithdrawal, now);
    var c3 := Pay(admin, id, reference, now);
    TwoCalls(lex, s, c1, c2);
    assert [c1, c2, c3][..2] == [c1, c2];
  }

  lemma OneTicketChanges(lex: Lexicon, s: Store, actor: Actor, id: string, action: Action, reference: string, now: Time)
    requires Inv(lex, s) && id in s.tickets
    ensures var t := ExecUpdate(lex, s, actor, id, action, now).store;
            id in t.tickets && t.tickets == s.tickets[id := t.tickets[id]] && t.counter == s.counter
    ensures var t := ExecPay(lex, s, actor, id, reference, now).store;
            id in t.tickets && t.tickets == s.tickets[id := t.tickets[id]] && t.counter == s.counter
  {
    hide *;
    ExecUpdateCases(lex, s, actor, id, action, now);
    ExecPayCases(lex, s, actor, id, reference, now);
    InvGood(lex, s, id);
    var u := ExecUpdate(lex, s, actor, id, action, now);
    if u.result.Ok? {
      DecideKeeps(lex, s.tickets[id], actor, action, now);
      FollowsKeepsId(s.tickets[id], u.result.value);
      PutShape(s, u.result.value);
    }
    var p := ExecPay(lex, s, actor, id, reference, now);
    if p.result.Ok? {
      PayKeeps(lex, s.tickets[id], actor, reference, now, ListOpen(s) + ListByOpener(s, s.tickets[id].openerId));
      FollowsKeepsId(s.tickets[id], p.result.value);
      CommitShape(s, p.result.value);
      CommitCounts(s, p.result.value);
    }
  }

  lemma PutShape(s: Store, rec: Record)
    ensures Put(s, rec).tickets == s.tickets[rec.id := rec] && Put(s, rec).counter == s.counter
  {
  }

  lemma CommitCounts(s: Store, next: Record)
    requires Shows(next) && SavePayment(s, next, RowFor(next)).Ok?
    ensures SavePayment(s, next, RowFor(next)).value.counter == s.counter
  {
  }

  /** The calls of a withdrawal from its opening to its payment. */
  function PathOf(lex: Lexicon, s: Store, seller: Actor, input: Input, admin: Actor, reference: string,
                  now: Time): seq<Call>
    requires DraftTicket(lex, seller, input).Ok?
  {
    var id := Opened(lex, s, seller, input, now).id;
    [Call.Open(seller, input, now), Update(admin, id, ApproveWithdrawal, now), Pay(admin, id, reference, now)]
  }

  lemma SameCoreAlong(s: Store, t: Store, u: Store, id: string)
    requires TicketsEvolve(s, t) && TicketsEvolve(t, u) && id in s.tickets
    ensures id in u.tickets && SameCore(s.tickets[id], u.tickets[id])
  {
    TicketsEvolveTransitive(s, t, u);
    assert Evolves(s.tickets[id], u.tickets[id]);
  }

  lemma ApproveThenPay(lex: Lexicon, s: Store, id: string, admin: Actor, reference: string, now: Time)
    requires Inv(lex, s) && id in s.tickets
    ensures var mid := ExecUpdate(lex, s, admin, id, ApproveWithdrawal, now).store;
            var t := ExecPay(lex, mid, admin, id, reference, now).store;
            && Inv(lex, t) && id in t.tickets && t.tickets == s.tickets[id := t.tickets[id]]
            && t.counter == s.counter && SameCore(s.tickets[id], t.tickets[id])
  {
    hide *;
    UpdateKeepsInv(lex, s, admin, id, ApproveWithdrawal, now);
    OneTicketChanges(lex, s, admin, id, ApproveWithdrawal, reference, now);
    var mid := ExecUpdate(lex, s, admin, id, ApproveWithdrawal, now).store;
    PayKeepsInv(lex, mid, admin, id, reference, now);
    OneTicketChanges(lex, mid, admin, id, ApproveWithdrawal, reference, now);
    SameCoreAlong(s, mid, ExecPay(lex, mid, admin, id, reference, now).store, id);
  }

  lemma PathIsCalls(lex: Lexicon, s: Store, seller: Actor, input: Input, admin: Actor, reference: string, now: Time)
    requires DraftTicket(lex, seller, input).Ok?
    ensures var id := Opened(lex, s, seller, input, now).id;
            Run(lex, s, PathOf(lex, s, seller, input, admin, reference, now))
            == ExecPay(lex, ApprovedStore(lex, s, seller, input, admin, now), admin, id, reference, now).store
  {
    ThreeCalls(lex, s, seller, input, admin, Opened(lex, s, seller, input, now).id, reference, now);
    hide Opened, Run, ExecPay, ExecUpdate, ExecCreate, DraftTicket;
  }

  /** The path adds its ticket, with what it was opened with, and changes no other. */
  lemma PathAddsOne(lex: Lexicon, s: Store, seller: Actor, input: Input, admin: Actor, reference: string, now: Time)
    requires Inv(lex, s) && input.typ == Withdraw && MayOpen(lex, s, seller, input, now)
    ensures var rec := Opened(lex, s, seller, input, now);
            var t := Run(lex, s, PathOf(lex, s, seller, input, admin, reference, now));
            && rec.id in t.tickets && t.tickets == s.tickets[rec.id := t.tickets[rec.id]]
            && SameCore(rec, t.tickets[rec.id]) && Inv(lex, t) && t.counter == s.counter + 1
            && rec.openerId == seller.id
  {
    hide *;
    MayOpenMeans(lex, s, seller, input, now);
    PathIsCalls(lex, s, seller, input, admin, reference, now);
    ApprovedStoreIs(lex, s, seller, input, admin, now);
    Opening(lex, s, seller, input, now);
    CreateKeepsInv(lex, s, seller, input, now);
    var rec := Opened(lex, s, seller, input, now);
    PutShape(s.(counter := s.counter + 1), rec);
    ApproveThenPay(lex, ExecCreate(lex, s, seller, input, now).store, rec.id, admin, reference, now);
  }
}
