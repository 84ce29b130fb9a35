/** What each call does, when it succeeds, to the stored ticket and its log, and when it succeeds: field by
    field, on the tables (modules/ticket/service.go, record.go, withdrawal.go). */
module Effects {
  import opened Wrappers
  import opened Text
  import opened Catalog
  import opened Validation
  import opened Records
  import opened Store
  import opened SequentialRuns
  import opened PaymentRules
  import opened Totals
  import CardNumber
  import Roles

  /** A text an admin may store: at most 900 bytes, not blank, nothing secret in it. */
  ghost predicate Storable(lex: Lexicon, text: string) {
    && Utf8Len(text) <= 900 && NormalizeText(text) != ""
    && !CardNumber.HasCard(NormalizeText(text), lex.wideDigit) && !lex.otherFinding(NormalizeText(text))
  }

  /** Anyone who may act on the ticket. */
  ghost predicate MayAct(actor: Actor, rec: Record) {
    && !actor.isBot && actor.id != "" && actor.id != rec.openerId
    && (actor.id == actor.ownerId || actor.isAdmin)
  }

  /** A Buyer or a Seller without a restriction. */
  ghost predicate MayBecomeSeller(roles: Option<seq<Roles.RoleName>>) {
    && roles.Some? && Roles.Unrestricted(roles.value)
    && (Roles.HoldsOnly(roles.value, Roles.RoleName.Buyer) || Roles.HoldsOnly(roles.value, Roles.RoleName.Seller))
  }

  ghost predicate Admits(lex: Lexicon, rec: Record, actor: Actor, action: Action, now: Time) {
    match action
    case Claim => rec.assignedTo.None? || rec.assignedTo.value == ""
    case Handoff(target, reason) =>
      target in actor.availableAdmins && target !in {"", rec.openerId, actor.id} && Storable(lex, reason)
    case SetResolution(note) => Storable(lex, note)
    case Transition(to) =>
      CanTransition(rec.typ, rec.workflow, rec.status, to) && (to == Closed ==> rec.resolution.Some?)
    case ApproveWithdrawal => rec.typ == Withdraw && rec.status == Status.Open && rec.openedAt <= now
    case ApproveSeller(reason, roles) =>
      && MayBecomeSeller(roles) && Storable(lex, reason) && rec.typ == SellerVerification
      && rec.status !in {Closed, Cancelled, Resolved} && rec.sellerApproval.None?
  }

  lemma TransitionsAdmitted(lex: Lexicon, rec: Record, actorId: string, to: Status, now: Time)
    requires Good(lex, rec)
    ensures MoveRecord(lex, rec, actorId, to, now).Ok?
            <==> CanTransition(rec.typ, rec.workflow, rec.status, to) && (to == Closed ==> rec.resolution.Some?)
    ensures CanTransition(rec.typ, rec.workflow, rec.status, to) ==> to != Paid
  {
    if CanTransition(rec.typ, rec.workflow, rec.status, to) {
      TransitionStaysInGraph(rec.typ, rec.workflow, rec.status, to);
    }
  }

  lemma DecidedExactly(lex: Lexicon, rec: Record, actor: Actor, action: Action, now: Time)
    requires Good(lex, rec)
    ensures Decide(lex, rec, actor, action, now).Ok? <==> MayAct(actor, rec) && Admits(lex, rec, actor, action, now)
  {
    match action
    case Claim =>
    case Handoff(_, reason) => TextExactly(lex, reason);
    case SetResolution(note) => TextExactly(lex, note);
    case Transition(to) => TransitionsAdmitted(lex, rec, actor.id, to, now);
    case ApproveWithdrawal =>
      if rec.typ == Withdraw {
        OpenWithdrawal(lex, rec);
      }
    case ApproveSeller(reason, roles) =>
      TextExactly(lex, reason);
      Roles.SellerApprovalExactly(roles);
      if rec.typ == SellerVerification {
        SellerWorkflow(lex, rec);
      }
  }

  lemma OpenWithdrawal(lex: Lexicon, rec: Record)
    requires Good(lex, rec) && rec.typ == Withdraw
    ensures rec.workflow == WithdrawalV1 && rec.withdrawal.Some?
    ensures rec.status == Status.Open ==> rec.withdrawal.value.approval.None?
  {
  }

  lemma SellerWorkflow(lex: Lexicon, rec: Record)
    requires Good(lex, rec) && rec.typ == SellerVerification
    ensures rec.workflow == ReviewV1
  {
  }

  /** Exactly when an update succeeds: the ticket is there, the actor may act on it, and the ticket as it stands
      admits the action. No table ever refuses the write. */
  lemma UpdatedExactly(lex: Lexicon, s: Store, actor: Actor, id: string, action: Action, now: Time)
    requires Inv(lex, s)
    ensures ExecUpdate(lex, s, actor, id, action, now).result.Ok?
            <==> && id in s.tickets && MayAct(actor, s.tickets[id]) && Admits(lex, s.tickets[id], actor, action, now)
  {
    hide MayAct, Admits, Decide, Inv, Good, Follows, Sound, ThreadTaken;
    if id in s.tickets {
      var rec := s.tickets[id];
      InvGood(lex, s, id);
      DecidedExactly(lex, rec, actor, action, now);
      if Decide(lex, rec, actor, action, now).Ok? {
        DecideKeeps(lex, rec, actor, action, now);
        FollowsKeepsThread(rec, Decide(lex, rec, actor, action, now).value);
        ThreadFree(lex, s, Decide(lex, rec, actor, action, now).value);
      }
    }
  }

  lemma FollowsKeepsThread(rec: Record, next: Record)
    requires Follows(rec, next)
    ensures next.id == rec.id && next.threadId == rec.threadId
  {
  }

  ghost function TextRefusal(lex: Lexicon, text: string): TicketError {
    if Utf8Len(text) > 900 then ErrTextLength else if NormalizeText(text) == "" then ErrTextEmpty else ErrSensitive
  }

  /** Why an action is refused on a ticket that does not admit it. */
  ghost function Refusal(lex: Lexicon, rec: Record, actor: Actor, action: Action): TicketError {
    match action
    case Claim => ErrAlreadyClaimed
    case Handoff(target, reason) =>
      if target !in actor.availableAdmins || target in {"", rec.openerId, actor.id} then ErrHandoffTarget
      else TextRefusal(lex, reason)
    case SetResolution(note) => TextRefusal(lex, note)
    case Transition(to) =>
      if CanTransition(rec.typ, rec.workflow, rec.status, to) then ErrResolutionMissing else ErrIllegalTransition
    case ApproveWithdrawal => ErrWithdrawalInvalid
    case ApproveSeller(reason, roles) =>
      if !MayBecomeSeller(roles) then ErrNotEligible
      else if rec.typ != SellerVerification then ErrSellerTicket
      else if rec.status in {Closed, Cancelled, Resolved} then ErrIllegalTransition
      else if rec.sellerApproval.Some? then ErrAlreadyApproved
      else TextRefusal(lex, reason)
  }

  lemma DecidedRefusal(lex: Lexicon, rec: Record, actor: Actor, action: Action, now: Time)
    requires Good(lex, rec) && MayAct(actor, rec) && !Admits(lex, rec, actor, action, now)
    ensures Decide(lex, rec, actor, action, now) == Err(Refusal(lex, rec, actor, action))
  {
    match action
    case Claim =>
    case Handoff(_, reason) => TextExactly(lex, reason);
    case SetResolution(note) => TextExactly(lex, note);
    case Transition(to) => TransitionsAdmitted(lex, rec, actor.id, to, now);
    case ApproveWithdrawal =>
      if rec.typ == Withdraw {
        OpenWithdrawal(lex, rec);
      }
    case ApproveSeller(reason, roles) =>
      TextExactly(lex, reason);
      Roles.SellerApprovalExactly(roles);
      if rec.typ == SellerVerification {
        SellerWorkflow(lex, rec);
      }
  }

  /** Otherwise nothing changes, and the answer is the first reason that applies. */
  lemma UpdateRefused(lex: Lexicon, s: Store, actor: Actor, id: string, action: Action, now: Time)
    requires Inv(lex, s) && id in s.tickets && MayAct(actor, s.tickets[id])
    requires !Admits(lex, s.tickets[id], actor, action, now)
    ensures ExecUpdate(lex, s, actor, id, action, now) == Outcome(s, Err(Refusal(lex, s.tickets[id], actor, action)))
  {
    hide MayAct, Admits, Decide, Inv, Good, Refusal;
    InvGood(lex, s, id);
    DecidedRefusal(lex, s.tickets[id], actor, action, now);
  }

  /** The one event a successful update adds. */
  ghost predicate Logs(e: Event, rec: Record, actor: Actor, action: Action, now: Time) {
    && e.at == now && e.who == actor.id && e.mutationId == ""
    && match action
       case Claim => e.kind == Claimed && e.reason == "" && e.memberId == ""
       case Handoff(target, reason) =>
         e.kind == HandedOff && e.reason == NormalizeText(reason) && e.memberId == target
       case SetResolution(_) => e.kind == ResolutionSaved && e.reason == "" && e.memberId == ""
       case Transition(to) => e.kind == StatusChanged(rec.status, to) && e.reason == "" && e.memberId == ""
       case ApproveWithdrawal => e.kind == StatusChanged(Status.Open, Approved) && e.reason == "" && e.memberId == ""
       case ApproveSeller(reason, _) =>
         e.kind == EventKind.SellerApproved && e.reason == NormalizeText(reason) && e.memberId == rec.openerId
  }

  /** What it changes besides the log. */
  ghost function Changed(rec: Record, actor: Actor, action: Action, now: Time): Record {
    match action
    case Claim => rec.(assignedTo := Some(actor.id))
    case Handoff(target, _) => rec.(assignedTo := Some(target))
    case SetResolution(note) => rec.(resolution := Some(Resolution(NormalizeText(note), actor.id, now)))
    case Transition(to) => rec.(status := to, closedAt := if to == Closed then Some(now) else rec.closedAt)
    case ApproveWithdrawal =>
      if rec.withdrawal.None? then rec
      else rec.(status := Approved,
                withdrawal := Some(rec.withdrawal.value.(approval := Some(Stamp(actor.id, now)))))
    case ApproveSeller(_, _) => rec.(sellerApproval := Some(SellerApproval(actor.id, now, rec.openerId)))
  }

  lemma DecisionEffect(lex: Lexicon, rec: Record, actor: Actor, action: Action, now: Time)
    requires Decide(lex, rec, actor, action, now).Ok?
    ensures var next := Decide(lex, rec, actor, action, now).value;
            && |next.history| == |rec.history| + 1 && next.history[..|rec.history|] == rec.history
            && Logs(next.history[|rec.history|], rec, actor, action, now)
            && next.(history := rec.history) == Changed(rec, actor, action, now)
  {
    hide NormalizeText, Sensitive, CanTransition, ValidResolution, Roles.DecideSellerApproval, Utf8Len;
  }

  /** What a successful update changes: one field of one ticket (two when the status moves to closed, or with an
      approval), and the last event of its log; nothing else in the tables. */
  lemma UpdateEffect(lex: Lexicon, s: Store, actor: Actor, id: string, action: Action, now: Time)
    requires Inv(lex, s) && ExecUpdate(lex, s, actor, id, action, now).result.Ok?
    ensures id in s.tickets && id in ExecUpdate(lex, s, actor, id, action, now).store.tickets
    ensures var rec := s.tickets[id];
            var o := ExecUpdate(lex, s, actor, id, action, now);
            var next := o.store.tickets[id];
            && o.result == Ok(next) && o.store == s.(tickets := s.tickets[id := next])
            && |next.history| == |rec.history| + 1 && next.history[..|rec.history|] == rec.history
            && Logs(next.history[|rec.history|], rec, actor, action, now)
            && next.(history := rec.history) == Changed(rec, actor, action, now)
  {
    ExecUpdateCases(lex, s, actor, id, action, now);
    InvGood(lex, s, id);
    DecisionEffect(lex, s.tickets[id], actor, action, now);
    DecideKeeps(lex, s.tickets[id], actor, action, now);
    FollowsKeepsThread(s.tickets[id], ExecUpdate(lex, s, actor, id, action, now).result.value);
    hide Inv, Decide, Good, Follows, Logs, ExecUpdate, NormalizeText;
  }

  // A payment

  lemma PaymentMade(lex: Lexicon, rec: Record, actor: Actor, reference: string, now: Time, others: seq<Record>)
    requires DecidePayment(lex, rec, actor, reference, now, others).Ok?
    ensures rec.withdrawal.Some? && ValidatePaymentReference(lex, reference) == Ok(Upper(TrimSpace(reference)))
    ensures var wd, ref := rec.withdrawal.value, Upper(TrimSpace(reference));
            DecidePayment(lex, rec, actor, reference, now, others).value
            == rec.(status := Paid,
                    withdrawal := Some(wd.(outgoing := Some(
                        Payment("OUT-" + rec.id, rec.id, rec.openerId, wd.request.amountMinor, wd.request.currency,
                                ref, actor.id, now)))),
                    history := rec.history + [Event(now, WithdrawPaid, actor.id, "", "", "OUT-" + rec.id)])
  {
    hide Upper, TrimSpace, Utf8Len, RefPattern, Sensitive, LooksLikeAccount, ShowsReference;
  }

  /** What a successful payment changes: the ticket is paid under the receipt in its canonical spelling, by the
      actor, now, for the amount it asked for, and the ledger has one more row that says the same. */
  lemma PaymentEffect(lex: Lexicon, s: Store, actor: Actor, id: string, reference: string, now: Time)
    requires Inv(lex, s) && ExecPay(lex, s, actor, id, reference, now).result.Ok?
    ensures id in s.tickets && s.tickets[id].withdrawal.Some?
    ensures var rec, ref := s.tickets[id], Upper(TrimSpace(reference));
            var wd := rec.withdrawal.value;
            var p := Payment("OUT-" + id, id, rec.openerId, wd.request.amountMinor, wd.request.currency, ref,
                             actor.id, now);
            var next := rec.(status := Paid, withdrawal := Some(wd.(outgoing := Some(p))),
                             history := rec.history + [Event(now, WithdrawPaid, actor.id, "", "", p.id)]);
            ExecPay(lex, s, actor, id, reference, now)
            == Outcome(s.(tickets := s.tickets[id := next],
                          ledger := s.ledger + [Row(p.id, id, rec.openerId, wd.request.amountMinor,
                                                    wd.request.currency, ref, actor.id, now)]),
                       Ok(next))
  {
    ExecPayCases(lex, s, actor, id, reference, now);
    InvGood(lex, s, id);
    PaymentMade(lex, s.tickets[id], actor, reference, now, ListOpen(s) + ListByOpener(s, s.tickets[id].openerId));
    hide Inv, Good, DecidePayment, ExecPay, Select, ThreadTaken, LedgerRefuses, Upper, TrimSpace;
  }

  /** Why a payment is refused, in the order of the checks. */
  ghost function PaymentRefusal(lex: Lexicon, rec: Record, reference: string): TicketError {
    if rec.typ != Withdraw then ErrNotApproved
    else if Shows(rec) then ErrAlreadyPaid
    else if rec.status != Approved then ErrNotApproved
    else
      match ValidatePaymentReference(lex, reference)
      case Err(e) => e
      case Ok(_) => ErrDuplicatePayment
  }

  lemma UnpayableDecision(lex: Lexicon, rec: Record, actor: Actor, reference: string, now: Time, others: seq<Record>)
    requires Good(lex, rec) && MayAct(actor, rec)
    ensures var decided := DecidePayment(lex, rec, actor, reference, now, others);
            && (decided.Err? ==> decided.error == PaymentRefusal(lex, rec, reference))
            && (decided.Ok? ==> PaymentRefusal(lex, rec, reference) == ErrDuplicatePayment)
  {
    if rec.typ == Withdraw {
      OpenWithdrawal(lex, rec);
    }
    hide Good, ValidatePaymentReference, ShowsReference, NormalizeText;
  }

  /** A payment by someone who may act either is booked or changes nothing, and the answer is the first reason that
      applies; a receipt the ledger has is a duplicate wherever it was found. */
  lemma PaymentRefused(lex: Lexicon, s: Store, actor: Actor, id: string, reference: string, now: Time)
    requires Inv(lex, s) && id in s.tickets && MayAct(actor, s.tickets[id])
    requires !Payable(lex, s, actor, id, reference)
    ensures ExecPay(lex, s, actor, id, reference, now)
         == Outcome(s, Err(PaymentRefusal(lex, s.tickets[id], reference)))
  {
    PaidExactlyWhenPayable(lex, s, actor, id, reference, now);
    InvGood(lex, s, id);
    var others := ListOpen(s) + ListByOpener(s, s.tickets[id].openerId);
    UnpayableDecision(lex, s.tickets[id], actor, reference, now, others);
    if DecidePayment(lex, s.tickets[id], actor, reference, now, others).Ok? {
      PaidReference(lex, s.tickets[id], actor, reference, now, others);
      if !OutgoingExists(s.ledger,
           DecidePayment(lex, s.tickets[id], actor, reference, now, others).value.withdrawal.value.outgoing.value
             .reference)
      {
        CheckedPaymentCommits(lex, s, id, actor, reference, now, others);
      }
    }
    hide Inv, MayAct, Payable, DecidePayment, PaymentRefusal, Select, OutgoingExists, SavePayment,
         ValidatePaymentReference;
  }

  // Over a run

  /** The call gives the ticket to someone. */
  ghost predicate Assigns(lex: Lexicon, s: Store, c: Call, id: string) {
    c.Update? && c.id == id && (c.action.Claim? || c.action.Handoff?) && Exec(lex, s, c).result.Ok?
  }

  /** The actor of the last successful claim of the ticket or the target of the last successful handoff,
      whichever came later. */
  ghost function LastAssignee(lex: Lexicon, calls: seq<Call>, id: string): Option<string> {
    if calls == [] then None
    else
      var front, c := calls[..|calls| - 1], calls[|calls| - 1];
      if Assigns(lex, Run(lex, EMPTY, front), c, id)
      then if c.action.Claim? then Some(c.actor.id) else Some(c.action.target)
      else LastAssignee(lex, front, id)
  }

  /** The text of the last successful resolution of the ticket, its author and time. */
  ghost function LastResolution(lex: Lexicon, calls: seq<Call>, id: string): Option<Resolution> {
    if calls == [] then None
    else
      var front, c := calls[..|calls| - 1], calls[|calls| - 1];
      if c.Update? && c.id == id && c.action.SetResolution? && Exec(lex, Run(lex, EMPTY, front), c).result.Ok?
      then Some(Resolution(NormalizeText(c.action.note), c.actor.id, c.now))
      else LastResolution(lex, front, id)
  }

  /** How one call changes who a ticket is assigned to, and its resolution. */
  lemma CallAssigns(lex: Lexicon, s: Store, c: Call, id: string)
    requires Inv(lex, s)
    ensures var t := Exec(lex, s, c).store;
            && (id in s.tickets ==>
                && id in t.tickets
                && t.tickets[id].assignedTo
                   == (if Assigns(lex, s, c, id)
                       then Some(if c.action.Claim? then c.actor.id else c.action.target)
                       else s.tickets[id].assignedTo)
                && t.tickets[id].resolution
                   == if c.Update? && c.id == id && c.action.SetResolution? && Exec(lex, s, c).result.Ok?
                      then Some(Resolution(NormalizeText(c.action.note), c.actor.id, c.now))
                      else s.tickets[id].resolution)
            && (id !in s.tickets ==>
                && (c.Open? || !Exec(lex, s, c).result.Ok? || c.id != id)
                && (id in t.tickets ==> t.tickets[id].assignedTo.None? && t.tickets[id].resolution.None?))
  {
    hide Inv, ExecCreate, ExecUpdate, ExecPay, NormalizeText;
    match c
    case Open(actor, input, now) => CreationAssigns(lex, s, actor, input, now);
    case Update(actor, uid, action, now) => UpdateAssigns(lex, s, actor, uid, action, now);
    case Pay(actor, uid, reference, now) => PaymentAssigns(lex, s, actor, uid, reference, now);
  }

  lemma UpdateAssigns(lex: Lexicon, s: Store, actor: Actor, id: string, action: Action, now: Time)
    requires Inv(lex, s)
    ensures var o := ExecUpdate(lex, s, actor, id, action, now);
            if o.result.Err? then o.store == s
            else && id in s.tickets && id in o.store.tickets && o.store.tickets == s.tickets[id := o.store.tickets[id]]
                 && o.store.tickets[id].assignedTo
                    == (if action.Claim? then Some(actor.id) else if action.Handoff? then Some(action.target)
                        else s.tickets[id].assignedTo)
                 && o.store.tickets[id].resolution
                    == if action.SetResolution? then Some(Resolution(NormalizeText(action.note), actor.id, now))
                       else s.tickets[id].resolution
  {
    hide Inv, ExecUpdate, Logs, NormalizeText;
    ExecUpdateCases(lex, s, actor, id, action, now);
    if ExecUpdate(lex, s, actor, id, action, now).result.Ok? {
      UpdateEffect(lex, s, actor, id, action, now);
      var rec, next := s.tickets[id], ExecUpdate(lex, s, actor, id, action, now).store.tickets[id];
      assert next.assignedTo == next.(history := rec.history).assignedTo;
      assert next.resolution == next.(history := rec.history).resolution;
      hide Decide, Save;
    }
  }

  lemma PaymentAssigns(lex: Lexicon, s: Store, actor: Actor, id: string, reference: string, now: Time)
    requires Inv(lex, s)
    ensures var o := ExecPay(lex, s, actor, id, reference, now);
            if o.result.Err? then o.store == s
            else && id in s.tickets && id in o.store.tickets && o.store.tickets == s.tickets[id := o.store.tickets[id]]
                 && o.store.tickets[id].assignedTo == s.tickets[id].assignedTo
                 && o.store.tickets[id].resolution == s.tickets[id].resolution
  {
    hide *;
    ExecPayCases(lex, s, actor, id, reference, now);
    if ExecPay(lex, s, actor, id, reference, now).result.Ok? {
      PaymentEffect(lex, s, actor, id, reference, now);
    }
  }

  lemma CreationAssigns(lex: Lexicon, s: Store, actor: Actor, input: Input, now: Time)
    requires Inv(lex, s)
    ensures var o := ExecCreate(lex, s, actor, input, now);
            if o.result.Err? then o.store.tickets == s.tickets
            else && o.result.value.id !in s.tickets
                 && o.store.tickets == s.tickets[o.result.value.id := o.result.value]
                 && o.result.value.assignedTo.None? && o.result.value.resolution.None?
  {
    hide *;
    ExecCreateCases(lex, s, actor, input, now);
    var o := ExecCreate(lex, s, actor, input, now);
    if o.result.Ok? {
      InvSound(lex, s);
      FreshId(lex, s, actor, input, now);
      NewAssigns(DraftTicket(lex, actor, input).value, actor, input, s.counter + 1, now);
      PutIs(s.(counter := s.counter + 1), o.result.value);
    }
  }

  lemma NewAssigns(draft: Draft, actor: Actor, input: Input, number: nat, now: Time)
    ensures var rec := BuildTicket(draft, actor, input, number, now);
            rec.assignedTo.None? && rec.resolution.None?
  {
  }

  lemma PutIs(s: Store, rec: Record)
    ensures Put(s, rec).tickets == s.tickets[rec.id := rec]
  {
  }

  /** Over every run a ticket is assigned to whom the last successful claim or handoff gave it, and carries the
      text of the last successful resolution. */
  lemma {:induction false} AssignedToTheLast(lex: Lexicon, calls: seq<Call>, id: string)
    ensures var s := Run(lex, EMPTY, calls);
            if id in s.tickets
            then s.tickets[id].assignedTo == LastAssignee(lex, calls, id)
                 && s.tickets[id].resolution == LastResolution(lex, calls, id)
            else LastAssignee(lex, calls, id).None? && LastResolution(lex, calls, id).None?
  {
    hide Exec, Inv, NormalizeText;
    if calls != [] {
      var front, c := calls[..|calls| - 1], calls[|calls| - 1];
      AssignedToTheLast(lex, front, id);
      EmptyInv(lex);
      RunKeepsInv(lex, EMPTY, front);
      CallAssigns(lex, Run(lex, EMPTY, front), c, id);
    }
  }

  /** A payment adds what its ticket asked for to the total of that currency, and to no other. */
  lemma PaymentAddsUp(lex: Lexicon, s: Store, actor: Actor, id: string, reference: string, now: Time, currency: string)
    requires Inv(lex, s) && ExecPay(lex, s, actor, id, reference, now).result.Ok?
    ensures id in s.tickets && s.tickets[id].withdrawal.Some?
    ensures var request := s.tickets[id].withdrawal.value.request;
            SumRows(ExecPay(lex, s, actor, id, reference, now).store.ledger, PaidIn(currency))
            == SumRows(s.ledger, PaidIn(currency)) + if request.currency == currency then request.amountMinor else 0
  {
    PaymentEffect(lex, s, actor, id, reference, now);
    hide *;
    var ledger := ExecPay(lex, s, actor, id, reference, now).store.ledger;
    TotalNext(s.ledger, ledger[|s.ledger|], currency);
  }
}
