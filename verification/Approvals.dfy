/** One ticket under successive calls: when a paid withdrawal carries an approval, and what a closed
    ticket still lets through (modules/ticket/withdrawal.go, record.go). */
module Approvals {
  import opened Wrappers
  import opened Catalog
  import opened Validation
  import opened Records
  import opened Store

  datatype Op =
    | Act(actor: Actor, action: Action, now: Time)
    | PayWith(payer: Actor, reference: string, paidAt: Time, others: seq<Record>)

  function Apply(lex: Lexicon, rec: Record, op: Op): Result<Record, TicketError> {
    match op
    case Act(actor, action, now) => Decide(lex, rec, actor, action, now)
    case PayWith(actor, reference, now, others) => DecidePayment(lex, rec, actor, reference, now, others)
  }

  /** The record after calls that all succeed, or None. */
  function ApplyAll(lex: Lexicon, rec: Record, ops: seq<Op>): Option<Record> {
    if ops == [] then Some(rec)
    else
      var mid := ApplyAll(lex, rec, ops[..|ops| - 1]);
      if mid.None? then None
      else
        var next := Apply(lex, mid.value, ops[|ops| - 1]);
        if next.Err? then None else Some(next.value)
  }

  /** Approving through the generic status change, which leaves no stamp. */
  predicate IsGenericApproval(op: Op) {
    op.Act? && op.action == Transition(Approved)
  }

  ghost predicate GenericallyApproved(ops: seq<Op>) {
    exists i :: 0 <= i < |ops| && IsGenericApproval(ops[i])
  }

  ghost predicate Stamped(rec: Record) {
    rec.withdrawal.Some? && rec.withdrawal.value.approval.Some?
  }

  /** Where a withdrawal stands that was, or was not, approved generically. */
  ghost predicate StampIs(rec: Record, generic: bool) {
    && (rec.status == Open ==> !Stamped(rec) && !generic)
    && (rec.status in {Approved, Paid} || Shows(rec) ==> (Stamped(rec) <==> !generic))
  }

  ghost predicate StampState(rec: Record, ops: seq<Op>) {
    StampIs(rec, GenericallyApproved(ops))
  }

  lemma ApplyKeeps(lex: Lexicon, rec: Record, op: Op)
    requires Good(lex, rec) && Apply(lex, rec, op).Ok?
    ensures Good(lex, Apply(lex, rec, op).value) && Follows(rec, Apply(lex, rec, op).value)
  {
    hide Good, Follows, Decide, DecidePayment;
    match op
    case Act(actor, action, now) => DecideKeeps(lex, rec, actor, action, now);
    case PayWith(actor, reference, now, others) => PayKeeps(lex, rec, actor, reference, now, others);
  }

  /** How one call moves a withdrawal among open, approved and paid. */
  lemma ApplyOnWithdrawal(lex: Lexicon, rec: Record, op: Op)
    requires rec.typ == Withdraw && rec.workflow == WithdrawalV1 && rec.withdrawal.Some? && Apply(lex, rec, op).Ok?
    ensures var next := Apply(lex, rec, op).value;
            && (next.status == Open ==> rec.status == Open && Stamped(next) == Stamped(rec) && !IsGenericApproval(op))
            && (next.status == Approved ==>
                || (rec.status == Open && (Stamped(next) <==> !IsGenericApproval(op) || Stamped(rec)))
                || (rec.status == Approved && Stamped(next) == Stamped(rec) && !IsGenericApproval(op)))
            && (next.status == Paid ==>
                rec.status in {Approved, Paid} && Stamped(next) == Stamped(rec) && !IsGenericApproval(op))
            && (next.status == Closed ==>
                Stamped(next) == Stamped(rec) && Shows(next) == Shows(rec) && !IsGenericApproval(op))
  {
    hide ValidateTicketText, ValidatePaymentReference, ValidResolution, ShowsReference;
  }

  lemma OneCall(lex: Lexicon, rec: Record, op: Op, generic: bool)
    requires Good(lex, rec) && rec.typ == Withdraw && StampIs(rec, generic) && Apply(lex, rec, op).Ok?
    ensures StampIs(Apply(lex, rec, op).value, generic || IsGenericApproval(op))
  {
    GoodWithdrawal(lex, rec);
    ApplyOnWithdrawal(lex, rec, op);
    ApplyKeeps(lex, rec, op);
    PaidOrClosed(lex, Apply(lex, rec, op).value);
    hide Good, Apply, Follows, Stamped;
  }

  lemma PaidOrClosed(lex: Lexicon, rec: Record)
    requires Good(lex, rec)
    ensures Shows(rec) ==> rec.status in {Paid, Closed}
  {
  }

  lemma GenericallyApprovedAppend(ops: seq<Op>, op: Op)
    ensures GenericallyApproved(ops + [op]) <==> GenericallyApproved(ops) || IsGenericApproval(op)
  {
    if GenericallyApproved(ops) {
      var i :| 0 <= i < |ops| && IsGenericApproval(ops[i]);
      assert (ops + [op])[i] == ops[i];
    }
    assert (ops + [op])[|ops|] == op;
  }

  lemma {:induction false} StampStateHolds(lex: Lexicon, rec: Record, ops: seq<Op>)
    requires Good(lex, rec) && rec.typ == Withdraw && rec.workflow == WithdrawalV1 && rec.status == Open
               && !Stamped(rec)
    requires ApplyAll(lex, rec, ops).Some?
    ensures var end := ApplyAll(lex, rec, ops).value;
            && Good(lex, end) && SameCore(rec, end) && StampState(end, ops)
  {
    hide Good, Apply;
    if ops != [] {
      var front, op := ops[..|ops| - 1], ops[|ops| - 1];
      StampStateHolds(lex, rec, front);
      var mid := ApplyAll(lex, rec, front).value;
      ApplyKeeps(lex, mid, op);
      OneCall(lex, mid, op, GenericallyApproved(front));
      assert ops == front + [op];
      GenericallyApprovedAppend(front, op);
    } else {
      PaidOrClosed(lex, rec);
    }
  }

  lemma GoodWithdrawal(lex: Lexicon, rec: Record)
    requires Good(lex, rec) && rec.typ == Withdraw
    ensures rec.withdrawal.Some? && rec.workflow == WithdrawalV1
  {
  }

  /** A withdrawal that shows a payment, closed or not, carries an approval stamp if and only if none of the
      calls approved it through the generic status change, the guard the bot's dispatcher puts before
      Transition. */
  lemma PaidIsStampedIff(lex: Lexicon, rec: Record, ops: seq<Op>)
    requires Good(lex, rec) && rec.typ == Withdraw && rec.status == Open && !Stamped(rec)
    requires ApplyAll(lex, rec, ops).Some?
             && (ApplyAll(lex, rec, ops).value.status in {Approved, Paid} || Shows(ApplyAll(lex, rec, ops).value))
    ensures Stamped(ApplyAll(lex, rec, ops).value) <==>
              forall i :: 0 <= i < |ops| ==> !(ops[i].Act? && ops[i].action == Transition(Approved))
  {
    GoodWithdrawal(lex, rec);
    StampStateHolds(lex, rec, ops);
    hide Good, ApplyAll;
    assert forall i :: 0 <= i < |ops| ==>
             (IsGenericApproval(ops[i]) <==> ops[i].Act? && ops[i].action == Transition(Approved));
  }

  lemma GenericApproval(lex: Lexicon, rec: Record, admin: Actor, now: Time)
    requires Good(lex, rec) && rec.typ == Withdraw && rec.status == Open && RequireAdmin(admin, rec).None?
    ensures var r := Apply(lex, rec, Act(admin, Transition(Approved), now));
            && r.Ok? && r.value.status == Approved && r.value.withdrawal == rec.withdrawal && r.value.typ == rec.typ
            && r.value.workflow == rec.workflow && r.value.openerId == rec.openerId && !Shows(rec)
  {
    GoodWithdrawal(lex, rec);
  }

  /** A closed ticket is not immutable: of all calls exactly a claim of an unassigned ticket, a handoff to
      another admin and a valid resolution still succeed on it. */
  lemma ClosedAdmitsExactly(lex: Lexicon, rec: Record, op: Op)
    requires Good(lex, rec) && rec.status == Closed
    ensures Apply(lex, rec, op).Ok? <==>
              && op.Act? && !op.actor.isBot && op.actor.id !in {"", rec.openerId}
              && (op.actor.id == op.actor.ownerId || op.actor.isAdmin)
              && match op.action
                 case Claim => rec.assignedTo.None? || rec.assignedTo.value == ""
                 case Handoff(target, reason) =>
                   && target in op.actor.availableAdmins && target !in {"", rec.openerId, op.actor.id}
                   && ValidateTicketText(lex, reason).Ok?
                 case SetResolution(note) => ValidateTicketText(lex, note).Ok?
                 case _ => false
  {
    if op.Act? && op.action.Transition? && CanTransition(rec.typ, rec.workflow, rec.status, op.action.to) {
      TransitionStaysInGraph(rec.typ, rec.workflow, rec.status, op.action.to);
    }
  }
}
