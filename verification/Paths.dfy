/** Every log is a path of its workflow: each status change starts from the status the log had reached and follows an
    edge, so what a graph requires before a status has happened before it (modules/ticket/workflow.go). */
module Paths {
  import opened Wrappers
  import opened Catalog
  import opened Validation
  import opened Records
  import opened Store
  import opened SequentialRuns
  import opened Interleaving
  import opened RecordInvariants
  import opened Effects

  /** Event i moves along an edge from the status reached by then, if it moves at all. */
  ghost predicate MovesAt(rec: Record, i: nat)
    requires i < |rec.history|
  {
    var reached := Fold(rec.history[..i]).status;
    match rec.history[i].kind
    case StatusChanged(from, to) => from == reached && CanTransition(rec.typ, rec.workflow, from, to)
    case WithdrawPaid => reached == Approved
    case Created => i == 0
    case _ => true
  }

  ghost predicate IsPath(rec: Record) {
    |rec.history| > 0 && rec.history[0].kind == Created && forall i :: 0 <= i < |rec.history| ==> MovesAt(rec, i)
  }

  lemma PathNext(rec: Record, next: Record, e: Event)
    requires IsPath(rec) && next.history == rec.history + [e] && e.kind != Created
    requires next.typ == rec.typ && next.workflow == rec.workflow
    requires e.kind.StatusChanged? ==>
               e.kind.from == Fold(rec.history).status && CanTransition(rec.typ, rec.workflow, e.kind.from, e.kind.to)
    requires e.kind == WithdrawPaid ==> Fold(rec.history).status == Approved
    ensures IsPath(next)
  {
    hide CanTransition, Fold;
    forall i | 0 <= i < |next.history|
      ensures MovesAt(next, i)
    {
      if i < |rec.history| {
        assert next.history[..i] == rec.history[..i] && MovesAt(rec, i);
      } else {
        assert next.history[..i] == rec.history;
      }
    }
  }

  lemma StatusReached(lex: Lexicon, rec: Record)
    requires Good(lex, rec)
    ensures Fold(rec.history).status == rec.status
  {
  }

  lemma AdmittedMoves(lex: Lexicon, rec: Record, actor: Actor, action: Action, now: Time)
    requires Good(lex, rec) && Decide(lex, rec, actor, action, now).Ok?
    ensures action.Transition? ==> CanTransition(rec.typ, rec.workflow, rec.status, action.to)
    ensures action.ApproveWithdrawal? ==>
              rec.status == Status.Open && CanTransition(rec.typ, rec.workflow, Status.Open, Approved)
  {
    DecidedExactly(lex, rec, actor, action, now);
    if rec.typ == Withdraw {
      OpenWithdrawal(lex, rec);
    }
    hide Good, Decide, MayAct;
  }

  lemma LoggedKind(rec: Record, actor: Actor, action: Action, now: Time, e: Event)
    requires Logs(e, rec, actor, action, now)
    ensures e.kind != Created && e.kind != WithdrawPaid
    ensures e.kind.StatusChanged? ==>
              (action.Transition? && e.kind == StatusChanged(rec.status, action.to))
              || (action.ApproveWithdrawal? && e.kind == StatusChanged(Status.Open, Approved))
  {
  }

  lemma SameForm(rec: Record, next: Record)
    requires Follows(rec, next)
    ensures next.typ == rec.typ && next.workflow == rec.workflow
  {
  }

  lemma DecisionIsPath(lex: Lexicon, rec: Record, actor: Actor, action: Action, now: Time)
    requires Good(lex, rec) && IsPath(rec) && Decide(lex, rec, actor, action, now).Ok?
    ensures IsPath(Decide(lex, rec, actor, action, now).value)
  {
    hide *;
    var next := Decide(lex, rec, actor, action, now).value;
    StatusReached(lex, rec);
    DecisionEffect(lex, rec, actor, action, now);
    DecideKeeps(lex, rec, actor, action, now);
    SameForm(rec, next);
    AdmittedMoves(lex, rec, actor, action, now);
    var e := next.history[|rec.history|];
    LoggedKind(rec, actor, action, now, e);
    assert next.history == rec.history + [e];
    PathNext(rec, next, e);
  }

  lemma PaymentIsPath(lex: Lexicon, rec: Record, actor: Actor, reference: string, now: Time, others: seq<Record>)
    requires Good(lex, rec) && IsPath(rec) && DecidePayment(lex, rec, actor, reference, now, others).Ok?
    ensures IsPath(DecidePayment(lex, rec, actor, reference, now, others).value)
  {
    hide *;
    StatusReached(lex, rec);
    PaymentMade(lex, rec, actor, reference, now, others);
    PayKeeps(lex, rec, actor, reference, now, others);
    PathNext(rec, DecidePayment(lex, rec, actor, reference, now, others).value,
             Event(now, WithdrawPaid, actor.id, "", "", "OUT-" + rec.id));
  }

  lemma NewTicketIsPath(draft: Draft, actor: Actor, input: Input, number: nat, now: Time)
    ensures IsPath(BuildTicket(draft, actor, input, number, now))
  {
  }

  lemma PathsAreInductive(lex: Lexicon)
    ensures Inductive(lex, rec => IsPath(rec))
  {
    hide *;
    forall actor, input, number, now | DraftTicket(lex, actor, input).Ok?
      ensures IsPath(BuildTicket(DraftTicket(lex, actor, input).value, actor, input, number, now))
    {
      NewTicketIsPath(DraftTicket(lex, actor, input).value, actor, input, number, now);
    }
    forall rec, actor, action, now | Good(lex, rec) && IsPath(rec) && Decide(lex, rec, actor, action, now).Ok?
      ensures IsPath(Decide(lex, rec, actor, action, now).value)
    {
      DecisionIsPath(lex, rec, actor, action, now);
    }
    forall rec, actor, reference, now, others
      | Good(lex, rec) && IsPath(rec) && DecidePayment(lex, rec, actor, reference, now, others).Ok?
      ensures IsPath(DecidePayment(lex, rec, actor, reference, now, others).value)
    {
      PaymentIsPath(lex, rec, actor, reference, now, others);
    }
    InductiveMeans(lex, rec => IsPath(rec));
  }

  /** Under every interleaving the log of every stored ticket is a path of its workflow, from its creation to its
      status. */
  lemma LogsArePaths(lex: Lexicon, events: seq<ServiceStep>, id: string)
    requires id in RunSteps(lex, START, events).store.tickets
    ensures var rec := RunSteps(lex, START, events).store.tickets[id];
            IsPath(rec) && Fold(rec.history).status == rec.status
  {
    hide *;
    PathsAreInductive(lex);
    HoldsInEveryInterleaving(lex, rec => IsPath(rec), events);
    StoredIsGood(lex, events, id);
    StatusReached(lex, RunSteps(lex, START, events).store.tickets[id]);
  }

  lemma StoredIsGood(lex: Lexicon, events: seq<ServiceStep>, id: string)
    requires id in RunSteps(lex, START, events).store.tickets
    ensures Good(lex, RunSteps(lex, START, events).store.tickets[id])
  {
    hide RunSteps, Good, SysInv;
    StartInv(lex);
    RunStepsKeeps(lex, START, events);
    SysIsSound(lex, RunSteps(lex, START, events));
    StoredIsOk(lex, RunSteps(lex, START, events).store, id);
  }

  /** The log has a change from one status to another. */
  ghost predicate Moved(rec: Record, from: Status, to: Status) {
    exists i :: 0 <= i < |rec.history| && rec.history[i].kind == StatusChanged(from, to)
  }

  lemma ReachedBy(rec: Record, n: nat)
    requires IsPath(rec) && 0 < n <= |rec.history|
    ensures var before, now := Fold(rec.history[..n - 1]).status, Fold(rec.history[..n]).status;
            match rec.history[n - 1].kind
            case StatusChanged(from, to) =>
              from == before && to == now && CanTransition(rec.typ, rec.workflow, before, now)
            case WithdrawPaid => before == Approved && now == Paid
            case Created => now == Status.Open
            case _ => now == before
  {
    assert rec.history[..n][..n - 1] == rec.history[..n - 1];
    assert MovesAt(rec, n - 1);
    hide CanTransition;
  }

  /** On a transaction: delivery is entered from a confirmed payment only. */
  lemma DeliveryEdges(rec: Record, from: Status, to: Status)
    requires rec.workflow == TransactionV1 && CanTransition(rec.typ, rec.workflow, from, to)
    requires to in {PaymentConfirmed, DeliveryPending, DeliverySubmitted, BuyerReview}
    ensures from in {PaymentConfirmed, DeliveryPending, DeliverySubmitted, BuyerReview}
            || (from == PaymentPending && to == PaymentConfirmed)
  {
  }

  lemma {:induction false} DeliveryReached(rec: Record, n: nat)
    requires IsPath(rec) && rec.workflow == TransactionV1 && n <= |rec.history|
    requires Fold(rec.history[..n]).status in {PaymentConfirmed, DeliveryPending, DeliverySubmitted, BuyerReview}
    ensures Moved(rec, PaymentPending, PaymentConfirmed)
  {
    if n > 0 {
      ReachedBy(rec, n);
      var e := rec.history[n - 1];
      hide Fold, IsPath, CanTransition;
      if e.kind.StatusChanged? {
        DeliveryEdges(rec, e.kind.from, e.kind.to);
      }
      if e.kind != StatusChanged(PaymentPending, PaymentConfirmed) {
        DeliveryReached(rec, n - 1);
      }
    }
  }

  lemma WithdrawalEdges(rec: Record, from: Status, to: Status)
    requires rec.workflow == WithdrawalV1 && CanTransition(rec.typ, rec.workflow, from, to)
    ensures to == Approved ==> from == Status.Open
    ensures to != Paid
  {
  }

  lemma {:induction false} PaidReached(rec: Record, n: nat)
    requires IsPath(rec) && rec.workflow == WithdrawalV1 && n <= |rec.history|
    requires Fold(rec.history[..n]).status in {Approved, Paid}
    ensures Moved(rec, Status.Open, Approved)
  {
    if n > 0 {
      ReachedBy(rec, n);
      var e := rec.history[n - 1];
      hide Fold, IsPath, CanTransition;
      if e.kind.StatusChanged? {
        WithdrawalEdges(rec, e.kind.from, e.kind.to);
      }
      if e.kind != StatusChanged(Status.Open, Approved) {
        PaidReached(rec, n - 1);
      }
    }
  }

  /** The log has an outcome: resolved, cancelled, rejected, or paid. */
  ghost predicate Decided(rec: Record) {
    exists i :: 0 <= i < |rec.history| && IsOutcome(rec.history[i].kind)
  }

  predicate IsOutcome(kind: EventKind) {
    match kind
    case StatusChanged(_, to) => to in {Resolved, Cancelled, Rejected}
    case WithdrawPaid => true
    case _ => false
  }

  lemma ClosingEdges(rec: Record, from: Status, to: Status)
    requires CanTransition(rec.typ, rec.workflow, from, to) && to in {Resolved, Cancelled, Rejected, Paid, Closed}
    ensures to in {Resolved, Cancelled, Rejected} || from in {Resolved, Cancelled, Rejected, Paid}
  {
  }

  lemma {:induction false} ClosedReached(rec: Record, n: nat)
    requires IsPath(rec) && n <= |rec.history|
    requires Fold(rec.history[..n]).status in {Resolved, Cancelled, Rejected, Paid, Closed}
    ensures Decided(rec)
  {
    if n > 0 {
      ReachedBy(rec, n);
      var e := rec.history[n - 1];
      hide Fold, IsPath, CanTransition;
      if e.kind.StatusChanged? {
        ClosingEdges(rec, e.kind.from, e.kind.to);
      }
      if !IsOutcome(e.kind) {
        ClosedReached(rec, n - 1);
      }
    }
  }

  /** Under every interleaving a transaction in delivery or review has a payment confirmed in its log, and a
      withdrawal that is approved or paid the step from open to approved, and a closed ticket an outcome. */
  lemma NothingSkipped(lex: Lexicon, events: seq<ServiceStep>, id: string)
    requires id in RunSteps(lex, START, events).store.tickets
    ensures var rec := RunSteps(lex, START, events).store.tickets[id];
            && (rec.workflow == TransactionV1
                && rec.status in {PaymentConfirmed, DeliveryPending, DeliverySubmitted, BuyerReview} ==>
                Moved(rec, PaymentPending, PaymentConfirmed))
            && (rec.workflow == WithdrawalV1 && rec.status in {Approved, Paid} ==> Moved(rec, Status.Open, Approved))
            && (rec.status == Closed ==> Decided(rec))
  {
    hide RunSteps, Fold, IsPath, Moved, Decided;
    LogsArePaths(lex, events, id);
    var rec := RunSteps(lex, START, events).store.tickets[id];
    assert rec.history[..|rec.history|] == rec.history;
    if rec.workflow == TransactionV1
       && rec.status in {PaymentConfirmed, DeliveryPending, DeliverySubmitted, BuyerReview}
    {
      DeliveryReached(rec, |rec.history|);
    }
    if rec.workflow == WithdrawalV1 && rec.status in {Approved, Paid} {
      PaidReached(rec, |rec.history|);
    }
    if rec.status == Closed {
      ClosedReached(rec, |rec.history|);
    }
  }
}
