/** What the interleaved ticket service guarantees, and what it does not. */
module InterleavedResults {
  import opened Wrappers
  import opened Catalog
  import opened Validation
  import opened Records
  import opened Store
  import opened Totals
  import opened Interleaving
  import SequentialRuns

  // Guarantees, for every sequence of steps of any number of calls

  /** No ticket and no receipt is ever paid twice. */
  lemma NoDoublePayment(lex: Lexicon, events: seq<ServiceStep>, i: nat, j: nat)
    requires i < j < |RunSteps(lex, START, events).store.ledger|
    ensures var ledger := RunSteps(lex, START, events).store.ledger;
            ledger[i].ticketId != ledger[j].ticketId && ledger[i].reference != ledger[j].reference
  {
    hide RunSteps, SysInv, Sound;
    StartInv(lex);
    RunStepsKeeps(lex, START, events);
    var s := RunSteps(lex, START, events).store;
    SysIsSound(lex, RunSteps(lex, START, events));
    if s.ledger[i].ticketId == s.ledger[j].ticketId || s.ledger[i].reference == s.ledger[j].reference {
      OneRowPerTicket(lex, s, i, j);
    }
  }

  /** Every stored payment has its ledger row, agreeing on ticket, seller, amount, currency, receipt, payer
      and time; the payer is not the seller. */
  lemma PaymentsAreProved(lex: Lexicon, events: seq<ServiceStep>, id: string)
    requires var s := RunSteps(lex, START, events).store; id in s.tickets && Shows(s.tickets[id])
    ensures var s := RunSteps(lex, START, events).store;
            var p := s.tickets[id].withdrawal.value.outgoing.value;
            && p.who != p.sellerId && p.ticketId == id
            && Row(p.id, p.ticketId, p.sellerId, p.amountMinor, p.currency, p.reference, p.who, p.at) in s.ledger
  {
    hide RunSteps, SysInv;
    StartInv(lex);
    RunStepsKeeps(lex, START, events);
    SysIsSound(lex, RunSteps(lex, START, events));
    var s := RunSteps(lex, START, events).store;
    assert Backed(s.ledger, s.tickets[id]) && Good(lex, s.tickets[id]);
    assert PaymentMatches(lex, s.tickets[id], s.tickets[id].withdrawal.value.outgoing.value);
  }

  /** Every stored record is sound by itself: its log replays to it and names only others after the
      opener, paid means a payment is present, a payment means paid or closed, approver and payer are not
      the seller, and closed means validly resolved. */
  lemma RecordsStaySound(lex: Lexicon, events: seq<ServiceStep>, id: string)
    requires id in RunSteps(lex, START, events).store.tickets
    ensures var rec := RunSteps(lex, START, events).store.tickets[id];
            && Fold(rec.history) == ViewOf(rec)
            && (forall i :: 0 < i < |rec.history| ==> rec.history[i].who != rec.openerId)
            && (rec.status == Paid ==> Shows(rec))
            && (Shows(rec) ==> rec.status in {Paid, Closed}
                               && rec.withdrawal.value.outgoing.value.who != rec.openerId)
            && (rec.withdrawal.Some? && rec.withdrawal.value.approval.Some? ==>
                rec.withdrawal.value.approval.value.who != rec.openerId)
            && (rec.status == Closed ==>
                rec.resolution.Some? && ValidResolution(lex, rec.resolution.value.text, rec.resolution.value.who))
  {
    hide RunSteps, SysInv;
    StartInv(lex);
    RunStepsKeeps(lex, START, events);
    SysIsSound(lex, RunSteps(lex, START, events));
    assert Good(lex, RunSteps(lex, START, events).store.tickets[id]);
  }

  /** Tickets and ledger rows never disappear, and identity, form, amount, currency, sale reference and
      seller of a ticket are those of its creation. */
  lemma CreationIsBinding(lex: Lexicon, events: seq<ServiceStep>, more: seq<ServiceStep>, id: string)
    requires id in RunSteps(lex, START, events).store.tickets
    ensures var s := RunSteps(lex, START, events).store;
            var t := RunSteps(lex, RunSteps(lex, START, events), more).store;
            && s.ledger <= t.ledger && id in t.tickets && SameCore(s.tickets[id], t.tickets[id])
  {
    hide RunSteps, SysInv, SameCore;
    StartInv(lex);
    RunStepsKeeps(lex, START, events);
    RunStepsKeeps(lex, RunSteps(lex, START, events), more);
  }

  /** A new ticket never overwrites one, whatever was opened meanwhile: its id is free until it is saved, and
      its save adds one row. */
  lemma CreationNeverOverwrites(lex: Lexicon, events: seq<ServiceStep>, k: nat)
    requires var y := RunSteps(lex, START, events); k in y.calls && y.calls[k].Numbered?
    ensures var y := RunSteps(lex, START, events);
            var rec := y.calls[k].rec;
            && rec.id !in y.store.tickets
            && (Save(y.store, rec).Ok? ==>
                var t := StepCommitSave(y, k).store;
                t.tickets == y.store.tickets[rec.id := rec] && t.order == y.store.order + [rec.id])
  {
    hide RunSteps, SysInv, ThreadTaken;
    StartInv(lex);
    RunStepsKeeps(lex, START, events);
    NumbersAreFresh(lex, RunSteps(lex, START, events));
  }

  lemma PaidIdsRequested(lex: Lexicon, s: Store, seller: string, currency: string)
    requires Sound(lex, s)
    ensures Distinct(s.order)
    ensures forall i :: 0 <= i < |s.ledger| ==>
              s.ledger[i].ticketId in s.order
              && PaidTo(seller, currency)(s.ledger[i]) == RequestedBy(s, seller, currency)(s.ledger[i].ticketId)
    ensures forall i, j :: 0 <= i < j < |s.ledger| ==> s.ledger[i].ticketId != s.ledger[j].ticketId
    ensures forall id :: RequestedBy(s, seller, currency)(id) >= 0
  {
    forall i | 0 <= i < |s.ledger|
      ensures s.ledger[i].ticketId in s.order
              && PaidTo(seller, currency)(s.ledger[i]) == RequestedBy(s, seller, currency)(s.ledger[i].ticketId)
    {
      assert RowMatches(s.tickets, s.ledger[i]);
    }
    forall id | id in s.tickets && s.tickets[id].withdrawal.Some?
      ensures s.tickets[id].withdrawal.value.request.amountMinor >= 1
    {
      assert Good(lex, s.tickets[id]);
    }
  }

  /** A seller is never paid more, in any currency, than the seller's tickets asked for. */
  lemma SellerNeverOverpaid(lex: Lexicon, events: seq<ServiceStep>, seller: string, currency: string)
    ensures var s := RunSteps(lex, START, events).store;
            SumRows(s.ledger, PaidTo(seller, currency)) <= SumIds(s.order, RequestedBy(s, seller, currency))
  {
    hide *;
    StartInv(lex);
    RunStepsKeeps(lex, START, events);
    var y := RunSteps(lex, START, events);
    var s := y.store;
    SysIsSound(lex, y);
    PaidIdsRequested(lex, s, seller, currency);
    LedgerAsTickets(s.order, s.ledger, PaidTo(seller, currency), RequestedBy(s, seller, currency));
    OnlyIsAtMost(PaidIds(s.ledger), RequestedBy(s, seller, currency));
    SumIdsAtMost(s.order, Only(PaidIds(s.ledger), RequestedBy(s, seller, currency)), RequestedBy(s, seller, currency));
  }

  lemma OnlyIsAtMost(ids: set<string>, w: string -> int)
    requires forall id :: w(id) >= 0
    ensures forall id :: Only(ids, w)(id) <= w(id)
  {
  }

  // A commit that finds the record it was computed from is an uninterrupted call

  /** Where the record of a call in flight comes from. */
  ghost predicate Decided(lex: Lexicon, p: Phase) {
    match p
    case Saving(base, actor, action, now, next) => Good(lex, base) && Decide(lex, base, actor, action, now) == Ok(next)
    case PayRead(base, _, _) => Good(lex, base)
    case PayDecided(base, actor, reference, now, next) =>
      Good(lex, base) && PayDecision(lex, base, actor, reference, now, next)
    case PayChecked(base, actor, reference, now, next) =>
      Good(lex, base) && PayDecision(lex, base, actor, reference, now, next)
    case Listed(_, _) => true
    case Numbered(rec) => rec.status == Open
  }

  /** next is what a payment makes of base, on some answer of the list queries. */
  ghost predicate PayDecision(lex: Lexicon, base: Record, actor: Actor, reference: string, now: Time, next: Record) {
    exists others: seq<Record> :: DecidePayment(lex, base, actor, reference, now, others) == Ok(next)
  }

  ghost predicate AllDecided(lex: Lexicon, y: Sys) {
    forall k :: k in y.calls ==> Decided(lex, y.calls[k])
  }

  /** A step leaves all calls but its own as they are. */
  lemma OtherCallsStay(lex: Lexicon, y: Sys, e: ServiceStep)
    ensures forall j :: j in Step(lex, y, e).calls && j != e.k ==>
              j in y.calls && Step(lex, y, e).calls[j] == y.calls[j]
  {
    hide Decide, DecidePayment, DraftTicket, BuildTicket, ActiveLimit, SavePayment, Save, RequireAdmin, OutgoingExists,
         HasOtherAdmin, RowFor, Pending;
  }

  lemma DecidedFromStore(lex: Lexicon, y: Sys, e: ServiceStep)
    requires SysInv(lex, y) && (e.BeginUpdate? || e.BeginPay?)
    ensures var z := Step(lex, y, e); e.k !in y.calls && e.k in z.calls ==> Decided(lex, z.calls[e.k])
    ensures e.k in y.calls ==> Step(lex, y, e).calls == y.calls
  {
    if e.id in y.store.tickets {
      SysIsSound(lex, y);
      StoredIsOk(lex, y.store, e.id);
    }
    hide SysInv, Good, Decide, RequireAdmin;
  }

  lemma DecidedPayment(lex: Lexicon, y: Sys, e: ServiceStep)
    requires AllDecided(lex, y) && (e.DecidePay? || e.CheckPay? || e.CommitPay?)
    ensures var z := Step(lex, y, e); e.k in z.calls ==> Decided(lex, z.calls[e.k])
  {
    hide Good, DecidePayment, SavePayment, OutgoingExists, RowFor, Decide;
    if e.k in y.calls {
      assert Decided(lex, y.calls[e.k]);
      if e.DecidePay? && y.calls[e.k].PayRead? {
        var p := y.calls[e.k];
        var next := DecidePayment(lex, p.base, p.actor, p.reference, e.now, e.others);
        assert next.Ok? ==> PayDecision(lex, p.base, p.actor, p.reference, e.now, next.value);
      }
    }
  }

  lemma BuiltOpen(lex: Lexicon, actor: Actor, input: Input, number: nat, now: Time)
    requires DraftTicket(lex, actor, input).Ok?
    ensures var rec := BuildTicket(DraftTicket(lex, actor, input).value, actor, input, number, now);
            rec.status == Open && !Shows(rec)
  {
    hide DraftTicket;
  }

  lemma DecidedNumber(lex: Lexicon, y: Sys, k: nat, now: Time)
    requires AllDecided(lex, y)
    ensures var z := StepTakeNumber(lex, y, k, now); k in z.calls ==> Decided(lex, z.calls[k])
  {
    hide Good, DraftTicket, BuildTicket, Decide, PayDecision;
    if k in y.calls && y.calls[k].Listed? && DraftTicket(lex, y.calls[k].actor, y.calls[k].input).Ok? {
      BuiltOpen(lex, y.calls[k].actor, y.calls[k].input, y.store.counter + 1, now);
    }
  }

  lemma DecidedCreation(lex: Lexicon, y: Sys, e: ServiceStep)
    requires AllDecided(lex, y) && (e.BeginCreate? || e.TakeNumber? || e.CommitSave? || e.Abandon?)
    ensures var z := Step(lex, y, e); e.k in z.calls ==> Decided(lex, z.calls[e.k])
  {
    if e.TakeNumber? {
      DecidedNumber(lex, y, e.k, e.now);
    }
    hide Good, DraftTicket, BuildTicket, ActiveLimit, HasOtherAdmin, Save, Decide, PayDecision, StepTakeNumber;
    assert e.k in y.calls ==> Decided(lex, y.calls[e.k]);
  }

  lemma StepDecided(lex: Lexicon, y: Sys, e: ServiceStep)
    requires SysInv(lex, y) && AllDecided(lex, y)
    ensures AllDecided(lex, Step(lex, y, e))
  {
    hide SysInv, Decided, Step;
    OtherCallsStay(lex, y, e);
    if e.BeginUpdate? || e.BeginPay? {
      DecidedFromStore(lex, y, e);
    } else if e.DecidePay? || e.CheckPay? || e.CommitPay? {
      DecidedPayment(lex, y, e);
    } else {
      DecidedCreation(lex, y, e);
    }
  }

  lemma {:induction false} RunDecided(lex: Lexicon, events: seq<ServiceStep>)
    ensures SysInv(lex, RunSteps(lex, START, events)) && AllDecided(lex, RunSteps(lex, START, events))
  {
    hide AllDecided, Step, SysInv;
    StartInv(lex);
    RunStepsKeeps(lex, START, events);
    if events != [] {
      RunDecided(lex, events[..|events| - 1]);
      StepDecided(lex, RunSteps(lex, START, events[..|events| - 1]), events[|events| - 1]);
    } else {
      StartDecided(lex);
    }
  }

  lemma StartDecided(lex: Lexicon)
    ensures AllDecided(lex, START)
  {
  }

  /** An update whose ticket is unchanged since it was read does what it does without interruption. */
  lemma UnchangedUpdateIsAtomic(lex: Lexicon, events: seq<ServiceStep>, k: nat)
    requires var y := RunSteps(lex, START, events);
             k in y.calls && y.calls[k].Saving? && y.calls[k].base.id in y.store.tickets
             && y.store.tickets[y.calls[k].base.id] == y.calls[k].base
    ensures var y := RunSteps(lex, START, events);
            var p := y.calls[k];
            StepCommitSave(y, k).store == ExecUpdate(lex, y.store, p.actor, p.base.id, p.action, p.now).store
  {
    hide RunSteps, Decide, Save;
    RunDecided(lex, events);
    assert Decided(lex, RunSteps(lex, START, events).calls[k]);
  }

  lemma OthersDoNotMatter(lex: Lexicon, base: Record, actor: Actor, reference: string, now: Time, next: Record,
                          others: seq<Record>)
    requires PayDecision(lex, base, actor, reference, now, next)
    requires Shows(next) && !ShowsReference(others, next.withdrawal.value.outgoing.value.reference)
    ensures DecidePayment(lex, base, actor, reference, now, others) == Ok(next)
  {
    var some: seq<Record> :| DecidePayment(lex, base, actor, reference, now, some) == Ok(next);
  }

  /** Without the receipt in the ledger the uninterrupted payment reaches the same commit; with it, both leave
      the tables alone. */
  lemma PayStoresTheSame(lex: Lexicon, s: Store, base: Record, actor: Actor, reference: string, now: Time, next: Record)
    requires Sound(lex, s) && base.id in s.tickets && s.tickets[base.id] == base
    requires PayDecision(lex, base, actor, reference, now, next) && Shows(next)
    ensures ExecPay(lex, s, actor, base.id, reference, now).store
         == if SavePayment(s, next, RowFor(next)).Ok? then SavePayment(s, next, RowFor(next)).value else s
  {
    var ref := next.withdrawal.value.outgoing.value.reference;
    var others := ListOpen(s) + ListByOpener(s, base.openerId);
    var some: seq<Record> :| DecidePayment(lex, base, actor, reference, now, some) == Ok(next);
    PaidReference(lex, base, actor, reference, now, some);
    hide Sound, DecidePayment, ListOpen, ListByOpener, Select, ThreadTaken, RowFor;
    if !OutgoingExists(s.ledger, ref) {
      ListedAreStored(lex, s, base.openerId);
      BookedNowhere(lex, s, others, ref);
      OthersDoNotMatter(lex, base, actor, reference, now, next, others);
    } else {
      BookedIsRefused(s, next);
      if DecidePayment(lex, base, actor, reference, now, others).Ok? {
        PaidReference(lex, base, actor, reference, now, others);
      }
    }
  }

  lemma BookedIsRefused(s: Store, next: Record)
    requires Shows(next) && OutgoingExists(s.ledger, next.withdrawal.value.outgoing.value.reference)
    ensures SavePayment(s, next, RowFor(next)).Err?
  {
  }

  /** So does a payment, accepted or refused, whatever its list queries and its receipt check saw. */
  lemma UnchangedPayIsAtomic(lex: Lexicon, events: seq<ServiceStep>, k: nat)
    requires var y := RunSteps(lex, START, events);
             k in y.calls && y.calls[k].PayChecked? && y.calls[k].base.id in y.store.tickets
             && y.store.tickets[y.calls[k].base.id] == y.calls[k].base
    ensures var y := RunSteps(lex, START, events);
            var p := y.calls[k];
            StepCommitPay(y, k).store == ExecPay(lex, y.store, p.actor, p.base.id, p.reference, p.now).store
  {
    var y := RunSteps(lex, START, events);
    var p := y.calls[k];
    StartInv(lex);
    RunStepsKeeps(lex, START, events);
    SysIsSound(lex, y);
    RunDecided(lex, events);
    assert Decided(lex, p);
    CheckedShows(lex, y, k);
    hide RunSteps, SysInv, Sound, ExecPay, SavePayment, RowFor, PayDecision;
    PayStoresTheSame(lex, y.store, p.base, p.actor, p.reference, p.now, p.next);
  }

  lemma CheckedShows(lex: Lexicon, y: Sys, k: nat)
    requires SysInv(lex, y) && k in y.calls && y.calls[k].PayChecked?
    ensures Shows(y.calls[k].next)
  {
    PhaseOkAt(lex, y, k);
  }

  // What stale reads do break

  /** A claim decided before a payment and saved after it erases the payment from the ticket and from its log,
      while the ledger row stays. */
  lemma StaleClaimErasesPayment(lex: Lexicon, y: Sys, id: string, a: Actor, b: Actor, reference: string, t1: Time,
                                t2: Time)
    requires SysInv(lex, y) && y.calls == map[] && id in y.store.tickets
    requires var rec := y.store.tickets[id];
             && rec.typ == Withdraw && rec.status == Approved && rec.assignedTo.None?
             && RequireAdmin(a, rec).None? && RequireAdmin(b, rec).None?
             && ValidatePaymentReference(lex, reference).Ok?
             && !OutgoingExists(y.store.ledger, ValidatePaymentReference(lex, reference).value)
             && forall i :: 0 <= i < |y.store.ledger| ==> y.store.ledger[i].ticketId != id
    ensures var others := ListOpen(y.store) + ListByOpener(y.store, y.store.tickets[id].openerId);
            var y1 := Step(lex, y, BeginUpdate(0, a, id, Claim, t1));
            var y2 := Step(lex, y1, BeginPay(1, b, id, reference));
            var y3 := Step(lex, y2, DecidePay(1, others, t2));
            var y4 := Step(lex, y3, CheckPay(1));
            var y5 := Step(lex, y4, CommitPay(1));
            var y6 := Step(lex, y5, CommitSave(0));
            && id in y5.store.tickets && Shows(y5.store.tickets[id])
            && id in y6.store.tickets && !Shows(y6.store.tickets[id]) && y6.store.tickets[id].status == Approved
            && !(y5.store.tickets[id].history <= y6.store.tickets[id].history)
            && |y6.store.ledger| == |y.store.ledger| + 1 && y6.store.ledger[|y.store.ledger|].ticketId == id
  {
    hide *;
    var rec := y.store.tickets[id];
    var others := ListOpen(y.store) + ListByOpener(y.store, rec.openerId);
    ApprovedIsUnpaid(lex, y, id);
    ClaimDecision(lex, rec, a, t1);
    var claimed := ClaimRecord(rec, a.id, t1).value;
    var paid := PaidRecord(rec, b.id, ValidatePaymentReference(lex, reference).value, t2);
    PaymentAccepted(lex, y, id, b, reference, t2);
    var y1 := Step(lex, y, BeginUpdate(0, a, id, Claim, t1));
    DoUpdate(lex, y, 0, a, id, Claim, t1, claimed);
    var y2 := Step(lex, y1, BeginPay(1, b, id, reference));
    DoBeginPay(lex, y1, 1, b, id, reference);
    var y3 := Step(lex, y2, DecidePay(1, others, t2));
    DoDecidePay(lex, y2, 1, rec, b, reference, others, t2, paid);
    var y4 := Step(lex, y3, CheckPay(1));
    DoCheckPay(lex, y3, 1, rec, b, reference, t2, paid);
    var y5 := Step(lex, y4, CommitPay(1));
    DoCommitPay(lex, y4, 1, rec, b, reference, t2, paid);
    ThreadStillFree(lex, y, claimed, paid);
    PendingOf(rec, a, Claim, t1, claimed);
    DoCommitSave(lex, y5, 0, claimed);
    PutLookup(y.store, paid);
    PutLookup(y5.store, claimed);
    LogsPart(rec, a.id, t1, b.id, ValidatePaymentReference(lex, reference).value, t2);
  }

  /** The logs of a claim and of a payment of the same record part ways. */
  lemma LogsPart(rec: Record, a: string, t1: Time, b: string, ref: string, t2: Time)
    requires rec.withdrawal.Some? && ClaimRecord(rec, a, t1).Ok?
    ensures !(PaidRecord(rec, b, ref, t2).history <= ClaimRecord(rec, a, t1).value.history)
  {
    var n := |rec.history|;
    assert PaidRecord(rec, b, ref, t2).history[n].kind == WithdrawPaid;
    assert ClaimRecord(rec, a, t1).value.history[n].kind == Claimed;
  }

  /** A claim decided before a ticket is closed and saved after it opens the ticket again. */
  lemma StaleClaimReopens(lex: Lexicon, y: Sys, id: string, a: Actor, b: Actor, t1: Time, t2: Time)
    requires SysInv(lex, y) && y.calls == map[] && id in y.store.tickets
    requires var rec := y.store.tickets[id];
             && rec.assignedTo.None? && RequireAdmin(a, rec).None?
             && Decide(lex, rec, b, Transition(Closed), t2).Ok?
    ensures var y1 := Step(lex, y, BeginUpdate(0, a, id, Claim, t1));
            var y2 := Step(lex, y1, BeginUpdate(1, b, id, Transition(Closed), t2));
            var y3 := Step(lex, y2, CommitSave(1));
            var y4 := Step(lex, y3, CommitSave(0));
            && id in y3.store.tickets && y3.store.tickets[id].status == Closed
            && id in y4.store.tickets && y4.store.tickets[id].status == y.store.tickets[id].status != Closed
  {
    hide *;
    var rec := y.store.tickets[id];
    ClaimDecision(lex, rec, a, t1);
    var claimed := ClaimRecord(rec, a.id, t1).value;
    var closed := Decide(lex, rec, b, Transition(Closed), t2).value;
    StoredUnderId(lex, y, id);
    ClosingDecision(lex, rec, b, t2);
    var y1 := Step(lex, y, BeginUpdate(0, a, id, Claim, t1));
    DoUpdate(lex, y, 0, a, id, Claim, t1, claimed);
    var y2 := Step(lex, y1, BeginUpdate(1, b, id, Transition(Closed), t2));
    DoUpdate(lex, y1, 1, b, id, Transition(Closed), t2, closed);
    var y3 := Step(lex, y2, CommitSave(1));
    PendingOf(rec, b, Transition(Closed), t2, closed);
    ThreadFree(lex, y.store, closed);
    DoCommitSave(lex, y2, 1, closed);
    PutLookup(y.store, closed);
    PendingOf(rec, a, Claim, t1, claimed);
    ThreadFreeAfter(lex, y.store, closed, claimed);
    DoCommitSave(lex, y3, 0, claimed);
    PutLookup(y3.store, claimed);
  }

  lemma StoredUnderId(lex: Lexicon, y: Sys, id: string)
    requires SysInv(lex, y) && id in y.store.tickets
    ensures Sound(lex, y.store) && y.store.tickets[id].id == id
  {
  }

  lemma ClosingDecision(lex: Lexicon, rec: Record, b: Actor, now: Time)
    requires Decide(lex, rec, b, Transition(Closed), now).Ok?
    ensures var closed := Decide(lex, rec, b, Transition(Closed), now).value;
            closed.id == rec.id && closed.threadId == rec.threadId && closed.status == Closed
    ensures rec.status != Closed
  {
    if CanTransition(rec.typ, rec.workflow, rec.status, Closed) {
      TransitionStaysInGraph(rec.typ, rec.workflow, rec.status, Closed);
    }
  }

  lemma ThreadFreeAfter(lex: Lexicon, s: Store, first: Record, second: Record)
    requires Sound(lex, s) && first.id in s.tickets && second.id == first.id
    requires first.threadId == second.threadId == s.tickets[first.id].threadId
    ensures !ThreadTaken(Put(s, first), second)
  {
  }

  // One step each, when its guard holds.

  lemma DoUpdate(lex: Lexicon, y: Sys, k: nat, actor: Actor, id: string, action: Action, now: Time, next: Record)
    requires k !in y.calls && id in y.store.tickets && Decide(lex, y.store.tickets[id], actor, action, now) == Ok(next)
    ensures Step(lex, y, BeginUpdate(k, actor, id, action, now))
         == Sys(y.store, y.calls[k := Saving(y.store.tickets[id], actor, action, now, next)])
  {
  }

  lemma DoBeginPay(lex: Lexicon, y: Sys, k: nat, actor: Actor, id: string, reference: string)
    requires k !in y.calls && id in y.store.tickets && RequireAdmin(actor, y.store.tickets[id]).None?
    ensures Step(lex, y, BeginPay(k, actor, id, reference))
         == Sys(y.store, y.calls[k := PayRead(y.store.tickets[id], actor, reference)])
  {
  }

  lemma DoDecidePay(lex: Lexicon, y: Sys, k: nat, base: Record, actor: Actor, reference: string, others: seq<Record>,
                    now: Time, next: Record)
    requires k in y.calls && y.calls[k] == PayRead(base, actor, reference)
    requires DecidePayment(lex, base, actor, reference, now, others) == Ok(next)
    ensures Step(lex, y, DecidePay(k, others, now))
         == Sys(y.store, y.calls[k := PayDecided(base, actor, reference, now, next)])
  {
  }

  lemma DoCheckPay(lex: Lexicon, y: Sys, k: nat, base: Record, actor: Actor, reference: string, now: Time, next: Record)
    requires k in y.calls && y.calls[k] == PayDecided(base, actor, reference, now, next) && Shows(next)
    requires !LedgerRefuses(y.store.ledger, RowFor(next))
    ensures Step(lex, y, CheckPay(k)) == Sys(y.store, y.calls[k := PayChecked(base, actor, reference, now, next)])
  {
  }

  lemma DoCommitPay(lex: Lexicon, y: Sys, k: nat, base: Record, actor: Actor, reference: string, now: Time,
                    next: Record)
    requires k in y.calls && y.calls[k] == PayChecked(base, actor, reference, now, next) && Shows(next)
    requires !ThreadTaken(y.store, next) && !LedgerRefuses(y.store.ledger, RowFor(next))
    ensures Step(lex, y, CommitPay(k))
         == Sys(Put(y.store, next).(ledger := y.store.ledger + [RowFor(next)]), y.calls - {k})
  {
  }

  lemma DoCommitSave(lex: Lexicon, y: Sys, k: nat, next: Record)
    requires k in y.calls && Pending(y.calls[k]) == Some(next) && !ThreadTaken(y.store, next)
    ensures Step(lex, y, CommitSave(k)) == Sys(Put(y.store, next), y.calls - {k})
  {
  }

  lemma PendingOf(base: Record, actor: Actor, action: Action, now: Time, next: Record)
    ensures Pending(Saving(base, actor, action, now, next)) == Some(next) && Pending(Numbered(next)) == Some(next)
  {
  }

  lemma PutLookup(s: Store, rec: Record)
    ensures Put(s, rec).tickets == s.tickets[rec.id := rec] && Put(s, rec).ledger == s.ledger
  {
  }

  lemma ApprovedIsUnpaid(lex: Lexicon, y: Sys, id: string)
    requires SysInv(lex, y) && id in y.store.tickets
    requires y.store.tickets[id].typ == Withdraw && y.store.tickets[id].status == Approved
    ensures var rec := y.store.tickets[id];
            rec.id == id && rec.withdrawal.Some? && !Shows(rec) && IsWithdrawal(rec.typ, rec.workflow) && Good(lex, rec)
  {
    assert Good(lex, y.store.tickets[id]);
  }

  lemma ClaimDecision(lex: Lexicon, rec: Record, a: Actor, now: Time)
    requires RequireAdmin(a, rec).None? && rec.assignedTo.None?
    ensures ClaimRecord(rec, a.id, now).Ok?
    ensures var claimed := ClaimRecord(rec, a.id, now).value;
            && Decide(lex, rec, a, Claim, now) == Ok(claimed)
            && claimed.id == rec.id && claimed.threadId == rec.threadId && claimed.status == rec.status
            && Shows(claimed) == Shows(rec)
  {
  }

  /** The payment of an approved ticket under a fresh receipt is decided and committed. */
  lemma PaymentAccepted(lex: Lexicon, y: Sys, id: string, b: Actor, reference: string, now: Time)
    requires SysInv(lex, y) && id in y.store.tickets
    requires var rec := y.store.tickets[id];
             && rec.typ == Withdraw && rec.status == Approved && RequireAdmin(b, rec).None?
             && ValidatePaymentReference(lex, reference).Ok?
             && !OutgoingExists(y.store.ledger, ValidatePaymentReference(lex, reference).value)
             && forall i :: 0 <= i < |y.store.ledger| ==> y.store.ledger[i].ticketId != id
    ensures y.store.tickets[id].withdrawal.Some?
    ensures var rec := y.store.tickets[id];
            var paid := PaidRecord(rec, b.id, ValidatePaymentReference(lex, reference).value, now);
            && DecidePayment(lex, rec, b, reference, now, ListOpen(y.store) + ListByOpener(y.store, rec.openerId))
                 == Ok(paid)
            && Shows(paid) && paid.id == id
            && paid.withdrawal.value.outgoing.value.reference == ValidatePaymentReference(lex, reference).value
            && !ThreadTaken(y.store, paid) && !LedgerRefuses(y.store.ledger, RowFor(paid))
            && RowFor(paid).ticketId == id && paid.threadId == rec.threadId
  {
    ApprovedIsUnpaid(lex, y, id);
    var rec := y.store.tickets[id];
    var paid := PaidRecord(rec, b.id, ValidatePaymentReference(lex, reference).value, now);
    AdminIsSomeoneElse(b, rec);
    ListedAreStored(lex, y.store, rec.openerId);
    BookedNowhere(lex, y.store, ListOpen(y.store) + ListByOpener(y.store, rec.openerId),
                  ValidatePaymentReference(lex, reference).value);
    hide ListOpen, ListByOpener, ShowsReference, OutgoingExists, Good, ValidatePaymentReference;
    ThreadFree(lex, y.store, paid);
    forall i | 0 <= i < |y.store.ledger|
      ensures y.store.ledger[i].publicId != PaymentId(id)
    {
      assert RowMatches(y.store.tickets, y.store.ledger[i]);
      if y.store.ledger[i].publicId == PaymentId(id) {
        SequentialRuns.PaymentIdInjective(y.store.ledger[i].ticketId, id);
      }
    }
  }

  lemma ThreadStillFree(lex: Lexicon, y: Sys, claimed: Record, paid: Record)
    requires SysInv(lex, y) && paid.id == claimed.id && claimed.id in y.store.tickets && Shows(paid)
    requires paid.threadId == claimed.threadId == y.store.tickets[claimed.id].threadId
    ensures !ThreadTaken(Put(y.store, paid).(ledger := y.store.ledger + [RowFor(paid)]), claimed)
  {
  }

  /** Two openings of one member that list the tickets before either saves both succeed, so the limits of
      three tickets and of one per type need uninterrupted calls too. */
  lemma StaleListsExceedQuota(lex: Lexicon, actor: Actor, input: Input, now: Time)
    requires DraftTicket(lex, actor, input).Ok? && HasOtherAdmin(actor) && input.threadId == ""
    ensures var y1 := Step(lex, START, BeginCreate(0, actor, input, []));
            var y2 := Step(lex, y1, BeginCreate(1, actor, input, []));
            var y3 := Step(lex, y2, TakeNumber(0, now));
            var y4 := Step(lex, y3, TakeNumber(1, now));
            var y5 := Step(lex, y4, CommitSave(0));
            var y6 := Step(lex, y5, CommitSave(1));
            !SequentialRuns.WithinQuota(y6.store, actor.id)
  {
    hide *;
    var draft := DraftTicket(lex, actor, input).value;
    var r1 := BuildTicket(draft, actor, input, 1, now);
    var r2 := BuildTicket(draft, actor, input, 2, now);
    BuildTicketGood(lex, actor, input, 1, now);
    BuildTicketGood(lex, actor, input, 2, now);
    BuiltThread(draft, actor, input, 1, now);
    BuiltThread(draft, actor, input, 2, now);
    var y1 := Step(lex, START, BeginCreate(0, actor, input, []));
    StartIsEmpty();
    DoCreate(lex, START, 0, actor, input);
    var y2 := Step(lex, y1, BeginCreate(1, actor, input, []));
    DoCreate(lex, y1, 1, actor, input);
    var y3 := Step(lex, y2, TakeNumber(0, now));
    DoTakeNumber(lex, y2, 0, actor, input, now);
    var y4 := Step(lex, y3, TakeNumber(1, now));
    DoTakeNumber(lex, y3, 1, actor, input, now);
    var y5 := Step(lex, y4, CommitSave(0));
    EmptyHasNoThreads(y4.store, r1);
    PendingOf(r1, actor, Claim, now, r1);
    PendingOf(r2, actor, Claim, now, r2);
    DoCommitSave(lex, y4, 0, r1);
    PutLookup(y4.store, r1);
    var y6 := Step(lex, y5, CommitSave(1));
    OtherThread(y5.store, r1, r2);
    DoCommitSave(lex, y5, 1, r2);
    PutLookup(y5.store, r2);
    TwoOfOneType(y6.store, actor.id, r1, r2);
  }

  lemma StartIsEmpty()
    ensures START.calls == map[] && START.store.tickets == map[] && START.store.counter == 0
  {
  }

  lemma DoCreate(lex: Lexicon, y: Sys, k: nat, actor: Actor, input: Input)
    requires k !in y.calls && DraftTicket(lex, actor, input).Ok? && HasOtherAdmin(actor)
    ensures Step(lex, y, BeginCreate(k, actor, input, [])) == Sys(y.store, y.calls[k := Listed(actor, input)])
  {
    hide DraftTicket, HasOtherAdmin, ActiveLimit;
    NothingIsOpen(actor.id, input.typ);
  }

  lemma NothingIsOpen(member: string, typ: TicketType)
    ensures ActiveLimit([], member, typ).None?
  {
  }

  lemma DoTakeNumber(lex: Lexicon, y: Sys, k: nat, actor: Actor, input: Input, now: Time)
    requires k in y.calls && y.calls[k] == Listed(actor, input) && DraftTicket(lex, actor, input).Ok?
    ensures Step(lex, y, TakeNumber(k, now))
         == Sys(y.store.(counter := y.store.counter + 1),
                y.calls[k := Numbered(BuildTicket(DraftTicket(lex, actor, input).value, actor, input,
                                                  y.store.counter + 1, now))])
  {
    hide DraftTicket, BuildTicket;
  }

  lemma EmptyHasNoThreads(s: Store, rec: Record)
    requires s.tickets == map[]
    ensures !ThreadTaken(s, rec)
  {
  }

  lemma OtherThread(s: Store, r1: Record, r2: Record)
    requires s.tickets == map[r1.id := r1] && r1.threadId != r2.threadId
    ensures !ThreadTaken(s, r2)
  {
  }

  lemma TwoOfOneType(s: Store, member: string, r1: Record, r2: Record)
    requires r1.id in s.tickets && s.tickets[r1.id] == r1 && r2.id in s.tickets && s.tickets[r2.id] == r2
    requires r1.id != r2.id && r1.typ == r2.typ && r1.openerId == r2.openerId == member
    requires r1.status == r2.status == Open
    ensures !SequentialRuns.WithinQuota(s, member)
  {
    assert r1.id in SequentialRuns.OpenIds(s, member) && r2.id in SequentialRuns.OpenIds(s, member);
  }

  lemma BuiltThread(draft: Draft, actor: Actor, input: Input, number: nat, now: Time)
    requires input.threadId == ""
    ensures var rec := BuildTicket(draft, actor, input, number, now); rec.threadId == rec.id
  {
  }
}
