/** The ticket service with many calls in flight: every read, check and write is a step of its own, so a
    call may save a record computed from a row that has changed since (modules/ticket/service.go). */
module Interleaving {
  import opened Wrappers
  import opened Catalog
  import opened Validation
  import opened Records
  import opened Store
  import TicketId

  /** What a call in flight remembers. */
  datatype Phase =
    // an update that has read base and decided next, before Save
    | Saving(base: Record, actor: Actor, action: Action, now: Time, next: Record)
    // a payment that has read the ticket
    | PayRead(base: Record, actor: Actor, reference: string)
    // a payment that has decided next, before OutgoingExists
    | PayDecided(base: Record, actor: Actor, reference: string, now: Time, next: Record)
    // a payment whose receipt was not booked when it looked, before SavePayment
    | PayChecked(base: Record, actor: Actor, reference: string, now: Time, next: Record)
    // a new ticket that has passed the limit on the rows it listed, before NextSeq
    | Listed(actor: Actor, input: Input)
    // a new ticket with its number, before Save
    | Numbered(rec: Record)

  datatype Sys = Sys(store: Store, calls: map<nat, Phase>)

  /** k names the call; others and existing are whatever the list queries returned. */
  datatype ServiceStep =
    | BeginUpdate(k: nat, actor: Actor, id: string, action: Action, now: Time)
    | BeginPay(k: nat, actor: Actor, id: string, reference: string)
    | DecidePay(k: nat, others: seq<Record>, now: Time)
    | CheckPay(k: nat)
    | CommitPay(k: nat)
    | BeginCreate(k: nat, actor: Actor, input: Input, existing: seq<Record>)
    | TakeNumber(k: nat, now: Time)
    | CommitSave(k: nat)
    | Abandon(k: nat)

  function Finish(y: Sys, k: nat): Sys {
    y.(calls := y.calls - {k})
  }

  function Advance(y: Sys, k: nat, p: Phase): Sys {
    y.(calls := y.calls[k := p])
  }

  function StepUpdate(lex: Lexicon, y: Sys, k: nat, actor: Actor, id: string, action: Action, now: Time): Sys {
    if k in y.calls || id !in y.store.tickets then y
    else
      var base := y.store.tickets[id];
      var next := Decide(lex, base, actor, action, now);
      if next.Err? then y else Advance(y, k, Saving(base, actor, action, now, next.value))
  }

  function StepDecidePay(lex: Lexicon, y: Sys, k: nat, others: seq<Record>, now: Time): Sys {
    if k !in y.calls || !y.calls[k].PayRead? then y
    else
      var p := y.calls[k];
      var next := DecidePayment(lex, p.base, p.actor, p.reference, now, others);
      if next.Err? then Finish(y, k)
      else Advance(y, k, PayDecided(p.base, p.actor, p.reference, now, next.value))
  }

  function StepCheckPay(y: Sys, k: nat): Sys {
    if k !in y.calls || !y.calls[k].PayDecided? || !Shows(y.calls[k].next) then y
    else
      var p := y.calls[k];
      if OutgoingExists(y.store.ledger, p.next.withdrawal.value.outgoing.value.reference) then Finish(y, k)
      else Advance(y, k, PayChecked(p.base, p.actor, p.reference, p.now, p.next))
  }

  function StepCommitPay(y: Sys, k: nat): Sys {
    if k !in y.calls || !y.calls[k].PayChecked? || !Shows(y.calls[k].next) then y
    else
      var saved := SavePayment(y.store, y.calls[k].next, RowFor(y.calls[k].next));
      if saved.Err? then Finish(y, k) else Finish(y, k).(store := saved.value)
  }

  function StepCreate(lex: Lexicon, y: Sys, k: nat, actor: Actor, input: Input, existing: seq<Record>): Sys {
    if k in y.calls || DraftTicket(lex, actor, input).Err? || ActiveLimit(existing, actor.id, input.typ).Some?
       || !HasOtherAdmin(actor)
    then y
    else Advance(y, k, Listed(actor, input))
  }

  function StepTakeNumber(lex: Lexicon, y: Sys, k: nat, now: Time): Sys {
    if k !in y.calls || !y.calls[k].Listed? then y
    else
      var p := y.calls[k];
      var draft := DraftTicket(lex, p.actor, p.input);
      if draft.Err? then y
      else
        var number := y.store.counter + 1;
        Advance(y, k, Numbered(BuildTicket(draft.value, p.actor, p.input, number, now)))
          .(store := y.store.(counter := number))
  }

  /** The record a call is about to save. */
  function Pending(p: Phase): Option<Record> {
    match p
    case Saving(_, _, _, _, next) => Some(next)
    case Numbered(rec) => Some(rec)
    case _ => None
  }

  function StepCommitSave(y: Sys, k: nat): Sys {
    if k !in y.calls || Pending(y.calls[k]).None? then y
    else
      var saved := Save(y.store, Pending(y.calls[k]).value);
      if saved.Err? then Finish(y, k) else Finish(y, k).(store := saved.value)
  }

  function StepBeginPay(y: Sys, k: nat, actor: Actor, id: string, reference: string): Sys {
    if k in y.calls || id !in y.store.tickets || RequireAdmin(actor, y.store.tickets[id]).Some? then y
    else Advance(y, k, PayRead(y.store.tickets[id], actor, reference))
  }

  /** One step; an event that does not apply changes nothing. */
  function Step(lex: Lexicon, y: Sys, e: ServiceStep): Sys {
    match e
    case BeginUpdate(k, actor, id, action, now) => StepUpdate(lex, y, k, actor, id, action, now)
    case BeginPay(k, actor, id, reference) => StepBeginPay(y, k, actor, id, reference)
    case DecidePay(k, others, now) => StepDecidePay(lex, y, k, others, now)
    case CheckPay(k) => StepCheckPay(y, k)
    case CommitPay(k) => StepCommitPay(y, k)
    case BeginCreate(k, actor, input, existing) => StepCreate(lex, y, k, actor, input, existing)
    case TakeNumber(k, now) => StepTakeNumber(lex, y, k, now)
    case CommitSave(k) => StepCommitSave(y, k)
    case Abandon(k) => Finish(y, k)
  }

  function RunSteps(lex: Lexicon, y: Sys, events: seq<ServiceStep>): Sys {
    if events == [] then y else Step(lex, RunSteps(lex, y, events[..|events| - 1]), events[|events| - 1])
  }

  const START := Sys(EMPTY, map[])

  // The invariant

  ghost predicate OfStored(lex: Lexicon, s: Store, rec: Record) {
    rec.id in s.tickets && SameCore(s.tickets[rec.id], rec) && Good(lex, rec)
  }

  ghost predicate PhaseOk(lex: Lexicon, s: Store, p: Phase) {
    match p
    case Saving(_, _, _, _, next) => OfStored(lex, s, next) && Backed(s.ledger, next)
    case PayRead(base, _, _) => OfStored(lex, s, base) && Backed(s.ledger, base)
    case PayDecided(_, _, _, _, next) => OfStored(lex, s, next) && Shows(next)
    case PayChecked(_, _, _, _, next) => OfStored(lex, s, next) && Shows(next)
    case Listed(actor, input) => DraftTicket(lex, actor, input).Ok?
    case Numbered(rec) =>
      Good(lex, rec) && !Shows(rec) && rec.id !in s.tickets && 1 <= TicketId.Serial(rec.id) <= s.counter
  }

  ghost predicate NumbersDiffer(calls: map<nat, Phase>) {
    forall a, b :: a in calls && b in calls && a != b && calls[a].Numbered? && calls[b].Numbered? ==>
      TicketId.Serial(calls[a].rec.id) != TicketId.Serial(calls[b].rec.id)
  }

  ghost predicate AllPhasesOk(lex: Lexicon, y: Sys) {
    forall k :: k in y.calls ==> PhaseOk(lex, y.store, y.calls[k])
  }

  ghost predicate SysInv(lex: Lexicon, y: Sys) {
    Sound(lex, y.store) && AllPhasesOk(lex, y) && NumbersDiffer(y.calls)
  }

  /** The tables only grow, and what was fixed at creation stays. */
  ghost predicate Grows(s: Store, t: Store) {
    && s.counter <= t.counter && s.ledger <= t.ledger
    && forall id :: id in s.tickets ==> id in t.tickets && SameCore(s.tickets[id], t.tickets[id])
  }

  lemma GrowsReflexive(s: Store)
    ensures Grows(s, s)
  {
  }

  lemma GrowsTransitive(s: Store, t: Store, u: Store)
    requires Grows(s, t) && Grows(t, u)
    ensures Grows(s, u)
  {
    assert forall id :: id in s.tickets ==> id in t.tickets && SameCore(s.tickets[id], t.tickets[id]);
  }

  lemma OfStoredGrows(lex: Lexicon, s: Store, t: Store, rec: Record)
    requires Grows(s, t) && OfStored(lex, s, rec)
    ensures OfStored(lex, t, rec)
  {
    assert SameCore(s.tickets[rec.id], t.tickets[rec.id]);
  }

  lemma PhaseOkGrows(lex: Lexicon, s: Store, t: Store, p: Phase)
    requires Grows(s, t) && PhaseOk(lex, s, p)
    requires p.Numbered? ==> p.rec.id !in t.tickets
    ensures PhaseOk(lex, t, p)
  {
    hide Good, SameCore, OfStored, RowFor, DraftTicket;
    match p
    case Saving(_, _, _, _, next) => OfStoredGrows(lex, s, t, next); BackedGrows(s.ledger, t.ledger, next);
    case PayRead(base, _, _) => OfStoredGrows(lex, s, t, base); BackedGrows(s.ledger, t.ledger, base);
    case PayDecided(_, _, _, _, next) => OfStoredGrows(lex, s, t, next);
    case PayChecked(_, _, _, _, next) => OfStoredGrows(lex, s, t, next);
    case Listed(_, _) =>
    case Numbered(_) =>
  }

  lemma BackedGrows(ledger: seq<Row>, more: seq<Row>, rec: Record)
    requires ledger <= more && Backed(ledger, rec)
    ensures Backed(more, rec)
  {
    if Shows(rec) {
      var i :| 0 <= i < |ledger| && ledger[i] == RowFor(rec);
      assert more[i] == RowFor(rec);
    }
  }

  // Steps that only move calls

  lemma AdvanceKeeps(lex: Lexicon, y: Sys, k: nat, p: Phase)
    requires SysInv(lex, y) && PhaseOk(lex, y.store, p) && !p.Numbered?
    ensures SysInv(lex, Advance(y, k, p)) && Grows(y.store, Advance(y, k, p).store)
  {
    hide Sound, PhaseOk, SameCore;
    GrowsReflexive(y.store);
  }

  lemma FinishKeeps(lex: Lexicon, y: Sys, k: nat)
    requires SysInv(lex, y)
    ensures SysInv(lex, Finish(y, k)) && Grows(y.store, Finish(y, k).store)
  {
    hide Sound, PhaseOk, SameCore;
    GrowsReflexive(y.store);
  }

  lemma StoredIsOk(lex: Lexicon, s: Store, id: string)
    requires Sound(lex, s) && id in s.tickets
    ensures OfStored(lex, s, s.tickets[id]) && Good(lex, s.tickets[id]) && Backed(s.ledger, s.tickets[id])
    ensures s.tickets[id].id == id
  {
  }

  lemma FollowsStored(lex: Lexicon, s: Store, base: Record, next: Record)
    requires OfStored(lex, s, base) && Follows(base, next) && Good(lex, next)
    ensures OfStored(lex, s, next)
  {
  }

  lemma DecidedIsBacked(lex: Lexicon, ledger: seq<Row>, rec: Record, actor: Actor, action: Action, now: Time)
    requires Good(lex, rec) && Backed(ledger, rec) && Decide(lex, rec, actor, action, now).Ok?
    ensures Backed(ledger, Decide(lex, rec, actor, action, now).value)
  {
    DecideKeeps(lex, rec, actor, action, now);
    if rec.withdrawal.Some? {
      DecideNeverPays(lex, rec, actor, action, now);
    }
  }

  lemma UpdateStepKeeps(lex: Lexicon, y: Sys, k: nat, actor: Actor, id: string, action: Action, now: Time)
    requires SysInv(lex, y)
    ensures var z := StepUpdate(lex, y, k, actor, id, action, now); SysInv(lex, z) && Grows(y.store, z.store)
  {
    hide Sound, AllPhasesOk, NumbersDiffer, Decide, SameCore, Good, Follows, Backed, OfStored;
    GrowsReflexive(y.store);
    if k !in y.calls && id in y.store.tickets && Decide(lex, y.store.tickets[id], actor, action, now).Ok? {
      var base := y.store.tickets[id];
      StoredIsOk(lex, y.store, id);
      DecideKeeps(lex, base, actor, action, now);
      DecidedIsBacked(lex, y.store.ledger, base, actor, action, now);
      var next := Decide(lex, base, actor, action, now).value;
      FollowsStored(lex, y.store, base, next);
      AdvanceKeeps(lex, y, k, Saving(base, actor, action, now, next));
    }
  }

  lemma PhaseOkAt(lex: Lexicon, y: Sys, k: nat)
    requires SysInv(lex, y) && k in y.calls
    ensures PhaseOk(lex, y.store, y.calls[k])
  {
  }

  lemma DecidePayStepKeeps(lex: Lexicon, y: Sys, k: nat, others: seq<Record>, now: Time)
    requires SysInv(lex, y)
    ensures var z := StepDecidePay(lex, y, k, others, now); SysInv(lex, z) && Grows(y.store, z.store)
  {
    hide Sound, AllPhasesOk, NumbersDiffer, DecidePayment, SameCore, Good, Follows, Backed, OfStored;
    GrowsReflexive(y.store);
    if k in y.calls && y.calls[k].PayRead? {
      var p := y.calls[k];
      PhaseOkAt(lex, y, k);
      FinishKeeps(lex, y, k);
      if DecidePayment(lex, p.base, p.actor, p.reference, now, others).Ok? {
        OfStoredIsGood(lex, y.store, p.base);
        PayKeeps(lex, p.base, p.actor, p.reference, now, others);
        var next := DecidePayment(lex, p.base, p.actor, p.reference, now, others).value;
        FollowsStored(lex, y.store, p.base, next);
        GoodPaidShows(lex, next);
        AdvanceKeeps(lex, y, k, PayDecided(p.base, p.actor, p.reference, now, next));
      }
    }
  }

  lemma OfStoredIsGood(lex: Lexicon, s: Store, rec: Record)
    requires OfStored(lex, s, rec)
    ensures Good(lex, rec)
  {
  }

  lemma GoodPaidShows(lex: Lexicon, rec: Record)
    requires Good(lex, rec) && rec.status == Paid
    ensures Shows(rec)
  {
  }

  lemma CheckPayStepKeeps(lex: Lexicon, y: Sys, k: nat)
    requires SysInv(lex, y)
    ensures var z := StepCheckPay(y, k); SysInv(lex, z) && Grows(y.store, z.store)
  {
    hide Sound, AllPhasesOk, NumbersDiffer, SameCore, Good, OfStored, OutgoingExists;
    GrowsReflexive(y.store);
    if k in y.calls && y.calls[k].PayDecided? && Shows(y.calls[k].next) {
      var p := y.calls[k];
      PhaseOkAt(lex, y, k);
      FinishKeeps(lex, y, k);
      AdvanceKeeps(lex, y, k, PayChecked(p.base, p.actor, p.reference, p.now, p.next));
    }
  }

  lemma CreateStepKeeps(lex: Lexicon, y: Sys, k: nat, actor: Actor, input: Input, existing: seq<Record>)
    requires SysInv(lex, y)
    ensures var z := StepCreate(lex, y, k, actor, input, existing); SysInv(lex, z) && Grows(y.store, z.store)
  {
    hide Sound, AllPhasesOk, NumbersDiffer, DraftTicket, ActiveLimit, HasOtherAdmin, SameCore;
    GrowsReflexive(y.store);
    if k !in y.calls && DraftTicket(lex, actor, input).Ok? {
      AdvanceKeeps(lex, y, k, Listed(actor, input));
    }
  }

  lemma BeginPayStepKeeps(lex: Lexicon, y: Sys, k: nat, actor: Actor, id: string, reference: string)
    requires SysInv(lex, y)
    ensures var z := StepBeginPay(y, k, actor, id, reference); SysInv(lex, z) && Grows(y.store, z.store)
  {
    hide Sound, AllPhasesOk, NumbersDiffer, SameCore, Good, OfStored, Backed, RequireAdmin;
    GrowsReflexive(y.store);
    if k !in y.calls && id in y.store.tickets {
      StoredIsOk(lex, y.store, id);
      AdvanceKeeps(lex, y, k, PayRead(y.store.tickets[id], actor, reference));
    }
  }

  // Steps that write

  /** After a write that lets the tables grow without touching a pending number, the other calls stay ok. */
  lemma WriteKeeps(lex: Lexicon, y: Sys, k: nat, t: Store)
    requires SysInv(lex, y) && Sound(lex, t) && Grows(y.store, t)
    requires forall j :: j in y.calls && j != k && y.calls[j].Numbered? ==> y.calls[j].rec.id !in t.tickets
    ensures SysInv(lex, Finish(y, k).(store := t))
  {
    hide Sound, PhaseOk, Grows;
    forall j | j in y.calls && j != k
      ensures PhaseOk(lex, t, y.calls[j])
    {
      PhaseOkGrows(lex, y.store, t, y.calls[j]);
    }
  }

  lemma PutGrows(s: Store, next: Record)
    requires next.id in s.tickets ==> SameCore(s.tickets[next.id], next)
    ensures Grows(s, Put(s, next))
  {
  }

  lemma SavePaymentGrows(s: Store, next: Record)
    requires next.id in s.tickets && SameCore(s.tickets[next.id], next)
    requires Shows(next) && SavePayment(s, next, RowFor(next)).Ok?
    ensures Grows(s, SavePayment(s, next, RowFor(next)).value)
    ensures SavePayment(s, next, RowFor(next)).value.tickets.Keys == s.tickets.Keys
  {
  }

  lemma CommitPayStepKeeps(lex: Lexicon, y: Sys, k: nat)
    requires SysInv(lex, y)
    ensures var z := StepCommitPay(y, k); SysInv(lex, z) && Grows(y.store, z.store)
  {
    hide SysInv, Sound, SavePayment, SameCore, Good, RowFor, Grows;
    GrowsReflexive(y.store);
    if k in y.calls && y.calls[k].PayChecked? && Shows(y.calls[k].next) {
      var next := y.calls[k].next;
      FinishKeeps(lex, y, k);
      PhaseOkAt(lex, y, k);
      if SavePayment(y.store, next, RowFor(next)).Ok? {
        var t := SavePayment(y.store, next, RowFor(next)).value;
        SysIsSound(lex, y);
        SavePaymentKeepsSound(lex, y.store, next);
        SavePaymentGrows(y.store, next);
        NumbersAreFresh(lex, y);
        WriteKeeps(lex, y, k, t);
      }
    }
  }

  lemma SysIsSound(lex: Lexicon, y: Sys)
    requires SysInv(lex, y)
    ensures Sound(lex, y.store)
  {
  }

  lemma NumbersAreFresh(lex: Lexicon, y: Sys)
    requires SysInv(lex, y)
    ensures forall j :: j in y.calls && y.calls[j].Numbered? ==> y.calls[j].rec.id !in y.store.tickets
    ensures forall a, b :: a in y.calls && b in y.calls && a != b && y.calls[a].Numbered? && y.calls[b].Numbered?
              ==> y.calls[a].rec.id != y.calls[b].rec.id
  {
    forall j | j in y.calls && y.calls[j].Numbered?
      ensures y.calls[j].rec.id !in y.store.tickets
    {
      PhaseOkAt(lex, y, j);
    }
  }

  lemma PendingMayReplace(lex: Lexicon, y: Sys, k: nat)
    requires SysInv(lex, y) && k in y.calls && Pending(y.calls[k]).Some?
    ensures var next := Pending(y.calls[k]).value;
            && Good(lex, next) && Backed(y.store.ledger, next) && MayReplace(y.store, next)
            && (next.id in y.store.tickets ==> SameCore(y.store.tickets[next.id], next))
            && (y.calls[k].Saving? ==> next.id in y.store.tickets)
  {
    PhaseOkAt(lex, y, k);
  }

  lemma CommitSaveStepKeeps(lex: Lexicon, y: Sys, k: nat)
    requires SysInv(lex, y)
    ensures var z := StepCommitSave(y, k); SysInv(lex, z) && Grows(y.store, z.store)
  {
    hide SysInv, Sound, SameCore, Good, Grows, Backed, MayReplace, ThreadTaken;
    GrowsReflexive(y.store);
    if k in y.calls && Pending(y.calls[k]).Some? {
      var next := Pending(y.calls[k]).value;
      FinishKeeps(lex, y, k);
      PendingMayReplace(lex, y, k);
      if Save(y.store, next).Ok? {
        SysIsSound(lex, y);
        SaveKeepsSound(lex, y.store, next);
        PutGrows(y.store, next);
        NumbersAreFresh(lex, y);
        WriteKeeps(lex, y, k, Put(y.store, next));
      }
    }
  }

  lemma TakeNumberStepKeeps(lex: Lexicon, y: Sys, k: nat, now: Time)
    requires SysInv(lex, y)
    ensures var z := StepTakeNumber(lex, y, k, now); SysInv(lex, z) && Grows(y.store, z.store)
  {
    hide Sound, PhaseOk, SameCore, Good, Grows, DraftTicket, BuildTicket;
    GrowsReflexive(y.store);
    if k in y.calls && y.calls[k].Listed? && DraftTicket(lex, y.calls[k].actor, y.calls[k].input).Ok? {
      var p := y.calls[k];
      var t := y.store.(counter := y.store.counter + 1);
      var rec := BuildTicket(DraftTicket(lex, p.actor, p.input).value, p.actor, p.input, t.counter, now);
      CounterKeepsSound(lex, y.store);
      CounterGrows(y.store);
      BuildTicketGood(lex, p.actor, p.input, t.counter, now);
      SerialsBelow(lex, y, rec.id);
      NewNumberOk(lex, t, rec);
      NumbersAreFresh(lex, y);
      WriteKeeps(lex, y, k, t);
      var z := StepTakeNumber(lex, y, k, now);
      assert z == Sys(t, y.calls[k := Numbered(rec)]);
      forall j | j in z.calls
        ensures PhaseOk(lex, t, z.calls[j])
      {
        if j != k {
          assert j in (y.calls - {k}) && (y.calls - {k})[j] == z.calls[j];
        }
      }
    }
  }

  lemma CounterGrows(s: Store)
    ensures Grows(s, s.(counter := s.counter + 1))
  {
  }

  /** Every number in use is at most the counter. */
  lemma SerialsBelow(lex: Lexicon, y: Sys, id: string)
    requires SysInv(lex, y) && TicketId.Serial(id) == y.store.counter + 1
    ensures id !in y.store.tickets
    ensures forall j :: j in y.calls && y.calls[j].Numbered? ==>
              TicketId.Serial(y.calls[j].rec.id) != TicketId.Serial(id)
  {
    forall j | j in y.calls && y.calls[j].Numbered?
      ensures TicketId.Serial(y.calls[j].rec.id) <= y.store.counter
    {
      PhaseOkAt(lex, y, j);
    }
  }

  lemma NewNumberOk(lex: Lexicon, t: Store, rec: Record)
    requires Good(lex, rec) && !Shows(rec) && rec.id !in t.tickets && TicketId.Serial(rec.id) == t.counter >= 1
    ensures PhaseOk(lex, t, Numbered(rec))
  {
  }

  lemma StepKeeps(lex: Lexicon, y: Sys, e: ServiceStep)
    requires SysInv(lex, y)
    ensures SysInv(lex, Step(lex, y, e)) && Grows(y.store, Step(lex, y, e).store)
  {
    hide SysInv, Grows, StepUpdate, StepBeginPay, StepDecidePay, StepCheckPay, StepCommitPay, StepCreate,
         StepTakeNumber, StepCommitSave, Finish;
    match e
    case BeginUpdate(k, actor, id, action, now) => UpdateStepKeeps(lex, y, k, actor, id, action, now);
    case BeginPay(k, actor, id, reference) => BeginPayStepKeeps(lex, y, k, actor, id, reference);
    case DecidePay(k, others, now) => DecidePayStepKeeps(lex, y, k, others, now);
    case CheckPay(k) => CheckPayStepKeeps(lex, y, k);
    case CommitPay(k) => CommitPayStepKeeps(lex, y, k);
    case BeginCreate(k, actor, input, existing) => CreateStepKeeps(lex, y, k, actor, input, existing);
    case TakeNumber(k, now) => TakeNumberStepKeeps(lex, y, k, now);
    case CommitSave(k) => CommitSaveStepKeeps(lex, y, k);
    case Abandon(k) => FinishKeeps(lex, y, k);
  }

  /** Under every interleaving of any number of calls the invariant holds and the tables only grow. */
  lemma {:induction false} RunStepsKeeps(lex: Lexicon, y: Sys, events: seq<ServiceStep>)
    requires SysInv(lex, y)
    ensures SysInv(lex, RunSteps(lex, y, events)) && Grows(y.store, RunSteps(lex, y, events).store)
  {
    hide SysInv, Grows, Step;
    GrowsReflexive(y.store);
    if events != [] {
      var mid := RunSteps(lex, y, events[..|events| - 1]);
      RunStepsKeeps(lex, y, events[..|events| - 1]);
      StepKeeps(lex, mid, events[|events| - 1]);
      GrowsTransitive(y.store, mid.store, RunSteps(lex, y, events).store);
    }
  }

  lemma StartInv(lex: Lexicon)
    ensures SysInv(lex, START)
  {
  }
}
