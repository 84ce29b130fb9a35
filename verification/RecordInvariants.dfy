/** An induction principle for the interleaved service: what holds of every new record, and is kept by every decision
    and every payment, holds of every stored record, however the calls read and write (modules/ticket/service.go). */
module RecordInvariants {
  import opened Wrappers
  import opened Validation
  import opened Records
  import opened Store
  import opened Interleaving
  import opened InterleavedResults
  import opened StaleWrites
  import opened SequentialRuns
  import opened Embedding

  ghost predicate Inductive(lex: Lexicon, p: Record -> bool) {
    && (forall actor, input, number, now :: DraftTicket(lex, actor, input).Ok? ==>
        p(BuildTicket(DraftTicket(lex, actor, input).value, actor, input, number, now)))
    && (forall rec, actor, action, now :: Good(lex, rec) && p(rec) && Decide(lex, rec, actor, action, now).Ok? ==>
        p(Decide(lex, rec, actor, action, now).value))
    && forall rec, actor, reference, now, others ::
      Good(lex, rec) && p(rec) && DecidePayment(lex, rec, actor, reference, now, others).Ok? ==>
        p(DecidePayment(lex, rec, actor, reference, now, others).value)
  }

  lemma InductiveMeans(lex: Lexicon, p: Record -> bool)
    ensures Inductive(lex, p) <==>
              && (forall actor, input, number, now :: DraftTicket(lex, actor, input).Ok? ==>
                  p(BuildTicket(DraftTicket(lex, actor, input).value, actor, input, number, now)))
              && (forall rec, actor, action, now ::
                  Good(lex, rec) && p(rec) && Decide(lex, rec, actor, action, now).Ok? ==>
                    p(Decide(lex, rec, actor, action, now).value))
              && forall rec, actor, reference, now, others ::
                Good(lex, rec) && p(rec) && DecidePayment(lex, rec, actor, reference, now, others).Ok? ==>
                  p(DecidePayment(lex, rec, actor, reference, now, others).value)
  {
    hide DraftTicket, BuildTicket, Decide, DecidePayment, Good;
  }

  // Every record in the tables, read by a call, or about to be written

  ghost predicate HoldsIn(p: Record -> bool, phase: Phase) {
    match phase
    case Saving(base, _, _, _, next) => p(base) && p(next)
    case PayRead(base, _, _) => p(base)
    case PayDecided(base, _, _, _, next) => p(base) && p(next)
    case PayChecked(base, _, _, _, next) => p(base) && p(next)
    case Listed(_, _) => true
    case Numbered(rec) => p(rec)
  }

  ghost predicate HoldsOn(p: Record -> bool, s: Store) {
    forall id :: id in s.tickets ==> p(s.tickets[id])
  }

  ghost predicate Everywhere(p: Record -> bool, y: Sys) {
    HoldsOn(p, y.store) && forall k :: k in y.calls ==> HoldsIn(p, y.calls[k])
  }

  lemma BeginHolds(lex: Lexicon, p: Record -> bool, y: Sys, e: ServiceStep)
    requires Inductive(lex, p) && Everywhere(p, y) && SysInv(lex, y) && (e.BeginUpdate? || e.BeginPay?)
    ensures var z := Step(lex, y, e); e.k in z.calls ==> HoldsIn(p, z.calls[e.k])
  {
    hide SysInv, Good, Inductive, Decide, RequireAdmin, Everywhere, HoldsOn;
    EverywhereMeans(p, y, e.k);
    if e.id in y.store.tickets {
      SysIsSound(lex, y);
      StoredIsOk(lex, y.store, e.id);
      OnTable(p, y, e.id);
      if e.BeginUpdate? && Decide(lex, y.store.tickets[e.id], e.actor, e.action, e.now).Ok? {
        DecisionHolds(lex, p, y.store.tickets[e.id], e.actor, e.action, e.now);
      }
    }
  }

  lemma EverywhereMeans(p: Record -> bool, y: Sys, k: nat)
    requires Everywhere(p, y)
    ensures k in y.calls ==> HoldsIn(p, y.calls[k])
  {
  }

  lemma OnTable(p: Record -> bool, y: Sys, id: string)
    requires Everywhere(p, y) && id in y.store.tickets
    ensures p(y.store.tickets[id])
  {
  }

  lemma DecisionHolds(lex: Lexicon, p: Record -> bool, rec: Record, actor: Actor, action: Action, now: Time)
    requires Inductive(lex, p) && Good(lex, rec) && p(rec) && Decide(lex, rec, actor, action, now).Ok?
    ensures p(Decide(lex, rec, actor, action, now).value)
  {
    hide Good, Decide, DecidePayment, DraftTicket, BuildTicket;
  }

  lemma PaymentHolds(lex: Lexicon, p: Record -> bool, rec: Record, actor: Actor, reference: string, now: Time,
                     others: seq<Record>)
    requires Inductive(lex, p) && Good(lex, rec) && p(rec)
    requires DecidePayment(lex, rec, actor, reference, now, others).Ok?
    ensures p(DecidePayment(lex, rec, actor, reference, now, others).value)
  {
    hide Good, Decide, DecidePayment, DraftTicket, BuildTicket;
  }

  lemma NewHolds(lex: Lexicon, p: Record -> bool, actor: Actor, input: Input, number: nat, now: Time)
    requires Inductive(lex, p) && DraftTicket(lex, actor, input).Ok?
    ensures p(BuildTicket(DraftTicket(lex, actor, input).value, actor, input, number, now))
  {
    hide Good, Decide, DecidePayment, DraftTicket, BuildTicket;
  }

  lemma PayHolds(lex: Lexicon, p: Record -> bool, y: Sys, e: ServiceStep)
    requires Inductive(lex, p) && Everywhere(p, y) && AllDecided(lex, y)
    requires e.DecidePay? || e.CheckPay? || e.CommitPay?
    ensures var z := Step(lex, y, e); e.k in z.calls ==> HoldsIn(p, z.calls[e.k])
  {
    hide Good, Inductive, Decide, DecidePayment, SavePayment, OutgoingExists, RowFor, Everywhere, HoldsOn, PayDecision;
    EverywhereMeans(p, y, e.k);
    if e.DecidePay? && e.k in y.calls && y.calls[e.k].PayRead? {
      var c := y.calls[e.k];
      assert Decided(lex, c);
      if DecidePayment(lex, c.base, c.actor, c.reference, e.now, e.others).Ok? {
        PaymentHolds(lex, p, c.base, c.actor, c.reference, e.now, e.others);
      }
    }
  }

  lemma CreateHolds(lex: Lexicon, p: Record -> bool, y: Sys, e: ServiceStep)
    requires Inductive(lex, p) && Everywhere(p, y)
    requires e.BeginCreate? || e.TakeNumber? || e.CommitSave? || e.Abandon?
    ensures var z := Step(lex, y, e); e.k in z.calls ==> HoldsIn(p, z.calls[e.k])
  {
    hide Inductive, DraftTicket, BuildTicket, ActiveLimit, HasOtherAdmin, Save, Everywhere, HoldsOn;
    EverywhereMeans(p, y, e.k);
    if e.TakeNumber? && e.k in y.calls && y.calls[e.k].Listed? {
      var c := y.calls[e.k];
      if DraftTicket(lex, c.actor, c.input).Ok? {
        NewHolds(lex, p, c.actor, c.input, y.store.counter + 1, e.now);
      }
    }
  }

  lemma WriteHolds(lex: Lexicon, p: Record -> bool, y: Sys, e: ServiceStep)
    requires Everywhere(p, y)
    ensures HoldsOn(p, Step(lex, y, e).store)
  {
    hide *;
    if Written(y, e).None? {
      NothingWritten(lex, y, e);
      TablesAlone(p, y, Step(lex, y, e).store);
    } else {
      RecordWritten(lex, y, e);
      WrittenHolds(p, y, e);
      PutHolds(p, y, Written(y, e).value, Step(lex, y, e).store);
    }
  }

  lemma TablesAlone(p: Record -> bool, y: Sys, t: Store)
    requires Everywhere(p, y) && t.tickets == y.store.tickets
    ensures HoldsOn(p, t)
  {
  }

  lemma WrittenHolds(p: Record -> bool, y: Sys, e: ServiceStep)
    requires Everywhere(p, y) && Written(y, e).Some?
    ensures p(Written(y, e).value)
  {
    assert HoldsIn(p, y.calls[e.k]);
    hide Save, SavePayment, RowFor;
  }

  lemma PutHolds(p: Record -> bool, y: Sys, next: Record, t: Store)
    requires Everywhere(p, y) && p(next)
    requires t == Put(y.store, next) || t == Put(y.store, next).(ledger := t.ledger)
    ensures HoldsOn(p, t)
  {
  }

  lemma StepHolds(lex: Lexicon, p: Record -> bool, y: Sys, e: ServiceStep)
    requires Inductive(lex, p) && Everywhere(p, y) && SysInv(lex, y) && AllDecided(lex, y)
    ensures Everywhere(p, Step(lex, y, e))
  {
    hide SysInv, AllDecided, Inductive, Step, HoldsOn, HoldsIn;
    OtherCallsStay(lex, y, e);
    WriteHolds(lex, p, y, e);
    if e.BeginUpdate? || e.BeginPay? {
      BeginHolds(lex, p, y, e);
    } else if e.DecidePay? || e.CheckPay? || e.CommitPay? {
      PayHolds(lex, p, y, e);
    } else {
      CreateHolds(lex, p, y, e);
    }
  }

  lemma {:induction false} RunHolds(lex: Lexicon, p: Record -> bool, events: seq<ServiceStep>)
    requires Inductive(lex, p)
    ensures Everywhere(p, RunSteps(lex, START, events))
  {
    hide Inductive, Everywhere, Step, SysInv, AllDecided;
    if events == [] {
      StartHolds(p);
    } else {
      var front := events[..|events| - 1];
      RunHolds(lex, p, front);
      RunDecided(lex, front);
      StepHolds(lex, p, RunSteps(lex, START, front), events[|events| - 1]);
    }
  }

  lemma StartHolds(p: Record -> bool)
    ensures Everywhere(p, START)
  {
  }

  /** What is inductive holds of every stored record under every interleaving. */
  lemma HoldsInEveryInterleaving(lex: Lexicon, p: Record -> bool, events: seq<ServiceStep>)
    requires Inductive(lex, p)
    ensures var s := RunSteps(lex, START, events).store; forall id :: id in s.tickets ==> p(s.tickets[id])
  {
    RunHolds(lex, p, events);
    hide Inductive, RunSteps;
  }

  /** And in every run of uninterrupted calls. */
  lemma HoldsInEveryRun(lex: Lexicon, p: Record -> bool, calls: seq<Call>)
    requires Inductive(lex, p)
    ensures var s := Run(lex, EMPTY, calls); forall id :: id in s.tickets ==> p(s.tickets[id])
  {
    hide Inductive, Run, RunSteps;
    var events := RunsAreInterleavings(lex, EMPTY, calls);
    assert Idle(EMPTY) == START;
    HoldsInEveryInterleaving(lex, p, events);
    assert RunSteps(lex, START, events).store == Run(lex, EMPTY, calls);
  }
}
