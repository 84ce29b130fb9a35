/** Every run of uninterrupted calls is one of the interleavings: each call as its steps, one after the
    other. */
module Embedding {
  import opened Wrappers
  import opened Validation
  import opened Records
  import opened Store
  import opened Interleaving
  import opened SequentialRuns

  /** The steps of a call that nothing interrupts; its list queries answer from the tables. */
  function StepsOf(s: Store, c: Call): seq<ServiceStep> {
    match c
    case Open(actor, input, now) =>
      [BeginCreate(0, actor, input, ListByOpener(s, actor.id)), TakeNumber(0, now), CommitSave(0)]
    case Update(actor, id, action, now) => [BeginUpdate(0, actor, id, action, now), CommitSave(0)]
    case Pay(actor, id, reference, now) =>
      [BeginPay(0, actor, id, reference),
       DecidePay(0, if id in s.tickets then ListOpen(s) + ListByOpener(s, s.tickets[id].openerId) else [], now),
       CheckPay(0), CommitPay(0)]
  }

  function Idle(s: Store): Sys {
    Sys(s, map[])
  }

  lemma {:induction false} RunStepsConcat(lex: Lexicon, y: Sys, a: seq<ServiceStep>, b: seq<ServiceStep>)
    ensures RunSteps(lex, y, a + b) == RunSteps(lex, RunSteps(lex, y, a), b)
  {
    hide Step;
    if b == [] {
      assert a + b == a;
    } else {
      RunStepsConcat(lex, y, a, b[..|b| - 1]);
      assert (a + b)[..|a + b| - 1] == a + b[..|b| - 1];
    }
  }

  lemma TwoSteps(lex: Lexicon, y: Sys, e1: ServiceStep, e2: ServiceStep)
    ensures RunSteps(lex, y, [e1]) == Step(lex, y, e1)
    ensures RunSteps(lex, y, [e1, e2]) == Step(lex, Step(lex, y, e1), e2)
  {
    hide Step;
    assert [e1, e2][..1] == [e1] && [e1][..0] == [];
    assert RunSteps(lex, y, []) == y;
  }

  lemma FourSteps(lex: Lexicon, y: Sys, e1: ServiceStep, e2: ServiceStep, e3: ServiceStep, e4: ServiceStep)
    ensures RunSteps(lex, y, [e1, e2, e3]) == Step(lex, Step(lex, Step(lex, y, e1), e2), e3)
    ensures RunSteps(lex, y, [e1, e2, e3, e4]) == Step(lex, Step(lex, Step(lex, Step(lex, y, e1), e2), e3), e4)
  {
    hide Step;
    TwoSteps(lex, y, e1, e2);
    assert [e1, e2, e3][..2] == [e1, e2] && [e1, e2, e3, e4][..3] == [e1, e2, e3];
  }

  lemma UpdateAlone(lex: Lexicon, s: Store, actor: Actor, id: string, action: Action, now: Time)
    ensures var y := StepUpdate(lex, Idle(s), 0, actor, id, action, now);
            StepCommitSave(y, 0) == Idle(ExecUpdate(lex, s, actor, id, action, now).store)
  {
    hide Decide, Save;
  }

  lemma CreateAlone(lex: Lexicon, s: Store, actor: Actor, input: Input, now: Time)
    ensures var y := StepCreate(lex, Idle(s), 0, actor, input, ListByOpener(s, actor.id));
            StepCommitSave(StepTakeNumber(lex, y, 0, now), 0) == Idle(ExecCreate(lex, s, actor, input, now).store)
  {
    hide DraftTicket, ActiveLimit, HasOtherAdmin, BuildTicket, Save, ListByOpener;
  }

  lemma PayRefused(lex: Lexicon, s: Store, actor: Actor, id: string, reference: string, now: Time)
    requires id in s.tickets
    requires var others := ListOpen(s) + ListByOpener(s, s.tickets[id].openerId);
             DecidePayment(lex, s.tickets[id], actor, reference, now, others).Err?
    ensures var others := ListOpen(s) + ListByOpener(s, s.tickets[id].openerId);
            var y := StepDecidePay(lex, StepBeginPay(Idle(s), 0, actor, id, reference), 0, others, now);
            StepCommitPay(StepCheckPay(y, 0), 0) == Idle(ExecPay(lex, s, actor, id, reference, now).store)
  {
    hide DecidePayment, ListOpen, ListByOpener, RequireAdmin;
  }

  lemma PayDecides(lex: Lexicon, s: Store, actor: Actor, id: string, reference: string, now: Time, others: seq<Record>)
    requires id in s.tickets && DecidePayment(lex, s.tickets[id], actor, reference, now, others).Ok?
    ensures var next := DecidePayment(lex, s.tickets[id], actor, reference, now, others).value;
            StepDecidePay(lex, StepBeginPay(Idle(s), 0, actor, id, reference), 0, others, now)
            == Sys(s, map[0 := PayDecided(s.tickets[id], actor, reference, now, next)])
  {
    RefusedDecision(lex, s.tickets[id], actor, reference, now, others);
    hide DecidePayment, RequireAdmin;
  }

  lemma PayCommits(s: Store, base: Record, actor: Actor, reference: string, now: Time, next: Record)
    requires Shows(next)
    ensures var z := StepCommitPay(StepCheckPay(Sys(s, map[0 := PayDecided(base, actor, reference, now, next)]), 0), 0);
            z == Idle(if OutgoingExists(s.ledger, next.withdrawal.value.outgoing.value.reference)
                         || SavePayment(s, next, RowFor(next)).Err?
                      then s else SavePayment(s, next, RowFor(next)).value)
  {
    hide OutgoingExists, SavePayment, RowFor;
  }

  lemma PayAlone(lex: Lexicon, s: Store, actor: Actor, id: string, reference: string, now: Time)
    requires id in s.tickets
    ensures var others := ListOpen(s) + ListByOpener(s, s.tickets[id].openerId);
            var y := StepDecidePay(lex, StepBeginPay(Idle(s), 0, actor, id, reference), 0, others, now);
            StepCommitPay(StepCheckPay(y, 0), 0) == Idle(ExecPay(lex, s, actor, id, reference, now).store)
  {
    hide DecidePayment, ListOpen, ListByOpener, OutgoingExists, SavePayment, RowFor, StepBeginPay, StepDecidePay,
         StepCheckPay, StepCommitPay, Idle;
    var rec := s.tickets[id];
    var others := ListOpen(s) + ListByOpener(s, rec.openerId);
    var next := DecidePayment(lex, rec, actor, reference, now, others);
    if next.Err? {
      PayRefused(lex, s, actor, id, reference, now);
    } else {
      PaidReference(lex, rec, actor, reference, now, others);
      PayDecides(lex, s, actor, id, reference, now, others);
      PayCommits(s, rec, actor, reference, now, next.value);
    }
  }

  lemma RefusedDecision(lex: Lexicon, rec: Record, actor: Actor, reference: string, now: Time, others: seq<Record>)
    ensures RequireAdmin(actor, rec).Some? ==> DecidePayment(lex, rec, actor, reference, now, others).Err?
  {
  }

  /** A payment of an unknown ticket does not even begin. */
  lemma PayNothing(lex: Lexicon, s: Store, actor: Actor, id: string, reference: string, now: Time)
    requires id !in s.tickets
    ensures var y := StepDecidePay(lex, StepBeginPay(Idle(s), 0, actor, id, reference), 0, [], now);
            StepCommitPay(StepCheckPay(y, 0), 0) == Idle(ExecPay(lex, s, actor, id, reference, now).store)
  {
  }

  lemma CallAlone(lex: Lexicon, s: Store, c: Call)
    ensures RunSteps(lex, Idle(s), StepsOf(s, c)) == Idle(Exec(lex, s, c).store)
  {
    hide Idle, StepUpdate, StepBeginPay, StepDecidePay, StepCheckPay, StepCommitPay, StepCreate, StepTakeNumber,
         StepCommitSave, Finish, RunSteps, ExecCreate, ExecUpdate, ExecPay, ListOpen, ListByOpener;
    var steps := StepsOf(s, c);
    match c
    case Open(actor, input, now) =>
      CreateAlone(lex, s, actor, input, now);
      FourSteps(lex, Idle(s), steps[0], steps[1], steps[2], steps[2]);
    case Update(actor, id, action, now) =>
      UpdateAlone(lex, s, actor, id, action, now);
      TwoSteps(lex, Idle(s), steps[0], steps[1]);
    case Pay(actor, id, reference, now) =>
      if id in s.tickets {
        PayAlone(lex, s, actor, id, reference, now);
      } else {
        PayNothing(lex, s, actor, id, reference, now);
      }
      FourSteps(lex, Idle(s), steps[0], steps[1], steps[2], steps[3]);
  }

  /** Whatever uninterrupted calls reach, the interleaved system reaches, with no call left in flight. */
  lemma {:induction false} RunsAreInterleavings(lex: Lexicon, s: Store, calls: seq<Call>)
    returns (events: seq<ServiceStep>)
    ensures RunSteps(lex, Idle(s), events) == Idle(Run(lex, s, calls))
  {
    hide Idle, Step, Exec, StepsOf;
    if calls == [] {
      events := [];
    } else {
      var front, c := calls[..|calls| - 1], calls[|calls| - 1];
      var before := RunsAreInterleavings(lex, s, front);
      var mid := Run(lex, s, front);
      events := before + StepsOf(mid, c);
      RunStepsConcat(lex, Idle(s), before, StepsOf(mid, c));
      CallAlone(lex, mid, c);
    }
  }
}
