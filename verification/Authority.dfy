/** Who may act on a ticket: an administrator or the guild's owner, never a bot, never the ticket's opener
    (modules/membership/verify.go, modules/ticket/service.go). The conditions are on the fields of the actor. */
module Authority {
  import opened Wrappers
  import opened Catalog
  import opened Validation
  import opened Records
  import opened Store
  import opened Interleaving
  import opened SequentialRuns

  /** A bot, nobody, or a member who is neither the owner nor an administrator. */
  predicate Outsider(actor: Actor) {
    actor.isBot || actor.id == "" || (actor.id != actor.ownerId && !actor.isAdmin)
  }

  lemma DeniedExactly(actor: Actor, rec: Record)
    ensures RequireAdmin(actor, rec)
         == if actor.isBot || actor.id == "" || (actor.id != actor.ownerId && !actor.isAdmin) then Some(ErrNotAdmin)
            else if actor.id == rec.openerId then Some(ErrOpenerRecusal)
            else None
  {
  }

  /** An update or a payment by an outsider, or by the opener of the ticket, changes nothing and says why. */
  lemma DeniedCall(lex: Lexicon, s: Store, actor: Actor, id: string, action: Action, reference: string, now: Time)
    requires actor.isBot || actor.id == "" || (actor.id != actor.ownerId && !actor.isAdmin)
             || (id in s.tickets && actor.id == s.tickets[id].openerId)
    ensures var outsider := actor.isBot || actor.id == "" || (actor.id != actor.ownerId && !actor.isAdmin);
            var refusal := if id !in s.tickets then ErrNotFound else if outsider then ErrNotAdmin else ErrOpenerRecusal;
            && ExecUpdate(lex, s, actor, id, action, now) == Outcome(s, Err(refusal))
            && ExecPay(lex, s, actor, id, reference, now) == Outcome(s, Err(refusal))
  {
    if id in s.tickets {
      DeniedExactly(actor, s.tickets[id]);
    }
  }

  /** A call that changes a stored ticket, by an outsider. */
  predicate Unheeded(c: Call) {
    !c.Open? && Outsider(c.actor)
  }

  /** The calls without those. */
  function Heeded(calls: seq<Call>): seq<Call> {
    if calls == [] then []
    else
      var front, c := Heeded(calls[..|calls| - 1]), calls[|calls| - 1];
      if Unheeded(c) then front else front + [c]
  }

  lemma UnheededChangesNothing(lex: Lexicon, s: Store, c: Call)
    requires Unheeded(c)
    ensures Exec(lex, s, c).store == s
  {
    var action := if c.Update? then c.action else Claim;
    var reference := if c.Pay? then c.reference else "";
    DeniedCall(lex, s, c.actor, c.id, action, reference, c.now);
    hide ExecUpdate, ExecPay;
  }

  /** A run leaves what it leaves without the calls of outsiders. */
  lemma {:induction false} OutsidersDoNotMatter(lex: Lexicon, s: Store, calls: seq<Call>)
    ensures Run(lex, s, calls) == Run(lex, s, Heeded(calls))
    ensures forall c :: c in Heeded(calls) <==>
              c in calls && (c.Open? || (!c.actor.isBot && c.actor.id != ""
                                         && (c.actor.id == c.actor.ownerId || c.actor.isAdmin)))
  {
    hide Exec;
    if calls != [] {
      var front, c := calls[..|calls| - 1], calls[|calls| - 1];
      OutsidersDoNotMatter(lex, s, front);
      assert calls == front + [c];
      if Unheeded(c) {
        UnheededChangesNothing(lex, Run(lex, s, front), c);
      } else {
        assert (Heeded(front) + [c])[..|Heeded(front)|] == Heeded(front);
      }
    }
  }

  // With calls in flight

  predicate UnheededStep(e: ServiceStep) {
    (e.BeginUpdate? || e.BeginPay?) && Outsider(e.actor)
  }

  function HeededSteps(events: seq<ServiceStep>): seq<ServiceStep> {
    if events == [] then []
    else
      var front, e := HeededSteps(events[..|events| - 1]), events[|events| - 1];
      if UnheededStep(e) then front else front + [e]
  }

  lemma UnheededStepChangesNothing(lex: Lexicon, y: Sys, e: ServiceStep)
    requires UnheededStep(e)
    ensures Step(lex, y, e) == y
  {
    if e.id in y.store.tickets {
      DeniedExactly(e.actor, y.store.tickets[e.id]);
    }
  }

  /** An outsider's call leaves no trace in any interleaving either. */
  lemma {:induction false} OutsidersDoNotInterfere(lex: Lexicon, y: Sys, events: seq<ServiceStep>)
    ensures RunSteps(lex, y, events) == RunSteps(lex, y, HeededSteps(events))
    ensures forall e :: e in HeededSteps(events) <==>
              e in events && (e.BeginUpdate? || e.BeginPay? ==>
                !e.actor.isBot && e.actor.id != "" && (e.actor.id == e.actor.ownerId || e.actor.isAdmin))
  {
    hide Step;
    if events != [] {
      var front, e := events[..|events| - 1], events[|events| - 1];
      OutsidersDoNotInterfere(lex, y, front);
      assert events == front + [e];
      if UnheededStep(e) {
        UnheededStepChangesNothing(lex, RunSteps(lex, y, front), e);
      } else {
        assert (HeededSteps(front) + [e])[..|HeededSteps(front)|] == HeededSteps(front);
      }
    }
  }

  /** The phases of an update or a payment. */
  predicate Acts(p: Phase) {
    p.Saving? || p.PayRead? || p.PayDecided? || p.PayChecked?
  }

  ghost predicate OthersAct(calls: map<nat, Phase>) {
    forall k :: k in calls && Acts(calls[k]) ==>
      && !calls[k].actor.isBot && calls[k].actor.id != "" && calls[k].actor.id != calls[k].base.openerId
      && (calls[k].actor.id == calls[k].actor.ownerId || calls[k].actor.isAdmin)
  }

  lemma DecisionAdmits(lex: Lexicon, rec: Record, actor: Actor, action: Action, now: Time)
    ensures Decide(lex, rec, actor, action, now).Ok? ==> RequireAdmin(actor, rec).None?
  {
  }

  lemma StepOthersAct(lex: Lexicon, y: Sys, e: ServiceStep)
    requires OthersAct(y.calls)
    ensures OthersAct(Step(lex, y, e).calls)
  {
    if (e.BeginUpdate? || e.BeginPay?) && e.id in y.store.tickets {
      DeniedExactly(e.actor, y.store.tickets[e.id]);
      if e.BeginUpdate? {
        DecisionAdmits(lex, y.store.tickets[e.id], e.actor, e.action, e.now);
      }
    }
    hide Decide, DecidePayment, RequireAdmin, DraftTicket, BuildTicket, Save, SavePayment, ActiveLimit, HasOtherAdmin,
         OutgoingExists, RowFor;
  }

  /** Under every interleaving an update or a payment in flight is by the owner or an administrator, not a bot,
      and not by the one who opened its ticket. */
  lemma {:induction false} NoOutsiderInFlight(lex: Lexicon, events: seq<ServiceStep>, k: nat)
    requires var y := RunSteps(lex, START, events); k in y.calls && Acts(y.calls[k])
    ensures var p := RunSteps(lex, START, events).calls[k];
            && !p.actor.isBot && p.actor.id != "" && (p.actor.id == p.actor.ownerId || p.actor.isAdmin)
            && p.actor.id != p.base.openerId
  {
    RunOthersAct(lex, events);
    hide RunSteps;
  }

  lemma {:induction false} RunOthersAct(lex: Lexicon, events: seq<ServiceStep>)
    ensures OthersAct(RunSteps(lex, START, events).calls)
  {
    hide Step, OthersAct;
    if events == [] {
      NobodyActs();
    } else {
      RunOthersAct(lex, events[..|events| - 1]);
      StepOthersAct(lex, RunSteps(lex, START, events[..|events| - 1]), events[|events| - 1]);
    }
  }

  lemma NobodyActs()
    ensures OthersAct(START.calls)
  {
  }
}
