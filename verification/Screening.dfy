/** Nothing the sensitive-input screen finds is ever stored: not from the fields of a form, and not from the texts,
    resolutions and receipts that follow, in whatever order the calls read and write (modules/ticket/service.go,
    safety.go). */
module Screening {
  import opened Wrappers
  import opened Text
  import opened Catalog
  import opened Validation
  import opened Records
  import opened Store
  import opened SequentialRuns
  import opened Interleaving
  import opened RecordInvariants
  import opened Effects
  import opened Creation
  import CardNumber
  import Money

  // One call

  /** Create refuses an input with a field in which, normalised, there is a card number or another finding. */
  lemma SecretInputRefused(lex: Lexicon, s: Store, actor: Actor, input: Input, now: Time, key: string)
    requires key in input.data && NormalizeText(input.data[key]) != ""
    requires CardNumber.HasCard(NormalizeText(input.data[key]), lex.wideDigit)
             || lex.otherFinding(NormalizeText(input.data[key]))
    ensures ExecCreate(lex, s, actor, input, now).result.Err? && ExecCreate(lex, s, actor, input, now).store == s
  {
    hide *;
    SecretIsTyped(lex, input.data, key);
    DraftedExactly(lex, actor, input);
    NoSecretDrafted(lex, actor, input, key);
    CreateSteps(lex, s, actor, input, now);
  }

  lemma SecretIsTyped(lex: Lexicon, data: map<string, string>, key: string)
    requires key in data && NormalizeText(data[key]) != ""
    ensures Typed(data, key) == NormalizeText(data[key]) && key in Given(data)
    ensures Secret(lex, Typed(data, key)) <==>
              CardNumber.HasCard(NormalizeText(data[key]), lex.wideDigit) || lex.otherFinding(NormalizeText(data[key]))
  {
    assert NormalizeText("") == "";
    hide NormalizeText, CardNumber.HasCard;
  }

  lemma NoSecretDrafted(lex: Lexicon, actor: Actor, input: Input, key: string)
    requires Typed(input.data, key) != "" && key in Given(input.data) && Secret(lex, Typed(input.data, key))
    ensures !Drafts(lex, actor, input)
  {
    FieldsAre(input.typ, input.data);
    hide Typed, Secret, FieldsOf, Eligible, RegionOk, Given, Requires, StandIn, MethodOk, ValidatePaymentReference,
         Money.ParseAmount;
    if input.typ != Withdraw {
      assert FieldsOf(input.typ, input.data)[key] == Typed(input.data, key);
    }
  }

  // Every record in the tables or under way

  /** No field, request, reason, resolution or receipt of the record has a secret. A withdrawal shows its amount and
      region reworded, so there the screen is for the two texts kept as typed. */
  ghost predicate Clean(lex: Lexicon, rec: Record) {
    && (rec.typ != Withdraw ==> forall k :: k in rec.data ==> !Secret(lex, rec.data[k]))
    && (rec.typ == Withdraw ==>
        forall k :: k in rec.data && k in {"transactionId", "method"} ==> !Secret(lex, rec.data[k]))
    && (rec.withdrawal.Some? ==>
        && !Secret(lex, rec.withdrawal.value.request.saleReference)
        && !Secret(lex, rec.withdrawal.value.request.method_)
        && (rec.withdrawal.value.outgoing.Some? ==> !Secret(lex, rec.withdrawal.value.outgoing.value.reference)))
    && (rec.resolution.Some? ==> !Secret(lex, rec.resolution.value.text))
    && forall i :: 0 <= i < |rec.history| ==> rec.history[i].reason == "" || !Secret(lex, rec.history[i].reason)
  }

  lemma TextsAreStorable(lex: Lexicon, rec: Record, actor: Actor, action: Action, now: Time)
    requires Decide(lex, rec, actor, action, now).Ok?
    ensures match action
            case Handoff(_, reason) => !Secret(lex, NormalizeText(reason))
            case SetResolution(note) => !Secret(lex, NormalizeText(note))
            case ApproveSeller(reason, _) => !Secret(lex, NormalizeText(reason))
            case _ => true
  {
    hide NormalizeText, CanTransition, Utf8Len, CardNumber.HasCard;
    match action
    case Handoff(_, reason) => TextExactly(lex, reason);
    case SetResolution(note) => TextExactly(lex, note);
    case ApproveSeller(reason, _) => TextExactly(lex, reason);
    case _ =>
  }

  lemma LoggedReason(rec: Record, actor: Actor, action: Action, now: Time, e: Event)
    requires Logs(e, rec, actor, action, now)
    ensures e.reason == match action
                        case Handoff(_, reason) => NormalizeText(reason)
                        case ApproveSeller(reason, _) => NormalizeText(reason)
                        case _ => ""
  {
    hide NormalizeText;
  }

  /** What a step adds to a record is clean if the record is. */
  lemma CleanNext(lex: Lexicon, rec: Record, next: Record, e: Event)
    requires Clean(lex, rec) && next.history == rec.history + [e] && (e.reason == "" || !Secret(lex, e.reason))
    requires next.typ == rec.typ && next.data == rec.data && next.withdrawal.Some? == rec.withdrawal.Some?
    requires rec.withdrawal.Some? ==>
               && next.withdrawal.value.request == rec.withdrawal.value.request
               && (next.withdrawal.value.outgoing.Some? ==>
                   next.withdrawal.value.outgoing == rec.withdrawal.value.outgoing
                   || !Secret(lex, next.withdrawal.value.outgoing.value.reference))
    requires next.resolution == rec.resolution
             || (next.resolution.Some? && !Secret(lex, next.resolution.value.text))
    ensures Clean(lex, next)
  {
    hide Secret;
  }

  lemma ChangedParts(rec: Record, actor: Actor, action: Action, now: Time)
    ensures var next := Changed(rec, actor, action, now);
            && next.typ == rec.typ && next.data == rec.data && next.withdrawal.Some? == rec.withdrawal.Some?
            && (rec.withdrawal.Some? ==>
                && next.withdrawal.value.request == rec.withdrawal.value.request
                && next.withdrawal.value.outgoing == rec.withdrawal.value.outgoing)
            && next.resolution == if action.SetResolution?
                                  then Some(Resolution(NormalizeText(action.note), actor.id, now)) else rec.resolution
  {
    hide NormalizeText;
  }

  lemma DecisionIsClean(lex: Lexicon, rec: Record, actor: Actor, action: Action, now: Time)
    requires Clean(lex, rec) && Decide(lex, rec, actor, action, now).Ok?
    ensures Clean(lex, Decide(lex, rec, actor, action, now).value)
  {
    hide *;
    var next := Decide(lex, rec, actor, action, now).value;
    TextsAreStorable(lex, rec, actor, action, now);
    DecisionEffect(lex, rec, actor, action, now);
    ChangedParts(rec, actor, action, now);
    var e := next.history[|rec.history|];
    LoggedReason(rec, actor, action, now, e);
    assert next.history == rec.history + [e];
    var same := next.(history := rec.history);
    assert next.typ == same.typ && next.data == same.data && next.withdrawal == same.withdrawal
           && next.resolution == same.resolution;
    CleanNext(lex, rec, next, e);
  }

  lemma PaymentIsClean(lex: Lexicon, rec: Record, actor: Actor, reference: string, now: Time, others: seq<Record>)
    requires Clean(lex, rec) && DecidePayment(lex, rec, actor, reference, now, others).Ok?
    ensures Clean(lex, DecidePayment(lex, rec, actor, reference, now, others).value)
  {
    hide *;
    PaymentMade(lex, rec, actor, reference, now, others);
    ReceiptIsClean(lex, reference);
    CleanNext(lex, rec, DecidePayment(lex, rec, actor, reference, now, others).value,
              Event(now, WithdrawPaid, actor.id, "", "", "OUT-" + rec.id));
  }

  lemma ReceiptIsClean(lex: Lexicon, reference: string)
    requires ValidatePaymentReference(lex, reference).Ok?
    ensures !Secret(lex, ValidatePaymentReference(lex, reference).value)
  {
    ReferenceExactly(lex, reference);
    hide ValidatePaymentReference, NamesAccount, Upper, TrimSpace;
  }

  lemma NewTicketIsClean(lex: Lexicon, actor: Actor, input: Input, number: nat, now: Time)
    requires DraftTicket(lex, actor, input).Ok?
    ensures Clean(lex, BuildTicket(DraftTicket(lex, actor, input).value, actor, input, number, now))
  {
    hide *;
    var d := DraftTicket(lex, actor, input).value;
    DraftedExactly(lex, actor, input);
    BuiltParts(d, actor, input, number, now);
    var rec := BuildTicket(d, actor, input, number, now);
    if input.typ == Withdraw {
      WithdrawalPreparedExactly(lex, actor, input);
      DraftedWithdrawal(lex, actor, input);
      ReceiptIsClean(lex, Typed(input.data, "transactionId"));
      CleanWithdrawal(lex, rec);
    } else {
      PreparedExactly(lex, actor, input);
      DraftedFields(lex, actor, input);
      CleanFields(lex, rec);
    }
  }

  lemma BuiltParts(draft: Draft, actor: Actor, input: Input, number: nat, now: Time)
    ensures var rec := BuildTicket(draft, actor, input, number, now);
            && rec.typ == input.typ && rec.data == draft.data && rec.resolution.None?
            && |rec.history| == 1 && rec.history[0].reason == ""
            && rec.withdrawal.Some? == draft.request.Some?
            && (draft.request.Some? ==>
                rec.withdrawal.value.request == draft.request.value && rec.withdrawal.value.outgoing.None?)
  {
  }

  lemma DraftedWithdrawal(lex: Lexicon, actor: Actor, input: Input)
    requires Drafts(lex, actor, input) && input.typ == Withdraw
    ensures !Secret(lex, Typed(input.data, "method"))
  {
    assert "method" in Given(input.data) + {"region"};
    hide Secret, Typed;
  }

  lemma DraftedFields(lex: Lexicon, actor: Actor, input: Input)
    requires Drafts(lex, actor, input) && input.typ != Withdraw
    ensures forall k :: k in FieldsOf(input.typ, input.data) ==> !Secret(lex, FieldsOf(input.typ, input.data)[k])
  {
    hide Secret, FieldsOf, Typed;
  }

  lemma CleanWithdrawal(lex: Lexicon, rec: Record)
    requires rec.typ == Withdraw && rec.withdrawal.Some? && rec.withdrawal.value.outgoing.None? && rec.resolution.None?
    requires |rec.history| == 1 && rec.history[0].reason == ""
    requires "transactionId" in rec.data && "method" in rec.data
    requires !Secret(lex, rec.data["transactionId"]) && !Secret(lex, rec.data["method"])
    requires rec.withdrawal.value.request.saleReference == rec.data["transactionId"]
    requires rec.withdrawal.value.request.method_ == rec.data["method"]
    ensures Clean(lex, rec)
  {
    hide Secret;
  }

  lemma CleanFields(lex: Lexicon, rec: Record)
    requires rec.typ != Withdraw && rec.withdrawal.None? && rec.resolution.None?
    requires |rec.history| == 1 && rec.history[0].reason == ""
    requires forall k :: k in rec.data ==> !Secret(lex, rec.data[k])
    ensures Clean(lex, rec)
  {
    hide Secret;
  }

  lemma CleanIsInductive(lex: Lexicon)
    ensures Inductive(lex, rec => Clean(lex, rec))
  {
    hide *;
    forall actor, input, number, now | DraftTicket(lex, actor, input).Ok?
      ensures Clean(lex, BuildTicket(DraftTicket(lex, actor, input).value, actor, input, number, now))
    {
      NewTicketIsClean(lex, actor, input, number, now);
    }
    forall rec, actor, action, now | Clean(lex, rec) && Decide(lex, rec, actor, action, now).Ok?
      ensures Clean(lex, Decide(lex, rec, actor, action, now).value)
    {
      DecisionIsClean(lex, rec, actor, action, now);
    }
    forall rec, actor, reference, now, others
      | Clean(lex, rec) && DecidePayment(lex, rec, actor, reference, now, others).Ok?
      ensures Clean(lex, DecidePayment(lex, rec, actor, reference, now, others).value)
    {
      PaymentIsClean(lex, rec, actor, reference, now, others);
    }
    InductiveMeans(lex, rec => Clean(lex, rec));
  }

  /** From the start: no field of a stored ticket that is not a withdrawal, no reason in a log, no resolution and no
      receipt holds a card number or another finding. */
  lemma StoredTicketsAreClean(lex: Lexicon, events: seq<ServiceStep>, id: string)
    requires id in RunSteps(lex, Interleaving.START, events).store.tickets
    ensures var rec := RunSteps(lex, Interleaving.START, events).store.tickets[id];
            && (rec.typ != Withdraw ==> forall k :: k in rec.data ==>
                  !CardNumber.HasCard(rec.data[k], lex.wideDigit) && !lex.otherFinding(rec.data[k]))
            && (rec.resolution.Some? ==>
                && !CardNumber.HasCard(rec.resolution.value.text, lex.wideDigit)
                && !lex.otherFinding(rec.resolution.value.text))
            && (rec.withdrawal.Some? && rec.withdrawal.value.outgoing.Some? ==>
                && !CardNumber.HasCard(rec.withdrawal.value.outgoing.value.reference, lex.wideDigit)
                && !lex.otherFinding(rec.withdrawal.value.outgoing.value.reference))
            && forall i :: 0 <= i < |rec.history| && rec.history[i].reason != "" ==>
                 && !CardNumber.HasCard(rec.history[i].reason, lex.wideDigit)
                 && !lex.otherFinding(rec.history[i].reason)
  {
    CleanIsInductive(lex);
    HoldsInEveryInterleaving(lex, rec => Clean(lex, rec), events);
    assert Clean(lex, RunSteps(lex, Interleaving.START, events).store.tickets[id]);
    hide RunSteps, CardNumber.HasCard;
  }

  /** So in every run of uninterrupted calls. */
  lemma RunsStoreNothingSecret(lex: Lexicon, calls: seq<Call>, id: string)
    requires id in Run(lex, EMPTY, calls).tickets
    ensures Clean(lex, Run(lex, EMPTY, calls).tickets[id])
  {
    CleanIsInductive(lex);
    HoldsInEveryRun(lex, rec => Clean(lex, rec), calls);
    hide Run, Clean;
  }
}
