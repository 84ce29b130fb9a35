/** What the id of a stored ticket tells: its type, its region and its number (modules/ticket/id.go, service.go). */
module Identities {
  import opened Wrappers
  import opened Text
  import opened Catalog
  import opened Validation
  import opened Records
  import opened Store
  import opened Interleaving
  import opened RecordInvariants
  import opened Creation
  import Decimal
  import TicketId

  /** No two types share a code. */
  lemma CodesDiffer(a: TicketType, b: TicketType)
    requires !a.UnknownType? && !b.UnknownType? && Code(a) == Code(b)
    ensures a == b && Code(a) != "" && TicketId.AllUpper(Code(a))
  {
  }

  /** The id parses, and no other type and no other number has it. */
  ghost predicate Telling(rec: Record) {
    TicketId.Serial(rec.id) < Decimal.Pow10(16) ==>
      && TicketId.ParseID(rec.id).Some?
      && var parts := TicketId.ParseID(rec.id).value;
         && parts.code == Code(rec.typ) && parts.region == Upper(TrimSpace(rec.region))
         && parts.seqNo == TicketId.Serial(rec.id) && !rec.typ.UnknownType?
  }

  lemma SameTelling(rec: Record, next: Record)
    requires SameCore(rec, next) && Telling(rec)
    ensures Telling(next)
  {
    hide TicketId.ParseID, TicketId.Serial, Upper, TrimSpace, Code;
  }

  lemma KnownType(lex: Lexicon, actor: Actor, input: Input)
    requires DraftTicket(lex, actor, input).Ok?
    ensures !input.typ.UnknownType?
  {
    hide ValidateWithdrawalInput, FillRequired, AnySensitive, CleanData, NormalizeText;
  }

  lemma RegionKept(region: string)
    ensures TicketId.SafeRegion(region) in TicketId.REGIONS
    ensures Upper(TrimSpace(region)) in TicketId.REGIONS ==> TicketId.SafeRegion(region) == Upper(TrimSpace(region))
  {
  }

  lemma NewTicketTells(lex: Lexicon, actor: Actor, input: Input, number: nat, now: Time)
    requires DraftTicket(lex, actor, input).Ok?
    ensures Telling(BuildTicket(DraftTicket(lex, actor, input).value, actor, input, number, now))
  {
    var d := DraftTicket(lex, actor, input).value;
    var rec := BuildTicket(d, actor, input, number, now);
    var region := Field(d.data, "region");
    KnownType(lex, actor, input);
    CodesDiffer(input.typ, input.typ);
    DraftRegion(lex, actor, input);
    DraftedRegion(lex, actor, input);
    TicketId.SerialOfFormat(Code(input.typ), region, actor.username, number);
    if number < Decimal.Pow10(16) {
      TicketId.IdRoundTrip(Code(input.typ), region, actor.username, number);
    }
    hide DraftTicket, Code, TicketId.ParseID, TicketId.Serial, TicketId.FormatID, TicketId.SafeRegion,
         TicketId.SafeUser, Upper, TrimSpace, Field, Typed, Decimal.Pow10;
  }

  /** The region field of what is prepared is one of the catalog's, up to case and surrounding space. */
  lemma DraftedRegion(lex: Lexicon, actor: Actor, input: Input)
    requires DraftTicket(lex, actor, input).Ok?
    ensures var region := Field(DraftTicket(lex, actor, input).value.data, "region");
            TicketId.SafeRegion(region) == Upper(TrimSpace(region))
  {
    hide *;
    var region := Field(DraftTicket(lex, actor, input).value.data, "region");
    DraftedExactly(lex, actor, input);
    DraftsHaveRegion(lex, actor, input);
    if input.typ == Withdraw {
      WithdrawalPreparedExactly(lex, actor, input);
      FieldIs(DraftTicket(lex, actor, input).value.data, "region");
      UpperTrimTwice(Typed(input.data, "region"));
    } else {
      PreparedExactly(lex, actor, input);
      FieldsAre(input.typ, input.data);
      FieldIs(FieldsOf(input.typ, input.data), "region");
    }
    RegionKept(region);
  }

  lemma TellingIsInductive(lex: Lexicon)
    ensures Inductive(lex, rec => Telling(rec))
  {
    hide *;
    forall actor, input, number, now | DraftTicket(lex, actor, input).Ok?
      ensures Telling(BuildTicket(DraftTicket(lex, actor, input).value, actor, input, number, now))
    {
      NewTicketTells(lex, actor, input, number, now);
    }
    forall rec, actor, action, now | Good(lex, rec) && Telling(rec) && Decide(lex, rec, actor, action, now).Ok?
      ensures Telling(Decide(lex, rec, actor, action, now).value)
    {
      DecideKeeps(lex, rec, actor, action, now);
      CoreOf(rec, Decide(lex, rec, actor, action, now).value);
      SameTelling(rec, Decide(lex, rec, actor, action, now).value);
    }
    forall rec, actor, reference, now, others
      | Good(lex, rec) && Telling(rec) && DecidePayment(lex, rec, actor, reference, now, others).Ok?
      ensures Telling(DecidePayment(lex, rec, actor, reference, now, others).value)
    {
      PayKeeps(lex, rec, actor, reference, now, others);
      CoreOf(rec, DecidePayment(lex, rec, actor, reference, now, others).value);
      SameTelling(rec, DecidePayment(lex, rec, actor, reference, now, others).value);
    }
    InductiveMeans(lex, rec => Telling(rec));
  }

  lemma CoreOf(rec: Record, next: Record)
    requires Follows(rec, next)
    ensures SameCore(rec, next)
  {
  }

  /** Under every interleaving the id of a stored ticket parses, up to sixteen digits of its number, to the code of its
      type, its region and its number; and a code belongs to one type. */
  lemma IdsTell(lex: Lexicon, events: seq<ServiceStep>, id: string)
    requires id in RunSteps(lex, START, events).store.tickets
    requires TicketId.Serial(id) < Decimal.Pow10(16)
    ensures var rec := RunSteps(lex, START, events).store.tickets[id];
            && TicketId.ParseID(id).Some?
            && TicketId.ParseID(id).value.region == Upper(TrimSpace(rec.region))
            && TicketId.ParseID(id).value.seqNo == TicketId.Serial(id)
            && forall t: TicketType :: !t.UnknownType? ==>
                 (Code(t) == TicketId.ParseID(id).value.code <==> t == rec.typ)
  {
    TellingIsInductive(lex);
    HoldsInEveryInterleaving(lex, rec => Telling(rec), events);
    StoredUnderItsId(lex, events, id);
    var rec := RunSteps(lex, START, events).store.tickets[id];
    assert Telling(rec);
    hide RunSteps, TicketId.ParseID, TicketId.Serial, Upper, TrimSpace, Code, Decimal.Pow10;
    forall t: TicketType | !t.UnknownType?
      ensures Code(t) == TicketId.ParseID(id).value.code <==> t == rec.typ
    {
      if Code(t) == Code(rec.typ) {
        CodesDiffer(t, rec.typ);
      }
    }
  }

  lemma StoredUnderItsId(lex: Lexicon, events: seq<ServiceStep>, id: string)
    requires id in RunSteps(lex, START, events).store.tickets
    ensures RunSteps(lex, START, events).store.tickets[id].id == id
  {
    hide RunSteps, SysInv;
    StartInv(lex);
    RunStepsKeeps(lex, START, events);
    SysIsSound(lex, RunSteps(lex, START, events));
    StoredIsOk(lex, RunSteps(lex, START, events).store, id);
  }
}
