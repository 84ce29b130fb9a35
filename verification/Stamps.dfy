/** Approval stamps on the tables: when a paid withdrawal carries one, over runs of uninterrupted calls and
    over interleavings (modules/ticket/service.go). */
module Stamps {
  import opened Wrappers
  import opened Catalog
  import opened Validation
  import opened Records
  import opened Store
  import opened SequentialRuns
  import opened Interleaving
  import opened InterleavedResults
  import opened Approvals
  import PaymentRules
  import StaleWrites

  // Uninterrupted calls

  /** The call approves the ticket through the generic status change. */
  ghost predicate ApprovesGenerically(lex: Lexicon, s: Store, c: Call, id: string) {
    c.Update? && c.id == id && c.action == Transition(Approved) && Exec(lex, s, c).result.Ok?
  }

  ghost predicate GenericAt(lex: Lexicon, calls: seq<Call>, i: nat, id: string)
    requires i < |calls|
  {
    ApprovesGenerically(lex, Run(lex, EMPTY, calls[..i]), calls[i], id)
  }

  ghost predicate EverGeneric(lex: Lexicon, calls: seq<Call>, id: string) {
    exists i :: 0 <= i < |calls| && GenericAt(lex, calls, i, id)
  }

  lemma EverGenericAppend(lex: Lexicon, front: seq<Call>, c: Call, id: string)
    ensures EverGeneric(lex, front + [c], id)
            <==> EverGeneric(lex, front, id) || ApprovesGenerically(lex, Run(lex, EMPTY, front), c, id)
  {
    hide ApprovesGenerically, Run;
    var calls := front + [c];
    assert calls[..|front|] == front && calls[|front|] == c;
    forall i | 0 <= i < |front|
      ensures GenericAt(lex, calls, i, id) <==> GenericAt(lex, front, i, id)
    {
      assert calls[..i] == front[..i] && calls[i] == front[i];
    }
    if ApprovesGenerically(lex, Run(lex, EMPTY, front), c, id) {
      assert GenericAt(lex, calls, |front|, id);
    }
  }

  /** One call leaves a ticket alone, applies one operation to it, or has just opened it. */
  ghost predicate Touched(lex: Lexicon, s: Store, t: Store, c: Call, id: string) {
    id in t.tickets &&
    if id !in s.tickets then
      t.tickets[id].status == Status.Open && !Stamped(t.tickets[id]) && !ApprovesGenerically(lex, s, c, id)
    else
      || (t.tickets[id] == s.tickets[id] && !ApprovesGenerically(lex, s, c, id))
      || (exists op :: Apply(lex, s.tickets[id], op) == Ok(t.tickets[id])
                       && (IsGenericApproval(op) <==> ApprovesGenerically(lex, s, c, id)))
  }

  /** One record of the table is replaced by what the operation makes of it. */
  lemma PutTouches(lex: Lexicon, s: Store, t: Store, c: Call, uid: string, op: Op, id: string)
    requires uid in s.tickets && uid in t.tickets && t.tickets == s.tickets[uid := t.tickets[uid]]
    requires Apply(lex, s.tickets[uid], op) == Ok(t.tickets[uid])
    requires IsGenericApproval(op) <==> ApprovesGenerically(lex, s, c, uid)
    requires id != uid ==> !ApprovesGenerically(lex, s, c, id)
    requires id in t.tickets
    ensures Touched(lex, s, t, c, id)
  {
    hide Apply, IsGenericApproval, ApprovesGenerically, Stamped;
  }

  lemma SameTouches(lex: Lexicon, s: Store, c: Call, id: string)
    requires id in s.tickets && !ApprovesGenerically(lex, s, c, id)
    ensures Touched(lex, s, s, c, id)
  {
    hide Apply, IsGenericApproval, ApprovesGenerically, Stamped;
  }

  lemma GenericUpdate(lex: Lexicon, s: Store, actor: Actor, uid: string, action: Action, now: Time, id: string)
    ensures ApprovesGenerically(lex, s, Update(actor, uid, action, now), id)
            <==> id == uid && IsGenericApproval(Act(actor, action, now))
                 && ExecUpdate(lex, s, actor, uid, action, now).result.Ok?
  {
    hide ExecUpdate;
  }

  lemma GenericIsUpdate(lex: Lexicon, s: Store, c: Call, id: string)
    ensures ApprovesGenerically(lex, s, c, id) ==> c.Update?
    ensures forall actor, reference, now, others :: !IsGenericApproval(PayWith(actor, reference, now, others))
  {
  }

  lemma ApplyIsDecide(lex: Lexicon, rec: Record, actor: Actor, action: Action, now: Time, reference: string,
                      others: seq<Record>)
    ensures Apply(lex, rec, Act(actor, action, now)) == Decide(lex, rec, actor, action, now)
    ensures Apply(lex, rec, PayWith(actor, reference, now, others))
              == DecidePayment(lex, rec, actor, reference, now, others)
  {
    hide Decide, DecidePayment;
  }

  lemma UpdateTouches(lex: Lexicon, s: Store, actor: Actor, uid: string, action: Action, now: Time, id: string)
    requires Inv(lex, s) && id in ExecUpdate(lex, s, actor, uid, action, now).store.tickets
    ensures Touched(lex, s, ExecUpdate(lex, s, actor, uid, action, now).store, Update(actor, uid, action, now), id)
  {
    hide *;
    var o := ExecUpdate(lex, s, actor, uid, action, now);
    ExecUpdateCases(lex, s, actor, uid, action, now);
    GenericUpdate(lex, s, actor, uid, action, now, id);
    GenericUpdate(lex, s, actor, uid, action, now, uid);
    if o.result.Ok? {
      InvGood(lex, s, uid);
      DecideKeeps(lex, s.tickets[uid], actor, action, now);
      FollowsKeepsId(s.tickets[uid], o.result.value);
      PutLookup(s, o.result.value);
      ApplyIsDecide(lex, s.tickets[uid], actor, action, now, "", []);
      PutTouches(lex, s, o.store, Update(actor, uid, action, now), uid, Act(actor, action, now), id);
    } else {
      SameTouches(lex, s, Update(actor, uid, action, now), id);
    }
  }

  lemma PayTouches(lex: Lexicon, s: Store, actor: Actor, pid: string, reference: string, now: Time, id: string)
    requires Inv(lex, s) && id in ExecPay(lex, s, actor, pid, reference, now).store.tickets
    ensures Touched(lex, s, ExecPay(lex, s, actor, pid, reference, now).store, Pay(actor, pid, reference, now), id)
  {
    hide *;
    var o := ExecPay(lex, s, actor, pid, reference, now);
    var c := Pay(actor, pid, reference, now);
    ExecPayCases(lex, s, actor, pid, reference, now);
    GenericIsUpdate(lex, s, c, id);
    GenericIsUpdate(lex, s, c, pid);
    if o.result.Ok? {
      var others := ListOpen(s) + ListByOpener(s, s.tickets[pid].openerId);
      InvGood(lex, s, pid);
      PayKeeps(lex, s.tickets[pid], actor, reference, now, others);
      FollowsKeepsId(s.tickets[pid], o.result.value);
      PaymentRules.CommitShape(s, o.result.value);
      ApplyIsDecide(lex, s.tickets[pid], actor, Claim, now, reference, others);
      PutTouches(lex, s, o.store, c, pid, PayWith(actor, reference, now, others), id);
    } else {
      SameTouches(lex, s, c, id);
    }
  }

  lemma OpenTouches(lex: Lexicon, s: Store, actor: Actor, input: Input, now: Time, id: string)
    requires Inv(lex, s) && id in ExecCreate(lex, s, actor, input, now).store.tickets
    ensures Touched(lex, s, ExecCreate(lex, s, actor, input, now).store, Call.Open(actor, input, now), id)
  {
    var o := ExecCreate(lex, s, actor, input, now);
    ExecCreateCases(lex, s, actor, input, now);
    if o.result.Ok? {
      InvSound(lex, s);
      FreshId(lex, s, actor, input, now);
      BuildTicketGood(lex, actor, input, s.counter + 1, now);
      OpenIsUnstamped(lex, o.result.value);
      hide Inv, Sound, ExecCreate, DraftTicket, BuildTicket, ActiveLimit, Save, Good, Stamped;
    }
  }

  lemma OpenIsUnstamped(lex: Lexicon, rec: Record)
    requires Good(lex, rec) && rec.status == Status.Open
    ensures !Stamped(rec)
  {
  }

  lemma CallTouches(lex: Lexicon, s: Store, c: Call, id: string)
    requires Inv(lex, s) && id in Exec(lex, s, c).store.tickets
    ensures Touched(lex, s, Exec(lex, s, c).store, c, id)
  {
    hide Inv, Touched, ExecCreate, ExecUpdate, ExecPay;
    match c
    case Open(actor, input, now) => OpenTouches(lex, s, actor, input, now, id);
    case Update(actor, uid, action, now) => UpdateTouches(lex, s, actor, uid, action, now, id);
    case Pay(actor, pid, reference, now) => PayTouches(lex, s, actor, pid, reference, now, id);
  }

  /** What one run says of one ticket. */
  ghost predicate StampHolds(lex: Lexicon, calls: seq<Call>, id: string) {
    var t := Run(lex, EMPTY, calls);
    if id !in t.tickets then !EverGeneric(lex, calls, id)
    else t.tickets[id].typ == Withdraw ==> StampIs(t.tickets[id], EverGeneric(lex, calls, id))
  }

  lemma TouchedBy(lex: Lexicon, s: Store, t: Store, c: Call, id: string) returns (op: Option<Op>)
    requires Touched(lex, s, t, c, id) && id in s.tickets
    ensures op.None? ==> t.tickets[id] == s.tickets[id] && !ApprovesGenerically(lex, s, c, id)
    ensures op.Some? ==> Apply(lex, s.tickets[id], op.value) == Ok(t.tickets[id])
                         && (IsGenericApproval(op.value) <==> ApprovesGenerically(lex, s, c, id))
  {
    hide ApprovesGenerically, Apply, IsGenericApproval, Stamped;
    if t.tickets[id] == s.tickets[id] && !ApprovesGenerically(lex, s, c, id) {
      op := None;
    } else {
      var o :| Apply(lex, s.tickets[id], o) == Ok(t.tickets[id])
               && (IsGenericApproval(o) <==> ApprovesGenerically(lex, s, c, id));
      op := Some(o);
    }
  }

  lemma NewStamp(lex: Lexicon, s: Store, t: Store, c: Call, id: string)
    requires Inv(lex, t) && Touched(lex, s, t, c, id) && id !in s.tickets
    ensures StampIs(t.tickets[id], false) && !ApprovesGenerically(lex, s, c, id)
  {
    InvGood(lex, t, id);
    PaidOrClosed(lex, t.tickets[id]);
    hide Inv, Good, ApprovesGenerically, Stamped, Shows;
  }

  /** One call on one ticket. */
  lemma TouchedStamp(lex: Lexicon, s: Store, t: Store, c: Call, id: string, generic: bool)
    requires Inv(lex, s) && Inv(lex, t) && TicketsEvolve(s, t) && Touched(lex, s, t, c, id)
    requires if id in s.tickets then s.tickets[id].typ == Withdraw ==> StampIs(s.tickets[id], generic) else !generic
    ensures id in t.tickets
    ensures t.tickets[id].typ == Withdraw ==> StampIs(t.tickets[id], generic || ApprovesGenerically(lex, s, c, id))
  {
    assert id in t.tickets;
    hide *;
    if id !in s.tickets {
      NewStamp(lex, s, t, c, id);
    } else {
      var op := TouchedBy(lex, s, t, c, id);
      SameType(lex, s, t, id);
      if op.Some? && t.tickets[id].typ == Withdraw {
        InvGood(lex, s, id);
        OneCall(lex, s.tickets[id], op.value, generic);
      }
    }
  }

  lemma StampNext(lex: Lexicon, front: seq<Call>, c: Call, id: string)
    requires StampHolds(lex, front, id) && Inv(lex, Run(lex, EMPTY, front))
    requires Run(lex, EMPTY, front + [c]) == Exec(lex, Run(lex, EMPTY, front), c).store
    ensures StampHolds(lex, front + [c], id)
  {
    var s, t := Run(lex, EMPTY, front), Exec(lex, Run(lex, EMPTY, front), c).store;
    hide Run, Exec, Inv, EverGeneric, ApprovesGenerically, StampIs, Touched, TicketsEvolve;
    EverGenericAppend(lex, front, c, id);
    ExecKeepsInv(lex, s, c);
    if id in t.tickets {
      CallTouches(lex, s, c, id);
      TouchedStamp(lex, s, t, c, id, EverGeneric(lex, front, id));
      if id !in s.tickets {
        NewIsNotGeneric(lex, s, t, c, id);
      }
    } else {
      StillAbsent(lex, s, t, c, id);
    }
  }

  lemma NewIsNotGeneric(lex: Lexicon, s: Store, t: Store, c: Call, id: string)
    requires Touched(lex, s, t, c, id) && id !in s.tickets
    ensures !ApprovesGenerically(lex, s, c, id)
  {
    hide ApprovesGenerically;
  }

  lemma SameType(lex: Lexicon, s: Store, t: Store, id: string)
    requires TicketsEvolve(s, t) && id in s.tickets && id in t.tickets
    ensures t.tickets[id].typ == s.tickets[id].typ
  {
    assert Evolves(s.tickets[id], t.tickets[id]);
  }

  lemma StillAbsent(lex: Lexicon, s: Store, t: Store, c: Call, id: string)
    requires TicketsEvolve(s, t) && id !in t.tickets
    ensures id !in s.tickets && !ApprovesGenerically(lex, s, c, id)
  {
    hide Evolves, Decide;
  }

  lemma {:induction false} StampsHold(lex: Lexicon, calls: seq<Call>, id: string)
    ensures StampHolds(lex, calls, id)
  {
    if calls != [] {
      var n := |calls| - 1;
      StampsHold(lex, calls[..n], id);
      EmptyInv(lex);
      RunKeepsInv(lex, EMPTY, calls[..n]);
      assert calls == calls[..n] + [calls[n]];
      hide StampHolds, Inv, Exec;
      StampNext(lex, calls[..n], calls[n], id);
    }
  }

  /** Over any run of calls a withdrawal that is approved or shows a payment, closed or not, carries an approval
      stamp if and only if no call approved it through the generic status change. */
  lemma StampedIff(lex: Lexicon, calls: seq<Call>, id: string)
    requires var t := Run(lex, EMPTY, calls);
             id in t.tickets && t.tickets[id].typ == Withdraw
             && (t.tickets[id].status in {Approved, Paid} || Shows(t.tickets[id]))
    ensures Stamped(Run(lex, EMPTY, calls).tickets[id])
            <==> forall i :: 0 <= i < |calls| ==> !GenericAt(lex, calls, i, id)
  {
    StampsHold(lex, calls, id);
    hide Run, GenericAt;
  }

  // Calls in flight

  /** A withdrawal that is approved or shows a payment carries a stamp. */
  ghost predicate StampOk(rec: Record) {
    rec.typ == Withdraw && (rec.status in {Approved, Paid} || Shows(rec)) ==> Stamped(rec)
  }

  /** Everything a call in flight remembers is stamped, except what a generic approval is about to save. */
  ghost predicate PhaseStamped(p: Phase) {
    match p
    case Saving(_, _, action, _, next) => action == Transition(Approved) || StampOk(next)
    case PayRead(base, _, _) => StampOk(base)
    case PayDecided(_, _, _, _, next) => StampOk(next)
    case PayChecked(_, _, _, _, next) => StampOk(next)
    case Listed(_, _) => true
    case Numbered(rec) => StampOk(rec)
  }

  ghost predicate TicketsStamped(s: Store) {
    forall id :: id in s.tickets ==> StampOk(s.tickets[id])
  }

  ghost predicate AllStamped(y: Sys) {
    TicketsStamped(y.store) && forall k :: k in y.calls ==> PhaseStamped(y.calls[k])
  }

  /** The step saves a generic approval of a withdrawal. */
  predicate CommitsGeneric(y: Sys, e: ServiceStep) {
    && StaleWrites.Written(y, e).Some? && StaleWrites.Written(y, e).value.typ == Withdraw
    && e.CommitSave? && e.k in y.calls && y.calls[e.k].Saving? && y.calls[e.k].action == Transition(Approved)
  }

  lemma ApplyStamps(lex: Lexicon, rec: Record, op: Op)
    requires Good(lex, rec) && StampOk(rec) && Apply(lex, rec, op).Ok? && !IsGenericApproval(op)
    ensures StampOk(Apply(lex, rec, op).value)
  {
    ApplyKeeps(lex, rec, op);
    if rec.typ == Withdraw {
      GoodWithdrawal(lex, rec);
      ApplyOnWithdrawal(lex, rec, op);
      PaidOrClosed(lex, Apply(lex, rec, op).value);
    }
    hide Good, Apply;
  }

  lemma UpdateStamps(lex: Lexicon, s: Store, actor: Actor, id: string, action: Action, now: Time)
    requires Sound(lex, s) && id in s.tickets && StampOk(s.tickets[id]) && action != Transition(Approved)
    requires Decide(lex, s.tickets[id], actor, action, now).Ok?
    ensures StampOk(Decide(lex, s.tickets[id], actor, action, now).value)
  {
    StoredIsOk(lex, s, id);
    ApplyStamps(lex, s.tickets[id], Act(actor, action, now));
  }

  lemma UpdatePhaseStamped(lex: Lexicon, y: Sys, e: ServiceStep)
    requires SysInv(lex, y) && AllStamped(y) && (e.BeginUpdate? || e.BeginPay?)
    ensures var z := Step(lex, y, e); e.k in z.calls ==> PhaseStamped(z.calls[e.k])
  {
    SysIsSound(lex, y);
    hide SysInv, Sound, Good, Decide, RequireAdmin, Stamped, StampOk;
    if e.BeginUpdate? && e.action != Transition(Approved) && e.id in y.store.tickets
       && Decide(lex, y.store.tickets[e.id], e.actor, e.action, e.now).Ok? {
      UpdateStamps(lex, y.store, e.actor, e.id, e.action, e.now);
    }
  }

  lemma DecidedPhaseStamped(lex: Lexicon, y: Sys, e: ServiceStep)
    requires AllDecided(lex, y) && AllStamped(y) && (e.DecidePay? || e.CheckPay? || e.CommitPay?)
    ensures var z := Step(lex, y, e); e.k in z.calls ==> PhaseStamped(z.calls[e.k])
  {
    if e.k in y.calls {
      assert Decided(lex, y.calls[e.k]) && PhaseStamped(y.calls[e.k]);
      if e.DecidePay? && y.calls[e.k].PayRead? {
        var p := y.calls[e.k];
        if DecidePayment(lex, p.base, p.actor, p.reference, e.now, e.others).Ok? {
          ApplyStamps(lex, p.base, PayWith(p.actor, p.reference, e.now, e.others));
        }
      }
    }
    hide Good, DecidePayment, SavePayment, OutgoingExists, RowFor, Decide, Stamped, StampOk, AllDecided;
  }

  lemma NumberStamped(lex: Lexicon, y: Sys, k: nat, now: Time)
    requires AllStamped(y)
    ensures var z := StepTakeNumber(lex, y, k, now); k in z.calls ==> PhaseStamped(z.calls[k])
  {
    hide DraftTicket, BuildTicket, Stamped;
    if k in y.calls && y.calls[k].Listed? && DraftTicket(lex, y.calls[k].actor, y.calls[k].input).Ok? {
      BuiltOpen(lex, y.calls[k].actor, y.calls[k].input, y.store.counter + 1, now);
    }
  }

  lemma CreatedPhaseStamped(lex: Lexicon, y: Sys, e: ServiceStep)
    requires AllStamped(y) && (e.BeginCreate? || e.TakeNumber? || e.CommitSave? || e.Abandon?)
    ensures var z := Step(lex, y, e); e.k in z.calls ==> PhaseStamped(z.calls[e.k])
  {
    if e.TakeNumber? {
      NumberStamped(lex, y, e.k, e.now);
    } else {
      OwnPhase(lex, y, e);
      assert e.BeginCreate? ==> PhaseStamped(Listed(e.actor, e.input));
      hide Step, PhaseStamped;
    }
    hide DraftTicket, StepTakeNumber, PhaseStamped;
  }

  lemma OwnPhase(lex: Lexicon, y: Sys, e: ServiceStep)
    requires e.BeginCreate? || e.CommitSave? || e.Abandon?
    ensures var z := Step(lex, y, e);
            e.k in z.calls ==>
              || (e.k in y.calls && z.calls[e.k] == y.calls[e.k])
              || (e.BeginCreate? && z.calls[e.k] == Listed(e.actor, e.input))
  {
    hide DraftTicket, ActiveLimit, HasOtherAdmin, Save, Pending;
  }

  lemma WrittenIsStamped(y: Sys, e: ServiceStep)
    requires AllStamped(y) && StaleWrites.Written(y, e).Some? && !CommitsGeneric(y, e)
    ensures StampOk(StaleWrites.Written(y, e).value)
  {
    assert PhaseStamped(y.calls[e.k]);
    hide Save, SavePayment, RowFor, Stamped, Shows;
  }

  /** A generic approval starts from an open withdrawal, which has no stamp, and leaves it without one. */
  lemma GenericIsUnstamped(lex: Lexicon, base: Record, actor: Actor, now: Time)
    requires Good(lex, base) && base.typ == Withdraw && Decide(lex, base, actor, Transition(Approved), now).Ok?
    ensures !StampOk(Decide(lex, base, actor, Transition(Approved), now).value)
  {
    var op := Act(actor, Transition(Approved), now);
    GoodWithdrawal(lex, base);
    ApplyOnWithdrawal(lex, base, op);
    ApplyKeeps(lex, base, op);
    if base.status == Status.Open {
      OpenIsUnstamped(lex, base);
    }
    GenericMoves(lex, base, actor, now);
    hide Good, Decide, Apply, Follows;
  }

  lemma GenericMoves(lex: Lexicon, base: Record, actor: Actor, now: Time)
    requires Decide(lex, base, actor, Transition(Approved), now).Ok?
    ensures var next := Decide(lex, base, actor, Transition(Approved), now).value;
            next.status == Approved && next.typ == base.typ
  {
    hide RequireAdmin, CanTransition;
  }

  lemma SavedGenericIsUnstamped(lex: Lexicon, y: Sys, e: ServiceStep)
    requires SysInv(lex, y) && AllDecided(lex, y) && CommitsGeneric(y, e)
    ensures !StampOk(StaleWrites.Written(y, e).value)
  {
    StaleWrites.WrittenOrigin(lex, y, e);
    var p := y.calls[e.k];
    hide SysInv, AllDecided, StampOk, Good, Decide, StaleWrites.Written;
    GenericMoves(lex, p.base, p.actor, p.now);
    GenericIsUnstamped(lex, p.base, p.actor, p.now);
  }

  lemma PutStamps(s: Store, t: Store, next: Record)
    requires TicketsStamped(s) && t.tickets == s.tickets[next.id := next]
    ensures TicketsStamped(t) <==> StampOk(next)
  {
    hide StampOk;
    assert next.id in t.tickets && t.tickets[next.id] == next;
  }

  lemma SameTicketsStamped(s: Store, t: Store)
    requires TicketsStamped(s) && t.tickets == s.tickets
    ensures TicketsStamped(t)
  {
    hide StampOk;
  }

  /** One step keeps every stored withdrawal stamped if and only if it does not save a generic approval. */
  lemma TablesStamped(lex: Lexicon, y: Sys, e: ServiceStep)
    requires SysInv(lex, y) && AllDecided(lex, y) && AllStamped(y)
    ensures TicketsStamped(Step(lex, y, e).store) <==> !CommitsGeneric(y, e)
  {
    var next := StaleWrites.Written(y, e);
    var t := Step(lex, y, e).store;
    if next.None? {
      StaleWrites.NothingWritten(lex, y, e);
      hide *;
      SameStamps(y, t);
      NoneIsNotGeneric(y, e);
    } else {
      StaleWrites.RecordWritten(lex, y, e);
      PutLookup(y.store, next.value);
      if CommitsGeneric(y, e) {
        SavedGenericIsUnstamped(lex, y, e);
      } else {
        WrittenIsStamped(y, e);
      }
      hide SysInv, AllDecided, Step, StaleWrites.Written, Put, StampOk, PhaseStamped, CommitsGeneric, TicketsStamped;
      PutStamps(y.store, t, next.value);
    }
  }

  lemma SameStamps(y: Sys, t: Store)
    requires AllStamped(y) && t.tickets == y.store.tickets
    ensures TicketsStamped(t)
  {
    SameTicketsStamped(y.store, t);
  }

  lemma NoneIsNotGeneric(y: Sys, e: ServiceStep)
    requires StaleWrites.Written(y, e).None?
    ensures !CommitsGeneric(y, e)
  {
  }

  lemma StepStamped(lex: Lexicon, y: Sys, e: ServiceStep)
    requires SysInv(lex, y) && AllDecided(lex, y) && AllStamped(y)
    ensures !CommitsGeneric(y, e) ==> AllStamped(Step(lex, y, e))
    ensures CommitsGeneric(y, e) ==> !TicketsStamped(Step(lex, y, e).store)
  {
    hide SysInv, AllDecided, Step, PhaseStamped, TicketsStamped, CommitsGeneric;
    OtherCallsStay(lex, y, e);
    TablesStamped(lex, y, e);
    if e.BeginUpdate? || e.BeginPay? {
      UpdatePhaseStamped(lex, y, e);
    } else if e.DecidePay? || e.CheckPay? || e.CommitPay? {
      DecidedPhaseStamped(lex, y, e);
    } else {
      CreatedPhaseStamped(lex, y, e);
    }
  }

  ghost predicate StampedAt(lex: Lexicon, events: seq<ServiceStep>, i: nat)
    requires i <= |events|
  {
    TicketsStamped(StaleWrites.At(lex, events, i).store)
  }

  ghost predicate SystemStampedAt(lex: Lexicon, events: seq<ServiceStep>, i: nat)
    requires i <= |events|
  {
    AllStamped(StaleWrites.At(lex, events, i))
  }

  ghost predicate CommitsGenericAt(lex: Lexicon, events: seq<ServiceStep>, i: nat)
    requires i < |events|
  {
    CommitsGeneric(StaleWrites.At(lex, events, i), events[i])
  }

  lemma StampedNext(lex: Lexicon, events: seq<ServiceStep>, i: nat)
    requires i < |events| && SystemStampedAt(lex, events, i)
    ensures !CommitsGenericAt(lex, events, i) ==> SystemStampedAt(lex, events, i + 1)
    ensures CommitsGenericAt(lex, events, i) ==> !StampedAt(lex, events, i + 1)
  {
    StaleWrites.NextAt(lex, events, i);
    StepStamped(lex, StaleWrites.At(lex, events, i), events[i]);
    hide Step, SysInv, AllDecided, AllStamped, TicketsStamped, CommitsGeneric, StaleWrites.At;
  }

  lemma StampedStart(lex: Lexicon, events: seq<ServiceStep>)
    ensures SystemStampedAt(lex, events, 0)
  {
  }

  lemma SystemIsStored(lex: Lexicon, events: seq<ServiceStep>, i: nat)
    requires i <= |events| && SystemStampedAt(lex, events, i)
    ensures StampedAt(lex, events, i)
  {
    hide TicketsStamped, StaleWrites.At;
  }

  /** Under every interleaving, stale saves or not, the withdrawals that are approved or show a payment all
      carry a stamp at all times if and only if no generic approval is ever saved. */
  lemma StampedExactly(lex: Lexicon, events: seq<ServiceStep>)
    ensures (forall i :: 0 <= i <= |events| ==> StampedAt(lex, events, i))
            <==> forall i :: 0 <= i < |events| ==> !CommitsGenericAt(lex, events, i)
  {
    hide *;
    StampedStart(lex, events);
    SystemIsStored(lex, events, 0);
    var n := 0;
    while n < |events| && !CommitsGenericAt(lex, events, n)
      invariant n <= |events| && SystemStampedAt(lex, events, n)
      invariant forall i :: 0 <= i <= n ==> StampedAt(lex, events, i)
      invariant forall i :: 0 <= i < n ==> !CommitsGenericAt(lex, events, i)
    {
      StampedNext(lex, events, n);
      SystemIsStored(lex, events, n + 1);
      n := n + 1;
    }
    if n < |events| {
      StampedNext(lex, events, n);
      assert !StampedAt(lex, events, n + 1);
    }
  }

  predicate IsGenericStep(e: ServiceStep) {
    e.BeginUpdate? && e.action == Transition(Approved)
  }

  ghost predicate NoneGeneric(y: Sys) {
    forall k :: k in y.calls && y.calls[k].Saving? ==> y.calls[k].action != Transition(Approved)
  }

  /** A save is of the action its call began with. */
  lemma SavingBegins(lex: Lexicon, y: Sys, e: ServiceStep)
    ensures var z := Step(lex, y, e);
            e.k in z.calls && z.calls[e.k].Saving? ==>
              (e.k in y.calls && z.calls[e.k] == y.calls[e.k]) || (e.BeginUpdate? && z.calls[e.k].action == e.action)
  {
    hide DraftTicket, BuildTicket, ActiveLimit, HasOtherAdmin, Save, SavePayment, Pending, RowFor, OutgoingExists,
         Decide, DecidePayment, RequireAdmin;
  }

  lemma {:induction false} RunNoneGeneric(lex: Lexicon, events: seq<ServiceStep>)
    requires forall e :: e in events ==> !IsGenericStep(e)
    ensures NoneGeneric(RunSteps(lex, START, events))
  {
    hide Step;
    if events != [] {
      var front, e := events[..|events| - 1], events[|events| - 1];
      assert e in events;
      RunNoneGeneric(lex, front);
      OtherCallsStay(lex, RunSteps(lex, START, front), e);
      SavingBegins(lex, RunSteps(lex, START, front), e);
    }
  }

  /** In particular without any generic approval every such withdrawal carries a stamp. */
  lemma StampedUnderInterleaving(lex: Lexicon, events: seq<ServiceStep>, id: string)
    requires forall e :: e in events ==> !(e.BeginUpdate? && e.action == Transition(Approved))
    requires var s := RunSteps(lex, START, events).store;
             id in s.tickets && s.tickets[id].typ == Withdraw
             && (s.tickets[id].status in {Approved, Paid} || Shows(s.tickets[id]))
    ensures Stamped(RunSteps(lex, START, events).store.tickets[id])
  {
    forall i | 0 <= i < |events|
      ensures !CommitsGenericAt(lex, events, i)
    {
      forall e | e in events[..i]
        ensures !IsGenericStep(e)
      {
        assert e in events;
      }
      RunNoneGeneric(lex, events[..i]);
    }
    StampedExactly(lex, events);
    assert StampedAt(lex, events, |events|);
    assert events[..|events|] == events;
    assert StampOk(RunSteps(lex, START, events).store.tickets[id]);
  }

  // A generic approval leaves no stamp

  lemma GenericApprovalSaves(lex: Lexicon, s: Store, admin: Actor, id: string, now: Time)
    requires Inv(lex, s) && id in s.tickets && RequireAdmin(admin, s.tickets[id]).None?
    requires s.tickets[id].typ == Withdraw && s.tickets[id].status == Status.Open && !Stamped(s.tickets[id])
    ensures var o := ExecUpdate(lex, s, admin, id, Transition(Approved), now);
            && o.result.Ok? && Inv(lex, o.store) && id in o.store.tickets && o.store.ledger == s.ledger
            && o.store.tickets[id].typ == Withdraw && o.store.tickets[id].status == Approved
            && !Stamped(o.store.tickets[id]) && o.store.tickets[id].openerId == s.tickets[id].openerId
  {
    var rec := s.tickets[id];
    InvSound(lex, s);
    InvGood(lex, s, id);
    GenericApproval(lex, rec, admin, now);
    UpdateKeepsInv(lex, s, admin, id, Transition(Approved), now);
    hide Inv, Sound, Good, ThreadTaken, Decide;
    var next := Decide(lex, rec, admin, Transition(Approved), now).value;
    DecideKeeps(lex, rec, admin, Transition(Approved), now);
    ThreadFree(lex, s, next);
  }

  lemma PaymentKeepsStamp(lex: Lexicon, s: Store, admin: Actor, id: string, reference: string, now: Time)
    requires Inv(lex, s) && PaymentRules.Payable(lex, s, admin, id, reference)
    ensures var t := ExecPay(lex, s, admin, id, reference, now).store;
            id in t.tickets && t.tickets[id].status == Paid && (Stamped(t.tickets[id]) <==> Stamped(s.tickets[id]))
  {
    PaymentRules.PaymentLeavesOthers(lex, s, admin, id, reference, now);
    ExecPayCases(lex, s, admin, id, reference, now);
    var others := ListOpen(s) + ListByOpener(s, s.tickets[id].openerId);
    PayKeeps(lex, s.tickets[id], admin, reference, now, others);
    InvGood(lex, s, id);
    FollowsKeepsId(s.tickets[id], ExecPay(lex, s, admin, id, reference, now).result.value);
    PaymentRules.CommitShape(s, ExecPay(lex, s, admin, id, reference, now).result.value);
    PaidKeepsApproval(lex, s.tickets[id], admin, reference, now, others);
    hide *;
  }

  lemma PaidKeepsApproval(lex: Lexicon, rec: Record, admin: Actor, reference: string, now: Time, others: seq<Record>)
    requires DecidePayment(lex, rec, admin, reference, now, others).Ok?
    ensures Stamped(DecidePayment(lex, rec, admin, reference, now, others).value) <==> Stamped(rec)
  {
    hide ValidatePaymentReference, ShowsReference;
  }

  /** Any open withdrawal without a stamp can be approved generically and then paid, and stays without one. */
  lemma PaidWithoutStampOnTables(lex: Lexicon, s: Store, admin: Actor, id: string, reference: string, now: Time)
    requires Inv(lex, s) && id in s.tickets && RequireAdmin(admin, s.tickets[id]).None?
    requires s.tickets[id].typ == Withdraw && s.tickets[id].status == Status.Open && !Stamped(s.tickets[id])
    requires ValidatePaymentReference(lex, reference).Ok?
             && !OutgoingExists(s.ledger, ValidatePaymentReference(lex, reference).value)
    ensures var t := Run(lex, s, [Update(admin, id, Transition(Approved), now), Pay(admin, id, reference, now)]);
            id in t.tickets && t.tickets[id].status == Paid && !Stamped(t.tickets[id])
  {
    GenericApprovalSaves(lex, s, admin, id, now);
    var mid := ExecUpdate(lex, s, admin, id, Transition(Approved), now).store;
    AdminStays(admin, s.tickets[id], mid.tickets[id]);
    assert PaymentRules.Payable(lex, mid, admin, id, reference);
    hide *;
    PaymentKeepsStamp(lex, mid, admin, id, reference, now);
    UpdateThenPay(lex, s, admin, id, Transition(Approved), reference, now);
  }

  lemma AdminStays(admin: Actor, a: Record, b: Record)
    requires RequireAdmin(admin, a).None? && a.openerId == b.openerId
    ensures RequireAdmin(admin, b).None?
  {
  }

  lemma UpdateThenPay(lex: Lexicon, s: Store, admin: Actor, id: string, action: Action, reference: string, now: Time)
    ensures Run(lex, s, [Update(admin, id, action, now), Pay(admin, id, reference, now)])
         == ExecPay(lex, ExecUpdate(lex, s, admin, id, action, now).store, admin, id, reference, now).store
  {
    hide ExecUpdate, ExecPay;
    PaymentRules.TwoCalls(lex, s, Update(admin, id, action, now), Pay(admin, id, reference, now));
  }
}
