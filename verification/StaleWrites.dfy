/** Exactly which writes of the interleaved service break what uninterrupted calls keep: the ledger
    mirroring the tickets, append-only logs, closed being final, and the quota of open tickets
    (modules/ticket/service.go, repository.go). */
module StaleWrites {
  import opened Wrappers
  import opened Sets
  import opened Catalog
  import opened Validation
  import opened Records
  import opened Store
  import opened Interleaving
  import opened InterleavedResults
  import opened SequentialRuns

  /** The record a step writes to the ticket table, if it writes one. */
  function Written(y: Sys, e: ServiceStep): Option<Record> {
    match e
    case CommitSave(k) =>
      if k in y.calls && Pending(y.calls[k]).Some? && Save(y.store, Pending(y.calls[k]).value).Ok?
      then Pending(y.calls[k]) else None
    case CommitPay(k) =>
      if k in y.calls && y.calls[k].PayChecked? && Shows(y.calls[k].next)
         && SavePayment(y.store, y.calls[k].next, RowFor(y.calls[k].next)).Ok?
      then Some(y.calls[k].next) else None
    case _ => None
  }

  /** The step overwrites a stored ticket. */
  predicate Overwrites(y: Sys, e: ServiceStep) {
    Written(y, e).Some? && Written(y, e).value.id in y.store.tickets
  }

  function Stored(y: Sys, e: ServiceStep): Record
    requires Overwrites(y, e)
  {
    y.store.tickets[Written(y, e).value.id]
  }

  lemma NothingWritten(lex: Lexicon, y: Sys, e: ServiceStep)
    requires Written(y, e).None?
    ensures var t := Step(lex, y, e).store;
            t.tickets == y.store.tickets && t.order == y.store.order && t.ledger == y.store.ledger
  {
    hide DecidePayment, Decide, DraftTicket, BuildTicket, ActiveLimit, HasOtherAdmin, RequireAdmin, OutgoingExists,
         ThreadTaken, LedgerRefuses, RowFor, Put;
  }

  lemma RecordWritten(lex: Lexicon, y: Sys, e: ServiceStep)
    requires Written(y, e).Some?
    ensures var next := Written(y, e).value;
            && (e.CommitSave? || (e.CommitPay? && Shows(next)))
            && Step(lex, y, e).store
               == if e.CommitPay? then Put(y.store, next).(ledger := y.store.ledger + [RowFor(next)])
                    else Put(y.store, next)
  {
    hide ThreadTaken, LedgerRefuses, RowFor, Put;
  }

  /** What is known of a record about to be written: a new ticket, open and unpaid under a free id, or what an
      update or a payment makes of a record of the same ticket. */
  lemma WrittenOrigin(lex: Lexicon, y: Sys, e: ServiceStep)
    requires SysInv(lex, y) && AllDecided(lex, y) && Written(y, e).Some?
    ensures e.k in y.calls
    ensures var p, next := y.calls[e.k], Written(y, e).value;
            && Good(lex, next)
            && (e.CommitPay? ==> p.PayChecked? && next.id in y.store.tickets && Good(lex, p.base)
                                 && PayDecision(lex, p.base, p.actor, p.reference, p.now, next))
            && (e.CommitSave? ==> Backed(y.store.ledger, next))
            && (e.CommitSave? && p.Numbered? ==>
                next.id !in y.store.tickets && next.status == Status.Open && !Shows(next))
            && (e.CommitSave? && !p.Numbered? ==>
                p.Saving? && next.id in y.store.tickets && Good(lex, p.base)
                && Decide(lex, p.base, p.actor, p.action, p.now) == Ok(next))
            && (next.id in y.store.tickets ==> SameCore(y.store.tickets[next.id], next))
  {
    PhaseOkAt(lex, y, e.k);
    assert Decided(lex, y.calls[e.k]);
    hide SysInv, Good, SameCore, Decide, PayDecision, Backed, ThreadTaken, LedgerRefuses, RowFor, AllDecided;
  }

  lemma OverwriteOrigin(lex: Lexicon, y: Sys, e: ServiceStep)
    requires SysInv(lex, y) && AllDecided(lex, y) && Overwrites(y, e)
    ensures e.k in y.calls
    ensures var p, next := y.calls[e.k], Written(y, e).value;
            && (p.Saving? || p.PayChecked?) && Good(lex, p.base) && Good(lex, next) && Follows(p.base, next)
            && SameCore(Stored(y, e), next)
            && (p.Saving? ==> e.CommitSave? && Decide(lex, p.base, p.actor, p.action, p.now) == Ok(next)
                              && Backed(y.store.ledger, next))
            && (p.PayChecked? ==> e.CommitPay? && next.status == Paid)
  {
    WrittenOrigin(lex, y, e);
    hide SysInv, Good, SameCore, Follows, Decide, DecidePayment, Backed, Written, AllDecided;
    var p, next := y.calls[e.k], Written(y, e).value;
    if p.Saving? {
      DecideKeeps(lex, p.base, p.actor, p.action, p.now);
    } else {
      var others: seq<Record> :| DecidePayment(lex, p.base, p.actor, p.reference, p.now, others) == Ok(next);
      PayKeeps(lex, p.base, p.actor, p.reference, p.now, others);
    }
  }

  // The ledger mirrors the tickets

  /** A save over a ticket that shows a payment was decided on a record that shows one. */
  ghost predicate SeesPayment(y: Sys, e: ServiceStep) {
    Overwrites(y, e) && e.CommitSave? && e.k in y.calls && y.calls[e.k].Saving? && Shows(Stored(y, e)) ==>
      Shows(y.calls[e.k].base)
  }

  /** A ticket that shows a payment cannot lose it. */
  lemma LosingPaymentBreaks(s: Store, next: Record)
    requires next.id in s.tickets && s.tickets[next.id].id == next.id && Backed(s.ledger, s.tickets[next.id])
    requires Shows(s.tickets[next.id]) && !Shows(next)
    ensures !Settled(Put(s, next))
  {
    var t := Put(s, next);
    var i :| 0 <= i < |s.ledger| && s.ledger[i] == RowFor(s.tickets[next.id]);
    assert t.ledger[i].ticketId == next.id && !Shows(t.tickets[next.id]);
  }

  /** The payment a record shows is that of the ticket's only row. */
  lemma RowsOfTicket(lex: Lexicon, s: Store, next: Record)
    requires Sound(lex, s) && Backed(s.ledger, next) && Shows(next)
    ensures forall i :: 0 <= i < |s.ledger| && s.ledger[i].ticketId == next.id ==> s.ledger[i] == RowFor(next)
  {
    hide Sound;
    var j :| 0 <= j < |s.ledger| && s.ledger[j] == RowFor(next);
    forall i | 0 <= i < |s.ledger| && s.ledger[i].ticketId == next.id
      ensures s.ledger[i] == RowFor(next)
    {
      OneRowPerTicket(lex, s, i, j);
    }
  }

  lemma KeepingPaymentKeeps(s: Store, next: Record)
    requires Settled(s) && next.id in s.tickets && (Shows(s.tickets[next.id]) ==> Shows(next))
    requires Shows(next) ==>
               forall i :: 0 <= i < |s.ledger| && s.ledger[i].ticketId == next.id ==> s.ledger[i] == RowFor(next)
    ensures Settled(Put(s, next))
  {
    hide RowFor;
  }

  lemma SaveMirrors(lex: Lexicon, s: Store, next: Record)
    requires Sound(lex, s) && Settled(s) && next.id in s.tickets && Backed(s.ledger, next)
    ensures Settled(Put(s, next)) <==> (Shows(s.tickets[next.id]) ==> Shows(next))
  {
    StoredIsOk(lex, s, next.id);
    hide Sound, Settled, Backed, Put, Shows, Good;
    if Shows(s.tickets[next.id]) && !Shows(next) {
      LosingPaymentBreaks(s, next);
    } else {
      if Shows(next) {
        RowsOfTicket(lex, s, next);
      }
      KeepingPaymentKeeps(s, next);
    }
  }

  lemma CommitMirrors(lex: Lexicon, s: Store, next: Record)
    requires Sound(lex, s) && Settled(s) && Good(lex, next) && Shows(next) && next.id in s.tickets
    requires SavePayment(s, next, RowFor(next)).Ok?
    ensures Settled(Put(s, next).(ledger := s.ledger + [RowFor(next)]))
  {
    assert PaymentMatches(lex, next, next.withdrawal.value.outgoing.value);
    forall i | 0 <= i < |s.ledger|
      ensures s.ledger[i].ticketId != next.id
    {
      assert RowMatches(s.tickets, s.ledger[i]);
    }
    hide Good, Sound, PaymentMatches;
  }

  lemma DecisionShows(lex: Lexicon, base: Record, actor: Actor, action: Action, now: Time, next: Record)
    requires Good(lex, base) && Decide(lex, base, actor, action, now) == Ok(next)
    ensures Shows(next) <==> Shows(base)
  {
    DecideKeeps(lex, base, actor, action, now);
    if base.withdrawal.Some? {
      DecideNeverPays(lex, base, actor, action, now);
    }
    hide Decide, Good;
  }

  /** One step keeps the ledger mirroring the tickets if and only if it is not a save that overwrites a
      payment it has not seen. */
  lemma MirrorStep(lex: Lexicon, y: Sys, e: ServiceStep)
    requires SysInv(lex, y) && AllDecided(lex, y) && Settled(y.store)
    ensures Settled(Step(lex, y, e).store) <==> SeesPayment(y, e)
  {
    hide *;
    MirrorMeans(y, e);
    if Written(y, e).None? {
      NothingWritten(lex, y, e);
      SettledByTables(y.store, Step(lex, y, e).store);
    } else {
      RecordWritten(lex, y, e);
      WrittenOrigin(lex, y, e);
      SysIsSound(lex, y);
      var p, next := y.calls[e.k], Written(y, e).value;
      if e.CommitPay? {
        PaymentWritten(y, e);
        CommitMirrors(lex, y.store, next);
      } else if p.Numbered? {
        InsertKeepsSettled(y.store, next);
      } else {
        SaveMirrors(lex, y.store, next);
        DecisionShows(lex, p.base, p.actor, p.action, p.now, next);
      }
    }
  }

  lemma MirrorMeans(y: Sys, e: ServiceStep)
    ensures Written(y, e).None? ==> SeesPayment(y, e)
    ensures e.CommitPay? ==> SeesPayment(y, e)
    ensures Written(y, e).Some? && Written(y, e).value.id !in y.store.tickets ==> SeesPayment(y, e)
    ensures Written(y, e).Some? && e.CommitSave? && e.k in y.calls && y.calls[e.k].Saving?
            && Written(y, e).value.id in y.store.tickets ==>
              (SeesPayment(y, e) <==>
                (Shows(y.store.tickets[Written(y, e).value.id]) ==> Shows(y.calls[e.k].base)))
  {
    hide Written, Shows;
  }

  lemma PaymentWritten(y: Sys, e: ServiceStep)
    requires Written(y, e).Some? && e.CommitPay?
    ensures Shows(Written(y, e).value) && SavePayment(y.store, Written(y, e).value, RowFor(Written(y, e).value)).Ok?
  {
    hide ThreadTaken, LedgerRefuses, RowFor;
  }

  lemma SettledByTables(s: Store, t: Store)
    requires s.tickets == t.tickets && s.ledger == t.ledger
    ensures Settled(s) <==> Settled(t)
  {
    hide RowFor, Shows;
  }

  // Logs are append-only

  ghost predicate LogsExtend(s: Store, t: Store) {
    forall id :: id in s.tickets ==> id in t.tickets && s.tickets[id].history <= t.tickets[id].history
  }

  /** A write over a ticket was decided on a record whose log had all the ticket's log has now, or writes the
      very log that is there. */
  ghost predicate LogIsCurrent(y: Sys, e: ServiceStep) {
    Overwrites(y, e) && e.k in y.calls && (y.calls[e.k].Saving? || y.calls[e.k].PayChecked?) ==>
      Stored(y, e).history <= y.calls[e.k].base.history || Stored(y, e).history == Written(y, e).value.history
  }

  lemma PrefixOfOneMore<T>(a: seq<T>, base: seq<T>, next: seq<T>)
    requires |next| == |base| + 1 && next[..|base|] == base
    ensures a <= next <==> a <= base || a == next
  {
    if a <= next && |a| <= |base| {
      assert a == next[..|a|] == base[..|a|];
    }
  }

  lemma LogsAfterPut(s: Store, t: Store, next: Record)
    requires t.tickets == s.tickets[next.id := next]
    ensures LogsExtend(s, t) <==> (next.id in s.tickets ==> s.tickets[next.id].history <= next.history)
  {
  }

  /** One step only extends the logs if and only if it does not write on top of events it has not seen. */
  lemma LogStep(lex: Lexicon, y: Sys, e: ServiceStep)
    requires SysInv(lex, y) && AllDecided(lex, y)
    ensures LogsExtend(y.store, Step(lex, y, e).store) <==> LogIsCurrent(y, e)
  {
    if Written(y, e).None? {
      NothingWritten(lex, y, e);
      hide *;
      LogsByTables(y.store, Step(lex, y, e).store);
      NotWritten(y, e);
    } else {
      var next := Written(y, e).value;
      RecordWritten(lex, y, e);
      LogsAfterPut(y.store, Step(lex, y, e).store, next);
      if next.id in y.store.tickets {
        OverwriteOrigin(lex, y, e);
        PrefixOfOneMore(Stored(y, e).history, y.calls[e.k].base.history, next.history);
      }
      hide SysInv, AllDecided, Good, Decide, Written, Step, LogsExtend, SameCore, Backed;
    }
  }

  lemma NotWritten(y: Sys, e: ServiceStep)
    requires Written(y, e).None?
    ensures LogIsCurrent(y, e) && SeesClosing(y, e)
  {
  }

  lemma LogsByTables(s: Store, t: Store)
    requires s.tickets == t.tickets
    ensures LogsExtend(s, t) && ClosedStay(s, t)
  {
  }

  // Closed is final

  ghost predicate Frozen(a: Record, b: Record) {
    && b.status == a.status && b.closedAt == a.closedAt
    && b.withdrawal == a.withdrawal && b.sellerApproval == a.sellerApproval
  }

  ghost predicate ClosedStay(s: Store, t: Store) {
    forall id :: id in s.tickets && s.tickets[id].status == Closed ==>
        id in t.tickets && Frozen(s.tickets[id], t.tickets[id])
  }

  /** A write over a closed ticket is an update that was decided on it closed as it is, or the same closing
      again. */
  ghost predicate SeesClosing(y: Sys, e: ServiceStep) {
    Overwrites(y, e) && Stored(y, e).status == Closed && e.k in y.calls ==>
      var p := y.calls[e.k];
      && p.Saving?
      && if p.base.status == Closed then Frozen(Stored(y, e), p.base)
         else p.action == Transition(Closed) && Stored(y, e).closedAt == Some(p.now)
              && Stored(y, e).withdrawal == p.base.withdrawal && Stored(y, e).sellerApproval == p.base.sellerApproval
  }

  lemma FrozenAfter(lex: Lexicon, stored: Record, base: Record, actor: Actor, action: Action, now: Time, next: Record)
    requires Good(lex, base) && Decide(lex, base, actor, action, now) == Ok(next) && stored.status == Closed
    ensures Frozen(stored, next) <==>
              if base.status == Closed then Frozen(stored, base)
              else action == Transition(Closed) && stored.closedAt == Some(now)
                   && stored.withdrawal == base.withdrawal && stored.sellerApproval == base.sellerApproval
  {
    DecideKeeps(lex, base, actor, action, now);
    hide Good, Decide, SameCore;
    if base.status != Closed {
      ClosingDecides(lex, base, actor, action, now);
    }
  }

  /** Only a closing closes, and it touches neither the withdrawal nor the seller approval. */
  lemma ClosingDecides(lex: Lexicon, base: Record, actor: Actor, action: Action, now: Time)
    requires base.status != Closed && Decide(lex, base, actor, action, now).Ok?
    ensures var next := Decide(lex, base, actor, action, now).value;
            && (next.status == Closed <==> action == Transition(Closed))
            && (next.status == Closed ==> next.closedAt == Some(now) && next.withdrawal == base.withdrawal
                                          && next.sellerApproval == base.sellerApproval)
  {
    hide ValidateTicketText, ValidResolution, CanTransition, RequireAdmin, IsWithdrawal;
  }

  lemma ClosedAfterPut(s: Store, t: Store, next: Record)
    requires t.tickets == s.tickets[next.id := next]
    ensures ClosedStay(s, t)
            <==> (next.id in s.tickets && s.tickets[next.id].status == Closed ==> Frozen(s.tickets[next.id], next))
  {
  }

  /** One step keeps closed tickets as they are if and only if it does not write over a closing it has not
      seen. */
  lemma ClosingStep(lex: Lexicon, y: Sys, e: ServiceStep)
    requires SysInv(lex, y) && AllDecided(lex, y)
    ensures ClosedStay(y.store, Step(lex, y, e).store) <==> SeesClosing(y, e)
  {
    if Written(y, e).None? {
      NothingWritten(lex, y, e);
      hide *;
      LogsByTables(y.store, Step(lex, y, e).store);
      NotWritten(y, e);
    } else {
      var next := Written(y, e).value;
      RecordWritten(lex, y, e);
      ClosedAfterPut(y.store, Step(lex, y, e).store, next);
      if next.id in y.store.tickets {
        OverwriteOrigin(lex, y, e);
        var p := y.calls[e.k];
        if p.Saving? && Stored(y, e).status == Closed {
          FrozenAfter(lex, Stored(y, e), p.base, p.actor, p.action, p.now, next);
        }
      }
      hide SysInv, AllDecided, Good, Decide, Written, Step, ClosedStay, SameCore, Backed, Follows;
    }
  }

  // The quota of open tickets

  /** Writing the record opens a ticket that was not open. */
  predicate Opens(s: Store, next: Record) {
    next.status != Closed && (next.id in s.tickets ==> s.tickets[next.id].status == Closed)
  }

  predicate RoomFor(s: Store, next: Record) {
    ActiveLimit(ListByOpener(s, next.openerId), next.openerId, next.typ).None?
  }

  /** A write that opens a ticket finds room for it in the table as it is then. */
  predicate FindsRoom(y: Sys, e: ServiceStep) {
    Written(y, e).Some? && Opens(y.store, Written(y, e).value) ==> RoomFor(y.store, Written(y, e).value)
  }

  lemma PutClosesOrKeeps(s: Store, next: Record, m: string)
    requires WithinQuota(s, m) && !Opens(s, next) && (next.id in s.tickets ==> SameCore(s.tickets[next.id], next))
    ensures WithinQuota(Put(s, next), m)
  {
    var t := Put(s, next);
    assert OpenIds(t, m) <= OpenIds(s, m);
    SubsetSize(OpenIds(t, m), OpenIds(s, m));
  }

  /** For the opener the quota holds afterwards exactly when there was room. */
  lemma PutOpens(s: Store, next: Record)
    requires Keyed(s) && WithinQuota(s, next.openerId) && Opens(s, next)
    requires next.id in s.tickets ==> SameCore(s.tickets[next.id], next)
    ensures WithinQuota(Put(s, next), next.openerId) <==> RoomFor(s, next)
  {
    var m := next.openerId;
    ActiveLimitIsQuota(s, m, next.typ);
    OpensOneMore(s, next);
    hide ActiveLimit, ListByOpener, Keyed, OpenIds, Put;
    OneMoreOpen(s, Put(s, next), next);
  }

  lemma OpensOneMore(s: Store, next: Record)
    requires Opens(s, next) && (next.id in s.tickets ==> SameCore(s.tickets[next.id], next))
    ensures OpenIds(Put(s, next), next.openerId) == OpenIds(s, next.openerId) + {next.id}
    ensures next.id !in OpenIds(s, next.openerId)
    ensures forall id :: id in OpenIds(s, next.openerId) ==>
              id in s.tickets && id in Put(s, next).tickets && Put(s, next).tickets[id] == s.tickets[id]
    ensures next.id in Put(s, next).tickets && Put(s, next).tickets[next.id] == next
  {
  }

  lemma OneMoreOpen(s: Store, t: Store, next: Record)
    requires WithinQuota(s, next.openerId)
    requires OpenIds(t, next.openerId) == OpenIds(s, next.openerId) + {next.id} && next.id !in OpenIds(s, next.openerId)
    requires forall id :: id in OpenIds(s, next.openerId) ==>
               id in s.tickets && id in t.tickets && t.tickets[id] == s.tickets[id]
    requires next.id in t.tickets && t.tickets[next.id] == next
    ensures WithinQuota(t, next.openerId) <==>
              && |OpenIds(s, next.openerId)| < MAX_OPEN_TICKETS
              && forall id :: id in OpenIds(s, next.openerId) ==> s.tickets[id].typ != next.typ
  {
    hide OpenIds;
    var m := next.openerId;
    assert |OpenIds(t, m)| == |OpenIds(s, m)| + 1;
    if WithinQuota(t, m) {
      forall id | id in OpenIds(s, m)
        ensures s.tickets[id].typ != next.typ
      {
        assert id in OpenIds(t, m) && next.id in OpenIds(t, m) && id != next.id;
      }
    }
  }

  lemma PutLeavesOthers(s: Store, next: Record, m: string)
    requires WithinQuota(s, m) && m != next.openerId && (next.id in s.tickets ==> SameCore(s.tickets[next.id], next))
    ensures WithinQuota(Put(s, next), m)
  {
    assert OpenIds(Put(s, next), m) == OpenIds(s, m);
  }

  lemma PutQuota(s: Store, next: Record)
    requires Keyed(s) && AllWithinQuota(s) && (next.id in s.tickets ==> SameCore(s.tickets[next.id], next))
    ensures AllWithinQuota(Put(s, next)) <==> (Opens(s, next) ==> RoomFor(s, next))
  {
    hide WithinQuota, RoomFor, Opens, Put, Keyed, SameCore;
    var t := Put(s, next);
    forall m
      ensures WithinQuota(t, m) <==> (m == next.openerId && Opens(s, next) ==> RoomFor(s, next))
    {
      assert WithinQuota(s, m);
      if m != next.openerId {
        PutLeavesOthers(s, next, m);
      } else if Opens(s, next) {
        PutOpens(s, next);
      } else {
        PutClosesOrKeeps(s, next, m);
      }
    }
    assert WithinQuota(t, next.openerId) <==> (Opens(s, next) ==> RoomFor(s, next));
  }

  lemma QuotaByTables(s: Store, t: Store)
    requires s.tickets == t.tickets
    ensures AllWithinQuota(s) <==> AllWithinQuota(t)
  {
    forall m
      ensures WithinQuota(s, m) <==> WithinQuota(t, m)
    {
      assert OpenIds(s, m) == OpenIds(t, m);
    }
  }

  /** One step keeps every quota if and only if a ticket it opens, new or reopened, has room in the table as
      it is at the write. */
  lemma QuotaStep(lex: Lexicon, y: Sys, e: ServiceStep)
    requires SysInv(lex, y) && AllDecided(lex, y) && AllWithinQuota(y.store)
    ensures AllWithinQuota(Step(lex, y, e).store) <==> FindsRoom(y, e)
  {
    var t := Step(lex, y, e).store;
    if Written(y, e).None? {
      NothingWritten(lex, y, e);
      QuotaByTables(y.store, t);
    } else {
      var next := Written(y, e).value;
      RecordWritten(lex, y, e);
      WrittenOrigin(lex, y, e);
      SysIsSound(lex, y);
      PutQuota(y.store, next);
      QuotaByTables(Put(y.store, next), t);
    }
    hide SysInv, AllDecided, Written, Step, AllWithinQuota, RoomFor, Opens, Sound, Good, Put, SameCore;
  }

  // Whole runs

  function At(lex: Lexicon, events: seq<ServiceStep>, i: nat): Sys
    requires i <= |events|
  {
    RunSteps(lex, START, events[..i])
  }

  lemma NextAt(lex: Lexicon, events: seq<ServiceStep>, i: nat)
    requires i < |events|
    ensures At(lex, events, i + 1) == Step(lex, At(lex, events, i), events[i])
    ensures SysInv(lex, At(lex, events, i)) && AllDecided(lex, At(lex, events, i))
  {
    hide Step, SysInv, AllDecided;
    assert events[..i + 1][..i] == events[..i];
    RunDecided(lex, events[..i]);
  }

  lemma AtStart(lex: Lexicon, events: seq<ServiceStep>)
    ensures MirroredAt(lex, events, 0) && WithinQuotaAt(lex, events, 0)
  {
    EmptyInv(lex);
  }

  ghost predicate MirroredAt(lex: Lexicon, events: seq<ServiceStep>, i: nat)
    requires i <= |events|
  {
    Settled(At(lex, events, i).store)
  }

  ghost predicate SeesPaymentAt(lex: Lexicon, events: seq<ServiceStep>, i: nat)
    requires i < |events|
  {
    SeesPayment(At(lex, events, i), events[i])
  }

  /** In a run the ledger mirrors the tickets at all times if and only if no save ever overwrites a payment
      it has not seen. */
  lemma MirroredExactly(lex: Lexicon, events: seq<ServiceStep>)
    ensures (forall i :: 0 <= i <= |events| ==> MirroredAt(lex, events, i))
            <==> forall i :: 0 <= i < |events| ==> SeesPaymentAt(lex, events, i)
  {
    AtStart(lex, events);
    hide *;
    var n := 0;
    while n < |events| && SeesPaymentAt(lex, events, n)
      invariant n <= |events| && forall i :: 0 <= i <= n ==> MirroredAt(lex, events, i)
      invariant forall i :: 0 <= i < n ==> SeesPaymentAt(lex, events, i)
    {
      MirroredNext(lex, events, n);
      n := n + 1;
    }
    if n < |events| {
      MirroredNext(lex, events, n);
      assert !MirroredAt(lex, events, n + 1);
    }
  }

  lemma MirroredNext(lex: Lexicon, events: seq<ServiceStep>, i: nat)
    requires i < |events| && MirroredAt(lex, events, i)
    ensures MirroredAt(lex, events, i + 1) <==> SeesPaymentAt(lex, events, i)
  {
    NextAt(lex, events, i);
    MirrorStep(lex, At(lex, events, i), events[i]);
    hide At, Step, SysInv, AllDecided, Settled, SeesPayment;
  }

  ghost predicate WithinQuotaAt(lex: Lexicon, events: seq<ServiceStep>, i: nat)
    requires i <= |events|
  {
    AllWithinQuota(At(lex, events, i).store)
  }

  ghost predicate FindsRoomAt(lex: Lexicon, events: seq<ServiceStep>, i: nat)
    requires i < |events|
  {
    FindsRoom(At(lex, events, i), events[i])
  }

  /** Every quota holds at all times if and only if every write that opens a ticket finds room then. */
  lemma QuotaExactly(lex: Lexicon, events: seq<ServiceStep>)
    ensures (forall i :: 0 <= i <= |events| ==> WithinQuotaAt(lex, events, i))
            <==> forall i :: 0 <= i < |events| ==> FindsRoomAt(lex, events, i)
  {
    AtStart(lex, events);
    hide *;
    var n := 0;
    while n < |events| && FindsRoomAt(lex, events, n)
      invariant n <= |events| && forall i :: 0 <= i <= n ==> WithinQuotaAt(lex, events, i)
      invariant forall i :: 0 <= i < n ==> FindsRoomAt(lex, events, i)
    {
      QuotaNext(lex, events, n);
      n := n + 1;
    }
    if n < |events| {
      QuotaNext(lex, events, n);
      assert !WithinQuotaAt(lex, events, n + 1);
    }
  }

  lemma QuotaNext(lex: Lexicon, events: seq<ServiceStep>, i: nat)
    requires i < |events| && WithinQuotaAt(lex, events, i)
    ensures WithinQuotaAt(lex, events, i + 1) <==> FindsRoomAt(lex, events, i)
  {
    NextAt(lex, events, i);
    QuotaStep(lex, At(lex, events, i), events[i]);
    hide At, Step, SysInv, AllDecided, AllWithinQuota, FindsRoom;
  }

  ghost predicate LogsExtendAt(lex: Lexicon, events: seq<ServiceStep>, i: nat)
    requires i < |events|
  {
    LogsExtend(At(lex, events, i).store, At(lex, events, i + 1).store)
  }

  ghost predicate LogIsCurrentAt(lex: Lexicon, events: seq<ServiceStep>, i: nat)
    requires i < |events|
  {
    LogIsCurrent(At(lex, events, i), events[i])
  }

  /** A run only extends the logs if and only if no write is decided on a record that lacks events its ticket
      has by then. */
  lemma HistoryExactly(lex: Lexicon, events: seq<ServiceStep>)
    ensures (forall i :: 0 <= i < |events| ==> LogsExtendAt(lex, events, i))
            <==> forall i :: 0 <= i < |events| ==> LogIsCurrentAt(lex, events, i)
  {
    forall i | 0 <= i < |events|
      ensures LogsExtendAt(lex, events, i) <==> LogIsCurrentAt(lex, events, i)
    {
      NextAt(lex, events, i);
      LogStep(lex, At(lex, events, i), events[i]);
    }
    hide *;
  }

  ghost predicate ClosedStayAt(lex: Lexicon, events: seq<ServiceStep>, i: nat)
    requires i < |events|
  {
    ClosedStay(At(lex, events, i).store, At(lex, events, i + 1).store)
  }

  ghost predicate SeesClosingAt(lex: Lexicon, events: seq<ServiceStep>, i: nat)
    requires i < |events|
  {
    SeesClosing(At(lex, events, i), events[i])
  }

  /** A run leaves closed tickets as they are if and only if no write is decided before a closing it then
      overwrites. */
  lemma ClosingExactly(lex: Lexicon, events: seq<ServiceStep>)
    ensures (forall i :: 0 <= i < |events| ==> ClosedStayAt(lex, events, i))
            <==> forall i :: 0 <= i < |events| ==> SeesClosingAt(lex, events, i)
  {
    forall i | 0 <= i < |events|
      ensures ClosedStayAt(lex, events, i) <==> SeesClosingAt(lex, events, i)
    {
      NextAt(lex, events, i);
      ClosingStep(lex, At(lex, events, i), events[i]);
    }
    hide *;
  }
}
