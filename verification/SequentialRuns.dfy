/** What holds of the tickets and the ledger when calls run one after the other. */
module SequentialRuns {
  import opened Wrappers
  import opened Sets
  import opened Catalog
  import opened Validation
  import opened Records
  import opened Store
  import opened Totals
  import TicketId

  datatype Call =
    | Open(actor: Actor, input: Input, now: Time)
    | Update(actor: Actor, id: string, action: Action, now: Time)
    | Pay(actor: Actor, id: string, reference: string, now: Time)

  function Exec(lex: Lexicon, s: Store, c: Call): Outcome {
    match c
    case Open(actor, input, now) => ExecCreate(lex, s, actor, input, now)
    case Update(actor, id, action, now) => ExecUpdate(lex, s, actor, id, action, now)
    case Pay(actor, id, reference, now) => ExecPay(lex, s, actor, id, reference, now)
  }

  function Run(lex: Lexicon, s: Store, calls: seq<Call>): Store {
    if calls == [] then s else Exec(lex, Run(lex, s, calls[..|calls| - 1]), calls[|calls| - 1]).store
  }

  // How tickets evolve

  /** Any number of steps: Follows without the length of the log. */
  ghost predicate Evolves(a: Record, b: Record) {
    && SameCore(a, b)
    && a.history <= b.history
    && (Shows(a) ==> b.withdrawal.value.outgoing == a.withdrawal.value.outgoing)
    && (a.withdrawal.Some? && a.withdrawal.value.approval.Some? ==>
        b.withdrawal.value.approval == a.withdrawal.value.approval)
    && (a.status == Closed ==>
        b.status == Closed && b.closedAt == a.closedAt && b.withdrawal == a.withdrawal
        && b.sellerApproval == a.sellerApproval)
  }

  ghost predicate TicketsEvolve(s: Store, t: Store) {
    forall id :: id in s.tickets ==> id in t.tickets && Evolves(s.tickets[id], t.tickets[id])
  }

  lemma EvolvesTransitive(a: Record, b: Record, c: Record)
    requires Evolves(a, b) && Evolves(b, c)
    ensures Evolves(a, c)
  {
  }

  lemma TicketsEvolveTransitive(s: Store, t: Store, u: Store)
    requires TicketsEvolve(s, t) && TicketsEvolve(t, u)
    ensures TicketsEvolve(s, u)
  {
    forall id | id in s.tickets
      ensures id in u.tickets && Evolves(s.tickets[id], u.tickets[id])
    {
      EvolvesTransitive(s.tickets[id], t.tickets[id], u.tickets[id]);
    }
  }

  lemma PutEvolves(s: Store, next: Record)
    requires next.id in s.tickets ==> Evolves(s.tickets[next.id], next)
    ensures TicketsEvolve(s, Put(s, next))
  {
  }

  // The invariant of uninterrupted calls

  /** Every ledger row is shown by its ticket. */
  ghost predicate Settled(s: Store) {
    forall i :: 0 <= i < |s.ledger| ==>
      && s.ledger[i].ticketId in s.tickets && Shows(s.tickets[s.ledger[i].ticketId])
      && s.ledger[i] == RowFor(s.tickets[s.ledger[i].ticketId])
  }

  ghost function OpenIds(s: Store, member: string): set<string> {
    set id | id in s.tickets && CountsFor(s.tickets[id], member)
  }

  ghost predicate WithinQuota(s: Store, member: string) {
    && |OpenIds(s, member)| <= MAX_OPEN_TICKETS
    && forall a, b :: a in OpenIds(s, member) && b in OpenIds(s, member) && s.tickets[a].typ == s.tickets[b].typ ==>
         a == b
  }

  ghost predicate AllWithinQuota(s: Store) {
    forall member :: WithinQuota(s, member)
  }

  ghost predicate Inv(lex: Lexicon, s: Store) {
    Sound(lex, s) && Settled(s) && AllWithinQuota(s)
  }

  lemma EmptyInv(lex: Lexicon)
    ensures Inv(lex, EMPTY)
  {
    assert forall m :: OpenIds(EMPTY, m) == {};
  }

  /** A save that follows the stored record opens nothing, so it keeps every quota. */
  lemma OverwriteKeepsQuota(s: Store, next: Record)
    requires AllWithinQuota(s) && next.id in s.tickets && Evolves(s.tickets[next.id], next)
    ensures AllWithinQuota(Put(s, next))
  {
    var t := Put(s, next);
    forall m
      ensures WithinQuota(t, m)
    {
      assert WithinQuota(s, m);
      assert OpenIds(t, m) <= OpenIds(s, m);
      SubsetSize(OpenIds(t, m), OpenIds(s, m));
    }
  }

  lemma OverwriteKeepsSettled(s: Store, next: Record)
    requires Settled(s) && next.id in s.tickets && Evolves(s.tickets[next.id], next)
    ensures Settled(Put(s, next))
  {
  }

  lemma FollowsEvolves(rec: Record, next: Record)
    requires Follows(rec, next)
    ensures Evolves(rec, next)
  {
  }

  /** Saving what follows the stored record keeps the invariant. */
  lemma OverwriteKeepsInv(lex: Lexicon, s: Store, next: Record)
    requires Inv(lex, s) && next.id in s.tickets && Follows(s.tickets[next.id], next)
    requires Good(lex, next) && Backed(s.ledger, next) && Save(s, next).Ok?
    ensures Inv(lex, Put(s, next)) && TicketsEvolve(s, Put(s, next))
  {
    FollowsEvolves(s.tickets[next.id], next);
    SaveKeepsSound(lex, s, next);
    OverwriteKeepsQuota(s, next);
    OverwriteKeepsSettled(s, next);
    PutEvolves(s, next);
  }

  /** So does committing a payment that follows it. */
  lemma CommitKeepsInv(lex: Lexicon, s: Store, next: Record)
    requires Inv(lex, s) && next.id in s.tickets && Follows(s.tickets[next.id], next)
    requires Good(lex, next) && Shows(next) && SavePayment(s, next, RowFor(next)).Ok?
    ensures var t := SavePayment(s, next, RowFor(next)).value; Inv(lex, t) && TicketsEvolve(s, t)
  {
    var t := SavePayment(s, next, RowFor(next)).value;
    FollowsEvolves(s.tickets[next.id], next);
    SavePaymentKeepsSound(lex, s, next);
    OverwriteKeepsQuota(s, next);
    OverwriteKeepsSettled(s, next);
    AppendKeepsSettled(Put(s, next), next);
    PutEvolves(s, next);
    LedgerIsNotQuota(Put(s, next), t);
  }

  lemma LedgerIsNotQuota(s: Store, t: Store)
    requires AllWithinQuota(s) && t.tickets == s.tickets
    ensures AllWithinQuota(t)
  {
    forall m
      ensures WithinQuota(t, m)
    {
      assert WithinQuota(s, m) && OpenIds(t, m) == OpenIds(s, m);
    }
  }

  lemma ExecUpdateCases(lex: Lexicon, s: Store, actor: Actor, id: string, action: Action, now: Time)
    ensures var o := ExecUpdate(lex, s, actor, id, action, now);
            if o.result.Err? then o.store == s
            else
              && id in s.tickets && Decide(lex, s.tickets[id], actor, action, now) == o.result
              && Save(s, o.result.value) == Ok(Put(s, o.result.value)) && o.store == Put(s, o.result.value)
  {
  }

  lemma UpdateKeepsInv(lex: Lexicon, s: Store, actor: Actor, id: string, action: Action, now: Time)
    requires Inv(lex, s)
    ensures var t := ExecUpdate(lex, s, actor, id, action, now).store; Inv(lex, t) && TicketsEvolve(s, t)
  {
    hide *;
    var o := ExecUpdate(lex, s, actor, id, action, now);
    ExecUpdateCases(lex, s, actor, id, action, now);
    if o.result.Ok? {
      InvGood(lex, s, id);
      DecideKeeps(lex, s.tickets[id], actor, action, now);
      FollowsKeepsId(s.tickets[id], o.result.value);
      UpdateBacked(lex, s, id, actor, action, now);
      OverwriteKeepsInv(lex, s, o.result.value);
    } else {
      TicketsEvolveReflexive(s);
    }
  }

  lemma UpdateBacked(lex: Lexicon, s: Store, id: string, actor: Actor, action: Action, now: Time)
    requires Sound(lex, s) && id in s.tickets && Decide(lex, s.tickets[id], actor, action, now).Ok?
    ensures Backed(s.ledger, Decide(lex, s.tickets[id], actor, action, now).value)
  {
    var rec := s.tickets[id];
    DecideKeeps(lex, rec, actor, action, now);
    if rec.withdrawal.Some? {
      DecideNeverPays(lex, rec, actor, action, now);
    }
    assert Backed(s.ledger, rec);
  }

  lemma PaymentIdInjective(a: string, b: string)
    requires PaymentId(a) == PaymentId(b)
    ensures a == b
  {
    assert PaymentId(a)[4..] == a && PaymentId(b)[4..] == b;
  }

  /** A payment that passes the receipt check is never refused by the database. */
  lemma CheckedPaymentCommits(lex: Lexicon, s: Store, id: string, actor: Actor, reference: string, now: Time,
                              others: seq<Record>)
    requires Inv(lex, s) && id in s.tickets
    requires DecidePayment(lex, s.tickets[id], actor, reference, now, others).Ok?
    requires var next := DecidePayment(lex, s.tickets[id], actor, reference, now, others).value;
             !OutgoingExists(s.ledger, next.withdrawal.value.outgoing.value.reference)
    ensures var next := DecidePayment(lex, s.tickets[id], actor, reference, now, others).value;
            SavePayment(s, next, RowFor(next)).Ok?
  {
    var rec := s.tickets[id];
    PayKeeps(lex, rec, actor, reference, now, others);
    var next := DecidePayment(lex, rec, actor, reference, now, others).value;
    var row := RowFor(next);
    assert PaymentMatches(lex, next, next.withdrawal.value.outgoing.value);
    forall i | 0 <= i < |s.ledger|
      ensures s.ledger[i].publicId != row.publicId
    {
      assert RowMatches(s.tickets, s.ledger[i]);
      if s.ledger[i].publicId == row.publicId {
        PaymentIdInjective(s.ledger[i].ticketId, id);
        assert false;
      }
    }
  }

  lemma InvGood(lex: Lexicon, s: Store, id: string)
    requires Inv(lex, s) && id in s.tickets
    ensures Sound(lex, s) && Good(lex, s.tickets[id]) && s.tickets[id].id == id
  {
  }

  lemma ExecPayCases(lex: Lexicon, s: Store, actor: Actor, id: string, reference: string, now: Time)
    ensures var o := ExecPay(lex, s, actor, id, reference, now);
            if o.result.Err? then o.store == s
            else
              && id in s.tickets && Shows(o.result.value)
              && DecidePayment(lex, s.tickets[id], actor, reference, now,
                               ListOpen(s) + ListByOpener(s, s.tickets[id].openerId)) == o.result
              && SavePayment(s, o.result.value, RowFor(o.result.value)) == Ok(o.store)
  {
  }

  lemma PayKeepsInv(lex: Lexicon, s: Store, actor: Actor, id: string, reference: string, now: Time)
    requires Inv(lex, s)
    ensures var t := ExecPay(lex, s, actor, id, reference, now).store; Inv(lex, t) && TicketsEvolve(s, t)
  {
    hide *;
    var o := ExecPay(lex, s, actor, id, reference, now);
    ExecPayCases(lex, s, actor, id, reference, now);
    if o.result.Ok? {
      InvGood(lex, s, id);
      var others := ListOpen(s) + ListByOpener(s, s.tickets[id].openerId);
      PayKeeps(lex, s.tickets[id], actor, reference, now, others);
      FollowsKeepsId(s.tickets[id], o.result.value);
      CommitKeepsInv(lex, s, o.result.value);
    } else {
      TicketsEvolveReflexive(s);
    }
  }

  lemma FollowsKeepsId(rec: Record, next: Record)
    requires Follows(rec, next)
    ensures next.id == rec.id
  {
  }

  lemma TicketsEvolveReflexive(s: Store)
    ensures TicketsEvolve(s, s)
  {
  }

  lemma AppendKeepsSettled(p: Store, next: Record)
    requires Settled(p) && next.id in p.tickets && p.tickets[next.id] == next && Shows(next)
    ensures Settled(p.(ledger := p.ledger + [RowFor(next)]))
  {
  }

  // Opening a ticket

  lemma OpenCountAppend(rows: seq<Record>, r: Record, member: string)
    ensures OpenCount(rows + [r], member) == OpenCount(rows, member) + if CountsFor(r, member) then 1 else 0
  {
    assert (rows + [r])[..|rows|] == rows;
  }

  ghost function OpenAmong(order: seq<string>, tickets: map<string, Record>, member: string): set<string> {
    set id | id in order && id in tickets && CountsFor(tickets[id], member)
  }

  lemma OpenAmongAppend(front: seq<string>, id: string, tickets: map<string, Record>, member: string)
    ensures OpenAmong(front + [id], tickets, member)
            == OpenAmong(front, tickets, member)
               + if id in tickets && CountsFor(tickets[id], member) then {id} else {}
  {
  }

  lemma SelectAppend(front: seq<string>, id: string, tickets: map<string, Record>, keep: Record -> bool)
    ensures Select(front + [id], tickets, keep)
            == Select(front, tickets, keep) + if id in tickets && keep(tickets[id]) then [tickets[id]] else []
  {
    assert (front + [id])[..|front|] == front;
  }

  lemma OpenCountStep(front: seq<string>, id: string, tickets: map<string, Record>, member: string)
    requires id !in front
    requires OpenCount(Select(front, tickets, OpenedBy(member)), member)
             == |OpenAmong(front, tickets, member)|
    ensures OpenCount(Select(front + [id], tickets, OpenedBy(member)), member)
            == |OpenAmong(front + [id], tickets, member)|
  {
    hide OpenCount, Select, OpenAmong;
    var keep := OpenedBy(member);
    SelectAppend(front, id, tickets, keep);
    OpenAmongAppend(front, id, tickets, member);
    NotAmong(front, id, tickets, member);
    if id in tickets && keep(tickets[id]) {
      OpenCountAppend(Select(front, tickets, keep), tickets[id], member);
    } else {
      assert Select(front, tickets, keep) + [] == Select(front, tickets, keep);
    }
  }

  /** The table's rows of a member and the set of their ids count the same open tickets. */
  lemma {:induction false} OpenCountIsSize(order: seq<string>, tickets: map<string, Record>, member: string)
    requires Distinct(order)
    ensures OpenCount(Select(order, tickets, OpenedBy(member)), member)
            == |OpenAmong(order, tickets, member)|
  {
    if order == [] {
      assert OpenAmong(order, tickets, member) == {};
    } else {
      var front, id := order[..|order| - 1], order[|order| - 1];
      OpenCountIsSize(front, tickets, member);
      assert order == front + [id];
      OpenCountStep(front, id, tickets, member);
    }
  }

  lemma NotAmong(front: seq<string>, id: string, tickets: map<string, Record>, member: string)
    requires id !in front
    ensures id !in OpenAmong(front, tickets, member)
  {
  }

  lemma OpenRowsAreOpenIds(s: Store, member: string, typ: TicketType)
    requires Keyed(s)
    ensures (exists i :: 0 <= i < |ListByOpener(s, member)| && CountsFor(ListByOpener(s, member)[i], member)
                         && ListByOpener(s, member)[i].typ == typ)
            <==> exists id :: id in OpenIds(s, member) && s.tickets[id].typ == typ
  {
    var rows := ListByOpener(s, member);
    forall i | 0 <= i < |rows| && CountsFor(rows[i], member) && rows[i].typ == typ
      ensures exists id :: id in OpenIds(s, member) && s.tickets[id].typ == typ
    {
      assert rows[i] in rows;
      var id :| id in s.order && id in s.tickets && s.tickets[id] == rows[i];
      assert id in OpenIds(s, member);
    }
    forall id | id in OpenIds(s, member) && s.tickets[id].typ == typ
      ensures exists i :: 0 <= i < |rows| && CountsFor(rows[i], member) && rows[i].typ == typ
    {
      assert s.tickets[id] in rows;
    }
  }

  lemma OpenCountIsOpenIds(s: Store, member: string)
    requires Keyed(s)
    ensures OpenCount(ListByOpener(s, member), member) == |OpenIds(s, member)|
  {
    OpenCountIsSize(s.order, s.tickets, member);
    assert OpenIds(s, member) == OpenAmong(s.order, s.tickets, member);
  }

  /** ActiveLimit lets a ticket through exactly when the member's quota has room for it. */
  lemma ActiveLimitIsQuota(s: Store, member: string, typ: TicketType)
    requires Keyed(s)
    ensures ActiveLimit(ListByOpener(s, member), member, typ).None? <==>
              && |OpenIds(s, member)| < MAX_OPEN_TICKETS
              && forall id :: id in OpenIds(s, member) ==> s.tickets[id].typ != typ
  {
    OpenCountIsOpenIds(s, member);
    OpenRowsAreOpenIds(s, member, typ);
    hide ListByOpener, Select, OpenCount, CountsFor, Keyed;
  }

  lemma OpenOneQuota(s: Store, rec: Record, m: string)
    requires WithinQuota(s, m) && rec.id !in s.tickets
    requires CountsFor(rec, m) ==>
               |OpenIds(s, m)| < MAX_OPEN_TICKETS && forall id :: id in OpenIds(s, m) ==> s.tickets[id].typ != rec.typ
    ensures WithinQuota(Put(s, rec), m)
  {
    assert OpenIds(Put(s, rec), m) == if CountsFor(rec, m) then OpenIds(s, m) + {rec.id} else OpenIds(s, m);
  }

  lemma OpenKeepsQuota(s: Store, rec: Record)
    requires Keyed(s) && AllWithinQuota(s) && rec.id !in s.tickets
    requires ActiveLimit(ListByOpener(s, rec.openerId), rec.openerId, rec.typ).None?
    ensures AllWithinQuota(Put(s, rec))
  {
    ActiveLimitIsQuota(s, rec.openerId, rec.typ);
    forall m
      ensures WithinQuota(Put(s, rec), m)
    {
      assert WithinQuota(s, m);
      OpenOneQuota(s, rec, m);
    }
  }

  /** The number a new ticket gets is above every stored one, so its id is free. */
  lemma FreshId(lex: Lexicon, s: Store, actor: Actor, input: Input, now: Time)
    requires Sound(lex, s) && DraftTicket(lex, actor, input).Ok?
    ensures BuildTicket(DraftTicket(lex, actor, input).value, actor, input, s.counter + 1, now).id !in s.tickets
  {
    BuildTicketGood(lex, actor, input, s.counter + 1, now);
  }

  lemma CountKeepsInv(lex: Lexicon, s: Store)
    requires Inv(lex, s)
    ensures Inv(lex, s.(counter := s.counter + 1)) && TicketsEvolve(s, s.(counter := s.counter + 1))
  {
    hide Sound, AllWithinQuota, Evolves, Shows, RowFor;
    CounterKeepsSound(lex, s);
    LedgerIsNotQuota(s, s.(counter := s.counter + 1));
    TicketsEvolveReflexive(s);
  }

  /** Saving a fresh ticket the quota has room for keeps the invariant. */
  lemma InsertKeepsInv(lex: Lexicon, s: Store, rec: Record)
    requires Inv(lex, s) && rec.id !in s.tickets && Good(lex, rec) && !Shows(rec)
    requires 1 <= TicketId.Serial(rec.id) <= s.counter && Save(s, rec).Ok?
    requires ActiveLimit(ListByOpener(s, rec.openerId), rec.openerId, rec.typ).None?
    ensures Inv(lex, Put(s, rec)) && TicketsEvolve(s, Put(s, rec))
  {
    hide Good, Threaded, AllGood, LedgerSound, AllBacked, AllWithinQuota, ActiveLimit, RowFor, Evolves, Save,
         TicketsEvolve;
    SaveKeepsSound(lex, s, rec);
    OpenKeepsQuota(s, rec);
    PutEvolves(s, rec);
    InsertKeepsSettled(s, rec);
    SaveIsPut(s, rec);
  }

  lemma SaveIsPut(s: Store, rec: Record)
    requires Save(s, rec).Ok?
    ensures Save(s, rec).value == Put(s, rec)
  {
  }

  lemma InsertKeepsSettled(s: Store, rec: Record)
    requires Settled(s) && rec.id !in s.tickets
    ensures Settled(Put(s, rec))
  {
  }

  lemma ExecCreateCases(lex: Lexicon, s: Store, actor: Actor, input: Input, now: Time)
    ensures var o := ExecCreate(lex, s, actor, input, now);
            var counted := s.(counter := s.counter + 1);
            if o.result.Err? then o.store == s || o.store == counted
            else
              && DraftTicket(lex, actor, input).Ok?
              && o.result.value == BuildTicket(DraftTicket(lex, actor, input).value, actor, input, s.counter + 1, now)
              && ActiveLimit(ListByOpener(counted, actor.id), actor.id, input.typ).None?
              && Save(counted, o.result.value).Ok? && o.store == Put(counted, o.result.value)
  {
  }

  lemma CreateKeepsInv(lex: Lexicon, s: Store, actor: Actor, input: Input, now: Time)
    requires Inv(lex, s)
    ensures var t := ExecCreate(lex, s, actor, input, now).store; Inv(lex, t) && TicketsEvolve(s, t)
  {
    hide *;
    var o := ExecCreate(lex, s, actor, input, now);
    var counted := s.(counter := s.counter + 1);
    ExecCreateCases(lex, s, actor, input, now);
    CountKeepsInv(lex, s);
    TicketsEvolveReflexive(s);
    if o.result.Ok? {
      BuildTicketGood(lex, actor, input, s.counter + 1, now);
      InvSound(lex, s);
      FreshId(lex, s, actor, input, now);
      InsertKeepsInv(lex, counted, o.result.value);
      TicketsEvolveTransitive(s, counted, o.store);
    }
  }

  lemma InvSound(lex: Lexicon, s: Store)
    requires Inv(lex, s)
    ensures Sound(lex, s)
  {
  }

  lemma ExecKeepsInv(lex: Lexicon, s: Store, c: Call)
    requires Inv(lex, s)
    ensures Inv(lex, Exec(lex, s, c).store) && TicketsEvolve(s, Exec(lex, s, c).store)
  {
    hide Inv, TicketsEvolve, ExecCreate, ExecUpdate, ExecPay;
    match c
    case Open(actor, input, now) => CreateKeepsInv(lex, s, actor, input, now);
    case Update(actor, id, action, now) => UpdateKeepsInv(lex, s, actor, id, action, now);
    case Pay(actor, id, reference, now) => PayKeepsInv(lex, s, actor, id, reference, now);
  }

  /** Over any run: the invariant holds, no ticket disappears, and every ticket only evolves. */
  lemma {:induction false} RunKeepsInv(lex: Lexicon, s: Store, calls: seq<Call>)
    requires Inv(lex, s)
    ensures Inv(lex, Run(lex, s, calls)) && TicketsEvolve(s, Run(lex, s, calls))
  {
    hide Inv, TicketsEvolve, Exec;
    TicketsEvolveReflexive(s);
    if calls != [] {
      var mid := Run(lex, s, calls[..|calls| - 1]);
      RunKeepsInv(lex, s, calls[..|calls| - 1]);
      ExecKeepsInv(lex, mid, calls[|calls| - 1]);
      TicketsEvolveTransitive(s, mid, Run(lex, s, calls));
    }
  }

  lemma PaidIdsAreShown(lex: Lexicon, s: Store)
    requires Inv(lex, s)
    ensures PaidIds(s.ledger) == ShownIds(s)
    ensures forall i, j :: 0 <= i < j < |s.ledger| ==> s.ledger[i].ticketId != s.ledger[j].ticketId
    ensures forall i :: 0 <= i < |s.ledger| ==> s.ledger[i].ticketId in s.order
  {
    forall id | id in ShownIds(s)
      ensures id in PaidIds(s.ledger)
    {
      assert Backed(s.ledger, s.tickets[id]);
      var i :| 0 <= i < |s.ledger| && s.ledger[i] == RowFor(s.tickets[id]);
      assert s.ledger[i].ticketId == id;
    }
    assert forall i :: 0 <= i < |s.ledger| ==> RowMatches(s.tickets, s.ledger[i]);
  }

  // Main results

  /** Rows and paid tickets are in bijection, and a row says what its ticket says. */
  lemma LedgerMirrorsTickets(lex: Lexicon, calls: seq<Call>, id: string)
    ensures var s := Run(lex, EMPTY, calls);
            && (id in s.tickets && Shows(s.tickets[id]) <==>
                exists i :: 0 <= i < |s.ledger| && s.ledger[i].ticketId == id)
            && (forall i :: 0 <= i < |s.ledger| && s.ledger[i].ticketId == id ==>
                s.ledger[i] == RowFor(s.tickets[id]))
            && (forall i, j :: 0 <= i < j < |s.ledger| ==> s.ledger[i].ticketId != id || s.ledger[j].ticketId != id)
  {
    EmptyInv(lex);
    RunKeepsInv(lex, EMPTY, calls);
    var s := Run(lex, EMPTY, calls);
    if id in s.tickets && Shows(s.tickets[id]) {
      assert Backed(s.ledger, s.tickets[id]);
      var i :| 0 <= i < |s.ledger| && s.ledger[i] == RowFor(s.tickets[id]);
      assert s.ledger[i].ticketId == id;
    }
    PaidIdsAreShown(lex, s);
  }

  lemma RowsWeighAsRequested(lex: Lexicon, s: Store, currency: string)
    requires Sound(lex, s)
    ensures Distinct(s.order)
    ensures forall i :: 0 <= i < |s.ledger| ==>
              PaidIn(currency)(s.ledger[i]) == RequestedIn(s, currency)(s.ledger[i].ticketId)
  {
    forall i | 0 <= i < |s.ledger|
      ensures PaidIn(currency)(s.ledger[i]) == RequestedIn(s, currency)(s.ledger[i].ticketId)
    {
      assert RowMatches(s.tickets, s.ledger[i]);
    }
  }

  /** What Snapshot reports, the number of rows and the total per currency, is what the paid tickets ask
      for. */
  lemma PayoutsConserved(lex: Lexicon, calls: seq<Call>, currency: string)
    ensures var s := Run(lex, EMPTY, calls);
            && SumRows(s.ledger, PaidIn(currency)) == SumIds(s.order, Only(ShownIds(s), RequestedIn(s, currency)))
            && |s.ledger| == SumIds(s.order, Only(ShownIds(s), _ => 1))
  {
    hide *;
    EmptyInv(lex);
    RunKeepsInv(lex, EMPTY, calls);
    var s := Run(lex, EMPTY, calls);
    InvSound(lex, s);
    PaidIdsAreShown(lex, s);
    RowsWeighAsRequested(lex, s, currency);
    LedgerAsTickets(s.order, s.ledger, PaidIn(currency), RequestedIn(s, currency));
    LedgerAsTickets(s.order, s.ledger, _ => 1, _ => 1);
    CountRows(s.ledger);
  }

  lemma {:induction false} CountRows(ledger: seq<Row>)
    ensures SumRows(ledger, _ => 1) == |ledger|
  {
    if ledger != [] {
      CountRows(ledger[..|ledger| - 1]);
      assert SumRows(ledger, _ => 1) == SumRows(ledger[..|ledger| - 1], _ => 1) + 1;
    }
  }

  /** A closed ticket keeps its status, closing time, withdrawal and seller approval through any further
      calls, and always has a resolution that validates. */
  lemma ClosedForGood(lex: Lexicon, calls: seq<Call>, more: seq<Call>, id: string)
    requires var s := Run(lex, EMPTY, calls); id in s.tickets && s.tickets[id].status == Closed
    ensures var s := Run(lex, EMPTY, calls);
            var t := Run(lex, s, more);
            && id in t.tickets && t.tickets[id].status == Closed
            && t.tickets[id].closedAt == s.tickets[id].closedAt
            && t.tickets[id].withdrawal == s.tickets[id].withdrawal
            && t.tickets[id].sellerApproval == s.tickets[id].sellerApproval
            && t.tickets[id].resolution.Some?
            && ValidResolution(lex, t.tickets[id].resolution.value.text, t.tickets[id].resolution.value.who)
  {
    EmptyInv(lex);
    RunKeepsInv(lex, EMPTY, calls);
    var s := Run(lex, EMPTY, calls);
    RunKeepsInv(lex, s, more);
    assert Good(lex, Run(lex, s, more).tickets[id]);
  }

  lemma QuotaOf(lex: Lexicon, s: Store, member: string)
    requires Inv(lex, s)
    ensures var open := set id | id in s.tickets && s.tickets[id].openerId == member && s.tickets[id].status != Closed;
            |open| <= 3 && forall a, b | a in open && b in open :: s.tickets[a].typ == s.tickets[b].typ ==> a == b
  {
    hide Sound, Settled;
    var open := set id | id in s.tickets && s.tickets[id].openerId == member && s.tickets[id].status != Closed;
    assert WithinQuota(s, member) && OpenIds(s, member) == open;
  }

  /** No member ever has more than three tickets that are not closed, nor two of one type. */
  lemma QuotaHolds(lex: Lexicon, calls: seq<Call>, member: string)
    ensures var s := Run(lex, EMPTY, calls);
            var open := set id | id in s.tickets && s.tickets[id].openerId == member && s.tickets[id].status != Closed;
            |open| <= 3 && forall a, b | a in open && b in open :: s.tickets[a].typ == s.tickets[b].typ ==> a == b
  {
    hide *;
    EmptyInv(lex);
    RunKeepsInv(lex, EMPTY, calls);
    QuotaOf(lex, Run(lex, EMPTY, calls), member);
  }

  /** Every stored record replays from its own log, which further calls only extend; after the opening
      event nobody but others acts on it. */
  lemma HistoryIsTheSource(lex: Lexicon, calls: seq<Call>, more: seq<Call>, id: string)
    requires id in Run(lex, EMPTY, calls).tickets
    ensures var rec := Run(lex, EMPTY, calls).tickets[id];
            var later := Run(lex, Run(lex, EMPTY, calls), more);
            && Fold(rec.history) == ViewOf(rec)
            && (forall i :: 0 < i < |rec.history| ==> rec.history[i].who != rec.openerId)
            && id in later.tickets && rec.history <= later.tickets[id].history
            && Fold(later.tickets[id].history) == ViewOf(later.tickets[id])
  {
    EmptyInv(lex);
    RunKeepsInv(lex, EMPTY, calls);
    var s := Run(lex, EMPTY, calls);
    RunKeepsInv(lex, s, more);
    assert Good(lex, s.tickets[id]) && Good(lex, Run(lex, s, more).tickets[id]);
  }

  /** Creating a ticket never overwrites one: it adds one row under an id no ticket had. */
  lemma CreateNeverOverwrites(lex: Lexicon, calls: seq<Call>, actor: Actor, input: Input, now: Time)
    requires ExecCreate(lex, Run(lex, EMPTY, calls), actor, input, now).result.Ok?
    ensures var s := Run(lex, EMPTY, calls);
            var o := ExecCreate(lex, s, actor, input, now);
            && o.result.value.id !in s.tickets
            && o.store.tickets == s.tickets[o.result.value.id := o.result.value]
            && o.store.order == s.order + [o.result.value.id]
  {
    hide Inv, DraftTicket, BuildTicket, Run, ActiveLimit;
    EmptyInv(lex);
    RunKeepsInv(lex, EMPTY, calls);
    var s := Run(lex, EMPTY, calls);
    InvSound(lex, s);
    ExecCreateCases(lex, s, actor, input, now);
    FreshId(lex, s, actor, input, now);
  }
}
