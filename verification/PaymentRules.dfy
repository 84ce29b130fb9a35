/** When a payment is booked, and what that leaves out: the receipt and the ticket are single-use, the sale
    behind the ticket is not (modules/ticket/service.go, withdrawal.go). */
module PaymentRules {
  import opened Wrappers
  import opened Catalog
  import opened Validation
  import opened Records
  import opened Store
  import opened SequentialRuns

  /** What an uninterrupted payment call asks for. */
  ghost predicate Payable(lex: Lexicon, s: Store, actor: Actor, id: string, reference: string) {
    && id in s.tickets && s.tickets[id].typ == Withdraw && s.tickets[id].status == Approved
    && !actor.isBot && actor.id != "" && (actor.id == actor.ownerId || actor.isAdmin)
    && actor.id != s.tickets[id].openerId
    && ValidatePaymentReference(lex, reference).Ok?
    && forall i :: 0 <= i < |s.ledger| ==> s.ledger[i].reference != ValidatePaymentReference(lex, reference).value
  }

  lemma PayableDecides(lex: Lexicon, s: Store, actor: Actor, id: string, reference: string, now: Time,
                       others: seq<Record>)
    requires Inv(lex, s) && Payable(lex, s, actor, id, reference)
    requires forall r :: r in others ==> exists i :: i in s.tickets && s.tickets[i] == r
    ensures var paid := DecidePayment(lex, s.tickets[id], actor, reference, now, others);
            paid.Ok? && Shows(paid.value)
            && paid.value.withdrawal.value.outgoing.value.reference == ValidatePaymentReference(lex, reference).value
  {
    var rec := s.tickets[id];
    InvSound(lex, s);
    InvGood(lex, s, id);
    assert !OutgoingExists(s.ledger, ValidatePaymentReference(lex, reference).value);
    hide Inv, Sound, Good, ValidatePaymentReference, ShowsReference, OutgoingExists;
    BookedNowhere(lex, s, others, ValidatePaymentReference(lex, reference).value);
    AdminIsSomeoneElse(actor, rec);
    ApprovedWithdrawal(lex, rec);
  }

  lemma ApprovedWithdrawal(lex: Lexicon, rec: Record)
    requires Good(lex, rec) && rec.typ == Withdraw && rec.status == Approved
    ensures rec.withdrawal.Some? && !Shows(rec) && IsWithdrawal(rec.typ, rec.workflow)
  {
  }

  /** A payment call succeeds exactly on an approved withdrawal, for an admin who did not open it, under a
      valid receipt the ledger does not have; the sale reference plays no part. */
  lemma PaidExactlyWhenPayable(lex: Lexicon, s: Store, actor: Actor, id: string, reference: string, now: Time)
    requires Inv(lex, s)
    ensures ExecPay(lex, s, actor, id, reference, now).result.Ok? <==> Payable(lex, s, actor, id, reference)
  {
    hide Inv, Select, ValidatePaymentReference, ShowsReference, ThreadTaken, LedgerRefuses, SavePayment;
    if id in s.tickets {
      var others := ListOpen(s) + ListByOpener(s, s.tickets[id].openerId);
      ListedAreStored(lex, s, s.tickets[id].openerId);
      if Payable(lex, s, actor, id, reference) {
        PayableDecides(lex, s, actor, id, reference, now, others);
        CheckedPaymentCommits(lex, s, id, actor, reference, now, others);
      }
    }
  }

  lemma PaymentLeavesOthers(lex: Lexicon, s: Store, actor: Actor, id: string, reference: string, now: Time)
    requires Inv(lex, s) && Payable(lex, s, actor, id, reference)
    ensures var o := ExecPay(lex, s, actor, id, reference, now);
            && o.result.Ok? && (forall other :: other in s.tickets && other != id ==>
                                  other in o.store.tickets && o.store.tickets[other] == s.tickets[other])
            && |o.store.ledger| == |s.ledger| + 1 && s.ledger == o.store.ledger[..|s.ledger|]
            && o.store.ledger[|s.ledger|].ticketId == id
            && o.store.ledger[|s.ledger|].reference == ValidatePaymentReference(lex, reference).value
            && id in o.store.tickets && o.store.tickets[id].status == Paid
  {
    hide *;
    PayableIsStored(lex, s, actor, id, reference);
    PaidExactlyWhenPayable(lex, s, actor, id, reference, now);
    InvGood(lex, s, id);
    var others := ListOpen(s) + ListByOpener(s, s.tickets[id].openerId);
    ListedAreStored(lex, s, s.tickets[id].openerId);
    PayableDecides(lex, s, actor, id, reference, now, others);
    ExecPayCases(lex, s, actor, id, reference, now);
    PayKeeps(lex, s.tickets[id], actor, reference, now, others);
    var o := ExecPay(lex, s, actor, id, reference, now);
    FollowsKeepsId(s.tickets[id], o.result.value);
    CommitShape(s, o.result.value);
  }

  lemma CommitShape(s: Store, next: Record)
    requires Shows(next) && SavePayment(s, next, RowFor(next)).Ok?
    ensures var t := SavePayment(s, next, RowFor(next)).value;
            && t.tickets == s.tickets[next.id := next] && t.ledger == s.ledger + [RowFor(next)]
            && RowFor(next).ticketId == next.id
            && RowFor(next).reference == next.withdrawal.value.outgoing.value.reference
  {
  }

  lemma PayableIsStored(lex: Lexicon, s: Store, actor: Actor, id: string, reference: string)
    requires Payable(lex, s, actor, id, reference)
    ensures id in s.tickets && ValidatePaymentReference(lex, reference).Ok?
  {
  }

  lemma StillPayable(lex: Lexicon, s: Store, t: Store, actor: Actor, id: string, reference: string)
    requires Payable(lex, s, actor, id, reference) && id in t.tickets && t.tickets[id] == s.tickets[id]
    requires |t.ledger| == |s.ledger| + 1 && s.ledger == t.ledger[..|s.ledger|]
    requires t.ledger[|s.ledger|].reference != ValidatePaymentReference(lex, reference).value
    ensures Payable(lex, t, actor, id, reference)
  {
    hide ValidatePaymentReference, RequireAdmin;
    assert forall i :: 0 <= i < |s.ledger| ==> t.ledger[i] == s.ledger[i];
  }

  // Is a sale paid once? Exactly when every payment looks first.

  function SaleOf(rec: Record): string
    requires rec.withdrawal.Some?
  {
    rec.withdrawal.value.request.saleReference
  }

  /** No two tickets that show a payment are for the same sale. */
  ghost predicate SaleOnce(s: Store) {
    forall a, b :: a in s.tickets && b in s.tickets && a != b && Shows(s.tickets[a]) && Shows(s.tickets[b]) ==>
      SaleOf(s.tickets[a]) != SaleOf(s.tickets[b])
  }

  /** No other ticket for the sale of this one shows a payment. */
  ghost predicate SaleUnpaid(s: Store, id: string) {
    id in s.tickets && s.tickets[id].withdrawal.Some? &&
    forall other :: other in s.tickets && other != id && Shows(s.tickets[other]) ==>
      SaleOf(s.tickets[other]) != SaleOf(s.tickets[id])
  }

  /** What matters to sales: which tickets show a payment, and their sales. */
  ghost predicate SameSales(s: Store, t: Store) {
    forall id :: id in s.tickets || id in t.tickets ==>
      if id in s.tickets && Shows(s.tickets[id])
      then id in t.tickets && Shows(t.tickets[id]) && SaleOf(t.tickets[id]) == SaleOf(s.tickets[id])
      else id in t.tickets ==> !Shows(t.tickets[id])
  }

  lemma SameSalesSameAnswer(s: Store, t: Store)
    requires SameSales(s, t)
    ensures SaleOnce(s) <==> SaleOnce(t)
  {
    assert forall id :: id in s.tickets && Shows(s.tickets[id]) <==> id in t.tickets && Shows(t.tickets[id]);
  }

  /** One more ticket shows a payment; the others are as they were. */
  lemma OneMoreSale(s: Store, t: Store, id: string)
    requires SaleOnce(s) && id in s.tickets && id in t.tickets && s.tickets[id].withdrawal.Some?
               && !Shows(s.tickets[id])
    requires Shows(t.tickets[id]) && SaleOf(t.tickets[id]) == SaleOf(s.tickets[id])
    requires t.tickets == s.tickets[id := t.tickets[id]]
    ensures SaleOnce(t) <==> SaleUnpaid(s, id)
  {
    hide Shows, SaleOf;
    assert forall other :: other in s.tickets && other != id ==>
             other in t.tickets && t.tickets[other] == s.tickets[other];
  }

  lemma PaymentInPlace(lex: Lexicon, s: Store, actor: Actor, id: string, reference: string, now: Time)
    requires Inv(lex, s) && ExecPay(lex, s, actor, id, reference, now).result.Ok?
    ensures var t := ExecPay(lex, s, actor, id, reference, now).store;
            && id in s.tickets && s.tickets[id].withdrawal.Some? && !Shows(s.tickets[id])
            && id in t.tickets && Shows(t.tickets[id]) && SaleOf(t.tickets[id]) == SaleOf(s.tickets[id])
            && t.tickets == s.tickets[id := t.tickets[id]]
  {
    hide *;
    ExecPayCases(lex, s, actor, id, reference, now);
    var others := ListOpen(s) + ListByOpener(s, s.tickets[id].openerId);
    InvGood(lex, s, id);
    PayKeeps(lex, s.tickets[id], actor, reference, now, others);
    var next := ExecPay(lex, s, actor, id, reference, now).result.value;
    FollowsKeepsId(s.tickets[id], next);
    FollowsKeepsSale(s.tickets[id], next);
    CommitShape(s, next);
    NotShown(s.tickets[id]);
  }

  lemma NotShown(rec: Record)
    ensures rec.withdrawal.Some? && rec.withdrawal.value.outgoing.None? ==> !Shows(rec)
  {
  }

  lemma FollowsKeepsSale(rec: Record, next: Record)
    requires Follows(rec, next)
    ensures rec.withdrawal.Some? <==> next.withdrawal.Some?
    ensures rec.withdrawal.Some? ==> SaleOf(next) == SaleOf(rec)
  {
  }

  /** A successful payment keeps sales paid once if and only if no other ticket for its sale is paid. */
  lemma PaymentKeepsSaleOnce(lex: Lexicon, s: Store, actor: Actor, id: string, reference: string, now: Time)
    requires Inv(lex, s) && SaleOnce(s) && ExecPay(lex, s, actor, id, reference, now).result.Ok?
    ensures SaleOnce(ExecPay(lex, s, actor, id, reference, now).store) <==> SaleUnpaid(s, id)
  {
    hide *;
    PaymentInPlace(lex, s, actor, id, reference, now);
    OneMoreSale(s, ExecPay(lex, s, actor, id, reference, now).store, id);
  }

  lemma UpdateKeepsSales(lex: Lexicon, s: Store, actor: Actor, id: string, action: Action, now: Time)
    requires Inv(lex, s)
    ensures SameSales(s, ExecUpdate(lex, s, actor, id, action, now).store)
  {
    hide *;
    ExecUpdateCases(lex, s, actor, id, action, now);
    var o := ExecUpdate(lex, s, actor, id, action, now);
    if o.result.Ok? {
      InvGood(lex, s, id);
      DecideKeeps(lex, s.tickets[id], actor, action, now);
      FollowsKeepsId(s.tickets[id], o.result.value);
      FollowsKeepsSale(s.tickets[id], o.result.value);
      if s.tickets[id].withdrawal.Some? {
        DecideNeverPays(lex, s.tickets[id], actor, action, now);
      }
      OverwriteKeepsSales(s, o.result.value);
    } else {
      SalesReflexive(s);
    }
  }

  lemma OverwriteKeepsSales(s: Store, next: Record)
    requires next.id in s.tickets && (next.withdrawal.Some? <==> s.tickets[next.id].withdrawal.Some?)
    requires next.withdrawal.Some? ==>
               next.withdrawal.value.outgoing == s.tickets[next.id].withdrawal.value.outgoing
               && SaleOf(next) == SaleOf(s.tickets[next.id])
    ensures SameSales(s, Put(s, next))
  {
  }

  lemma SalesReflexive(s: Store)
    ensures SameSales(s, s)
  {
  }

  lemma CreateKeepsSales(lex: Lexicon, s: Store, actor: Actor, input: Input, now: Time)
    requires Inv(lex, s)
    ensures SameSales(s, ExecCreate(lex, s, actor, input, now).store)
  {
    hide *;
    ExecCreateCases(lex, s, actor, input, now);
    var o := ExecCreate(lex, s, actor, input, now);
    if o.result.Ok? {
      InvSound(lex, s);
      FreshId(lex, s, actor, input, now);
      BuildTicketGood(lex, actor, input, s.counter + 1, now);
      InsertKeepsSales(s, o.result.value);
    } else {
      SalesIgnoreCounter(s);
    }
  }

  lemma InsertKeepsSales(s: Store, rec: Record)
    requires rec.id !in s.tickets && !Shows(rec)
    ensures SameSales(s, Put(s.(counter := s.counter + 1), rec))
  {
  }

  lemma SalesIgnoreCounter(s: Store)
    ensures SameSales(s, s) && SameSales(s, s.(counter := s.counter + 1))
  {
  }

  /** The guard a payment call would need: a call that pays finds no paid ticket for the same sale. */
  ghost predicate LooksFirst(lex: Lexicon, s: Store, c: Call) {
    c.Pay? && Exec(lex, s, c).result.Ok? ==> SaleUnpaid(s, c.id)
  }

  lemma CallKeepsSaleOnce(lex: Lexicon, s: Store, c: Call)
    requires Inv(lex, s)
    ensures SaleOnce(s) ==> (SaleOnce(Exec(lex, s, c).store) <==> LooksFirst(lex, s, c))
    ensures SaleOnce(Exec(lex, s, c).store) ==> SaleOnce(s)
  {
    hide Inv, SaleOnce, SaleUnpaid, SameSales, ExecCreate, ExecUpdate, ExecPay;
    var t := Exec(lex, s, c).store;
    match c
    case Open(actor, input, now) =>
      CreateKeepsSales(lex, s, actor, input, now);
      SameSalesSameAnswer(s, t);
    case Update(actor, id, action, now) =>
      UpdateKeepsSales(lex, s, actor, id, action, now);
      SameSalesSameAnswer(s, t);
    case Pay(actor, id, reference, now) =>
      ExecPayCases(lex, s, actor, id, reference, now);
      if ExecPay(lex, s, actor, id, reference, now).result.Ok? {
        PaymentInPlace(lex, s, actor, id, reference, now);
        FewerSales(s, t, id);
        if SaleOnce(s) {
          PaymentKeepsSaleOnce(lex, s, actor, id, reference, now);
        }
      }
  }

  lemma FewerSales(s: Store, t: Store, id: string)
    requires id in s.tickets && id in t.tickets && !Shows(s.tickets[id]) && t.tickets == s.tickets[id := t.tickets[id]]
    ensures SaleOnce(t) ==> SaleOnce(s)
  {
    assert forall other :: other in s.tickets && other != id ==>
             other in t.tickets && t.tickets[other] == s.tickets[other];
  }

  /** Over a run sales are paid once if and only if every payment that succeeded found its sale unpaid. The
      code has no such guard. */
  lemma {:induction false} SalesPaidOnceExactly(lex: Lexicon, calls: seq<Call>)
    ensures SaleOnce(Run(lex, EMPTY, calls))
            <==> forall i :: 0 <= i < |calls| ==> LooksFirst(lex, Run(lex, EMPTY, calls[..i]), calls[i])
  {
    hide SaleOnce, LooksFirst, Inv, Exec;
    if calls == [] {
      NothingSold();
    } else {
      var n := |calls| - 1;
      var front := calls[..n];
      SalesPaidOnceExactly(lex, front);
      EmptyInv(lex);
      RunKeepsInv(lex, EMPTY, front);
      CallKeepsSaleOnce(lex, Run(lex, EMPTY, front), calls[n]);
      assert forall i :: 0 <= i < n ==> front[..i] == calls[..i] && front[i] == calls[i];
      assert LooksFirst(lex, Run(lex, EMPTY, front), calls[n])
          == LooksFirst(lex, Run(lex, EMPTY, calls[..n]), calls[n]);
    }
  }

  lemma NothingSold()
    ensures SaleOnce(EMPTY)
  {
  }

  /** One sale can be paid twice: two approved withdrawals for the same sale, under two receipts. */
  lemma SameSalePaidTwice(lex: Lexicon, s: Store, actor: Actor, a: string, b: string, r1: string, r2: string, now: Time)
    requires Inv(lex, s) && a != b && Payable(lex, s, actor, a, r1) && Payable(lex, s, actor, b, r2)
    requires ValidatePaymentReference(lex, r1) != ValidatePaymentReference(lex, r2)
    requires s.tickets[a].withdrawal.Some? && s.tickets[b].withdrawal.Some?
    requires s.tickets[a].withdrawal.value.request.saleReference == s.tickets[b].withdrawal.value.request.saleReference
    ensures var t := Run(lex, s, [Pay(actor, a, r1, now), Pay(actor, b, r2, now)]);
            && |t.ledger| == |s.ledger| + 2
            && t.ledger[|s.ledger|].ticketId == a && t.ledger[|s.ledger| + 1].ticketId == b
            && a in t.tickets && b in t.tickets && Shows(t.tickets[a]) && Shows(t.tickets[b])
            && t.tickets[a].withdrawal.value.request.saleReference
                 == t.tickets[b].withdrawal.value.request.saleReference
  {
    hide *;
    PayableIsStored(lex, s, actor, a, r1);
    PayableIsStored(lex, s, actor, b, r2);
    PaymentLeavesOthers(lex, s, actor, a, r1, now);
    PayKeepsInv(lex, s, actor, a, r1, now);
    var mid := ExecPay(lex, s, actor, a, r1, now).store;
    StillPayable(lex, s, mid, actor, b, r2);
    PaymentLeavesOthers(lex, mid, actor, b, r2, now);
    PayKeepsInv(lex, mid, actor, b, r2, now);
    var t := ExecPay(lex, mid, actor, b, r2, now).store;
    TwoCalls(lex, s, Pay(actor, a, r1, now), Pay(actor, b, r2, now));
    PaidShows(lex, t, |s.ledger|);
    PaidShows(lex, t, |s.ledger| + 1);
    TicketsEvolveTransitive(s, mid, t);
    SaleStays(s, t, a);
    SaleStays(s, t, b);
  }

  lemma SaleStays(s: Store, t: Store, id: string)
    requires TicketsEvolve(s, t) && id in s.tickets && s.tickets[id].withdrawal.Some?
    ensures id in t.tickets && t.tickets[id].withdrawal.Some?
    ensures t.tickets[id].withdrawal.value.request == s.tickets[id].withdrawal.value.request
  {
    assert Evolves(s.tickets[id], t.tickets[id]);
  }

  lemma PaidShows(lex: Lexicon, t: Store, i: nat)
    requires Inv(lex, t) && i < |t.ledger|
    ensures t.ledger[i].ticketId in t.tickets && Shows(t.tickets[t.ledger[i].ticketId])
  {
  }

  lemma TwoCalls(lex: Lexicon, s: Store, c1: Call, c2: Call)
    ensures Run(lex, s, [c1, c2]) == Exec(lex, Exec(lex, s, c1).store, c2).store
    ensures c1.Pay? ==> Exec(lex, s, c1) == ExecPay(lex, s, c1.actor, c1.id, c1.reference, c1.now)
    ensures forall t :: c2.Pay? ==> Exec(lex, t, c2) == ExecPay(lex, t, c2.actor, c2.id, c2.reference, c2.now)
  {
    assert [c1, c2][..1] == [c1] && [c1][..0] == [];
    assert Run(lex, s, [c1]) == Exec(lex, Run(lex, s, []), c1).store;
  }
}
