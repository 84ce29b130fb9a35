/** Sums over the ledger and over the tickets it pays. */
module Totals {
  import opened Store

  function SumRows(ledger: seq<Row>, g: Row -> int): int {
    if ledger == [] then 0 else SumRows(ledger[..|ledger| - 1], g) + g(ledger[|ledger| - 1])
  }

  function SumIds(order: seq<string>, w: string -> int): int {
    if order == [] then 0 else SumIds(order[..|order| - 1], w) + w(order[|order| - 1])
  }

  ghost predicate Distinct(order: seq<string>) {
    forall i, j :: 0 <= i < j < |order| ==> order[i] != order[j]
  }

  function PaidIds(ledger: seq<Row>): set<string> {
    set i | 0 <= i < |ledger| :: ledger[i].ticketId
  }

  function Only(ids: set<string>, w: string -> int): string -> int {
    id => if id in ids then w(id) else 0
  }

  lemma {:induction false} SumIdsEqual(order: seq<string>, v: string -> int, w: string -> int)
    requires forall id :: id in order ==> v(id) == w(id)
    ensures SumIds(order, v) == SumIds(order, w)
  {
    if order != [] {
      SumIdsEqual(order[..|order| - 1], v, w);
    }
  }

  lemma {:induction false} SumIdsAtMost(order: seq<string>, v: string -> int, w: string -> int)
    requires forall id :: id in order ==> v(id) <= w(id)
    ensures SumIds(order, v) <= SumIds(order, w)
  {
    if order != [] {
      SumIdsAtMost(order[..|order| - 1], v, w);
    }
  }

  /** Changing the weight of one id changes the sum by as much. */
  lemma {:induction false} SumIdsChange(order: seq<string>, v: string -> int, w: string -> int, t: string)
    requires Distinct(order) && t in order
    requires forall id :: id in order && id != t ==> v(id) == w(id)
    ensures SumIds(order, w) == SumIds(order, v) + w(t) - v(t)
  {
    var front, last := order[..|order| - 1], order[|order| - 1];
    assert order == front + [last];
    if last == t {
      SumIdsEqual(front, v, w);
    } else {
      SumIdsChange(front, v, w, t);
    }
  }

  /** When every row weighs what its ticket weighs and no ticket has two rows, the ledger sums up to its
      tickets. */
  lemma {:induction false} LedgerAsTickets(order: seq<string>, ledger: seq<Row>, g: Row -> int, w: string -> int)
    requires Distinct(order)
    requires forall i :: 0 <= i < |ledger| ==> ledger[i].ticketId in order && g(ledger[i]) == w(ledger[i].ticketId)
    requires forall i, j :: 0 <= i < j < |ledger| ==> ledger[i].ticketId != ledger[j].ticketId
    ensures SumRows(ledger, g) == SumIds(order, Only(PaidIds(ledger), w))
  {
    if ledger == [] {
      SumOfNothing(order, Only(PaidIds(ledger), w));
    } else {
      var front, row := ledger[..|ledger| - 1], ledger[|ledger| - 1];
      LedgerAsTickets(order, front, g, w);
      PaidIdsAppend(front, row);
      assert ledger == front + [row];
      assert row.ticketId !in PaidIds(front);
      SumIdsChange(order, Only(PaidIds(front), w), Only(PaidIds(ledger), w), row.ticketId);
    }
  }

  lemma PaidIdsAppend(front: seq<Row>, row: Row)
    ensures PaidIds(front + [row]) == PaidIds(front) + {row.ticketId}
  {
    var all := front + [row];
    assert all[|front|] == row;
    forall id | id in PaidIds(front)
      ensures id in PaidIds(all)
    {
      var i :| 0 <= i < |front| && front[i].ticketId == id;
      assert all[i].ticketId == id;
    }
  }

  lemma {:induction false} SumOfNothing(order: seq<string>, w: string -> int)
    requires forall id :: w(id) == 0
    ensures SumIds(order, w) == 0
  {
    if order != [] {
      SumOfNothing(order[..|order| - 1], w);
    }
  }

  // The amounts in question

  function PaidTo(seller: string, currency: string): Row -> int {
    (r: Row) => if r.sellerId == seller && r.currency == currency then r.amountMinor else 0
  }

  function PaidIn(currency: string): Row -> int {
    (r: Row) => if r.currency == currency then r.amountMinor else 0
  }

  function RequestedBy(s: Store, seller: string, currency: string): string -> int {
    (id: string) =>
      if id in s.tickets && s.tickets[id].withdrawal.Some? && s.tickets[id].openerId == seller
         && s.tickets[id].withdrawal.value.request.currency == currency
      then s.tickets[id].withdrawal.value.request.amountMinor else 0
  }

  function RequestedIn(s: Store, currency: string): string -> int {
    (id: string) =>
      if id in s.tickets && s.tickets[id].withdrawal.Some?
         && s.tickets[id].withdrawal.value.request.currency == currency
      then s.tickets[id].withdrawal.value.request.amountMinor else 0
  }

  ghost function ShownIds(s: Store): set<string> {
    set id | id in s.tickets && Shows(s.tickets[id])
  }

  /** One more row adds its amount to the total of its currency, and to no other. */
  lemma TotalNext(ledger: seq<Row>, row: Row, currency: string)
    ensures SumRows(ledger + [row], PaidIn(currency))
         == SumRows(ledger, PaidIn(currency)) + if row.currency == currency then row.amountMinor else 0
    ensures SumRows([], PaidIn(currency)) == 0
  {
    assert (ledger + [row])[..|ledger|] == ledger;
  }
}
