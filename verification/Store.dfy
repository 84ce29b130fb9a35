/** The ticket table and the payment ledger as values, what each repository call and each service call
    does to them, and what every write keeps (modules/ticket/repository.go, service.go). */
module Store {
  import opened Wrappers
  import opened Text
  import opened Catalog
  import opened Validation
  import opened Records
  import Roles
  import Money
  import TicketId

  /** A row of outgoing_mutations. */
  datatype Row = Row(
    publicId: string, ticketId: string, sellerId: string, amountMinor: int, currency: string,
    reference: string, who: string, paidAt: Time)

  /** order lists the ticket ids in the order of their rows. */
  datatype Store = Store(order: seq<string>, tickets: map<string, Record>, ledger: seq<Row>, counter: nat)

  const EMPTY := Store([], map[], [], 0)

  // Repository calls

  predicate ThreadTaken(s: Store, rec: Record) {
    exists id :: id in s.tickets && id != rec.id && s.tickets[id].threadId == rec.threadId
  }

  function Put(s: Store, rec: Record): Store {
    s.(order := if rec.id in s.tickets then s.order else s.order + [rec.id], tickets := s.tickets[rec.id := rec])
  }

  /** Save: insert or overwrite the whole row, unless the thread belongs to another ticket. */
  function Save(s: Store, rec: Record): Result<Store, TicketError> {
    if ThreadTaken(s, rec) then Err(StoreRejected) else Ok(Put(s, rec))
  }

  /** The unique keys and the check of outgoing_mutations. */
  predicate LedgerRefuses(ledger: seq<Row>, row: Row) {
    row.amountMinor <= 0
    || exists i :: 0 <= i < |ledger| && (ledger[i].publicId == row.publicId || ledger[i].reference == row.reference)
  }

  /** SavePayment: both writes or none. */
  function SavePayment(s: Store, rec: Record, row: Row): Result<Store, TicketError> {
    if ThreadTaken(s, rec) || LedgerRefuses(s.ledger, row) then Err(StoreRejected)
    else Ok(Put(s, rec).(ledger := s.ledger + [row]))
  }

  predicate OutgoingExists(ledger: seq<Row>, reference: string) {
    exists i :: 0 <= i < |ledger| && ledger[i].reference == reference
  }

  function Select(order: seq<string>, tickets: map<string, Record>, keep: Record -> bool): (rows: seq<Record>)
    ensures forall r :: r in rows <==> exists id :: id in order && id in tickets && tickets[id] == r && keep(r)
  {
    if order == [] then []
    else
      var front, id := order[..|order| - 1], order[|order| - 1];
      var rest := Select(front, tickets, keep);
      assert order == front + [id];
      if id in tickets && keep(tickets[id]) then rest + [tickets[id]] else rest
  }

  lemma SelectNothing(order: seq<string>, tickets: map<string, Record>, keep: Record -> bool)
    ensures Select(order[..0], tickets, keep) == []
  {
  }

  lemma SelectNext(order: seq<string>, i: nat, tickets: map<string, Record>, keep: Record -> bool)
    requires i < |order|
    ensures Select(order[..i + 1], tickets, keep)
         == Select(order[..i], tickets, keep)
            + if order[i] in tickets && keep(tickets[order[i]]) then [tickets[order[i]]] else []
  {
    assert order[..i + 1][..i] == order[..i];
  }

  function OpenedBy(member: string): Record -> bool {
    (r: Record) => r.openerId == member
  }

  function ListOpen(s: Store): seq<Record> {
    Select(s.order, s.tickets, (r: Record) => r.status != Closed)
  }

  function ListByOpener(s: Store, opener: string): seq<Record> {
    Select(s.order, s.tickets, OpenedBy(opener))
  }

  /** The first id stands before the second. */
  ghost predicate Before(order: seq<string>, first: string, second: string) {
    exists a, b :: 0 <= a < b < |order| && order[a] == first && order[b] == second
  }

  lemma BeforeAppend(front: seq<string>, id: string)
    ensures forall x, y :: Before(front, x, y) ==> Before(front + [id], x, y)
    ensures forall x :: x in front ==> Before(front + [id], x, id)
  {
    var order := front + [id];
    forall x, y | Before(front, x, y)
      ensures Before(order, x, y)
    {
      var a, b :| 0 <= a < b < |front| && front[a] == x && front[b] == y;
      assert order[a] == x && order[b] == y;
    }
    forall x | x in front
      ensures Before(order, x, id)
    {
      var a :| 0 <= a < |front| && front[a] == x;
      assert order[a] == x && order[|front|] == id;
    }
  }

  ghost predicate InOrder(order: seq<string>, rows: seq<Record>) {
    && (forall r :: r in rows ==> r.id in order)
    && forall i, j :: 0 <= i < j < |rows| ==> Before(order, rows[i].id, rows[j].id)
  }

  lemma InOrderAppend(front: seq<string>, rest: seq<Record>, r: Record)
    requires InOrder(front, rest)
    ensures InOrder(front + [r.id], rest) && InOrder(front + [r.id], rest + [r])
  {
    BeforeAppend(front, r.id);
    var order, rows := front + [r.id], rest + [r];
    assert forall x :: x in rows ==> x in rest || x == r;
    forall i, j | 0 <= i < j < |rows|
      ensures Before(order, rows[i].id, rows[j].id)
    {
      assert rows[i] == rest[i] && rest[i] in rest;
      if j < |rest| {
        assert Before(front, rest[i].id, rest[j].id);
      }
    }
    forall i, j | 0 <= i < j < |rest|
      ensures Before(order, rest[i].id, rest[j].id)
    {
      assert Before(front, rest[i].id, rest[j].id);
    }
    hide Before;
  }

  /** The rows come in the order of their ids. */
  lemma {:induction false} SelectInOrder(order: seq<string>, tickets: map<string, Record>, keep: Record -> bool)
    requires forall id :: id in order ==> id in tickets && tickets[id].id == id
    ensures InOrder(order, Select(order, tickets, keep))
  {
    if order != [] {
      var front, id := order[..|order| - 1], order[|order| - 1];
      assert order == front + [id];
      SelectInOrder(front, tickets, keep);
      InOrderAppend(front, Select(front, tickets, keep), tickets[id]);
    }
  }

  lemma SelectedExactly(s: Store, keep: Record -> bool)
    requires Keyed(s)
    ensures var rows := Select(s.order, s.tickets, keep);
            && (forall r :: r in rows <==> r.id in s.tickets && s.tickets[r.id] == r && keep(r))
            && InOrder(s.order, rows)
  {
    SelectInOrder(s.order, s.tickets, keep);
    hide InOrder, TicketId.Serial;
  }

  /** The open tickets, and the tickets of one member, each once and in the order of the table. */
  lemma ListedExactly(s: Store, opener: string)
    requires Keyed(s)
    ensures forall r :: r in ListOpen(s) <==> r.id in s.tickets && s.tickets[r.id] == r && r.status != Closed
    ensures forall r :: r in ListByOpener(s, opener) <==>
                          r.id in s.tickets && s.tickets[r.id] == r && r.openerId == opener
    ensures InOrder(s.order, ListOpen(s)) && InOrder(s.order, ListByOpener(s, opener))
  {
    SelectedExactly(s, (r: Record) => r.status != Closed);
    SelectedExactly(s, OpenedBy(opener));
    hide InOrder, Select, Keyed;
  }

  predicate Shows(rec: Record) {
    rec.withdrawal.Some? && rec.withdrawal.value.outgoing.Some?
  }

  /** The ledger row RecordPayment builds from the record it is about to save. */
  function RowFor(rec: Record): Row
    requires Shows(rec)
  {
    var p := rec.withdrawal.value.outgoing.value;
    Row(p.id, rec.id, rec.openerId, rec.withdrawal.value.request.amountMinor,
        rec.withdrawal.value.request.currency, p.reference, p.who, p.at)
  }

  // Service calls, each run without interruption

  datatype Outcome = Outcome(store: Store, result: Result<Record, TicketError>)

  function ExecUpdate(lex: Lexicon, s: Store, actor: Actor, id: string, action: Action, now: Time): Outcome {
    if id !in s.tickets then Outcome(s, Err(ErrNotFound))
    else
      var next := Decide(lex, s.tickets[id], actor, action, now);
      if next.Err? then Outcome(s, next)
      else
        var saved := Save(s, next.value);
        if saved.Err? then Outcome(s, Err(saved.error)) else Outcome(saved.value, next)
  }

  function ExecPay(lex: Lexicon, s: Store, actor: Actor, id: string, reference: string, now: Time): Outcome {
    if id !in s.tickets then Outcome(s, Err(ErrNotFound))
    else
      var rec := s.tickets[id];
      var next := DecidePayment(lex, rec, actor, reference, now, ListOpen(s) + ListByOpener(s, rec.openerId));
      if next.Err? then Outcome(s, next)
      else if OutgoingExists(s.ledger, next.value.withdrawal.value.outgoing.value.reference)
      then Outcome(s, Err(ErrDuplicatePayment))
      else
        var saved := SavePayment(s, next.value, RowFor(next.value));
        if saved.Err? then Outcome(s, Err(saved.error)) else Outcome(saved.value, next)
  }

  // Create

  datatype Input = Input(typ: TicketType, data: map<string, string>, threadId: string)

  datatype Draft = Draft(workflow: WorkflowId, data: map<string, string>, request: Option<Request>)

  function CleanData(data: map<string, string>): map<string, string> {
    map k | k in data && data[k] != "" :: NormalizeText(data[k])
  }

  function Field(data: map<string, string>, key: string): string {
    if key in data then data[key] else ""
  }

  const ALIASES := ["chronology", "summary", "notes", "amount", "product"]

  /** The first of the aliases that has a text. */
  function FromAlias(data: map<string, string>, aliases: seq<string>): string {
    if aliases == [] then ""
    else if Field(data, aliases[0]) != "" then Field(data, aliases[0])
    else FromAlias(data, aliases[1..])
  }

  /** Fill each missing required field from an alias; None when one stays empty. */
  function FillRequired(data: map<string, string>, keys: seq<string>): Option<map<string, string>>
    decreases |keys|
  {
    if keys == [] then Some(data)
    else if keys[0] == "region" || Field(data, keys[0]) != "" then FillRequired(data, keys[1..])
    else
      var text := FromAlias(data, ALIASES);
      if text == "" then None else FillRequired(data[keys[0] := text], keys[1..])
  }

  predicate AnySensitive(lex: Lexicon, data: map<string, string>) {
    exists k :: k in data && Sensitive(lex, data[k])
  }

  /** Everything Create checks before it looks at the table. */
  function DraftTicket(lex: Lexicon, actor: Actor, input: Input): Result<Draft, TicketError> {
    if input.typ.UnknownType? then Err(ErrUnknownType)
    else
      var workflow := WorkflowForType(input.typ);
      if workflow.None? then Err(ErrUnknownWorkflow)
      else if !Roles.EligibleTicketApplicant(input.typ, actor.roles) then Err(ErrNotEligible)
      else
        var data := CleanData(input.data);
        var region := NormalizeText(Field(data, "region"));
        if !TicketId.ValidRegion(region) then Err(ErrInvalidRegion)
        else
          var filled := if input.typ == Withdraw then Some(data["region" := region])
                        else FillRequired(data["region" := region], Requires(input.typ));
          if filled.None? then Err(ErrRequiredField)
          else if AnySensitive(lex, filled.value) then Err(ErrSensitive)
          else if input.typ == Withdraw then
            var form := ValidateWithdrawalInput(lex, filled.value);
            if form.Err? then Err(form.error)
            else Ok(Draft(workflow.value, form.value.0, Some(form.value.1)))
          else Ok(Draft(workflow.value, filled.value, None))
  }

  predicate CountsFor(rec: Record, opener: string) {
    rec.openerId == opener && rec.status != Closed
  }

  function OpenCount(existing: seq<Record>, opener: string): nat {
    if existing == [] then 0
    else OpenCount(existing[..|existing| - 1], opener)
         + if CountsFor(existing[|existing| - 1], opener) then 1 else 0
  }

  /** ActiveLimit */
  function ActiveLimit(existing: seq<Record>, opener: string, typ: TicketType): Option<TicketError> {
    if exists i :: 0 <= i < |existing| && CountsFor(existing[i], opener) && existing[i].typ == typ
    then Some(ErrDuplicateType)
    else if OpenCount(existing, opener) >= MAX_OPEN_TICKETS then Some(ErrOpenLimit)
    else None
  }

  predicate HasOtherAdmin(actor: Actor) {
    exists i :: 0 <= i < |actor.availableAdmins|
                && actor.availableAdmins[i] != "" && actor.availableAdmins[i] != actor.id
  }

  /** The record Create saves under the next number. */
  function BuildTicket(draft: Draft, actor: Actor, input: Input, number: nat, now: Time): Record {
    var id := TicketId.FormatID(Code(input.typ), Field(draft.data, "region"), actor.username, number);
    NewRecord(id, input.typ, Code(input.typ), Field(draft.data, "region"), draft.workflow, actor.id, actor.tag,
              if input.threadId == "" then id else input.threadId, draft.data, draft.request, now)
  }

  function ExecCreate(lex: Lexicon, s: Store, actor: Actor, input: Input, now: Time): Outcome {
    var draft := DraftTicket(lex, actor, input);
    if draft.Err? then Outcome(s, Err(draft.error))
    else
      var limit := ActiveLimit(ListByOpener(s, actor.id), actor.id, input.typ);
      if limit.Some? then Outcome(s, Err(limit.value))
      else if !HasOtherAdmin(actor) then Outcome(s, Err(ErrNoAdmin))
      else
        var counted := s.(counter := s.counter + 1);
        var rec := BuildTicket(draft.value, actor, input, s.counter + 1, now);
        var saved := Save(counted, rec);
        if saved.Err? then Outcome(counted, Err(saved.error)) else Outcome(saved.value, Ok(rec))
  }

  // What holds of the tables whatever the order in which calls read and write them

  ghost predicate Keyed(s: Store) {
    && (forall id :: id in s.tickets <==> id in s.order)
    && (forall i, j :: 0 <= i < j < |s.order| ==> s.order[i] != s.order[j])
    && (forall id :: id in s.tickets ==> s.tickets[id].id == id && 1 <= TicketId.Serial(id) <= s.counter)
  }

  ghost predicate Threaded(s: Store) {
    forall a, b :: a in s.tickets && b in s.tickets && a != b ==> s.tickets[a].threadId != s.tickets[b].threadId
  }

  ghost predicate AllGood(lex: Lexicon, s: Store) {
    forall id :: id in s.tickets ==> Good(lex, s.tickets[id])
  }

  /** A row repeats what its ticket's seller asked for. */
  ghost predicate RowMatches(tickets: map<string, Record>, row: Row) {
    && row.ticketId in tickets
    && row.publicId == PaymentId(row.ticketId)
    && tickets[row.ticketId].withdrawal.Some?
    && row.sellerId == tickets[row.ticketId].openerId
    && row.amountMinor == tickets[row.ticketId].withdrawal.value.request.amountMinor
    && row.currency == tickets[row.ticketId].withdrawal.value.request.currency
    && row.who != row.sellerId
  }

  ghost predicate LedgerSound(s: Store) {
    && (forall i :: 0 <= i < |s.ledger| ==> RowMatches(s.tickets, s.ledger[i]))
    && (forall i, j :: 0 <= i < j < |s.ledger| ==>
        s.ledger[i].publicId != s.ledger[j].publicId && s.ledger[i].reference != s.ledger[j].reference)
  }

  /** A payment on a record is proved by its ledger row. */
  ghost predicate Backed(ledger: seq<Row>, rec: Record) {
    Shows(rec) ==> RowFor(rec) in ledger
  }

  ghost predicate AllBacked(s: Store) {
    forall id :: id in s.tickets ==> Backed(s.ledger, s.tickets[id])
  }

  ghost predicate Sound(lex: Lexicon, s: Store) {
    Keyed(s) && Threaded(s) && AllGood(lex, s) && LedgerSound(s) && AllBacked(s)
  }

  /** Two rows for one ticket or for one receipt are the same row. */
  lemma OneRowPerTicket(lex: Lexicon, s: Store, i: nat, j: nat)
    requires Sound(lex, s) && i < |s.ledger| && j < |s.ledger|
    requires s.ledger[i].ticketId == s.ledger[j].ticketId || s.ledger[i].reference == s.ledger[j].reference
    ensures i == j
  {
    assert RowMatches(s.tickets, s.ledger[i]) && RowMatches(s.tickets, s.ledger[j]);
  }

  /** A record that may be saved over the stored one, or a new one under its own number. */
  ghost predicate MayReplace(s: Store, next: Record) {
    if next.id in s.tickets then SameCore(s.tickets[next.id], next)
    else 1 <= TicketId.Serial(next.id) <= s.counter && !Shows(next)
  }

  lemma PutKeepsKeys(s: Store, next: Record)
    requires Keyed(s) && MayReplace(s, next)
    ensures Keyed(Put(s, next))
  {
    var t := Put(s, next);
    if next.id !in s.tickets {
      assert t.order == s.order + [next.id] && next.id !in s.order;
    }
  }

  lemma PutKeepsThreads(s: Store, next: Record)
    requires Threaded(s) && !ThreadTaken(s, next)
    ensures Threaded(Put(s, next))
  {
  }

  lemma PutKeepsLedger(s: Store, next: Record)
    requires Keyed(s) && LedgerSound(s) && MayReplace(s, next)
    ensures LedgerSound(Put(s, next))
  {
    var t := Put(s, next);
    forall i | 0 <= i < |t.ledger|
      ensures RowMatches(t.tickets, t.ledger[i])
    {
      assert RowMatches(s.tickets, s.ledger[i]);
    }
  }

  /** A whole-row save keeps the tables sound, however stale the record it was computed from. */
  lemma SaveKeepsSound(lex: Lexicon, s: Store, next: Record)
    requires Sound(lex, s) && Good(lex, next) && Backed(s.ledger, next) && MayReplace(s, next)
    requires Save(s, next).Ok?
    ensures Sound(lex, Save(s, next).value)
  {
    PutKeepsKeys(s, next);
    PutKeepsThreads(s, next);
    PutKeepsLedger(s, next);
  }

  lemma AppendKeepsUnique(ledger: seq<Row>, row: Row)
    requires !LedgerRefuses(ledger, row)
    requires forall i, j :: 0 <= i < j < |ledger| ==>
               ledger[i].publicId != ledger[j].publicId && ledger[i].reference != ledger[j].reference
    ensures forall i, j :: 0 <= i < j < |ledger + [row]| ==>
              (ledger + [row])[i].publicId != (ledger + [row])[j].publicId
              && (ledger + [row])[i].reference != (ledger + [row])[j].reference
  {
  }

  lemma AppendKeepsLedger(s: Store, row: Row)
    requires LedgerSound(s) && RowMatches(s.tickets, row) && !LedgerRefuses(s.ledger, row)
    ensures LedgerSound(s.(ledger := s.ledger + [row]))
  {
    var t := s.(ledger := s.ledger + [row]);
    AppendKeepsUnique(s.ledger, row);
    forall i | 0 <= i < |t.ledger|
      ensures RowMatches(t.tickets, t.ledger[i])
    {
      if i < |s.ledger| {
        assert RowMatches(s.tickets, s.ledger[i]);
      }
    }
  }

  lemma RowForMatches(lex: Lexicon, s: Store, next: Record)
    requires Good(lex, next) && Shows(next) && next.id in s.tickets && s.tickets[next.id] == next
    ensures RowMatches(s.tickets, RowFor(next))
  {
    assert PaymentMatches(lex, next, next.withdrawal.value.outgoing.value);
  }

  lemma CommitKeepsBacked(s: Store, next: Record)
    requires AllBacked(s) && Keyed(s) && Shows(next)
    ensures AllBacked(Put(s, next).(ledger := s.ledger + [RowFor(next)]))
  {
    var row := RowFor(next);
    var ledger := s.ledger + [row];
    assert ledger[|s.ledger|] == row;
    forall id | id in s.tickets && id != next.id
      ensures Backed(ledger, s.tickets[id])
    {
      assert Backed(s.ledger, s.tickets[id]);
    }
  }

  /** So does the commit of a payment. */
  lemma SavePaymentKeepsSound(lex: Lexicon, s: Store, next: Record)
    requires Sound(lex, s) && Good(lex, next) && next.id in s.tickets && SameCore(s.tickets[next.id], next)
    requires Shows(next) && SavePayment(s, next, RowFor(next)).Ok?
    ensures Sound(lex, SavePayment(s, next, RowFor(next)).value)
  {
    hide Good, RowFor, Backed, RowMatches, SameCore, TicketId.Serial;
    var p := Put(s, next);
    PutKeepsKeys(s, next);
    PutKeepsThreads(s, next);
    PutKeepsLedger(s, next);
    RowForMatches(lex, p, next);
    AppendKeepsLedger(p, RowFor(next));
    CommitKeepsBacked(s, next);
  }

  lemma CounterKeepsSound(lex: Lexicon, s: Store)
    requires Sound(lex, s)
    ensures Sound(lex, s.(counter := s.counter + 1))
  {
  }

  lemma DraftIsOfType(lex: Lexicon, actor: Actor, input: Input)
    requires DraftTicket(lex, actor, input).Ok?
    ensures var d := DraftTicket(lex, actor, input).value;
            && WorkflowForType(input.typ) == Some(d.workflow)
            && (d.request.Some? <==> input.typ == Withdraw)
            && (d.request.Some? ==> 1 <= d.request.value.amountMinor <= Money.MAX_INT64
                                    && d.request.value.currency in Money.CURRENCIES)
  {
    hide CleanData, ValidateWithdrawalInput, AnySensitive, NormalizeText, FillRequired, Field, TicketId.ValidRegion,
         Roles.EligibleTicketApplicant;
    if input.typ == Withdraw {
      var data := CleanData(input.data);
      var region := NormalizeText(Field(data, "region"));
      FormAsksFor(lex, data["region" := region]);
    }
  }

  lemma FormAsksFor(lex: Lexicon, form: map<string, string>)
    requires ValidateWithdrawalInput(lex, form).Ok?
    ensures var req := ValidateWithdrawalInput(lex, form).value.1;
            1 <= req.amountMinor <= Money.MAX_INT64 && req.currency in Money.CURRENCIES
  {
    hide ValidateWithdrawalInput, ValidatePaymentReference;
    CleanFormStable(lex, form);
  }

  /** A built ticket is good, unpaid, and its id carries its number. */
  lemma BuildTicketGood(lex: Lexicon, actor: Actor, input: Input, number: nat, now: Time)
    requires DraftTicket(lex, actor, input).Ok?
    ensures var rec := BuildTicket(DraftTicket(lex, actor, input).value, actor, input, number, now);
            Good(lex, rec) && !Shows(rec) && TicketId.Serial(rec.id) == number && rec.status == Open
            && rec.openerId == actor.id && rec.typ == input.typ
  {
    var d := DraftTicket(lex, actor, input).value;
    DraftIsOfType(lex, actor, input);
    var rec := BuildTicket(d, actor, input, number, now);
    NewRecordGood(lex, rec.id, rec.typ, rec.code, rec.region, rec.workflow, rec.openerId, rec.openerTag,
                  rec.threadId, rec.data, d.request, now);
    TicketId.SerialOfFormat(Code(input.typ), Field(d.data, "region"), actor.username, number);
  }

  // What a list query or a receipt check tells about sound tables

  lemma ShownIsBooked(lex: Lexicon, s: Store, id: string)
    requires Sound(lex, s) && id in s.tickets && Shows(s.tickets[id])
    ensures OutgoingExists(s.ledger, s.tickets[id].withdrawal.value.outgoing.value.reference)
  {
    assert Backed(s.ledger, s.tickets[id]);
    var j :| 0 <= j < |s.ledger| && s.ledger[j] == RowFor(s.tickets[id]);
    assert s.ledger[j].reference == s.tickets[id].withdrawal.value.outgoing.value.reference;
  }

  lemma BookedNowhere(lex: Lexicon, s: Store, others: seq<Record>, reference: string)
    requires Sound(lex, s) && !OutgoingExists(s.ledger, reference)
    requires forall r :: r in others ==> exists id :: id in s.tickets && s.tickets[id] == r
    ensures !ShowsReference(others, reference)
  {
    hide Sound, OutgoingExists;
    if ShowsReference(others, reference) {
      var i :| 0 <= i < |others| && HasReference(others[i], reference);
      assert others[i] in others;
      var id :| id in s.tickets && s.tickets[id] == others[i];
      ShownIsBooked(lex, s, id);
    }
  }

  lemma ListedAreStored(lex: Lexicon, s: Store, member: string)
    ensures forall r :: r in ListOpen(s) + ListByOpener(s, member) ==>
              exists id :: id in s.tickets && s.tickets[id] == r
  {
  }

  lemma ThreadFree(lex: Lexicon, s: Store, rec: Record)
    requires Sound(lex, s) && rec.id in s.tickets && rec.threadId == s.tickets[rec.id].threadId
    ensures !ThreadTaken(s, rec)
  {
  }

  lemma PaidReference(lex: Lexicon, rec: Record, actor: Actor, reference: string, now: Time, others: seq<Record>)
    requires DecidePayment(lex, rec, actor, reference, now, others).Ok?
    ensures var next := DecidePayment(lex, rec, actor, reference, now, others).value;
            && ValidatePaymentReference(lex, reference).Ok? && Shows(next)
            && next.withdrawal.value.outgoing.value.reference == ValidatePaymentReference(lex, reference).value
  {
    hide ValidatePaymentReference, ShowsReference;
  }
}
