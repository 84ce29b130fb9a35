/** The ticket service and its repository as objects, each method proved to do what the specification
    functions of Store say (modules/ticket/service.go, repository.go). */
module TicketService {
  import opened Wrappers
  import opened Text
  import opened Catalog
  import opened Validation
  import opened Records
  import opened Totals
  import S = Store
  import TicketId
  import Roles

  /** What Snapshot reports. */
  datatype Report =
    Report(openTickets: nat, statuses: map<Status, nat>, payments: nat, totals: map<string, int>)

  function StatusCount(rows: seq<Record>, st: Status): nat {
    if rows == [] then 0
    else StatusCount(rows[..|rows| - 1], st) + if rows[|rows| - 1].status == st then 1 else 0
  }

  function Everything(r: Record): bool { true }

  class Repository {
    var order: seq<string>
    var tickets: map<string, Record>
    var ledger: seq<S.Row>
    var counter: nat

    function Contents(): S.Store
      reads this
    {
      S.Store(order, tickets, ledger, counter)
    }

    /** The order lists exactly the stored ids. */
    ghost predicate Valid()
      reads this
    {
      forall id :: id in tickets <==> id in order
    }

    constructor ()
      ensures Valid() && Contents() == S.EMPTY
    {
      order, tickets, ledger, counter := [], map[], [], 0;
    }

    method NextSeq() returns (number: nat)
      modifies this`counter
      ensures number == old(counter) + 1 && counter == number
    {
      counter := counter + 1;
      number := counter;
    }

    method Find(id: string) returns (r: Result<Record, TicketError>)
      ensures r == if id in tickets then Ok(tickets[id]) else Err(ErrNotFound)
    {
      if id !in tickets {
        return Err(ErrNotFound);
      }
      return Ok(tickets[id]);
    }

    method Save(rec: Record) returns (refused: Option<TicketError>)
      requires Valid()
      modifies this`order, this`tickets
      ensures Valid()
      ensures var after := S.Save(old(Contents()), rec);
              && Contents() == (if after.Ok? then after.value else old(Contents()))
              && refused == if after.Ok? then None else Some(after.error)
    {
      if S.ThreadTaken(Contents(), rec) {
        return Some(StoreRejected);
      }
      if rec.id !in tickets {
        order := order + [rec.id];
      }
      tickets := tickets[rec.id := rec];
      return None;
    }

    /** The ticket row first, then the ledger row; when the ledger refuses, the ticket row is rolled back. */
    method SavePayment(rec: Record, row: S.Row) returns (refused: Option<TicketError>)
      requires Valid()
      modifies this`order, this`tickets, this`ledger
      ensures Valid()
      ensures var after := S.SavePayment(old(Contents()), rec, row);
              && Contents() == (if after.Ok? then after.value else old(Contents()))
              && refused == if after.Ok? then None else Some(after.error)
    {
      var rollbackOrder, rollbackTickets := order, tickets;
      refused := Save(rec);
      if refused.Some? {
        return;
      }
      var clash := row.amountMinor <= 0;
      var i := 0;
      while i < |ledger| && !clash
        invariant 0 <= i <= |ledger|
        invariant clash <==>
                    row.amountMinor <= 0
                    || exists j :: 0 <= j < i
                                   && (ledger[j].publicId == row.publicId || ledger[j].reference == row.reference)
      {
        clash := ledger[i].publicId == row.publicId || ledger[i].reference == row.reference;
        i := i + 1;
      }
      if clash {
        order, tickets := rollbackOrder, rollbackTickets;
        return Some(StoreRejected);
      }
      ledger := ledger + [row];
    }

    method Select(keep: Record -> bool) returns (rows: seq<Record>)
      requires Valid()
      ensures rows == S.Select(order, tickets, keep)
    {
      rows := [];
      S.SelectNothing(order, tickets, keep);
      hide S.Select;
      for i := 0 to |order|
        invariant rows == S.Select(order[..i], tickets, keep)
      {
        S.SelectNext(order, i, tickets, keep);
        if keep(tickets[order[i]]) {
          rows := rows + [tickets[order[i]]];
        }
      }
      assert order[..|order|] == order;
    }

    method ListOpen() returns (rows: seq<Record>)
      requires Valid()
      ensures rows == S.ListOpen(Contents())
    {
      rows := Select((r: Record) => r.status != Closed);
    }

    method ListByOpener(opener: string) returns (rows: seq<Record>)
      requires Valid()
      ensures rows == S.ListByOpener(Contents(), opener)
    {
      rows := Select(S.OpenedBy(opener));
    }

    method OutgoingExists(reference: string) returns (found: bool)
      ensures found == S.OutgoingExists(ledger, reference)
    {
      for i := 0 to |ledger|
        invariant !S.OutgoingExists(ledger[..i], reference)
      {
        if ledger[i].reference == reference {
          return true;
        }
        assert forall j :: 0 <= j < i ==> ledger[j] == ledger[..i][j];
      }
      assert ledger[..|ledger|] == ledger;
      return false;
    }

    /** The number of rows, and per currency what the rows add up to. */
    method TotalPayments() returns (payments: nat, totals: map<string, int>)
      ensures payments == |ledger|
      ensures forall c :: c in totals <==> exists i :: 0 <= i < |ledger| && ledger[i].currency == c
      ensures forall c :: c in totals ==> totals[c] == SumRows(ledger, PaidIn(c))
    {
      payments, totals := 0, map[];
      for i := 0 to |ledger|
        invariant payments == i
        invariant forall c :: c in totals <==> exists j :: 0 <= j < i && ledger[j].currency == c
        invariant forall c :: (if c in totals then totals[c] else 0) == SumRows(ledger[..i], PaidIn(c))
      {
        var row := ledger[i];
        assert ledger[..i + 1][..i] == ledger[..i];
        var before := if row.currency in totals then totals[row.currency] else 0;
        totals := totals[row.currency := before + row.amountMinor];
        payments := payments + 1;
      }
      assert ledger[..|ledger|] == ledger;
    }

    method Snapshot() returns (out: Report)
      requires Valid()
      ensures out.payments == |ledger|
      ensures forall c :: c in out.totals ==> out.totals[c] == SumRows(ledger, PaidIn(c))
      ensures forall c :: c in out.totals <==> exists i :: 0 <= i < |ledger| && ledger[i].currency == c
      ensures var rows := S.Select(order, tickets, Everything);
              && (forall st :: (if st in out.statuses then out.statuses[st] else 0) == StatusCount(rows, st))
              && out.openTickets + StatusCount(rows, Closed) == |rows|
    {
      var rows := Select(Everything);
      var statuses: map<Status, nat> := map[];
      var open := 0;
      for i := 0 to |rows|
        invariant forall st :: (if st in statuses then statuses[st] else 0) == StatusCount(rows[..i], st)
        invariant open + StatusCount(rows[..i], Closed) == i
      {
        assert rows[..i + 1][..i] == rows[..i];
        var st := rows[i].status;
        statuses := statuses[st := (if st in statuses then statuses[st] else 0) + 1];
        if st != Closed {
          open := open + 1;
        }
      }
      assert rows[..|rows|] == rows;
      var payments, totals := TotalPayments();
      out := Report(open, statuses, payments, totals);
    }
  }

  // The loops of Create

  method NormalizeFields(input: map<string, string>) returns (data: map<string, string>)
    ensures data == S.CleanData(input)
  {
    data := map[];
    var keys := input.Keys;
    while keys != {}
      invariant keys <= input.Keys
      invariant data == map k | k in input && k !in keys && input[k] != "" :: NormalizeText(input[k])
      decreases keys
    {
      var k :| k in keys;
      keys := keys - {k};
      if input[k] != "" {
        data := data[k := NormalizeText(input[k])];
      }
    }
  }

  method FirstAlias(data: map<string, string>) returns (text: string)
    ensures text == S.FromAlias(data, S.ALIASES)
  {
    assert S.ALIASES[0..] == S.ALIASES;
    for i := 0 to |S.ALIASES|
      invariant S.FromAlias(data, S.ALIASES[i..]) == S.FromAlias(data, S.ALIASES)
    {
      var alias := S.ALIASES[i];
      assert S.ALIASES[i..][1..] == S.ALIASES[i + 1..];
      if S.Field(data, alias) != "" {
        return data[alias];
      }
    }
    return "";
  }

  method FillFields(data: map<string, string>, required: seq<string>) returns (filled: Option<map<string, string>>)
    ensures filled == S.FillRequired(data, required)
  {
    var d := data;
    assert required[0..] == required;
    for i := 0 to |required|
      invariant S.FillRequired(d, required[i..]) == S.FillRequired(data, required)
    {
      var key := required[i];
      assert required[i..][1..] == required[i + 1..];
      if key != "region" && S.Field(d, key) == "" {
        var text := FirstAlias(d);
        if text == "" {
          return None;
        }
        d := d[key := text];
      }
    }
    return Some(d);
  }

  method CheckActiveLimit(existing: seq<Record>, opener: string, typ: TicketType) returns (refused: Option<TicketError>)
    ensures refused == S.ActiveLimit(existing, opener, typ)
  {
    var active := 0;
    for i := 0 to |existing|
      invariant active == S.OpenCount(existing[..i], opener)
      invariant forall j :: 0 <= j < i ==> !(S.CountsFor(existing[j], opener) && existing[j].typ == typ)
    {
      assert existing[..i + 1][..i] == existing[..i];
      var t := existing[i];
      if t.openerId == opener && t.status != Closed {
        if t.typ == typ {
          return Some(ErrDuplicateType);
        }
        active := active + 1;
      }
    }
    assert existing[..|existing|] == existing;
    if active >= MAX_OPEN_TICKETS {
      return Some(ErrOpenLimit);
    }
    return None;
  }

  method CountOtherAdmins(actor: Actor) returns (admins: nat)
    ensures admins > 0 <==> S.HasOtherAdmin(actor)
  {
    admins := 0;
    for i := 0 to |actor.availableAdmins|
      invariant admins > 0 <==>
                  exists j :: 0 <= j < i && actor.availableAdmins[j] != "" && actor.availableAdmins[j] != actor.id
    {
      if actor.availableAdmins[i] != "" && actor.availableAdmins[i] != actor.id {
        admins := admins + 1;
      }
    }
  }

  method PrepareTicket(lex: Lexicon, actor: Actor, input: S.Input) returns (draft: Result<S.Draft, TicketError>)
    ensures draft == S.DraftTicket(lex, actor, input)
  {
    hide ValidateWithdrawalInput, S.FillRequired, Sensitive, NormalizeText, TicketId.ValidRegion;
    if input.typ.UnknownType? {
      return Err(ErrUnknownType);
    }
    var workflow := WorkflowForType(input.typ);
    if !Roles.EligibleTicketApplicant(input.typ, actor.roles) {
      return Err(ErrNotEligible);
    }
    var data := NormalizeFields(input.data);
    var region := NormalizeText(S.Field(data, "region"));
    if !TicketId.ValidRegion(region) {
      return Err(ErrInvalidRegion);
    }
    data := data["region" := region];
    if input.typ != Withdraw {
      var filled := FillFields(data, Requires(input.typ));
      if filled.None? {
        return Err(ErrRequiredField);
      }
      data := filled.value;
    }
    if S.AnySensitive(lex, data) {
      return Err(ErrSensitive);
    }
    if input.typ != Withdraw {
      return Ok(S.Draft(workflow.value, data, None));
    }
    var form := ValidateWithdrawalInput(lex, data);
    if form.Err? {
      return Err(form.error);
    }
    return Ok(S.Draft(workflow.value, form.value.0, Some(form.value.1)));
  }

  /** RecordWithdrawalPayment, scanning the loaded tickets. */
  method RecordWithdrawalPayment(lex: Lexicon, rec: Record, actorId: string, now: Time, reference: string,
                                 others: seq<Record>) returns (r: Result<Record, TicketError>)
    ensures r == PayRecord(lex, rec, actorId, reference, now, others)
  {
    hide ShowsReference, ValidatePaymentReference;
    if !IsWithdrawal(rec.typ, rec.workflow) || rec.withdrawal.None? {
      return Err(ErrNotApproved);
    }
    if rec.withdrawal.value.outgoing.Some? {
      return Err(ErrAlreadyPaid);
    }
    if rec.status != Approved {
      return Err(ErrNotApproved);
    }
    var ref := ValidatePaymentReference(lex, reference);
    if ref.Err? {
      return Err(ref.error);
    }
    var shown := ScanForReference(others, ref.value);
    if shown {
      return Err(ErrDuplicatePayment);
    }
    if !ActorOk(actorId, rec.openerId) {
      return Err(ErrNotAdmin);
    }
    return Ok(PaidRecord(rec, actorId, ref.value, now));
  }

  class Service {
    const repository: Repository
    const lex: Lexicon

    constructor (repository: Repository, lex: Lexicon)
      ensures this.repository == repository && this.lex == lex
    {
      this.repository := repository;
      this.lex := lex;
    }

    method Create(actor: Actor, input: S.Input, now: Time) returns (r: Result<Record, TicketError>)
      requires repository.Valid()
      modifies repository
      ensures repository.Valid()
      ensures S.Outcome(repository.Contents(), r) == S.ExecCreate(lex, old(repository.Contents()), actor, input, now)
    {
      hide S.DraftTicket, S.BuildTicket, S.ActiveLimit, S.HasOtherAdmin, S.Select, S.ThreadTaken;
      var draft := PrepareTicket(lex, actor, input);
      if draft.Err? {
        return Err(draft.error);
      }
      var existing := repository.ListByOpener(actor.id);
      var limit := CheckActiveLimit(existing, actor.id, input.typ);
      if limit.Some? {
        return Err(limit.value);
      }
      var admins := CountOtherAdmins(actor);
      if admins == 0 {
        return Err(ErrNoAdmin);
      }
      var number := repository.NextSeq();
      var rec := S.BuildTicket(draft.value, actor, input, number, now);
      var refused := repository.Save(rec);
      if refused.Some? {
        return Err(refused.value);
      }
      return Ok(rec);
    }

    /** The shape all single-record updates share: read, decide, save. */
    method Update(actor: Actor, id: string, action: Action, now: Time) returns (r: Result<Record, TicketError>)
      requires repository.Valid()
      modifies repository
      ensures repository.Valid()
      ensures S.Outcome(repository.Contents(), r)
                == S.ExecUpdate(lex, old(repository.Contents()), actor, id, action, now)
    {
      hide Decide, S.ThreadTaken;
      var found := repository.Find(id);
      if found.Err? {
        return found;
      }
      var next := Decide(lex, found.value, actor, action, now);
      if next.Err? {
        return next;
      }
      var refused := repository.Save(next.value);
      if refused.Some? {
        return Err(refused.value);
      }
      return next;
    }

    /** Handoff looks the target up among the available admins before the record step. */
    method Handoff(actor: Actor, id: string, target: string, reason: string, now: Time)
      returns (r: Result<Record, TicketError>)
      requires repository.Valid()
      modifies repository
      ensures repository.Valid()
      ensures S.Outcome(repository.Contents(), r)
           == S.ExecUpdate(lex, old(repository.Contents()), actor, id, Action.Handoff(target, reason), now)
    {
      hide RequireAdmin, HandoffRecord, S.ThreadTaken;
      var found := repository.Find(id);
      if found.Err? {
        return found;
      }
      var denied := RequireAdmin(actor, found.value);
      if denied.Some? {
        return Err(denied.value);
      }
      var allowed := false;
      var i := 0;
      while i < |actor.availableAdmins| && !allowed
        invariant 0 <= i <= |actor.availableAdmins|
        invariant allowed <==> target in actor.availableAdmins[..i] && target != found.value.openerId
      {
        allowed := actor.availableAdmins[i] == target && target != found.value.openerId;
        assert actor.availableAdmins[..i + 1] == actor.availableAdmins[..i] + [actor.availableAdmins[i]];
        i := i + 1;
      }
      assert !allowed ==> actor.availableAdmins[..i] == actor.availableAdmins;
      assert allowed ==> target in actor.availableAdmins;
      if !allowed {
        return Err(ErrHandoffTarget);
      }
      var next := HandoffRecord(lex, found.value, actor.id, target, reason, now);
      if next.Err? {
        return next;
      }
      var refused := repository.Save(next.value);
      if refused.Some? {
        return Err(refused.value);
      }
      return next;
    }

    method RecordPayment(actor: Actor, id: string, reference: string, now: Time)
      returns (r: Result<Record, TicketError>)
      requires repository.Valid()
      modifies repository
      ensures repository.Valid()
      ensures S.Outcome(repository.Contents(), r)
                == S.ExecPay(lex, old(repository.Contents()), actor, id, reference, now)
    {
      hide RequireAdmin, PayRecord, S.ListOpen, S.ListByOpener, S.OutgoingExists, S.ThreadTaken;
      var found := repository.Find(id);
      if found.Err? {
        return found;
      }
      var denied := RequireAdmin(actor, found.value);
      if denied.Some? {
        return Err(denied.value);
      }
      var open := repository.ListOpen();
      var byOpener := repository.ListByOpener(found.value.openerId);
      var next := RecordWithdrawalPayment(lex, found.value, actor.id, now, reference, open + byOpener);
      if next.Err? {
        return next;
      }
      PaidShows(lex, found.value, actor.id, reference, now, open + byOpener);
      var exists_ := repository.OutgoingExists(next.value.withdrawal.value.outgoing.value.reference);
      if exists_ {
        return Err(ErrDuplicatePayment);
      }
      var refused := repository.SavePayment(next.value, S.RowFor(next.value));
      if refused.Some? {
        return Err(refused.value);
      }
      return next;
    }
  }

  lemma PaidShows(lex: Lexicon, rec: Record, actorId: string, reference: string, now: Time, others: seq<Record>)
    requires PayRecord(lex, rec, actorId, reference, now, others).Ok?
    ensures S.Shows(PayRecord(lex, rec, actorId, reference, now, others).value)
  {
  }

  ghost function WithStatus(rows: seq<Record>, st: Status): set<nat> {
    set i | 0 <= i < |rows| && rows[i].status == st
  }

  lemma WithStatusNext(front: seq<Record>, last: Record, st: Status)
    ensures WithStatus(front + [last], st)
         == if last.status == st then WithStatus(front, st) + {|front|} else WithStatus(front, st)
    ensures |front| !in WithStatus(front, st)
  {
  }

  /** The number of rows with a status. */
  lemma {:induction false} StatusCountIs(rows: seq<Record>, st: Status)
    ensures StatusCount(rows, st) == |set i | 0 <= i < |rows| && rows[i].status == st|
  {
    assert WithStatus(rows, st) == set i | 0 <= i < |rows| && rows[i].status == st;
    if rows != [] {
      var front, last := rows[..|rows| - 1], rows[|rows| - 1];
      StatusCountIs(front, st);
      assert rows == front + [last];
      WithStatusNext(front, last, st);
      hide WithStatus;
    }
  }
}
