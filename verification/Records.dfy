/** Ticket records and the steps that change them (modules/ticket/record.go, withdrawal.go), with the
    guards the service puts in front of each step (modules/ticket/service.go). */
module Records {
  import opened Wrappers
  import opened Catalog
  import opened Validation
  import Money
  import Roles

  /** Milliseconds since the epoch. */
  type Time = nat

  datatype EventKind =
    | Created | Claimed | HandedOff | ResolutionSaved | StatusChanged(from: Status, to: Status)
    | WithdrawPaid | SellerApproved

  datatype Event =
    Event(at: Time, kind: EventKind, who: string, reason: string, memberId: string, mutationId: string)

  datatype Stamp = Stamp(who: string, at: Time)

  datatype Resolution = Resolution(text: string, who: string, at: Time)

  datatype SellerApproval = SellerApproval(who: string, at: Time, memberId: string)

  datatype Payment = Payment(
    id: string, ticketId: string, sellerId: string, amountMinor: int, currency: string, reference: string,
    who: string, at: Time)

  datatype Withdrawal =
    Withdrawal(sellerId: string, request: Request, approval: Option<Stamp>, outgoing: Option<Payment>)

  datatype Record = Record(
    id: string, typ: TicketType, code: string, region: string, workflow: WorkflowId, openerId: string,
    openerTag: string, threadId: string, status: Status, assignedTo: Option<string>, openedAt: Time,
    closedAt: Option<Time>, data: map<string, string>, history: seq<Event>,
    resolution: Option<Resolution>, withdrawal: Option<Withdrawal>, sellerApproval: Option<SellerApproval>)

  datatype Actor = Actor(
    id: string, username: string, tag: string, roles: Option<seq<Roles.RoleName>>, isAdmin: bool, isBot: bool,
    ownerId: string, availableAdmins: seq<string>)

  function Plain(at: Time, kind: EventKind, who: string): Event {
    Event(at, kind, who, "", "", "")
  }

  function NewRecord(id: string, typ: TicketType, code: string, region: string, workflow: WorkflowId,
                     openerId: string, openerTag: string, threadId: string, data: map<string, string>,
                     request: Option<Request>, now: Time): Record
  {
    Record(id, typ, code, region, workflow, openerId, openerTag, threadId, Open, None, now, None, data,
           [Plain(now, Created, openerId)], None,
           if request.None? then None else Some(Withdrawal(openerId, request.value, None, None)), None)
  }

  // Record steps

  function ClaimRecord(rec: Record, actorId: string, now: Time): Result<Record, TicketError> {
    if rec.assignedTo.Some? && rec.assignedTo.value != "" then Err(ErrAlreadyClaimed)
    else Ok(rec.(assignedTo := Some(actorId), history := rec.history + [Plain(now, Claimed, actorId)]))
  }

  function HandoffRecord(lex: Lexicon, rec: Record, actorId: string, target: string, reason: string, now: Time)
    : Result<Record, TicketError>
  {
    if target == "" || target == rec.openerId || target == actorId then Err(ErrHandoffTarget)
    else
      var text := ValidateTicketText(lex, reason);
      if text.Err? then Err(text.error)
      else Ok(rec.(assignedTo := Some(target),
                   history := rec.history + [Event(now, HandedOff, actorId, text.value, target, "")]))
  }

  function ResolveRecord(lex: Lexicon, rec: Record, actorId: string, note: string, now: Time)
    : Result<Record, TicketError>
  {
    var text := ValidateTicketText(lex, note);
    if text.Err? then Err(text.error)
    else Ok(rec.(resolution := Some(Resolution(text.value, actorId, now)),
                 history := rec.history + [Plain(now, ResolutionSaved, actorId)]))
  }

  function MoveRecord(lex: Lexicon, rec: Record, actorId: string, to: Status, now: Time)
    : Result<Record, TicketError>
  {
    if !CanTransition(rec.typ, rec.workflow, rec.status, to) then Err(ErrIllegalTransition)
    else if to == Closed
         && (rec.resolution.None? || !ValidResolution(lex, rec.resolution.value.text, rec.resolution.value.who))
    then Err(ErrResolutionMissing)
    else Ok(rec.(status := to, closedAt := if to == Closed then Some(now) else rec.closedAt,
                 history := rec.history + [Plain(now, StatusChanged(rec.status, to), actorId)]))
  }

  function ApproveSellerRecord(lex: Lexicon, rec: Record, actorId: string, reason: string, memberId: string,
                               now: Time): Result<Record, TicketError>
  {
    if rec.typ != SellerVerification || rec.workflow != ReviewV1 then Err(ErrSellerTicket)
    else if rec.status in {Closed, Cancelled, Resolved} then Err(ErrIllegalTransition)
    else if rec.sellerApproval.Some? then Err(ErrAlreadyApproved)
    else
      var text := ValidateTicketText(lex, reason);
      if text.Err? then Err(text.error)
      else Ok(rec.(sellerApproval := Some(SellerApproval(actorId, now, memberId)),
                   history := rec.history + [Event(now, SellerApproved, actorId, text.value, memberId, "")]))
  }

  /** actorTimeOK; the time always parses here. */
  predicate ActorOk(actorId: string, sellerId: string) {
    actorId != "" && actorId != sellerId
  }

  function ApproveWithdrawalRecord(rec: Record, actorId: string, now: Time): Result<Record, TicketError> {
    if !IsWithdrawal(rec.typ, rec.workflow) || rec.status != Open || rec.withdrawal.None?
    then Err(ErrWithdrawalInvalid)
    else if rec.withdrawal.value.approval.Some? then Err(ErrAlreadyApproved)
    else if !ActorOk(actorId, rec.openerId) then Err(ErrNotAdmin)
    else if now < rec.openedAt then Err(ErrWithdrawalInvalid)
    else Ok(rec.(withdrawal := Some(rec.withdrawal.value.(approval := Some(Stamp(actorId, now)))),
                 status := Approved,
                 history := rec.history + [Plain(now, StatusChanged(Open, Approved), actorId)]))
  }

  function PaymentId(ticketId: string): string { "OUT-" + ticketId }

  /** Whether one of the loaded tickets already shows the receipt. */
  predicate ShowsReference(others: seq<Record>, reference: string) {
    exists i :: 0 <= i < |others| && HasReference(others[i], reference)
  }

  predicate HasReference(rec: Record, reference: string) {
    rec.withdrawal.Some? && rec.withdrawal.value.outgoing.Some?
    && rec.withdrawal.value.outgoing.value.reference == reference
  }

  method ScanForReference(others: seq<Record>, reference: string) returns (found: bool)
    ensures found == ShowsReference(others, reference)
  {
    for i := 0 to |others|
      invariant !ShowsReference(others[..i], reference)
    {
      if HasReference(others[i], reference) {
        return true;
      }
      assert forall j :: 0 <= j < i ==> others[j] == others[..i][j];
    }
    assert others[..|others|] == others;
    return false;
  }

  /** RecordWithdrawalPayment */
  function PayRecord(lex: Lexicon, rec: Record, actorId: string, reference: string, now: Time, others: seq<Record>)
    : Result<Record, TicketError>
  {
    if !IsWithdrawal(rec.typ, rec.workflow) || rec.withdrawal.None? then Err(ErrNotApproved)
    else if rec.withdrawal.value.outgoing.Some? then Err(ErrAlreadyPaid)
    else if rec.status != Approved then Err(ErrNotApproved)
    else
      var ref := ValidatePaymentReference(lex, reference);
      if ref.Err? then Err(ref.error)
      else if ShowsReference(others, ref.value) then Err(ErrDuplicatePayment)
      else if !ActorOk(actorId, rec.openerId) then Err(ErrNotAdmin)
      else Ok(PaidRecord(rec, actorId, ref.value, now))
  }

  function PaidRecord(rec: Record, actorId: string, ref: string, now: Time): Record
    requires rec.withdrawal.Some?
  {
    var wd := rec.withdrawal.value;
    var out := Payment(PaymentId(rec.id), rec.id, rec.openerId, wd.request.amountMinor, wd.request.currency,
                       ref, actorId, now);
    rec.(withdrawal := Some(wd.(outgoing := Some(out))), status := Paid,
         history := rec.history + [Event(now, WithdrawPaid, actorId, "", "", out.id)])
  }

  // Service guards

  function RequireAdmin(actor: Actor, rec: Record): Option<TicketError> {
    if actor.isBot || !Roles.IsTicketAdmin(actor.id, actor.ownerId, actor.isBot, actor.isAdmin)
    then Some(ErrNotAdmin)
    else if rec.openerId == actor.id then Some(ErrOpenerRecusal)
    else None
  }

  datatype Action =
    | Claim
    | Handoff(target: string, reason: string)
    | SetResolution(note: string)
    | Transition(to: Status)
    | ApproveWithdrawal
    | ApproveSeller(approvalReason: string, openerRoles: Option<seq<Roles.RoleName>>)

  /** What a service call makes of the record it has read. */
  function Decide(lex: Lexicon, rec: Record, actor: Actor, action: Action, now: Time)
    : Result<Record, TicketError>
  {
    var denied := RequireAdmin(actor, rec);
    if denied.Some? then Err(denied.value)
    else
      match action
      case Claim => ClaimRecord(rec, actor.id, now)
      case Handoff(target, reason) =>
        if target !in actor.availableAdmins || target == rec.openerId then Err(ErrHandoffTarget)
        else HandoffRecord(lex, rec, actor.id, target, reason, now)
      case SetResolution(note) => ResolveRecord(lex, rec, actor.id, note, now)
      case Transition(to) =>
        if to == Paid && IsWithdrawal(rec.typ, rec.workflow) then Err(ErrIllegalTransition)
        else MoveRecord(lex, rec, actor.id, to, now)
      case ApproveWithdrawal => ApproveWithdrawalRecord(rec, actor.id, now)
      case ApproveSeller(reason, roles) =>
        if !Roles.DecideSellerApproval(roles) then Err(ErrNotEligible)
        else ApproveSellerRecord(lex, rec, actor.id, reason, rec.openerId, now)
  }

  function DecidePayment(lex: Lexicon, rec: Record, actor: Actor, reference: string, now: Time,
                         others: seq<Record>): Result<Record, TicketError>
  {
    var denied := RequireAdmin(actor, rec);
    if denied.Some? then Err(denied.value) else PayRecord(lex, rec, actor.id, reference, now, others)
  }

  // The history log as an event source

  datatype View = View(
    status: Status, assignedTo: Option<string>, closedAt: Option<Time>, resolved: Option<Stamp>,
    seller: Option<SellerApproval>, outgoingId: Option<string>)

  function ViewOf(rec: Record): View {
    View(rec.status, rec.assignedTo, rec.closedAt,
         if rec.resolution.None? then None else Some(Stamp(rec.resolution.value.who, rec.resolution.value.at)),
         rec.sellerApproval,
         if rec.withdrawal.None? || rec.withdrawal.value.outgoing.None? then None
         else Some(rec.withdrawal.value.outgoing.value.id))
  }

  const BLANK := View(Open, None, None, None, None, None)

  function Replay(v: View, e: Event): View {
    match e.kind
    case Created => BLANK
    case Claimed => v.(assignedTo := Some(e.who))
    case HandedOff => v.(assignedTo := Some(e.memberId))
    case ResolutionSaved => v.(resolved := Some(Stamp(e.who, e.at)))
    case StatusChanged(from, to) => v.(status := to, closedAt := if to == Closed then Some(e.at) else v.closedAt)
    case WithdrawPaid => v.(status := Paid, outgoingId := Some(e.mutationId))
    case SellerApproved => v.(seller := Some(SellerApproval(e.who, e.at, e.memberId)))
  }

  function Fold(history: seq<Event>): View {
    if history == [] then BLANK else Replay(Fold(history[..|history| - 1]), history[|history| - 1])
  }

  lemma FoldAppend(history: seq<Event>, e: Event)
    ensures Fold(history + [e]) == Replay(Fold(history), e)
  {
    assert (history + [e])[..|history|] == history;
  }

  // What holds of every record the service produces

  /** The log starts with the opener, goes on without the opener, and replays to the record. */
  ghost predicate Logged(rec: Record) {
    && |rec.history| > 0 && rec.history[0] == Plain(rec.openedAt, Created, rec.openerId)
    && (forall i :: 0 < i < |rec.history| ==> rec.history[i].who != rec.openerId && rec.history[i].who != "")
    && Fold(rec.history) == ViewOf(rec)
  }

  ghost predicate InGraph(rec: Record) {
    WorkflowForType(rec.typ) == Some(rec.workflow) && StatusFor(rec.typ, rec.workflow, rec.status).Some?
  }

  /** The payment of a record repeats its seller, amount and currency, under a canonical receipt, and is
      not made by the seller. */
  ghost predicate PaymentMatches(lex: Lexicon, rec: Record, p: Payment) {
    && rec.withdrawal.Some?
    && p.id == PaymentId(rec.id) && p.ticketId == rec.id && p.sellerId == rec.openerId
    && p.amountMinor == rec.withdrawal.value.request.amountMinor
    && p.currency == rec.withdrawal.value.request.currency
    && p.who != rec.openerId && p.who != ""
    && ValidatePaymentReference(lex, p.reference) == Ok(p.reference)
  }

  ghost predicate WithdrawalSound(lex: Lexicon, rec: Record) {
    && (rec.withdrawal.Some? <==> rec.typ == Withdraw)
    && (rec.status == Paid ==> rec.withdrawal.Some? && rec.withdrawal.value.outgoing.Some?)
    && (rec.withdrawal.Some? ==>
        var wd := rec.withdrawal.value;
        && wd.sellerId == rec.openerId
        && 1 <= wd.request.amountMinor <= Money.MAX_INT64 && wd.request.currency in Money.CURRENCIES
        && (wd.approval.Some? ==> ActorOk(wd.approval.value.who, rec.openerId) && rec.status != Open)
        && (wd.outgoing.Some? ==> rec.status in {Paid, Closed} && PaymentMatches(lex, rec, wd.outgoing.value)))
  }

  ghost predicate ClosedSound(lex: Lexicon, rec: Record) {
    && (rec.resolution.Some? ==> ValidResolution(lex, rec.resolution.value.text, rec.resolution.value.who))
    && (rec.status == Closed <==> rec.closedAt.Some?)
    && (rec.status == Closed ==> rec.resolution.Some?)
  }

  ghost predicate Good(lex: Lexicon, rec: Record) {
    Logged(rec) && InGraph(rec) && WithdrawalSound(lex, rec) && ClosedSound(lex, rec)
  }

  /** What no step may touch: identity, form, and the withdrawal's request and seller. */
  ghost predicate SameCore(a: Record, b: Record) {
    && a.id == b.id && a.typ == b.typ && a.code == b.code && a.region == b.region && a.workflow == b.workflow
    && a.openerId == b.openerId && a.openerTag == b.openerTag && a.threadId == b.threadId
    && a.openedAt == b.openedAt && a.data == b.data
    && a.withdrawal.Some? == b.withdrawal.Some?
    && (a.withdrawal.Some? ==>
        a.withdrawal.value.request == b.withdrawal.value.request
        && a.withdrawal.value.sellerId == b.withdrawal.value.sellerId)
  }

  /** How a step relates a record to the next: the log grows by one event, a payment and an approval stay,
      and a closed record keeps its status, closing time, withdrawal and seller approval. */
  ghost predicate Follows(rec: Record, next: Record) {
    && SameCore(rec, next)
    && |next.history| == |rec.history| + 1 && next.history[..|rec.history|] == rec.history
    && (rec.withdrawal.Some? && rec.withdrawal.value.outgoing.Some? ==>
        next.withdrawal.value.outgoing == rec.withdrawal.value.outgoing)
    && (rec.withdrawal.Some? && rec.withdrawal.value.approval.Some? ==>
        next.withdrawal.value.approval == rec.withdrawal.value.approval)
    && (rec.status == Closed ==>
        next.status == Closed && next.closedAt == rec.closedAt && next.withdrawal == rec.withdrawal
        && next.sellerApproval == rec.sellerApproval)
  }

  lemma LogGrows(rec: Record, next: Record, e: Event)
    requires Logged(rec) && next.history == rec.history + [e]
    requires next.openedAt == rec.openedAt && next.openerId == rec.openerId
    requires e.who != rec.openerId && e.who != "" && Replay(ViewOf(rec), e) == ViewOf(next)
    ensures Logged(next)
    ensures |next.history| == |rec.history| + 1 && next.history[..|rec.history|] == rec.history
  {
    FoldAppend(rec.history, e);
  }

  lemma NewRecordGood(lex: Lexicon, id: string, typ: TicketType, code: string, region: string,
                      workflow: WorkflowId, openerId: string, openerTag: string, threadId: string,
                      data: map<string, string>, request: Option<Request>, now: Time)
    requires WorkflowForType(typ) == Some(workflow)
    requires request.Some? <==> typ == Withdraw
    requires request.Some? ==>
               1 <= request.value.amountMinor <= Money.MAX_INT64 && request.value.currency in Money.CURRENCIES
    ensures Good(lex, NewRecord(id, typ, code, region, workflow, openerId, openerTag, threadId, data, request, now))
  {
    var rec := NewRecord(id, typ, code, region, workflow, openerId, openerTag, threadId, data, request, now);
    FoldAppend([], rec.history[0]);
    assert [] + rec.history == rec.history;
  }

  lemma AdminIsSomeoneElse(actor: Actor, rec: Record)
    requires RequireAdmin(actor, rec).None?
    ensures actor.id != "" && actor.id != rec.openerId
  {
  }

  lemma MoveKeeps(lex: Lexicon, rec: Record, actorId: string, to: Status, now: Time)
    requires Good(lex, rec) && ActorOk(actorId, rec.openerId)
    requires MoveRecord(lex, rec, actorId, to, now).Ok?
    ensures var next := MoveRecord(lex, rec, actorId, to, now).value; Good(lex, next) && Follows(rec, next)
  {
    var next := MoveRecord(lex, rec, actorId, to, now).value;
    TransitionStaysInGraph(rec.typ, rec.workflow, rec.status, to);
    LogGrows(rec, next, Plain(now, StatusChanged(rec.status, to), actorId));
    if rec.status == Paid {
      PaidMovesToClosed(rec.typ, rec.workflow, rec.status, to);
    }
  }

  lemma PaidMovesToClosed(t: TicketType, w: WorkflowId, from: Status, to: Status)
    requires CanTransition(t, w, from, to) && from == Paid
    ensures to == Closed
  {
  }

  lemma ApproveKeeps(lex: Lexicon, rec: Record, actorId: string, now: Time)
    requires Good(lex, rec) && ActorOk(actorId, rec.openerId)
    requires ApproveWithdrawalRecord(rec, actorId, now).Ok?
    ensures var next := ApproveWithdrawalRecord(rec, actorId, now).value; Good(lex, next) && Follows(rec, next)
  {
    var next := ApproveWithdrawalRecord(rec, actorId, now).value;
    LogGrows(rec, next, Plain(now, StatusChanged(Open, Approved), actorId));
  }

  lemma AssignKeeps(lex: Lexicon, rec: Record, next: Record, e: Event)
    requires Good(lex, rec) && e.who != rec.openerId && e.who != ""
    requires next == rec.(assignedTo := next.assignedTo, history := rec.history + [e])
    requires Replay(ViewOf(rec), e) == ViewOf(next)
    ensures Good(lex, next) && Follows(rec, next)
  {
    LogGrows(rec, next, e);
  }

  lemma ResolveKeeps(lex: Lexicon, rec: Record, actorId: string, note: string, now: Time)
    requires Good(lex, rec) && ActorOk(actorId, rec.openerId)
    requires ResolveRecord(lex, rec, actorId, note, now).Ok?
    ensures var next := ResolveRecord(lex, rec, actorId, note, now).value; Good(lex, next) && Follows(rec, next)
  {
    var next := ResolveRecord(lex, rec, actorId, note, now).value;
    AcceptedTextStable(lex, note);
    LogGrows(rec, next, Plain(now, ResolutionSaved, actorId));
  }

  lemma ApproveSellerKeeps(lex: Lexicon, rec: Record, actorId: string, reason: string, now: Time)
    requires Good(lex, rec) && ActorOk(actorId, rec.openerId)
    requires ApproveSellerRecord(lex, rec, actorId, reason, rec.openerId, now).Ok?
    ensures var next := ApproveSellerRecord(lex, rec, actorId, reason, rec.openerId, now).value;
            Good(lex, next) && Follows(rec, next)
  {
    var next := ApproveSellerRecord(lex, rec, actorId, reason, rec.openerId, now).value;
    var text := ValidateTicketText(lex, reason).value;
    LogGrows(rec, next, Event(now, SellerApproved, actorId, text, rec.openerId, ""));
  }

  lemma DecideActor(lex: Lexicon, rec: Record, actor: Actor, action: Action, now: Time)
    requires Decide(lex, rec, actor, action, now).Ok?
    ensures ActorOk(actor.id, rec.openerId)
  {
    AdminIsSomeoneElse(actor, rec);
  }

  /** Every successful call keeps a good record good, extends its log by one event, and never touches
      what was fixed at creation, paid, approved or closed. */
  lemma DecideKeeps(lex: Lexicon, rec: Record, actor: Actor, action: Action, now: Time)
    requires Good(lex, rec) && Decide(lex, rec, actor, action, now).Ok?
    ensures var next := Decide(lex, rec, actor, action, now).value; Good(lex, next) && Follows(rec, next)
  {
    var next := Decide(lex, rec, actor, action, now).value;
    DecideActor(lex, rec, actor, action, now);
    match action
    case Claim => AssignKeeps(lex, rec, next, Plain(now, Claimed, actor.id));
    case Handoff(target, reason) =>
      var text := ValidateTicketText(lex, reason).value;
      AssignKeeps(lex, rec, next, Event(now, HandedOff, actor.id, text, target, ""));
    case SetResolution(note) => ResolveKeeps(lex, rec, actor.id, note, now);
    case Transition(to) => MoveKeeps(lex, rec, actor.id, to, now);
    case ApproveWithdrawal => ApproveKeeps(lex, rec, actor.id, now);
    case ApproveSeller(reason, _) => ApproveSellerKeeps(lex, rec, actor.id, reason, now);
  }

  /** No call other than a payment makes a payment appear. */
  lemma DecideNeverPays(lex: Lexicon, rec: Record, actor: Actor, action: Action, now: Time)
    requires Good(lex, rec) && Decide(lex, rec, actor, action, now).Ok? && rec.withdrawal.Some?
    ensures var next := Decide(lex, rec, actor, action, now).value;
            next.withdrawal.Some? && next.withdrawal.value.outgoing == rec.withdrawal.value.outgoing
  {
  }

  lemma PaidRecordKeeps(lex: Lexicon, rec: Record, actorId: string, ref: string, now: Time)
    requires Good(lex, rec) && ActorOk(actorId, rec.openerId) && rec.withdrawal.Some?
    requires rec.status == Approved && ValidatePaymentReference(lex, ref) == Ok(ref)
    ensures Good(lex, PaidRecord(rec, actorId, ref, now)) && Follows(rec, PaidRecord(rec, actorId, ref, now))
  {
    LogGrows(rec, PaidRecord(rec, actorId, ref, now), Event(now, WithdrawPaid, actorId, "", "", PaymentId(rec.id)));
  }

  /** A payment starts from an approved, unpaid record; it keeps the record good and books a receipt no
      loaded ticket shows. */
  lemma PayKeeps(lex: Lexicon, rec: Record, actor: Actor, reference: string, now: Time, others: seq<Record>)
    requires Good(lex, rec) && DecidePayment(lex, rec, actor, reference, now, others).Ok?
    ensures var next := DecidePayment(lex, rec, actor, reference, now, others).value;
            && Good(lex, next) && Follows(rec, next) && rec.status == Approved && next.status == Paid
            && rec.withdrawal.value.outgoing.None? && next.withdrawal.value.outgoing.Some?
            && !ShowsReference(others, next.withdrawal.value.outgoing.value.reference)
  {
    var ref := ValidatePaymentReference(lex, reference).value;
    ReferenceCanonical(lex, reference);
    PaidRecordKeeps(lex, rec, actor.id, ref, now);
  }
}
