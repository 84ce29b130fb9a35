/** Ticket types, workflows and their status graphs (modules/ticket/catalog.go, workflow.go). Every
    enumeration has a last constructor for the keys the catalog does not know. */
module Catalog {
  import opened Wrappers

  datatype TicketType =
    | Purchase | Sale | Introduction | SellerVerification | BuyerSupport | Delivery | Refund | Dispute
    | Scam | Impersonation | Regional | Translation | Partnership | General | Withdraw | Campaign
    | Affiliate | UnknownType(key: string)

  /** NoWorkflow is the empty workflow id of rows older than workflows. */
  datatype WorkflowId =
    | NoWorkflow | Legacy | WithdrawalV1 | TransactionV1 | ReviewV1 | SupportV1
    | UnknownWorkflow(key: string)

  datatype Status =
    | Open | Approved | Paid | Rejected | Cancelled | Closed | Resolved
    | PendingVerification | BuyerConfirmation | SellerConfirmation | PaymentPending | PaymentConfirmed
    | DeliveryPending | DeliverySubmitted | BuyerReview | DisputeOpened | Escalated
    | UnderAdminReview | WaitingForMember | InProgress | UnknownStatus(key: string)

  /** modules/ticket/errors.go; StoreRejected is a write the database refuses. */
  datatype TicketError =
    | ErrUnknownType | ErrUnknownWorkflow | ErrInvalidForm | ErrRequiredField | ErrInvalidRegion
    | ErrSensitive | ErrTextEmpty | ErrTextLength | ErrDuplicateType | ErrOpenLimit | ErrNotEligible
    | ErrNoAdmin | ErrNotFound | ErrNotAdmin | ErrOpenerRecusal | ErrIllegalTransition
    | ErrAlreadyClaimed | ErrResolutionMissing | ErrWithdrawalInvalid | ErrNotApproved
    | ErrDuplicatePayment | ErrAlreadyPaid | ErrSellerTicket | ErrAlreadyApproved | ErrHandoffTarget
    | StoreRejected

  const MAX_OPEN_TICKETS := 3
  const TEXT_LIMIT := 900
  const REFERENCE_LIMIT := 120
  const METHOD_LIMIT := 60

  function Code(t: TicketType): string {
    match t
    case Purchase => "BUY" case Sale => "SELL" case Introduction => "INTRO"
    case SellerVerification => "VERIFY" case BuyerSupport => "SUPPORT" case Delivery => "DELIVERY"
    case Refund => "REFUND" case Dispute => "DISPUTE" case Scam => "SCAM"
    case Impersonation => "IMPERSONATE" case Regional => "REGION" case Translation => "TRANSLATE"
    case Partnership => "PARTNER" case General => "GEN" case Withdraw => "WD"
    case Campaign => "CAMPAIGN" case Affiliate => "AFFILIATE" case UnknownType(_) => ""
  }

  function Requires(t: TicketType): seq<string> {
    match t
    case Purchase => ["product", "quantity", "price", "currency", "paymentMethod", "region"]
    case Sale => ["product", "quantity", "price", "currency", "deliveryMethod", "region"]
    case Introduction => ["counterparty", "product", "region"]
    case SellerVerification =>
      ["region", "languages", "currencies", "productCategories", "deliveryMethod", "refundTerms",
       "legalityDeclaration"]
    case BuyerSupport => ["summary"]
    case Delivery => ["transactionId", "deliveryStatus"]
    case Refund => ["transactionId", "reason", "currency", "amount"]
    case Dispute => ["transactionId", "chronology", "evidence", "region", "currency"]
    case Scam => ["reportedUser", "chronology", "evidence"]
    case Impersonation => ["reportedUser", "impersonatedParty", "evidence"]
    case Regional => ["region", "summary"]
    case Translation => ["language", "summary"]
    case Partnership => ["organisation", "proposal"]
    case General => ["summary"]
    case Withdraw => ["region", "transactionId", "amount", "currency", "method"]
    case Campaign => ["region", "chronology"]
    case Affiliate => ["region", "chronology"]
    case UnknownType(_) => []
  }

  function WorkflowForType(t: TicketType): Option<WorkflowId> {
    match t
    case UnknownType(_) => None
    case Withdraw => Some(WithdrawalV1)
    case Purchase | Sale | Introduction | Delivery => Some(TransactionV1)
    case SellerVerification | Refund | Dispute | Scam | Impersonation | Campaign | Affiliate => Some(ReviewV1)
    case BuyerSupport | Regional | Translation | Partnership | General => Some(SupportV1)
  }

  /** The statuses one may move to, or None for a status outside the workflow's graph. */
  function Edges(w: WorkflowId, s: Status): Option<seq<Status>> {
    match w
    case Legacy | TransactionV1 =>
      (match s
       case Open => Some([PendingVerification, BuyerConfirmation, SellerConfirmation, Cancelled])
       case PendingVerification => Some([BuyerConfirmation, SellerConfirmation, Cancelled])
       case BuyerConfirmation => Some([SellerConfirmation, PaymentPending, Cancelled])
       case SellerConfirmation => Some([BuyerConfirmation, PaymentPending, Cancelled])
       case PaymentPending => Some([PaymentConfirmed, Cancelled, DisputeOpened])
       case PaymentConfirmed => Some([DeliveryPending, DisputeOpened])
       case DeliveryPending => Some([DeliverySubmitted, DisputeOpened, Cancelled])
       case DeliverySubmitted => Some([BuyerReview, DisputeOpened])
       case BuyerReview => Some([Resolved, DisputeOpened])
       case DisputeOpened => Some([Escalated, Resolved, Cancelled])
       case Escalated => Some([Resolved, Cancelled])
       case Resolved => Some([Closed])
       case Cancelled => Some([Closed])
       case Closed => Some([])
       case _ => None)
    case WithdrawalV1 =>
      (match s
       case Open => Some([Approved, Rejected, Cancelled])
       case Approved => Some([Rejected, Cancelled])
       case Paid => Some([Closed])
       case Rejected => Some([Closed])
       case Cancelled => Some([Closed])
       case Closed => Some([])
       case _ => None)
    case ReviewV1 =>
      (match s
       case Open => Some([UnderAdminReview, Cancelled])
       case UnderAdminReview => Some([WaitingForMember, Escalated, Resolved, Cancelled])
       case WaitingForMember => Some([UnderAdminReview, Escalated, Resolved, Cancelled])
       case Escalated => Some([UnderAdminReview, WaitingForMember, Resolved, Cancelled])
       case Resolved => Some([Closed])
       case Cancelled => Some([Closed])
       case Closed => Some([])
       case _ => None)
    case SupportV1 =>
      (match s
       case Open => Some([InProgress, Cancelled])
       case InProgress => Some([WaitingForMember, Resolved, Cancelled])
       case WaitingForMember => Some([InProgress, Resolved, Cancelled])
       case Resolved => Some([Closed])
       case Cancelled => Some([Closed])
       case Closed => Some([])
       case _ => None)
    case NoWorkflow | UnknownWorkflow(_) => None
  }

  /** WorkflowForTicket: rows without a workflow follow the legacy graph, all others must carry the
      workflow of their type. */
  function GraphFor(t: TicketType, w: WorkflowId): Option<WorkflowId> {
    if w == NoWorkflow then Some(Legacy)
    else if WorkflowForType(t) == Some(w) then Some(w)
    else None
  }

  function StatusFor(t: TicketType, w: WorkflowId, s: Status): Option<seq<Status>> {
    var g := GraphFor(t, w);
    if g.None? then None else Edges(g.value, s)
  }

  predicate CanTransition(t: TicketType, w: WorkflowId, from: Status, to: Status) {
    var edges := StatusFor(t, w, from);
    edges.Some? && to in edges.value
  }

  predicate IsWithdrawal(t: TicketType, w: WorkflowId) {
    t == Withdraw && w == WithdrawalV1
  }

  /** A generic move leads to a status of the same graph, never out of a closed ticket, never to paid on
      a withdrawal, and never back to open. */
  lemma TransitionStaysInGraph(t: TicketType, w: WorkflowId, from: Status, to: Status)
    requires CanTransition(t, w, from, to)
    ensures StatusFor(t, w, to).Some? && from != Closed && to != Open && to != Paid && to != from
  {
  }

  /** A move that brings a status nearer to closed. */
  function Toward(s: Status): Status {
    match s
    case Resolved | Cancelled | Rejected | Paid => Closed
    case PaymentConfirmed | DeliverySubmitted => DisputeOpened
    case BuyerReview => Resolved
    case _ => Cancelled
  }

  function Distance(s: Status): nat {
    match s
    case Closed => 0
    case Resolved | Cancelled | Rejected | Paid => 1
    case PaymentConfirmed | DeliverySubmitted => 3
    case _ => 2
  }

  lemma TowardIsAnEdge(g: WorkflowId, s: Status)
    requires Edges(g, s).Some? && s != Closed
    ensures Toward(s) in Edges(g, s).value && Edges(g, Toward(s)).Some? && Distance(Toward(s)) < Distance(s)
  {
  }

  /** From every status of a graph at most three generic moves end in closed: no ticket is stuck. */
  lemma {:induction false} ClosableInThree(t: TicketType, w: WorkflowId, s: Status) returns (path: seq<Status>)
    requires StatusFor(t, w, s).Some?
    ensures 0 < |path| <= 4 && |path| <= Distance(s) + 1 && path[0] == s && path[|path| - 1] == Closed
    ensures forall i :: 0 <= i < |path| - 1 ==> CanTransition(t, w, path[i], path[i + 1])
    decreases Distance(s)
  {
    if s == Closed {
      path := [s];
    } else {
      TowardIsAnEdge(GraphFor(t, w).value, s);
      var rest := ClosableInThree(t, w, Toward(s));
      path := [s] + rest;
    }
  }
}
