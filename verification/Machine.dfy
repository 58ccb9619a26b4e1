/** Every committed transaction on an order, as one atomic step; calls to the gateway fall between steps. */
module Machine {
  import opened Wrappers
  import opened OrderStatus
  import opened Stock
  import opened Entities
  import opened OrdersService
  import opened PaymentsService
  import opened OrderCancellation
  import opened Cart
  import opened Checkout
  import opened Returns
  import opened Reception
  import opened RefundsService

  datatype Event =
    | ReportPayment(report: Report)
    | Expire
    | CancelAsCustomer(userId: nat, expected: Status)
    | CancelAsAdmin(expected: Status)
    | MoveAsAdmin(expected: Status, to: Status)
    | RetryPay(payer: nat, offers: seq<Offer>)
    | Compensate
    | CreateReturn(owner: nat, kind: RequestKind, lines: seq<RequestedLine>)
    | ApproveReturn(request: nat, decisions: seq<Decision>, withReason: bool)
    | RejectReturn(request: nat)
    | ReceiveReturn(request: nat, inputs: seq<Input>, options: map<nat, set<VariantId>>)
    | MoveRefund(refund: nat, attempt: nat, result: RefundStatus)
    | AnswerRefund(refund: nat, attempt: nat, external: GatewayRefundId)
    | RetryRefund(refund: nat)
    | ResolveRefund(refund: nat)

  function RowsOr(attempt: Outcome<Rows>, r: Rows): Rows {
    match attempt case Done(rows) => rows case Refused(_) => r
  }

  function FileOr(attempt: Outcome<File>, r: Rows): Rows {
    match attempt case Done(f) => r.(file := f) case Refused(_) => r
  }

  ghost function OpenedOr(attempt: Attempt, r: Rows): Rows {
    match attempt case Opened(rows) => rows case _ => r
  }

  /** The rows after one event at time `now`; a refused request changes nothing. */
  ghost function Step(r: Rows, e: Event, now: Time): Rows {
    match e
    case ReportPayment(report) => PaymentProcessed(r, report, now).0
    case Expire => Expired(r, now)
    case CancelAsCustomer(userId, expected) => RowsOr(CustomerCancelled(r, userId, expected, now), r)
    case CancelAsAdmin(expected) => RowsOr(AdminCancelled(r, expected, now), r)
    case MoveAsAdmin(expected, to) => RowsOr(AdminMoved(r, expected, to, now), r)
    case RetryPay(payer, offers) =>
      if |offers| == |r.file.order.items| then OpenedOr(RetryOpened(r, payer, offers, now), r) else r
    case Compensate => Compensated(r, now)
    case CreateReturn(owner, kind, lines) => FileOr(RequestCreated(r.file, owner, kind, lines, now), r)
    case ApproveReturn(k, decisions, withReason) => FileOr(RequestApproved(r.file, k, decisions, withReason), r)
    case RejectReturn(k) => FileOr(RequestRejected(r.file, k), r)
    case ReceiveReturn(k, inputs, options) => RowsOr(RequestReceived(r, k, inputs, options, now), r)
    case MoveRefund(k, attempt, to) => if to == EnTramite then r else r.(file := RefundMoved(r.file, k, attempt, to))
    case AnswerRefund(k, attempt, external) => r.(file := RefundAnswered(r.file, k, attempt, external))
    case RetryRefund(k) => FileOr(RefundRetried(r.file, k), r)
    case ResolveRefund(k) => FileOr(RefundResolved(r.file, k), r)
  }

  /** Steps that only move stock between the shelf and the order. */
  predicate MovesOrderStock(e: Event) {
    !e.ReceiveReturn?
  }

  datatype SystemEvent =
    | PlaceOrder(userId: nat, cart: seq<CartItem>, shippingCost: Cents, expectedTotal: Cents, expiresAt: Time)
    | OnOrder(order: nat, event: Event, now: Time)
    | AdjustTotal(variant: VariantId, originalTotal: int, total: nat)
    | AddVariant(variant: VariantId, total: nat)

  /** What the cart tables guarantee: UNIQUE (cart, variant), and quantities of one or more. */
  ghost predicate ValidCart(cart: seq<CartItem>) {
    DistinctVariants(cart) && forall i <- cart :: i.quantity > 0
  }

  ghost function SystemStep(sys: System, e: SystemEvent): System {
    match e
    case PlaceOrder(userId, cart, shippingCost, expectedTotal, expiresAt) =>
      if !ValidCart(cart) then sys
      else (match Confirmed(sys.stock, userId, cart, shippingCost, expectedTotal, expiresAt)
            case Opened(rows) => System(sys.files + [rows.file], rows.stock)
            case _ => sys)
    case OnOrder(k, event, now) =>
      if k < |sys.files| then sys.Commit(k, Step(sys.Rows(k), event, now)) else sys
    case AdjustTotal(v, originalTotal, total) =>
      if v in sys.stock && sys.stock[v].total == originalTotal && sys.stock[v].reserved <= total
      then sys.(stock := sys.stock[v := Level(total, sys.stock[v].reserved)]) else sys
    case AddVariant(v, total) =>
      if v in sys.stock then sys else sys.(stock := sys.stock[v := Level(total, 0)])
  }

  /** The database after a run of events, from the first to the last. */
  ghost function Run(sys: System, events: seq<SystemEvent>): System
    decreases |events|
  {
    if events == [] then sys
    else SystemStep(Run(sys, events[..|events| - 1]), events[|events| - 1])
  }
}
