/** The rows of one order and what hangs from it: history, payments, refunds, return requests, stock movements, notes. */
module Entities {
  import opened Wrappers
  import opened OrderStatus
  import opened Stock

  type Cents = nat
  type Time = nat
  /** Id of a payment at the gateway; UNIQUE among payment rows. */
  type PaymentRef = nat
  type GatewayRefundId = nat

  datatype Item = Item(variant: VariantId, quantity: nat, unitPrice: Cents, stockCommitted: bool)

  datatype Order = Order(
    userId: nat,
    status: Status,
    cause: Option<Cause>,
    items: seq<Item>,
    subtotal: Cents,
    shippingCost: Cents,
    total: Cents,
    reservationActive: bool,
    reservationExpiresAt: Time,
    paidAt: Option<Time>,
    deliveredAt: Option<Time>)

  /** What the text of a history entry says. */
  datatype Reason =
    | CheckoutConfirmed
    | PaymentReported(payment: PaymentRef)
    | PaymentRetry
    | CancelledBy(cause: Cause)
    | AdminAction
    | FullReturn(request: nat)

  datatype Entry = Entry(from: Option<Status>, to: Status, reason: Reason)

  datatype PaymentStatus = PagoPendiente | PendienteAcreditacion | Aprobado | Rechazado | PagoCancelado

  /** `storeCurrency`: the gateway reported no currency or the store's own. */
  datatype Payment = Payment(externalId: PaymentRef, status: PaymentStatus, amount: Cents, storeCurrency: bool, processedAt: Time)

  predicate FinalPayment(s: PaymentStatus) {
    s in {Aprobado, Rechazado, PagoCancelado}
  }

  datatype RefundStatus = EnTramite | Reembolsado | ReembolsoRechazado | PendienteDeGestion

  datatype RefundOrigin = CU05 | CU14 | CU19 | CU22

  /** `payment` is the index of the payment row; `manual`: closed by hand, with a resolution note. */
  datatype Refund = Refund(
    payment: nat,
    amount: Cents,
    status: RefundStatus,
    external: Option<GatewayRefundId>,
    origin: RefundOrigin,
    attempt: nat,
    manual: bool)

  /** The refund has committed (or given back) part of its payment's balance. */
  predicate Commits(s: RefundStatus) {
    s in {EnTramite, Reembolsado, PendienteDeGestion}
  }

  predicate NeedsAttention(s: RefundStatus) {
    s in {ReembolsoRechazado, PendienteDeGestion}
  }

  datatype RequestStatus = Solicitada | Aprobada | RechazadaPorTienda | Resuelta
  datatype RequestKind = CambioProducto | DevolucionProducto
  datatype Condition = Ok | Danado

  /** `item` is the index of the order item. */
  datatype RequestItem = RequestItem(
    item: nat,
    requested: nat,
    approved: Option<nat>,
    received: Option<nat>,
    condition: Option<Condition>,
    refundApproved: Option<bool>)

  datatype Request = Request(kind: RequestKind, status: RequestStatus, items: seq<RequestItem>, refund: Option<nat>)

  /** Internal notes the services append for the administrator. */
  datatype Note =
    | StockShortage(shortages: seq<Line>)
    | ReservationNotRetaken(payment: PaymentRef)
    | AmountMismatch(payment: PaymentRef)
    | FinalStatusConflict(payment: PaymentRef)
    | PaymentDiscrepancy(payment: PaymentRef)
    | RefundNotRegistered
    | ReplacementPending(request: nat)

  datatype File = OrderFile(
    order: Order,
    history: seq<Entry>,
    payments: seq<Payment>,
    refunds: seq<Refund>,
    requests: seq<Request>,
    movements: seq<Movement>,
    notes: seq<Note>)

  /** Everything a transaction on one order reads and writes. */
  datatype Rows = OrderRows(file: File, stock: Levels)

  function Lines(items: seq<Item>): seq<Line> {
    if items == [] then [] else [Line(items[0].variant, items[0].quantity)] + Lines(items[1..])
  }

  /** Lines of the items whose stock was deducted for good. */
  function CommittedLines(items: seq<Item>): seq<Line> {
    if items == [] then []
    else if items[0].stockCommitted then [Line(items[0].variant, items[0].quantity)] + CommittedLines(items[1..])
    else CommittedLines(items[1..])
  }

  /** Units of `v` that the order holds reserved. */
  function Held(order: Order, v: VariantId): nat {
    if order.reservationActive then Units(Lines(order.items), v) else 0
  }

  /** Units of `v` in items marked as deducted. */
  function Committed(order: Order, v: VariantId): nat {
    Units(CommittedLines(order.items), v)
  }

  function Subtotal(items: seq<Item>): Cents {
    if items == [] then 0 else items[0].unitPrice * items[0].quantity + Subtotal(items[1..])
  }

  /** The cart's UNIQUE (cart, variant) makes the variants of an order distinct; quantities are at least one. */
  predicate OrderShape(order: Order) {
    && order.items != []
    && (forall i <- order.items :: i.quantity > 0)
    && (forall i, j :: 0 <= i < j < |order.items| ==> order.items[i].variant != order.items[j].variant)
    && order.subtotal == Subtotal(order.items)
    && order.total == order.subtotal + order.shippingCost
  }

  /** The tables a transaction works on: the rows of the locked order and the stock of the variants. */
  class Tables {
    var order: Order
    var history: seq<Entry>
    var payments: seq<Payment>
    var refunds: seq<Refund>
    var requests: seq<Request>
    var movements: seq<Movement>
    var notes: seq<Note>
    var stock: Levels

    /** The transaction starts on the committed rows, with the order locked. */
    constructor (rows: Rows)
      ensures View() == rows
    {
      order, history := rows.file.order, rows.file.history;
      payments, refunds := rows.file.payments, rows.file.refunds;
      requests, movements, notes := rows.file.requests, rows.file.movements, rows.file.notes;
      stock := rows.stock;
    }

    function Contents(): File
      reads this
    {
      OrderFile(order, history, payments, refunds, requests, movements, notes)
    }

    function View(): Rows
      reads this
    {
      OrderRows(Contents(), stock)
    }
  }

  /** The whole database: the rows of every order, in creation order, and the stock. */
  datatype System = System(files: seq<File>, stock: Levels) {
    function Rows(k: nat): Rows
      requires k < |files|
    {
      OrderRows(files[k], stock)
    }

    /** The transaction on order `k` commits. */
    function Commit(k: nat, rows: Rows): System
      requires k < |files|
    {
      System(files[k := rows.file], rows.stock)
    }
  }

  class Store {
    var files: seq<File>
    var stock: Levels

    function View(): System
      reads this
    {
      System(files, stock)
    }

    method Begin(k: nat) returns (tx: Tables)
      requires k < |files|
      ensures fresh(tx) && tx.View() == View().Rows(k)
    {
      tx := new Tables(OrderRows(files[k], stock));
    }

    method Commit(k: nat, tx: Tables)
      requires k < |files|
      modifies this
      ensures View() == old(View()).Commit(k, tx.View())
    {
      files, stock := files[k := tx.Contents()], tx.stock;
    }
  }
}
