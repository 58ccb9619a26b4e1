/** What holds of the whole database after any run of events, in any interleaving. */
module Runs {
  import opened Wrappers
  import opened OrderStatus
  import opened Stock
  import opened Entities
  import opened OrdersService
  import opened OrderCancellation
  import opened Cart
  import opened Checkout
  import opened Returns
  import opened Reception
  import opened Machine
  import opened History
  import opened StockInvariant
  import opened ReturnsInvariant
  import opened MoneyInvariant

  /** Units of `v` reserved by the first `n` orders. */
  function HeldBy(files: seq<File>, n: nat, v: VariantId): nat
    requires n <= |files|
  {
    if n == 0 then 0 else HeldBy(files, n - 1, v) + Held(files[n - 1].order, v)
  }

  /** Units of `v` deducted for good for the first `n` orders. */
  function CommittedBy(files: seq<File>, n: nat, v: VariantId): nat
    requires n <= |files|
  {
    if n == 0 then 0 else CommittedBy(files, n - 1, v) + Entities.Committed(files[n - 1].order, v)
  }

  ghost predicate OrderFileOk(sys: System, k: nat)
    requires k < |sys.files|
  {
    && FileOk(sys.files[k]) && OrderOk(GoodsOf(sys.Rows(k)))
    && forall l <- Lines(sys.files[k].order.items) :: l.variant in sys.stock
  }

  /** Reserved stock is what the orders hold, and no more than there is. */
  ghost predicate ReservedIsHeld(sys: System) {
    forall v <- sys.stock :: sys.stock[v].reserved == HeldBy(sys.files, |sys.files|, v) && sys.stock[v].reserved <= sys.stock[v].total
  }

  ghost predicate SystemOk(sys: System) {
    ReservedIsHeld(sys) && forall k :: 0 <= k < |sys.files| ==> OrderFileOk(sys, k)
  }

  const Empty := System([], map[])

  // ----- Sums over orders -----

  lemma {:induction false} HeldUpdate(files: seq<File>, n: nat, k: nat, f: File, v: VariantId)
    requires k < |files| && n <= |files|
    ensures HeldBy(files[k := f], n, v) + (if k < n then Held(files[k].order, v) else 0)
            == HeldBy(files, n, v) + if k < n then Held(f.order, v) else 0
    ensures CommittedBy(files[k := f], n, v) + (if k < n then Entities.Committed(files[k].order, v) else 0)
            == CommittedBy(files, n, v) + if k < n then Entities.Committed(f.order, v) else 0
  {
    if n > 0 {
      HeldUpdate(files, n - 1, k, f, v);
    }
  }

  lemma {:induction false} HeldPrefix(files: seq<File>, more: seq<File>, n: nat, v: VariantId)
    requires n <= |files|
    ensures HeldBy(files + more, n, v) == HeldBy(files, n, v)
    ensures CommittedBy(files + more, n, v) == CommittedBy(files, n, v)
  {
    if n > 0 {
      HeldPrefix(files, more, n - 1, v);
    }
  }

  lemma {:induction false} HeldIsPart(files: seq<File>, n: nat, k: nat, v: VariantId)
    requires k < n <= |files|
    ensures Held(files[k].order, v) <= HeldBy(files, n, v)
  {
    if k < n - 1 {
      HeldIsPart(files, n - 1, k, v);
    }
  }

  // ----- Steps -----

  lemma StockCoversOrder(sys: System, k: nat)
    requires SystemOk(sys) && k < |sys.files|
    ensures StockCovers(GoodsOf(sys.Rows(k)))
  {
    assert OrderFileOk(sys, k);
    forall v | v in sys.stock ensures Held(sys.files[k].order, v) <= sys.stock[v].reserved <= sys.stock[v].total {
      HeldIsPart(sys.files, |sys.files|, k, v);
    }
  }

  /** One event on one order keeps that order right. */
  lemma EventKeepsOrder(r: Rows, e: Event, now: Time)
    requires FileOk(r.file) && OrderOk(GoodsOf(r)) && StockCovers(GoodsOf(r))
    ensures FileOk(Step(r, e, now).file) && OrderOk(GoodsOf(Step(r, e, now)))
  {
    StepKeepsLife(r, e, now);
    StepTogether(r, e, now);
    StepKeepsReturns(r, e, now);
    StepStillOut(r, e, now);
    StepKeepsMoney(r, e, now);
  }

  /** An order stays right when only other orders and the levels of stock change. */
  lemma OtherOrderKept(sys: System, sys': System, k: nat)
    requires k < |sys.files| && k < |sys'.files| && sys'.files[k] == sys.files[k] && sys.stock.Keys <= sys'.stock.Keys
    requires OrderFileOk(sys, k)
    ensures OrderFileOk(sys', k)
  {}

  lemma CommittedStock(sys: System, k: nat, r': Rows)
    requires ReservedIsHeld(sys) && k < |sys.files| && ReservesTogether(GoodsOf(sys.Rows(k)), GoodsOf(r'))
    ensures ReservedIsHeld(sys.Commit(k, r'))
  {
    var sys' := sys.Commit(k, r');
    forall v | v in sys'.stock
      ensures sys'.stock[v].reserved == HeldBy(sys'.files, |sys'.files|, v) && sys'.stock[v].reserved <= sys'.stock[v].total
    {
      HeldUpdate(sys.files, |sys.files|, k, r'.file, v);
    }
  }

  lemma CommitKeepsSystem(sys: System, k: nat, r': Rows)
    requires SystemOk(sys) && k < |sys.files|
    requires ReservesTogether(GoodsOf(sys.Rows(k)), GoodsOf(r')) && FileOk(r'.file) && OrderOk(GoodsOf(r'))
    ensures SystemOk(sys.Commit(k, r'))
  {
    var sys' := sys.Commit(k, r');
    CommittedStock(sys, k, r');
    assert sys'.stock.Keys == sys.stock.Keys;
    assert sys'.Rows(k) == r';
    assert OrderFileOk(sys, k);
    forall j | 0 <= j < |sys'.files| ensures OrderFileOk(sys', j) {
      if j != k {
        OtherOrderKept(sys, sys', j);
      }
    }
  }

  lemma OrderStepKeepsSystem(sys: System, k: nat, e: Event, now: Time)
    requires SystemOk(sys) && k < |sys.files|
    ensures SystemOk(sys.Commit(k, Step(sys.Rows(k), e, now)))
  {
    var r := sys.Rows(k);
    assert OrderFileOk(sys, k);
    StockCoversOrder(sys, k);
    StepTogether(r, e, now);
    EventKeepsOrder(r, e, now);
    CommitKeepsSystem(sys, k, Step(r, e, now));
  }

  lemma {:induction false} NoneDeducted(cart: seq<CartItem>)
    ensures CommittedLines(OrderItems(cart)) == []
    ensures |OrderItems(cart)| == |cart|
    ensures forall i :: 0 <= i < |cart| ==> OrderItems(cart)[i] == Item(cart[i].variant, cart[i].quantity, cart[i].offer.price, false)
  {
    if cart != [] {
      NoneDeducted(cart[1..]);
    }
  }

  lemma NewOrderShape(userId: nat, cart: seq<CartItem>, shippingCost: Cents, expiresAt: Time)
    requires ValidCart(cart) && cart != []
    ensures OrderShape(NewOrder(userId, OrderItems(cart), shippingCost, expiresAt))
  {
    var order := NewOrder(userId, OrderItems(cart), shippingCost, expiresAt);
    NoneDeducted(cart);
    forall i | i in order.items ensures i.quantity > 0 {
      var k :| 0 <= k < |cart| && order.items[k] == i;
      assert cart[k] in cart;
    }
  }

  /** A file with an order just placed has nothing to account for. */
  lemma NewFileOk(order: Order)
    requires OrderShape(order) && order.status == PendientePago && order.cause == None && order.paidAt == None
    ensures FileOk(NewFile(order))
  {
    assert NewFile(order).history[..0] == [];
  }

  /** A new order starts right. */
  lemma NewOrderOk(userId: nat, cart: seq<CartItem>, shippingCost: Cents, expiresAt: Time, stock: Levels)
    requires ValidCart(cart) && cart != []
    ensures var f := NewFile(NewOrder(userId, OrderItems(cart), shippingCost, expiresAt));
            FileOk(f) && OrderOk(GoodsOf(OrderRows(f, stock)))
  {
    NewOrderShape(userId, cart, shippingCost, expiresAt);
    NewFileOk(NewOrder(userId, OrderItems(cart), shippingCost, expiresAt));
    NoneDeducted(cart);
  }

  lemma AppendKeepsSystem(sys: System, rows: Rows)
    requires SystemOk(sys) && FileOk(rows.file) && OrderOk(GoodsOf(rows)) && rows.stock.Keys == sys.stock.Keys
    requires forall l <- Lines(rows.file.order.items) :: l.variant in sys.stock
    requires forall v <- sys.stock ::
               rows.stock[v].reserved == sys.stock[v].reserved + Held(rows.file.order, v) && rows.stock[v].reserved <= rows.stock[v].total
    ensures SystemOk(System(sys.files + [rows.file], rows.stock))
  {
    var sys' := System(sys.files + [rows.file], rows.stock);
    forall v | v in sys'.stock ensures sys'.stock[v].reserved == HeldBy(sys'.files, |sys'.files|, v) {
      HeldPrefix(sys.files, [rows.file], |sys.files|, v);
    }
    assert sys'.Rows(|sys.files|) == rows;
    forall j | 0 <= j < |sys'.files| ensures OrderFileOk(sys', j) {
      if j < |sys.files| {
        OtherOrderKept(sys, sys', j);
      }
    }
  }

  /** Reserving lines that fit leaves no variant with more reserved than it has. */
  lemma ReservedFits(stock: Levels, lines: seq<Line>)
    requires Fits(stock, lines) && forall v <- stock :: stock[v].reserved <= stock[v].total
    ensures forall v <- stock :: Reserved(stock, lines)[v].reserved <= Reserved(stock, lines)[v].total
  {
    forall v | v in stock ensures Reserved(stock, lines)[v].reserved <= Reserved(stock, lines)[v].total {
      UnitsOfMember(lines, Line(v, 0));
    }
  }

  lemma PlacedKeepsSystem(sys: System, userId: nat, cart: seq<CartItem>, shippingCost: Cents, expectedTotal: Cents, expiresAt: Time)
    requires SystemOk(sys) && ValidCart(cart)
    requires Confirmed(sys.stock, userId, cart, shippingCost, expectedTotal, expiresAt).Opened?
    ensures var rows := Confirmed(sys.stock, userId, cart, shippingCost, expectedTotal, expiresAt).rows;
            SystemOk(System(sys.files + [rows.file], rows.stock))
  {
    var rows := Confirmed(sys.stock, userId, cart, shippingCost, expectedTotal, expiresAt).rows;
    NewOrderOk(userId, cart, shippingCost, expiresAt, rows.stock);
    ReservedFits(sys.stock, Lines(OrderItems(cart)));
    assert rows == OrderRows(NewFile(NewOrder(userId, OrderItems(cart), shippingCost, expiresAt)), Reserved(sys.stock, Lines(OrderItems(cart))));
    AppendKeepsSystem(sys, rows);
  }

  lemma StepKeepsSystem(sys: System, e: SystemEvent)
    requires SystemOk(sys)
    ensures SystemOk(SystemStep(sys, e))
  {
    match e
    case PlaceOrder(userId, cart, shippingCost, expectedTotal, expiresAt) =>
      if ValidCart(cart) && Confirmed(sys.stock, userId, cart, shippingCost, expectedTotal, expiresAt).Opened? {
        PlacedKeepsSystem(sys, userId, cart, shippingCost, expectedTotal, expiresAt);
      }
    case OnOrder(k, event, now) =>
      if k < |sys.files| { OrderStepKeepsSystem(sys, k, event, now); }
    case AdjustTotal(_, _, _) => ShelfChangeKeepsSystem(sys, SystemStep(sys, e).stock);
    case AddVariant(v, _) =>
      NobodyHoldsUnknown(sys, |sys.files|, v);
      ShelfChangeKeepsSystem(sys, SystemStep(sys, e).stock);
  }

  /** A variant that does not exist is reserved by no order. */
  lemma {:induction false} NobodyHoldsUnknown(sys: System, n: nat, v: VariantId)
    requires SystemOk(sys) && n <= |sys.files|
    ensures v !in sys.stock ==> HeldBy(sys.files, n, v) == 0
  {
    if n > 0 {
      NobodyHoldsUnknown(sys, n - 1, v);
      assert OrderFileOk(sys, n - 1);
      UnitsOfMember(Lines(sys.files[n - 1].order.items), Line(v, 0));
    }
  }

  lemma ShelfChangeKeepsSystem(sys: System, stock: Levels)
    requires SystemOk(sys) && sys.stock.Keys <= stock.Keys
    requires forall v <- stock ::
               && stock[v].reserved == (if v in sys.stock then sys.stock[v].reserved else HeldBy(sys.files, |sys.files|, v))
               && stock[v].reserved <= stock[v].total
    ensures SystemOk(sys.(stock := stock))
  {
    forall k | 0 <= k < |sys.files| ensures OrderFileOk(sys.(stock := stock), k) {
      assert OrderFileOk(sys, k);
    }
  }

  // ----- Runs -----

  lemma {:induction false} RunKeepsSystem(sys: System, events: seq<SystemEvent>)
    requires SystemOk(sys)
    ensures SystemOk(Run(sys, events))
    decreases |events|
  {
    if events != [] {
      RunKeepsSystem(sys, events[..|events| - 1]);
      StepKeepsSystem(Run(sys, events[..|events| - 1]), events[|events| - 1]);
    }
  }

  /** The database after some run that started with nothing in it. */
  ghost predicate IsReachable(sys: System) {
    exists events :: sys == Run(Empty, events)
  }

  lemma ReachableIsOk(sys: System)
    requires IsReachable(sys)
    ensures SystemOk(sys)
  {
    var events :| sys == Run(Empty, events);
    RunKeepsSystem(Empty, events);
  }

  /** Any order of any reachable database. */
  lemma Reachable(sys: System, k: nat) returns (f: File)
    requires IsReachable(sys) && k < |sys.files|
    ensures f == sys.files[k] && FileOk(f) && OrderOk(GoodsOf(sys.Rows(k)))
  {
    ReachableIsOk(sys);
    f := sys.files[k];
    assert OrderFileOk(sys, k);
  }

  /**
   * After any run, an approved payment for the exact positive total is the one that credited the order,
   * or has a refund row for its whole amount.
   */
  lemma EveryPaymentIsSettled(sys: System, k: nat, p: nat)
    requires IsReachable(sys) && k < |sys.files| && p < |sys.files[k].payments|
    ensures var f := sys.files[k];
            var payment := f.payments[p];
            payment.status == Aprobado && payment.amount == f.order.total > 0 && payment.storeCurrency ==>
              || CreditedRef(f.history) == Some(payment.externalId)
              || exists j :: 0 <= j < |f.refunds| && f.refunds[j].payment == p && f.refunds[j].amount == payment.amount && f.refunds[j].origin != CU22
  {
    var f := Reachable(sys, k);
    var l := LedgerOf(f);
    if Collected(l, p) && l.credited != Some(f.payments[p].externalId) {
      assert GivenBack(l, p);
      var j :| 0 <= j < |l.refunds| && l.refunds[j].payment == p && l.refunds[j].amount == l.payments[p].amount && l.refunds[j].origin != CU22;
      assert f.refunds[j].payment == p;
    }
  }

  /** A paid order was credited by exactly one payment, approved for its total, refunded only through returns. */
  lemma PaidOnce(sys: System, k: nat) returns (p: nat)
    requires IsReachable(sys) && k < |sys.files| && Paid(sys.files[k].order.status)
    ensures var f := sys.files[k];
            && p < |f.payments| && f.payments[p].status == Aprobado && f.payments[p].amount == f.order.total && f.payments[p].storeCurrency
            && Count(f.history, Pagado) == 1 && CreditedRef(f.history) == Some(f.payments[p].externalId)
            && forall j :: 0 <= j < |f.refunds| && f.refunds[j].payment == p ==> f.refunds[j].origin == CU22
  {
    var f := Reachable(sys, k);
    p :| Credits(LedgerOf(f), p);
    forall j | 0 <= j < |f.refunds| && f.refunds[j].payment == p ensures f.refunds[j].origin == CU22 {
      assert Credits(LedgerOf(f), LedgerOf(f).refunds[j].payment);
    }
  }

  /** Refunds committed and not closed by hand never exceed their payment; what returns give back never exceeds the products. */
  lemma RefundsStayWithin(sys: System, k: nat)
    requires IsReachable(sys) && k < |sys.files|
    ensures var f := sys.files[k];
            && (forall p :: 0 <= p < |f.payments| ==> Sum(f.refunds, Live(p)) <= f.payments[p].amount)
            && Sum(f.refunds, OfReturns) <= f.order.subtotal
  {
    var f := Reachable(sys, k);
    ReturnsWithinSubtotal(AfterSaleOf(f));
    SubtotalOfBasket(f.order.items);
  }

  /** With products of a positive price, "could not register the refund" is unreachable. */
  lemma RefundsAreNeverMissed(sys: System, k: nat)
    requires IsReachable(sys) && k < |sys.files|
    ensures var f := sys.files[k];
            f.order.subtotal > 0 ==> RefundNotRegistered !in f.notes
  {
    var f := Reachable(sys, k);
    assert LedgerOf(f).missed == (RefundNotRegistered in f.notes);
  }

  /** The history is a path of the graph from the first status to the current one; paid at most once, undone at most once. */
  lemma HistoryIsOnePath(sys: System, k: nat)
    requires IsReachable(sys) && k < |sys.files|
    ensures var f := sys.files[k];
            && IsPath(f.history) && Last(f.history).to == f.order.status
            && Count(f.history, Pagado) <= 1 && Count(f.history, Cancelado) <= 2
            && (forall i :: 0 <= i < |f.history| - 1 && f.history[i].to == Cancelado ==> f.history[i].reason == CancelledBy(ReservaVencida))
            && (Awaiting(f.order.status) || f.order.cause == Some(ReservaVencida) ==> f.order.paidAt == None)
  {
    var _ := Reachable(sys, k);
  }

  /** Reserved stock is what the orders with the flag hold; the flag is on and off as the status says. */
  lemma ReservationsAreExact(sys: System)
    requires IsReachable(sys)
    ensures && (forall v <- sys.stock :: sys.stock[v].reserved == HeldBy(sys.files, |sys.files|, v) <= sys.stock[v].total)
            && forall k :: 0 <= k < |sys.files| ==>
                 && (sys.files[k].order.status == PendientePago ==> sys.files[k].order.reservationActive)
                 && (sys.files[k].order.reservationActive ==> sys.files[k].order.status in {PendientePago, PagoPendienteAcreditacion})
  {
    ReachableIsOk(sys);
    forall k | 0 <= k < |sys.files| ensures FlagOk(sys.files[k].order) {
      assert OrderFileOk(sys, k);
    }
  }

  /** Units deducted for an order are those sold minus those given back, and no unit is sold or given back twice. */
  lemma DeductedAtMostOnce(sys: System, k: nat, v: VariantId)
    requires IsReachable(sys) && k < |sys.files|
    ensures var f := sys.files[k];
            && Entities.Committed(f.order, v) + Put(f.movements, Cancelacion, v) == Put(f.movements, Venta, v)
            && Put(f.movements, Venta, v) <= Units(Lines(f.order.items), v)
  {
    var _ := Reachable(sys, k);
  }

  /**
   * The units of an item not blocked by its requests are exactly those still eligible; a delivered order is marked
   * as returned exactly when everything bought came back.
   */
  lemma ReturnsAreExact(sys: System, k: nat)
    requires IsReachable(sys) && k < |sys.files|
    ensures var f := sys.files[k];
            && (forall i :: 0 <= i < |f.order.items| ==> EligibleOf(f, i) + Blocked(f.requests, |f.requests|, i) == f.order.items[i].quantity)
            && (f.order.status in {Entregado, Devuelto} ==>
                  (f.order.status == Devuelto
                   <==> forall i :: 0 <= i < |f.order.items| ==> ReturnedUnits(f.requests, |f.requests|, i) == f.order.items[i].quantity))
  {
    var f := Reachable(sys, k);
    UncommittedLength(f.order.items);
    forall i | 0 <= i < |f.order.items|
      ensures EligibleOf(f, i) + Blocked(f.requests, |f.requests|, i) == f.order.items[i].quantity
      ensures Uncommitted(f.order.items)[i].quantity == f.order.items[i].quantity
    {
      EligibleIsExact(f, i);
      UncommittedAt(f.order.items, i);
    }
  }

  /** A returned order is closed: no request open, nothing ever exchanged, and none can be created any more. */
  lemma ReturnedOrdersAreClosed(sys: System, k: nat)
    requires IsReachable(sys) && k < |sys.files| && sys.files[k].order.status == Devuelto
    ensures var f := sys.files[k];
            && (forall q <- f.requests :: q.status == RechazadaPorTienda || (q.status == Resuelta && q.kind == DevolucionProducto))
            && forall owner, kind, lines, now :: RequestCreated(f, owner, kind, lines, now).Refused?
  {
    var f := Reachable(sys, k);
    forall owner, kind, lines, now ensures RequestCreated(f, owner, kind, lines, now).Refused? {
      ReturnedIsClosed(f, owner, kind, lines, now);
    }
    ReturnedIsClosed(f, 0, CambioProducto, [], 0);
  }

  // ----- What requests can do in a reachable database -----

  /** The owner cancels at any time before the payment is credited, and within 24 hours of it until the dispatch. */
  lemma CustomerCancelsExactly(sys: System, k: nat, userId: nat, expected: Status, now: Time)
    requires IsReachable(sys) && k < |sys.files|
    ensures var r := sys.Rows(k);
            var order := r.file.order;
            CustomerCancelled(r, userId, expected, now).Done?
            <==> && userId == order.userId && expected == order.status
                 && (|| Awaiting(order.status)
                     || (order.status in {Pagado, EnPreparacion} && order.paidAt.Some? && now < order.paidAt.value + CUSTOMER_CANCEL_WINDOW_MS))
  {
    var f := Reachable(sys, k);
    var l := LifeOf(f);
    assert Awaiting(l.status) ==> l.paidAt == None;
    assert Paid(l.status) ==> l.paidAt.Some?;
  }

  /** A retry leaves the order awaiting payment with its reservation active; it reserves exactly when a rejection had released it. */
  lemma RetryReservesOnce(sys: System, k: nat, payer: nat, offers: seq<Offer>, now: Time)
    requires IsReachable(sys) && k < |sys.files| && |offers| == |sys.files[k].order.items|
    requires RetryOpened(sys.Rows(k), payer, offers, now).Opened?
    ensures var r := sys.Rows(k);
            var r' := RetryOpened(r, payer, offers, now).rows;
            && r'.file.order.status == PendientePago && r'.file.order.reservationActive
            && r'.file.order.reservationExpiresAt == r.file.order.reservationExpiresAt > now
            && r'.stock == if r.file.order.status == PagoRechazado then Reserved(r.stock, Lines(r.file.order.items)) else r.stock
  {
    var _ := Reachable(sys, k);
  }

  // ----- Conservation -----

  predicate MovesWithinOrders(e: SystemEvent) {
    e.PlaceOrder? || (e.OnOrder? && MovesOrderStock(e.event))
  }

  lemma OrderStepConserves(sys: System, k: nat, e: Event, now: Time, v: VariantId)
    requires SystemOk(sys) && k < |sys.files| && MovesOrderStock(e) && v in sys.stock
    ensures var r' := Step(sys.Rows(k), e, now);
            v in r'.stock && r'.stock[v].total + Entities.Committed(r'.file.order, v)
                             == sys.stock[v].total + Entities.Committed(sys.files[k].order, v)
  {
    assert OrderFileOk(sys, k);
    StockCoversOrder(sys, k);
    StepTogether(sys.Rows(k), e, now);
  }

  lemma CheckoutConserves(sys: System, e: SystemEvent, v: VariantId)
    requires e.PlaceOrder? && v in sys.stock
    ensures var sys' := SystemStep(sys, e);
            v in sys'.stock && sys'.stock[v].total + CommittedBy(sys'.files, |sys'.files|, v)
                               == sys.stock[v].total + CommittedBy(sys.files, |sys.files|, v)
  {
    var sys' := SystemStep(sys, e);
    if sys' != sys {
      NoneDeducted(e.cart);
      HeldPrefix(sys.files, sys'.files[|sys.files|..], |sys.files|, v);
    }
  }

  lemma StepConserves(sys: System, e: SystemEvent, v: VariantId)
    requires SystemOk(sys) && MovesWithinOrders(e) && v in sys.stock
    ensures var sys' := SystemStep(sys, e);
            v in sys'.stock && sys'.stock[v].total + CommittedBy(sys'.files, |sys'.files|, v)
                               == sys.stock[v].total + CommittedBy(sys.files, |sys.files|, v)
  {
    if e.PlaceOrder? {
      CheckoutConserves(sys, e, v);
    } else if e.OnOrder? && e.order < |sys.files| {
      OrderStepConserves(sys, e.order, e.event, e.now, v);
      HeldUpdate(sys.files, |sys.files|, e.order, SystemStep(sys, e).files[e.order], v);
    }
  }

  /** Checkout, payments, cancellations and expiries neither create nor lose a unit: stock plus deducted is constant. */
  lemma {:induction false} RunConserves(sys: System, events: seq<SystemEvent>, v: VariantId)
    requires SystemOk(sys) && v in sys.stock
    requires forall i :: 0 <= i < |events| ==> MovesWithinOrders(events[i])
    ensures var sys' := Run(sys, events);
            v in sys'.stock && sys'.stock[v].total + CommittedBy(sys'.files, |sys'.files|, v)
                               == sys.stock[v].total + CommittedBy(sys.files, |sys.files|, v)
    decreases |events|
  {
    if events != [] {
      var init := events[..|events| - 1];
      RunKeepsSystem(sys, init);
      RunConserves(sys, init, v);
      StepConserves(Run(sys, init), events[|events| - 1], v);
    }
  }
}
