/** What a cancellation, an expiry, a retry or a manual move leaves of an order, its stock and its money. */
module OrderOutcomes {
  import opened Wrappers
  import opened OrderStatus
  import opened Stock
  import opened Entities
  import opened StockReservation
  import opened OrdersService
  import opened PaymentLedger
  import opened OrderCancellation
  import opened Checkout
  import opened History
  import opened StockInvariant
  import opened ReturnsInvariant
  import opened MoneyInvariant
  import opened Runs
  import opened StockOutcomes

  // ----- The stock of a cancelled order -----

  /** Each item gives its own variant what was deducted for it, and what it held reserved. */
  ghost predicate GivesBack(stock: Levels, items: seq<Item>, reserved: bool, stock': Levels) {
    && stock'.Keys == stock.Keys
    && (forall v <- stock :: (forall i <- items :: i.variant != v) ==> stock'[v] == stock[v])
    && (forall i <- items :: i.variant in stock ==>
          && stock'[i.variant].total == stock[i.variant].total + (if i.stockCommitted then i.quantity else 0)
          && stock'[i.variant].reserved == stock[i.variant].reserved - if reserved then i.quantity else 0)
  }

  /** One entry of the stock history for each deducted item, with the total it left. */
  ghost predicate IsRestockOf(stock: Levels, items: seq<Item>, m: Movement) {
    exists i <- items ::
      i.stockCommitted && i.variant in stock && m == Movement(Cancelacion, i.variant, i.quantity, stock[i.variant].total + i.quantity)
  }

  predicate HasRestockOf(movements: seq<Movement>, stock: Levels, v: VariantId, quantity: nat)
    requires v in stock
  {
    Movement(Cancelacion, v, quantity, stock[v].total + quantity) in movements
  }

  /** Nothing stays reserved or deducted for the order. */
  ghost predicate IsRestocked(r: Rows, r': Rows) {
    var (order, order', n) := (r.file.order, r'.file.order, |r.file.movements|);
    && !order'.reservationActive && |order'.items| == |order.items|
    && (forall i :: 0 <= i < |order.items| ==> order'.items[i] == order.items[i].(stockCommitted := false))
    && GivesBack(r.stock, order.items, order.reservationActive, r'.stock)
    && n <= |r'.file.movements| && r'.file.movements[..n] == r.file.movements
    && (forall m <- r'.file.movements[n..] :: IsRestockOf(r.stock, order.items, m))
    && (forall i <- order.items :: i.stockCommitted && i.variant in r.stock ==>
          HasRestockOf(r'.file.movements[n..], r.stock, i.variant, i.quantity))
  }

  lemma {:induction false} UncommittedLines(items: seq<Item>)
    ensures forall l <- CommittedLines(items) :: exists i <- items :: i.stockCommitted && l == Line(i.variant, i.quantity)
    ensures forall i <- items :: i.stockCommitted ==> Line(i.variant, i.quantity) in CommittedLines(items)
  {
    if items != [] {
      UncommittedLines(items[1..]);
    }
  }

  /** With one item per variant, the deducted units of an item's variant are the item's. */
  lemma {:induction false} DeductedUnits(items: seq<Item>, v: VariantId)
    requires forall i, j :: 0 <= i < j < |items| ==> items[i].variant != items[j].variant
    ensures forall i <- items :: i.variant == v ==> Units(CommittedLines(items), v) == if i.stockCommitted then i.quantity else 0
    ensures (forall i <- items :: i.variant != v) ==> Units(CommittedLines(items), v) == 0
  {
    if items != [] {
      DeductedUnits(items[1..], v);
      var line := Line(items[0].variant, items[0].quantity);
      assert ([line] + CommittedLines(items[1..]))[1..] == CommittedLines(items[1..]);
    }
  }

  lemma {:induction false} DeductedLinesDiffer(items: seq<Item>)
    requires forall i, j :: 0 <= i < j < |items| ==> items[i].variant != items[j].variant
    ensures OnePerVariant(CommittedLines(items))
  {
    if items != [] {
      var rest := CommittedLines(items[1..]);
      DeductedLinesDiffer(items[1..]);
      UncommittedLines(items[1..]);
      forall k | 0 <= k < |rest| ensures rest[k].variant != items[0].variant {
        assert rest[k] in rest;
        var i :| i in items[1..] && i.stockCommitted && rest[k] == Line(i.variant, i.quantity);
      }
    }
  }

  lemma {:induction false} RestockedOnce(stock: Levels, lines: seq<Line>)
    requires OnePerVariant(lines)
    ensures forall m <- RestockMovements(stock, lines) :: exists l <- lines ::
              l.variant in stock && m == Movement(Cancelacion, l.variant, l.quantity, stock[l.variant].total + l.quantity)
    ensures forall l <- lines :: l.variant in stock ==> HasRestockOf(RestockMovements(stock, lines), stock, l.variant, l.quantity)
  {
    if lines != [] {
      var init, last := lines[..|lines| - 1], lines[|lines| - 1];
      RestockedOnce(stock, init);
      assert last in lines && forall l <- init :: l in lines;
      UnitsOfDistinct(lines, last);
    }
  }

  lemma RestockIsRecorded(r: Rows)
    requires OrderShape(r.file.order)
    ensures var movements := RestockMovements(r.stock, CommittedLines(r.file.order.items));
            && (forall m <- movements :: IsRestockOf(r.stock, r.file.order.items, m))
            && forall i <- r.file.order.items :: i.stockCommitted && i.variant in r.stock ==>
                 HasRestockOf(movements, r.stock, i.variant, i.quantity)
  {
    var items := r.file.order.items;
    var lines := CommittedLines(items);
    DeductedLinesDiffer(items);
    UncommittedLines(items);
    RestockedOnce(r.stock, lines);
    forall m | m in RestockMovements(r.stock, lines) ensures IsRestockOf(r.stock, items, m) {
      var l :| l in lines && l.variant in r.stock && m == Movement(Cancelacion, l.variant, l.quantity, r.stock[l.variant].total + l.quantity);
      var i :| i in items && i.stockCommitted && l == Line(i.variant, i.quantity);
    }
  }

  /** The order's lines are its items. */
  lemma ItemsAreLines(r: Rows, released: Levels)
    requires OrderShape(r.file.order)
    requires if r.file.order.reservationActive then ShiftsReserved(r.stock, Lines(r.file.order.items), -1, released) else released == r.stock
    ensures GivesBack(r.stock, r.file.order.items, r.file.order.reservationActive, Restocked(released, CommittedLines(r.file.order.items)))
  {
    var items := r.file.order.items;
    var lines := Lines(items);
    LinesAt(items);
    forall v | v in r.stock && (forall i <- items :: i.variant != v)
      ensures Units(CommittedLines(items), v) == 0 && forall l <- lines :: l.variant != v
    {
      DeductedUnits(items, v);
      forall l | l in lines ensures l.variant != v {
        var i :| 0 <= i < |lines| && lines[i] == l;
        assert items[i] in items;
      }
    }
    forall i | i in items && i.variant in r.stock
      ensures Units(CommittedLines(items), i.variant) == if i.stockCommitted then i.quantity else 0
      ensures Line(i.variant, i.quantity) in lines
    {
      DeductedUnits(items, i.variant);
      var k :| 0 <= k < |items| && items[k] == i;
      assert lines[k] in lines;
    }
  }

  /** Releasing does not touch the totals, so neither the history of what enters. */
  lemma {:induction false} SameTotalsSameHistory(stock: Levels, released: Levels, lines: seq<Line>)
    requires released.Keys == stock.Keys && forall v <- stock :: released[v].total == stock[v].total
    ensures RestockMovements(released, lines) == RestockMovements(stock, lines)
  {
    if lines != [] {
      SameTotalsSameHistory(stock, released, lines[..|lines| - 1]);
    }
  }

  lemma {:induction false} NoneDeductedAlready(items: seq<Item>)
    requires CommittedLines(items) == []
    ensures Uncommitted(items) == items
  {
    if items != [] {
      NoneDeductedAlready(items[1..]);
      assert items == [items[0]] + items[1..];
    }
  }

  lemma NothingToRestock(stock: Levels, items: seq<Item>)
    requires CommittedLines(items) == []
    ensures Restocked(stock, CommittedLines(items)) == stock && Uncommitted(items) == items && RestockMovements(stock, CommittedLines(items)) == []
  {
    NoneDeductedAlready(items);
  }

  lemma RestockKeepsHistory(r: Rows)
    requires OrderShape(r.file.order) && StockCovers(GoodsOf(r))
    ensures StockReturned(r).file.movements == r.file.movements + RestockMovements(r.stock, CommittedLines(r.file.order.items))
  {
    OrderReleases(r);
    SameTotalsSameHistory(r.stock, ReservationReleased(r).stock, CommittedLines(r.file.order.items));
    assert r.file.movements + [] == r.file.movements;
  }

  lemma RestockUnmarks(r: Rows)
    ensures StockReturned(r).file.order.items == Uncommitted(r.file.order.items)
    ensures StockReturned(r).stock == Restocked(ReservationReleased(r).stock, CommittedLines(r.file.order.items))
    ensures !StockReturned(r).file.order.reservationActive
  {
    if CommittedLines(r.file.order.items) == [] {
      NothingToRestock(ReservationReleased(r).stock, r.file.order.items);
    }
  }

  lemma OrderIsRestocked(r: Rows)
    requires OrderShape(r.file.order) && StockCovers(GoodsOf(r))
    ensures IsRestocked(r, StockReturned(r))
    ensures StockReturned(r).file == r.file.(order := r.file.order.(reservationActive := false, items := StockReturned(r).file.order.items),
                                             movements := StockReturned(r).file.movements)
  {
    var items, movements := r.file.order.items, RestockMovements(r.stock, CommittedLines(r.file.order.items));
    OrderReleases(r);
    ItemsAreLines(r, ReservationReleased(r).stock);
    RestockIsRecorded(r);
    RestockKeepsHistory(r);
    RestockUnmarks(r);
    UncommittedLength(items);
    forall i | 0 <= i < |items| ensures Uncommitted(items)[i] == items[i].(stockCommitted := false) {
      UncommittedAt(items, i);
    }
    assert StockReturned(r).file.movements[|r.file.movements|..] == movements;
  }

  // ----- Cancellation -----

  /** The order cancelled: its stock given back unless it left already, its payments and requests as they were. */
  ghost predicate IsCancelled(r: Rows, r': Rows, cause: Cause) {
    var order, order' := r.file.order, r'.file.order;
    && r'.file == r.file.(
         order := order.(status := OrderStatus.Cancelado, cause := Some(cause), items := order'.items, reservationActive := order'.reservationActive),
         history := r.file.history + [Entry(Some(order.status), OrderStatus.Cancelado, CancelledBy(cause))],
         refunds := r'.file.refunds, movements := r'.file.movements, notes := r'.file.notes)
    && if order.status == Despachado
       then
         r'.stock == r.stock && order'.items == order.items && order'.reservationActive == order.reservationActive
         && r'.file.movements == r.file.movements
       else IsRestocked(r, r')
  }

  /** One refund of `owed`, against an approved payment with the balance; or a note, when nothing is owed. */
  ghost predicate IsRefunded(f: File, f': File, owed: Cents, origin: RefundOrigin) {
    if owed == 0 then f'.refunds == f.refunds && f'.notes == f.notes + [RefundNotRegistered]
    else
      && f'.notes == f.notes
      && exists p: nat :: HasBalance(f, p, owed) && f'.refunds == f.refunds + [Refund(p, owed, EnTramite, None, origin, 1, false)]
  }

  ghost predicate HasBalance(f: File, p: nat, amount: Cents) {
    p < |f.payments| && f.payments[p].status == Aprobado && Sum(f.refunds, CommittedTo(p)) + amount <= f.payments[p].amount
  }

  /**
   * What a cancellation owes: of the payment that credited the order, everything, or all but the shipping once it was
   * dispatched; of an order that nobody paid, nothing.
   */
  ghost predicate IsSettled(f: File, f': File, origin: RefundOrigin) {
    if f.order.status in {Pagado, EnPreparacion, Despachado} then exists p :: SettlesPayment(f, f', origin, p)
    else f'.refunds == f.refunds && f'.notes == f.notes
  }

  ghost predicate SettlesPayment(f: File, f': File, origin: RefundOrigin, p: nat) {
    && p < |f.payments| && CreditedRef(f.history) == Some(f.payments[p].externalId) && f.payments[p].status == Aprobado
    && var kept := if f.order.status == Despachado then f.order.shippingCost else 0;
       kept <= f.payments[p].amount && IsRefunded(f, f', f.payments[p].amount - kept, origin)
  }

  lemma UndoneIsCancelled(r: Rows, cause: Cause, now: Time)
    requires OrderShape(r.file.order) && StockCovers(GoodsOf(r))
    ensures IsCancelled(r, Undone(r, cause, now), cause)
  {
    var moved := r.(file := Moved(r.file, OrderStatus.Cancelado, CancelledBy(cause), now));
    if r.file.order.status != Despachado {
      OrderIsRestocked(moved);
    }
  }

  lemma CancellationMoves(r: Rows, cause: Cause, origin: RefundOrigin, now: Time)
    requires OrderShape(r.file.order) && StockCovers(GoodsOf(r))
    ensures IsCancelled(r, Cancelled(r, cause, origin, now), cause)
  {
    UndoneIsCancelled(r, cause, now);
    var undone, r' := Undone(r, cause, now), Cancelled(r, cause, origin, now);
    assert r' == undone.(file := undone.file.(refunds := r'.file.refunds, notes := r'.file.notes));
  }

  lemma RefundIsIn(f: File, f': File, amount: Cents, origin: RefundOrigin, p: nat)
    requires CanRefund(f, amount, None, p) && f'.refunds == f.refunds + [NewRefund(p, amount, origin)] && f'.notes == f.notes && amount > 0
    ensures IsRefunded(f, f', amount, origin)
  {
    RefundedIsSum(f.refunds, p);
    assert HasBalance(f, p, amount);
  }

  /** The payment that credited a paid order was for its total. */
  lemma CreditingPayment(f: File) returns (p: nat)
    requires FileOk(f) && f.order.status in {Pagado, EnPreparacion, Despachado}
    ensures p < |f.payments| && CreditedRef(f.history) == Some(f.payments[p].externalId) && f.payments[p].status == Aprobado
    ensures f.payments[p].amount == f.order.total && f.order.paidAt.Some?
  {
    assert Paid(LedgerOf(f).status) && Paid(LifeOf(f).status);
    p :| Credits(LedgerOf(f), p);
  }

  lemma PaidSettles(f: File, f': File, owed: Cents, origin: RefundOrigin, p: nat)
    requires f.order.status in {Pagado, EnPreparacion, Despachado}
    requires p < |f.payments| && CreditedRef(f.history) == Some(f.payments[p].externalId) && f.payments[p].status == Aprobado
    requires f.payments[p].amount == f.order.total && IsRefunded(f, f', owed, origin)
    requires owed + (if f.order.status == Despachado then f.order.shippingCost else 0) == f.order.total
    ensures IsSettled(f, f', origin)
  {
    assert SettlesPayment(f, f', origin, p);
  }

  lemma CancellationRefunds(r: Rows, cause: Cause, origin: RefundOrigin, now: Time)
    requires FileOk(r.file) && CanTransition(r.file.order.status, OrderStatus.Cancelado) && r.file.order.paidAt.Some?
    ensures IsRefunded(r.file, Cancelled(r, cause, origin, now).file, CancellationAmount(r.file.order), origin)
  {
    var f, f', amount := r.file, Cancelled(r, cause, origin, now).file, CancellationAmount(r.file.order);
    CancellationIsRefunded(r, cause, origin, now);
    if amount > 0 {
      var q: nat :| CanRefund(f, amount, None, q) && f'.refunds == f.refunds + [NewRefund(q, amount, origin)];
      RefundIsIn(f, f', amount, origin, q);
    }
  }

  lemma CancellationSettles(r: Rows, cause: Cause, origin: RefundOrigin, now: Time)
    requires FileOk(r.file) && CanTransition(r.file.order.status, OrderStatus.Cancelado)
    ensures IsSettled(r.file, Cancelled(r, cause, origin, now).file, origin)
  {
    if r.file.order.status in {Pagado, EnPreparacion, Despachado} {
      var p := CreditingPayment(r.file);
      CancellationRefunds(r, cause, origin, now);
      PaidSettles(r.file, Cancelled(r, cause, origin, now).file, CancellationAmount(r.file.order), origin, p);
    } else {
      assert LifeOf(r.file).paidAt == None;
      UndoneLedger(r, cause, now);
    }
  }

  /** Whatever the customer may cancel, cancelled: the stock given back, and all of the payment that credited the order. */
  lemma CustomerCancels(sys: System, k: nat, userId: nat, expected: Status, now: Time)
    requires IsReachable(sys) && k < |sys.files|
    ensures var r := sys.Rows(k);
            match CustomerCancelled(r, userId, expected, now)
            case Done(r') => r.file.order.status != Despachado && IsCancelled(r, r', Cliente) && IsSettled(r.file, r'.file, CU14)
            case Refused(_) => true
  {
    var r := sys.Rows(k);
    var _ := Reachable(sys, k);
    ReachableIsOk(sys);
    StockCoversOrder(sys, k);
    if CustomerCancelled(r, userId, expected, now).Done? {
      CancellationMoves(r, Cliente, CU14, now);
      CancellationSettles(r, Cliente, CU14, now);
    }
  }

  /** The administrator cancels exactly what is not delivered, cancelled or returned; a dispatched order keeps its stock and shipping. */
  lemma AdminCancels(sys: System, k: nat, expected: Status, now: Time)
    requires IsReachable(sys) && k < |sys.files|
    ensures var r := sys.Rows(k);
            var status := r.file.order.status;
            match AdminCancelled(r, expected, now)
            case Done(r') =>
              && status == expected
              && status in {PendientePago, PagoPendienteAcreditacion, OrderStatus.PagoRechazado, Pagado, EnPreparacion, Despachado}
              && IsCancelled(r, r', Administrador) && IsSettled(r.file, r'.file, CU19)
            case Refused(code) =>
              if status != expected then code == "ORDER_STATUS_CHANGED"
              else status in {Entregado, OrderStatus.Cancelado, Devuelto} && code == "ORDER_NOT_CANCELLABLE"
  {
    var r := sys.Rows(k);
    var _ := Reachable(sys, k);
    ReachableIsOk(sys);
    StockCoversOrder(sys, k);
    if AdminCancelled(r, expected, now).Done? {
      CancellationMoves(r, Administrador, CU19, now);
      CancellationSettles(r, Administrador, CU19, now);
    }
  }

  /** Why the customer is refused, in the order it is checked. */
  lemma CustomerRefusals(r: Rows, userId: nat, expected: Status, now: Time)
    requires CustomerCancelled(r, userId, expected, now).Refused?
    ensures var order, code := r.file.order, CustomerCancelled(r, userId, expected, now).code;
            if order.userId != userId then code == "NOT_FOUND"
            else if order.status != expected then code == "ORDER_STATUS_CHANGED"
            else if order.status in {Despachado, Entregado, OrderStatus.Cancelado, Devuelto} then code == "ORDER_NOT_CANCELLABLE"
            else code == "CANCEL_WINDOW_EXPIRED" && order.paidAt.Some? && order.paidAt.value + 24 * 60 * 60 * 1000 <= now
  {}

  /** The administrator moves a paid order to the next status of its delivery, and only that; the delivery is dated. */
  lemma AdminMovesExactly(r: Rows, expected: Status, to: Status, now: Time)
    ensures var (order, code) := (r.file.order, AdminMoved(r, expected, to, now));
            var next := (order.status == Pagado && to == EnPreparacion) || (order.status == EnPreparacion && to == Despachado)
                        || (order.status == Despachado && to == Entregado);
            if order.status != expected then code == Refused("ORDER_STATUS_CHANGED")
            else if !next then code == Refused("INVALID_TRANSITION")
            else code == Done(r.(file := r.file.(
                   order := order.(status := to, cause := None, deliveredAt := if to == Entregado then Some(now) else order.deliveredAt),
                   history := r.file.history + [Entry(Some(order.status), to, AdminAction)])))
  {}

  // ----- Expiry and compensation -----

  /** The order cancelled with nothing deducted for it: what it held reserved is given back. */
  ghost predicate IsDropped(r: Rows, r': Rows, cause: Cause) {
    && r'.file == r.file.(
         order := r.file.order.(status := OrderStatus.Cancelado, cause := Some(cause), reservationActive := false),
         history := r.file.history + [Entry(Some(r.file.order.status), OrderStatus.Cancelado, CancelledBy(cause))])
    && if r.file.order.reservationActive then ShiftsReserved(r.stock, Lines(r.file.order.items), -1, r'.stock) else r'.stock == r.stock
  }

  /** No payment credited in time: pending, pending accreditation or rejected. */
  predicate RanOut(order: Order, now: Time) {
    order.status in {PendientePago, PagoPendienteAcreditacion, OrderStatus.PagoRechazado} && order.reservationExpiresAt < now
  }

  /** An expiry cancels exactly the orders that ran out; a compensation, exactly the ones still pending their first payment. */
  lemma DropsExactly(sys: System, k: nat, now: Time)
    requires IsReachable(sys) && k < |sys.files|
    ensures var r := sys.Rows(k);
            && (if RanOut(r.file.order, now) then IsDropped(r, Expired(r, now), ReservaVencida) else Expired(r, now) == r)
            && (if r.file.order.status == PendientePago then IsDropped(r, Compensated(r, now), Pasarela) else Compensated(r, now) == r)
  {
    var r := sys.Rows(k);
    var _ := Reachable(sys, k);
    ReachableIsOk(sys);
    StockCoversOrder(sys, k);
    OrderReleases(r);
  }

  /** What the sweep leaves of one order: it depends on that order alone. */
  function Dropped(f: File, now: Time): File {
    if RanOut(f.order, now) then
      f.(order := f.order.(status := OrderStatus.Cancelado, cause := Some(ReservaVencida), reservationActive := false),
         history := f.history + [Entry(Some(f.order.status), OrderStatus.Cancelado, CancelledBy(ReservaVencida))])
    else f
  }

  lemma ExpiredFile(r: Rows, now: Time)
    ensures Expired(r, now).file == Dropped(r.file, now)
  {}

  lemma {:induction false} SweptDrops(sys: System, due: seq<nat>, now: Time, k: nat)
    requires forall i :: 0 <= i < |due| ==> due[i] < |sys.files|
    requires forall i, j :: 0 <= i < j < |due| ==> due[i] != due[j]
    requires k < |sys.files|
    ensures Swept(sys, due, now).files[k] == if k in due then Dropped(sys.files[k], now) else sys.files[k]
    decreases |due|
  {
    if due != [] {
      var init, last := due[..|due| - 1], due[|due| - 1];
      SweptDrops(sys, init, now, k);
      assert last !in init && forall i <- init :: i in due;
      var before := Swept(sys, init, now);
      ExpiredFile(before.Rows(last), now);
    }
  }

  /** One sweep drops every order that ran out, and leaves every other one as it was. */
  lemma SweepDropsAll(sys: System, now: Time, k: nat)
    requires k < |sys.files|
    ensures Swept(sys, Due(sys.files, |sys.files|, now), now).files[k] == Dropped(sys.files[k], now)
    ensures k in Due(sys.files, |sys.files|, now) <==> RanOut(sys.files[k].order, now)
  {
    DueOnce(sys.files, |sys.files|, now);
    SweptDrops(sys, Due(sys.files, |sys.files|, now), now, k);
  }
}
