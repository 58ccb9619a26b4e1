/** Reservation flags and firm deductions: what every step keeps between an order and the stock. */
module StockInvariant {
  import opened Wrappers
  import opened OrderStatus
  import opened Stock
  import opened Entities
  import opened StockReservation
  import opened OrdersService
  import opened PaymentsService
  import opened OrderCancellation
  import opened Cart
  import opened Checkout
  import opened Reception
  import opened Machine
  import opened History

  /** Units of `v` in the order's stock movements of one kind. */
  function Put(movements: seq<Movement>, kind: MovementKind, v: VariantId): nat {
    if movements == [] then 0
    else
      var last := movements[|movements| - 1];
      Put(movements[..|movements| - 1], kind, v) + if last.kind == kind && last.variant == v then last.quantity else 0
  }

  /** The part of the rows that reservations and deductions touch. */
  datatype Goods = Goods(order: Order, movements: seq<Movement>, stock: Levels)

  function GoodsOf(r: Rows): Goods {
    Goods(r.file.order, r.file.movements, r.stock)
  }

  /** A reservation is held exactly as the status says. */
  ghost predicate FlagOk(order: Order) {
    && (order.status == PendientePago ==> order.reservationActive)
    && (order.reservationActive ==> order.status in {PendientePago, PagoPendienteAcreditacion})
  }

  /** Units marked as deducted = units sold minus units given back; no unit is sold twice, none before the payment. */
  ghost predicate Balanced(g: Goods) {
    forall v ::
      && Committed(g.order, v) + Put(g.movements, Cancelacion, v) == Put(g.movements, Venta, v)
      && Put(g.movements, Venta, v) <= (if g.order.paidAt == None then 0 else Units(Lines(g.order.items), v))
  }

  ghost predicate OrderOk(g: Goods) {
    OrderShape(g.order) && FlagOk(g.order) && Balanced(g)
  }

  /** The variants of the order exist, what it holds is reserved, and no variant has more reserved than it has. */
  ghost predicate StockCovers(g: Goods) {
    && (forall l <- Lines(g.order.items) :: l.variant in g.stock)
    && (forall v <- g.stock :: Held(g.order, v) <= g.stock[v].reserved <= g.stock[v].total)
  }

  /** The order's reservation and the variant's change together. */
  ghost predicate ReservesTogether(g: Goods, g': Goods) {
    && g'.stock.Keys == g.stock.Keys
    && Lines(g'.order.items) == Lines(g.order.items)
    && forall v <- g.stock ::
         && g'.stock[v].reserved + Held(g.order, v) == g.stock[v].reserved + Held(g'.order, v)
         && g'.stock[v].reserved <= g'.stock[v].total
  }

  /** Units in the total plus units deducted for this order do not change. */
  ghost predicate Conserves(g: Goods, g': Goods) {
    forall v <- g.stock :: v in g'.stock && g'.stock[v].total + Committed(g'.order, v) == g.stock[v].total + Committed(g.order, v)
  }

  // ----- Sequences of items, lines and movements -----

  lemma {:induction false} PutConcat(a: seq<Movement>, b: seq<Movement>, kind: MovementKind, v: VariantId)
    ensures Put(a + b, kind, v) == Put(a, kind, v) + Put(b, kind, v)
  {
    if b == [] {
      assert a + b == a;
    } else {
      assert (a + b)[..|a + b| - 1] == a + b[..|b| - 1];
      PutConcat(a, b[..|b| - 1], kind, v);
    }
  }

  lemma {:induction false} SoldMovements(levels: Levels, lines: seq<Line>, active: bool, v: VariantId)
    ensures var sale := Sold(levels, lines, active);
            && Put(sale.movements, Venta, v) == Units(sale.served, v)
            && Put(sale.movements, Cancelacion, v) == 0
  {
    if lines != [] {
      var before, last := Sold(levels, lines[..|lines| - 1], active), lines[|lines| - 1];
      SoldMovements(levels, lines[..|lines| - 1], active, v);
      UnitsAppend(before.served, last);
      if Covers(before.levels, last, active) {
        var moved := Sold(levels, lines, active).movements;
        assert moved[..|moved| - 1] == before.movements;
      }
    }
  }

  lemma PutAppend(movements: seq<Movement>, m: Movement, kind: MovementKind, v: VariantId)
    ensures Put(movements + [m], kind, v) == Put(movements, kind, v) + if m.kind == kind && m.variant == v then m.quantity else 0
  {
    assert (movements + [m])[..|movements|] == movements;
  }

  lemma {:induction false} RestockMoves(levels: Levels, lines: seq<Line>, v: VariantId)
    requires forall i :: 0 <= i < |lines| ==> lines[i].variant in levels
    ensures Put(RestockMovements(levels, lines), Cancelacion, v) == Units(lines, v)
    ensures Put(RestockMovements(levels, lines), Venta, v) == 0
  {
    if lines != [] {
      var init, last := lines[..|lines| - 1], lines[|lines| - 1];
      assert lines == init + [last];
      RestockMoves(levels, init, v);
      UnitsAppend(init, last);
      var moved := Movement(Cancelacion, last.variant, last.quantity, levels[last.variant].total + Units(lines, last.variant));
      PutAppend(RestockMovements(levels, init), moved, Cancelacion, v);
      PutAppend(RestockMovements(levels, init), moved, Venta, v);
    }
  }

  lemma {:induction false} CommittedIsPart(items: seq<Item>, v: VariantId)
    ensures Units(CommittedLines(items), v) <= Units(Lines(items), v)
    ensures forall l <- CommittedLines(items) :: l in Lines(items)
    ensures Lines(Uncommitted(items)) == Lines(items) && CommittedLines(Uncommitted(items)) == []
    ensures Subtotal(Uncommitted(items)) == Subtotal(items) && |Uncommitted(items)| == |items|
  {
    if items != [] {
      CommittedIsPart(items[1..], v);
    }
  }

  lemma {:induction false} LinesAt(items: seq<Item>)
    ensures |Lines(items)| == |items|
    ensures forall i :: 0 <= i < |items| ==> Lines(items)[i] == Line(items[i].variant, items[i].quantity)
  {
    if items != [] {
      LinesAt(items[1..]);
    }
  }

  /** The shape of the order depends only on lines, prices and totals. */
  lemma ShapeKept(order: Order, order': Order)
    requires OrderShape(order)
    requires Lines(order'.items) == Lines(order.items) && Subtotal(order'.items) == Subtotal(order.items)
    requires order'.subtotal == order.subtotal && order'.total == order.total && order'.shippingCost == order.shippingCost
    ensures OrderShape(order')
  {
    LinesAt(order.items);
    LinesAt(order'.items);
    forall i | i in order'.items ensures i.quantity > 0 {
      var k :| 0 <= k < |order'.items| && order'.items[k] == i;
      assert order.items[k] in order.items && Lines(order'.items)[k] == Lines(order.items)[k];
    }
    forall i, j | 0 <= i < j < |order'.items| ensures order'.items[i].variant != order'.items[j].variant {
      assert Lines(order'.items)[i] == Lines(order.items)[i] && Lines(order'.items)[j] == Lines(order.items)[j];
    }
  }

  lemma {:induction false} MarkKeepsLines(items: seq<Item>, shortages: seq<Line>)
    ensures Lines(MarkCommitted(items, shortages)) == Lines(items)
    ensures Subtotal(MarkCommitted(items, shortages)) == Subtotal(items)
  {
    if items != [] {
      MarkKeepsLines(items[1..], shortages);
    }
  }

  /** With nothing deducted before, the items marked are all those that were not short. */
  lemma {:induction false} MarkedUnits(items: seq<Item>, shortages: seq<Line>, v: VariantId)
    requires Units(CommittedLines(items), v) == 0
    requires forall i <- items :: i.quantity > 0
    ensures Units(CommittedLines(MarkCommitted(items, shortages)), v) == if IsShort(shortages, v) then 0 else Units(Lines(items), v)
  {
    if items != [] {
      assert items[0] in items;
      MarkedUnits(items[1..], shortages, v);
    }
  }

  lemma {:induction false} UnitsOfMember(lines: seq<Line>, l: Line)
    ensures l in lines ==> l.quantity <= Units(lines, l.variant)
    ensures (forall k <- lines :: k.variant != l.variant) ==> Units(lines, l.variant) == 0
  {
    if lines != [] {
      UnitsOfMember(lines[1..], l);
    }
  }

  /** One line per variant: the units of a line's variant are the line's. */
  lemma {:induction false} UnitsOfDistinct(lines: seq<Line>, l: Line)
    requires forall i, j :: 0 <= i < j < |lines| ==> lines[i].variant != lines[j].variant
    requires l in lines
    ensures Units(lines, l.variant) == l.quantity
  {
    if lines[0] == l {
      UnitsOfMember(lines[1..], l);
    } else {
      UnitsOfDistinct(lines[1..], l);
    }
  }

  /** A variant is either short in full or served in full. */
  lemma ServedOrShort(order: Order, stock: Levels, v: VariantId)
    requires OrderShape(order)
    ensures var sale := Sold(stock, Lines(order.items), order.reservationActive);
            Units(sale.served, v) == if IsShort(sale.shortages, v) then 0 else Units(Lines(order.items), v)
  {
    var lines := Lines(order.items);
    var sale := Sold(stock, lines, order.reservationActive);
    SoldEffect(stock, lines, order.reservationActive);
    LinesAt(order.items);
    if IsShort(sale.shortages, v) {
      var s :| s in sale.shortages && s.variant == v;
      UnitsOfMember(sale.shortages, s);
      UnitsOfDistinct(lines, s);
    } else {
      UnitsOfMember(sale.shortages, Line(v, 0));
    }
  }

  // ----- Steps -----

  lemma ReleaseTogether(r: Rows)
    requires StockCovers(GoodsOf(r))
    ensures ReservesTogether(GoodsOf(r), GoodsOf(ReservationReleased(r))) && Conserves(GoodsOf(r), GoodsOf(ReservationReleased(r)))
    ensures !ReservationReleased(r).file.order.reservationActive
  {}

  /** Cancelling gives back what the order held, or what was deducted for it, and marks it as given back. */
  lemma ReturnTogether(r: Rows)
    requires StockCovers(GoodsOf(r))
    ensures ReservesTogether(GoodsOf(r), GoodsOf(StockReturned(r))) && Conserves(GoodsOf(r), GoodsOf(StockReturned(r)))
    ensures !StockReturned(r).file.order.reservationActive
    ensures forall v ::
              && Committed(StockReturned(r).file.order, v) == 0
              && Put(StockReturned(r).file.movements, Venta, v) == Put(r.file.movements, Venta, v)
              && Put(StockReturned(r).file.movements, Cancelacion, v) == Put(r.file.movements, Cancelacion, v) + Committed(r.file.order, v)
    ensures Subtotal(StockReturned(r).file.order.items) == Subtotal(r.file.order.items)
  {
    ReleaseTogether(r);
    var released := ReservationReleased(r);
    var lines := CommittedLines(r.file.order.items);
    forall v
      ensures Units(CommittedLines(Uncommitted(r.file.order.items)), v) == 0
      ensures Put(r.file.movements + RestockMovements(released.stock, lines), Venta, v) == Put(r.file.movements, Venta, v)
      ensures Put(r.file.movements + RestockMovements(released.stock, lines), Cancelacion, v)
              == Put(r.file.movements, Cancelacion, v) + Units(lines, v)
    {
      CommittedIsPart(r.file.order.items, v);
      RestockMoves(released.stock, lines, v);
      PutConcat(r.file.movements, RestockMovements(released.stock, lines), Venta, v);
      PutConcat(r.file.movements, RestockMovements(released.stock, lines), Cancelacion, v);
    }
    CommittedIsPart(r.file.order.items, 0);
  }

  /** What crediting does to the deducted units, variant by variant. */
  lemma CreditedUnits(r: Rows, payment: PaymentRef, now: Time, v: VariantId)
    requires OrderOk(GoodsOf(r)) && r.file.order.paidAt == None
    ensures var f, f' := r.file, Credited(r, payment, now).rows.file;
            var served := Units(Sold(r.stock, Lines(f.order.items), f.order.reservationActive).served, v);
            && Committed(f.order, v) == 0
            && Committed(f'.order, v) == served <= Units(Lines(f.order.items), v)
            && Put(f'.movements, Venta, v) == served && Put(f'.movements, Cancelacion, v) == 0
  {
    var order := r.file.order;
    var sale := Sold(r.stock, Lines(order.items), order.reservationActive);
    assert Committed(order, v) == 0;
    ServedOrShort(order, r.stock, v);
    MarkedUnits(order.items, sale.shortages, v);
    SoldMovements(r.stock, Lines(order.items), order.reservationActive, v);
    PutConcat(r.file.movements, sale.movements, Venta, v);
    PutConcat(r.file.movements, sale.movements, Cancelacion, v);
  }

  lemma CreditedShape(r: Rows, payment: PaymentRef, now: Time)
    requires OrderShape(r.file.order)
    ensures var order' := Credited(r, payment, now).rows.file.order;
            OrderShape(order') && Lines(order'.items) == Lines(r.file.order.items) && !order'.reservationActive
            && order'.paidAt.Some? && order'.status == Pagado
  {
    var sale := Sold(r.stock, Lines(r.file.order.items), r.file.order.reservationActive);
    MarkKeepsLines(r.file.order.items, sale.shortages);
    ShapeKept(r.file.order, Credited(r, payment, now).rows.file.order);
  }

  /** Crediting a payment deducts each item once, from the reservation if it was active, else from what is available. */
  lemma CreditTogether(r: Rows, payment: PaymentRef, now: Time)
    requires OrderOk(GoodsOf(r)) && StockCovers(GoodsOf(r)) && r.file.order.paidAt == None
    ensures var r' := Credited(r, payment, now).rows;
            ReservesTogether(GoodsOf(r), GoodsOf(r')) && Conserves(GoodsOf(r), GoodsOf(r')) && OrderOk(GoodsOf(r'))
  {
    var order := r.file.order;
    var r' := Credited(r, payment, now).rows;
    SoldEffect(r.stock, Lines(order.items), order.reservationActive);
    SoldLeavesRoom(r.stock, Lines(order.items), order.reservationActive);
    CreditedShape(r, payment, now);
    forall v
      ensures Committed(r'.file.order, v) + Put(r'.file.movements, Cancelacion, v) == Put(r'.file.movements, Venta, v)
      ensures Put(r'.file.movements, Venta, v) <= Units(Lines(r'.file.order.items), v)
    {
      CreditedUnits(r, payment, now, v);
    }
    forall v | v in r.stock
      ensures r'.stock[v].reserved + Held(order, v) == r.stock[v].reserved + Held(r'.file.order, v)
      ensures r'.stock[v].total + Committed(r'.file.order, v) == r.stock[v].total + Committed(order, v)
    {
      CreditedUnits(r, payment, now, v);
      if order.reservationActive {
        NoneShortWhenReserved(r);
      }
    }
  }

  /** With the reservation active nothing can fall short. */
  lemma NoneShortWhenReserved(r: Rows)
    requires StockCovers(GoodsOf(r)) && r.file.order.reservationActive
    ensures var lines := Lines(r.file.order.items);
            Sold(r.stock, lines, true).served == lines && Sold(r.stock, lines, true).shortages == []
  {
    AllServed(r.stock, Lines(r.file.order.items));
  }

  lemma {:induction false} AllServed(levels: Levels, lines: seq<Line>)
    requires forall k :: 0 <= k < |lines| ==> lines[k].variant in levels
    requires forall v <- levels :: Units(lines, v) <= levels[v].reserved
    ensures Sold(levels, lines, true).served == lines && Sold(levels, lines, true).shortages == []
  {
    if lines != [] {
      var init, last := lines[..|lines| - 1], lines[|lines| - 1];
      assert lines == init + [last];
      UnitsAppend(init, last);
      AllServed(levels, init);
      SoldEffect(levels, init, true);
    }
  }

  /** A deduction never leaves less than what is reserved. */
  lemma {:induction false} SoldLeavesRoom(levels: Levels, lines: seq<Line>, active: bool)
    requires forall v <- levels :: levels[v].reserved <= levels[v].total
    ensures forall v <- Sold(levels, lines, active).levels ::
              Sold(levels, lines, active).levels[v].reserved <= Sold(levels, lines, active).levels[v].total
  {
    if lines != [] {
      SoldLeavesRoom(levels, lines[..|lines| - 1], active);
    }
  }

  /** Taking the reservation again is possible only when no variant ends with more reserved than it has. */
  lemma ReserveTogether(r: Rows)
    requires StockCovers(GoodsOf(r)) && !r.file.order.reservationActive
    requires Fits(r.stock, Lines(r.file.order.items))
    ensures var r' := OrderRows(r.file.(order := r.file.order.(reservationActive := true)), Reserved(r.stock, Lines(r.file.order.items)));
            ReservesTogether(GoodsOf(r), GoodsOf(r')) && Conserves(GoodsOf(r), GoodsOf(r'))
  {
    forall v | v in r.stock ensures Units(Lines(r.file.order.items), v) <= r.stock[v].Available() {
      UnitsOfMember(Lines(r.file.order.items), Line(v, 0));
    }
  }

  /** Only dates and status of the order may differ. */
  ghost predicate StockUntouched(g: Goods, g': Goods) {
    && g'.stock == g.stock && g'.movements == g.movements
    && g'.order == g.order.(status := g'.order.status, cause := g'.order.cause, deliveredAt := g'.order.deliveredAt)
  }

  /** The step keeps order and stock in step, and conserves units. */
  ghost predicate Together(g: Goods, g': Goods) {
    ReservesTogether(g, g') && Conserves(g, g') && OrderOk(g')
  }

  lemma NothingMoves(g: Goods)
    requires OrderOk(g) && StockCovers(g)
    ensures Together(g, g)
  {}

  /** A status change that keeps the flag right, and writes neither stock nor items. */
  lemma StaysTogether(g: Goods, g': Goods)
    requires OrderOk(g) && StockCovers(g) && StockUntouched(g, g') && FlagOk(g'.order)
    ensures Together(g, g')
  {}

  lemma ReleasingMoveTogether(r: Rows, to: Status, reason: Reason, now: Time)
    requires OrderOk(GoodsOf(r)) && StockCovers(GoodsOf(r)) && to !in {PendientePago, Pagado}
    ensures var released := ReservationReleased(r);
            Together(GoodsOf(r), GoodsOf(released.(file := Moved(released.file, to, reason, now))))
  {
    ReleaseTogether(r);
  }

  lemma RetakingMoveTogether(r: Rows, payment: PaymentRef, now: Time)
    requires OrderOk(GoodsOf(r)) && StockCovers(GoodsOf(r)) && r.file.order.status == OrderStatus.PagoRechazado
    ensures var taken := Retaken(r, payment);
            Together(GoodsOf(r), GoodsOf(taken.(file := Moved(taken.file, PagoPendienteAcreditacion, PaymentReported(payment), now))))
  {
    if Fits(r.stock, Lines(r.file.order.items)) {
      ReserveTogether(r);
    }
  }

  /** The outcome of a verified payment keeps reservations, deductions and stock in step. */
  lemma OutcomeTogether(r: Rows, outcome: PaymentOutcome, payment: PaymentRef, now: Time)
    requires LifeOk(LifeOf(r.file)) && OrderOk(GoodsOf(r)) && StockCovers(GoodsOf(r))
    ensures Together(GoodsOf(r), GoodsOf(PaymentApplied(r, outcome, payment, now).rows))
  {
    NothingMoves(GoodsOf(r));
    var status := r.file.order.status;
    if outcome == Approved && (Awaiting(status) || r.file.order.cause == Some(ReservaVencida)) {
      CreditTogether(r, payment, now);
    } else if outcome == Rejected && status in {PendientePago, PagoPendienteAcreditacion} {
      ReleasingMoveTogether(r, OrderStatus.PagoRechazado, PaymentReported(payment), now);
    } else if outcome == Pending && status == OrderStatus.PagoRechazado {
      RetakingMoveTogether(r, payment, now);
    } else if outcome == Pending && status == PendientePago {
      StaysTogether(GoodsOf(r), GoodsOf(PaymentApplied(r, outcome, payment, now).rows));
    }
  }

  lemma PaymentTogether(r: Rows, report: Report, now: Time)
    requires LifeOk(LifeOf(r.file)) && OrderOk(GoodsOf(r)) && StockCovers(GoodsOf(r))
    ensures Together(GoodsOf(r), GoodsOf(PaymentProcessed(r, report, now).0))
  {
    var r' := PaymentProcessed(r, report, now).0;
    var k := Find(r.file.payments, report.externalId);
    var mapped := StatusMap(report.status);
    if mapped.Some? {
      var saved := r.(file := Saved(r.file, k, NewPayment(report, mapped.value.status, now)));
      OutcomeTogether(saved, mapped.value.outcome, report.externalId, now);
      var applied := PaymentApplied(saved, mapped.value.outcome, report.externalId, now).rows;
      NothingMoves(GoodsOf(r));
      assert GoodsOf(saved) == GoodsOf(r);
      assert GoodsOf(r') == GoodsOf(applied) || GoodsOf(r') == GoodsOf(r);
    } else {
      NothingMoves(GoodsOf(r));
    }
  }

  /** Cancelling before dispatch: the order keeps nothing, reserved or deducted. */
  lemma UndispatchedTogether(r: Rows, cause: Cause, now: Time)
    requires LifeOk(LifeOf(r.file)) && OrderOk(GoodsOf(r)) && StockCovers(GoodsOf(r))
    ensures Together(GoodsOf(r), GoodsOf(StockReturned(r.(file := Moved(r.file, OrderStatus.Cancelado, CancelledBy(cause), now)))))
  {
    var moved := r.(file := Moved(r.file, OrderStatus.Cancelado, CancelledBy(cause), now));
    var returned := StockReturned(moved);
    ReturnTogether(moved);
    ShapeKept(r.file.order, returned.file.order);
  }

  lemma CancellationTogether(r: Rows, cause: Cause, origin: RefundOrigin, now: Time)
    requires LifeOk(LifeOf(r.file)) && OrderOk(GoodsOf(r)) && StockCovers(GoodsOf(r))
    requires CanTransition(r.file.order.status, OrderStatus.Cancelado)
    ensures Together(GoodsOf(r), GoodsOf(Cancelled(r, cause, origin, now)))
    ensures r.file.order.status == Despachado ==>
              var r' := Cancelled(r, cause, origin, now);
              r'.stock == r.stock && r'.file.movements == r.file.movements && r'.file.order.items == r.file.order.items
  {
    var moved := r.(file := Moved(r.file, OrderStatus.Cancelado, CancelledBy(cause), now));
    var r' := Cancelled(r, cause, origin, now);
    if r.file.order.status == Despachado {
      StaysTogether(GoodsOf(r), GoodsOf(r'));
    } else {
      UndispatchedTogether(r, cause, now);
      assert GoodsOf(r') == GoodsOf(StockReturned(moved));
    }
  }

  lemma RetryTogether(r: Rows, payer: nat, offers: seq<Offer>, now: Time)
    requires OrderOk(GoodsOf(r)) && StockCovers(GoodsOf(r)) && |offers| == |r.file.order.items|
    ensures Together(GoodsOf(r), GoodsOf(OpenedOr(RetryOpened(r, payer, offers, now), r)))
  {
    NothingMoves(GoodsOf(r));
    if !r.file.order.reservationActive && Fits(r.stock, Lines(r.file.order.items)) {
      ReserveTogether(r);
    }
  }

  // ----- Receptions: stock moves, but never what is reserved or deducted for the order -----

  /** Same reservations, still covered; no sale and no cancellation among the new movements. */
  ghost predicate ShelfMoves(shelf: Shelf, after: Shelf) {
    && after.levels.Keys == shelf.levels.Keys
    && (forall v <- shelf.levels ::
          && after.levels[v].reserved == shelf.levels[v].reserved
          && (shelf.levels[v].Available() >= 0 ==> after.levels[v].Available() >= 0))
    && (forall v :: Put(after.movements, Venta, v) == Put(shelf.movements, Venta, v))
    && (forall v :: Put(after.movements, Cancelacion, v) == Put(shelf.movements, Cancelacion, v))
  }

  lemma MovementsApart(movements: seq<Movement>, m: Movement)
    requires m.kind !in {Venta, Cancelacion}
    ensures forall v :: Put(movements + [m], Venta, v) == Put(movements, Venta, v)
    ensures forall v :: Put(movements + [m], Cancelacion, v) == Put(movements, Cancelacion, v)
  {
    assert (movements + [m])[..|movements|] == movements;
  }

  lemma ArrivalMoves(shelf: Shelf, a: Arrival)
    ensures ShelfMoves(shelf, ReturnOne(shelf, a))
  {
    if a.line.variant in shelf.levels {
      var entered := MoveTotal(shelf, Devolucion, a.line, a.line.quantity);
      MovementsApart(shelf.movements, entered.movements[|shelf.movements|]);
      var left := MoveTotal(entered, Merma, a.line, 0 - a.line.quantity);
      MovementsApart(entered.movements, left.movements[|entered.movements|]);
    }
  }

  lemma ReplacementMoves(shelf: Shelf, line: Line)
    requires Covers(shelf.levels, line, false)
    ensures ShelfMoves(shelf, MoveTotal(shelf, Cambio, line, 0 - line.quantity))
  {
    MovementsApart(shelf.movements, MoveTotal(shelf, Cambio, line, 0 - line.quantity).movements[|shelf.movements|]);
  }

  lemma MovesThenMoves(a: Shelf, b: Shelf, c: Shelf)
    requires ShelfMoves(a, b) && ShelfMoves(b, c)
    ensures ShelfMoves(a, c)
  {}

  lemma {:induction false} ArrivalsMove(shelf: Shelf, arrivals: seq<Arrival>, n: nat)
    requires n <= |arrivals|
    ensures ShelfMoves(shelf, ReturnedToShelf(shelf, arrivals, n))
  {
    if n > 0 {
      ArrivalsMove(shelf, arrivals, n - 1);
      ArrivalMoves(ReturnedToShelf(shelf, arrivals, n - 1), arrivals[n - 1]);
      MovesThenMoves(shelf, ReturnedToShelf(shelf, arrivals, n - 1), ReturnedToShelf(shelf, arrivals, n));
    }
  }

  lemma {:induction false} ReplacementsMove(shelf: Shelf, items: seq<RequestItem>, inputs: seq<Input>, options: map<nat, set<VariantId>>, n: nat)
    requires n <= |items|
    ensures ShelfMoves(shelf, Replaced(shelf, items, inputs, options, n).shelf)
  {
    if n > 0 {
      ReplacementsMove(shelf, items, inputs, options, n - 1);
      var done := Replaced(shelf, items, inputs, options, n - 1).shelf;
      var after := Replaced(shelf, items, inputs, options, n).shelf;
      if after != done {
        var input := InputFor(inputs, items[n - 1].item).value;
        ReplacementMoves(done, Line(input.replacement.value, input.quantity));
        MovesThenMoves(shelf, done, after);
      }
    }
  }

  lemma ShelfKeepsTogether(r: Rows, r': Rows)
    requires OrderOk(GoodsOf(r)) && StockCovers(GoodsOf(r))
    requires ShelfMoves(Shelf(r.stock, r.file.movements), Shelf(r'.stock, r'.file.movements))
    requires StockUntouched(GoodsOf(r), GoodsOf(r').(stock := r.stock, movements := r.file.movements)) && FlagOk(r'.file.order)
    ensures ReservesTogether(GoodsOf(r), GoodsOf(r')) && OrderOk(GoodsOf(r'))
  {
    forall v | v in r.stock ensures r'.stock[v].reserved <= r'.stock[v].total {
      assert r.stock[v].Available() >= 0;
    }
  }

  lemma ReceptionMoves(r: Rows, k: nat, inputs: seq<Input>, options: map<nat, set<VariantId>>, now: Time)
    requires RequestReceived(r, k, inputs, options, now).Done?
    ensures var r' := RequestReceived(r, k, inputs, options, now).value;
            ShelfMoves(Shelf(r.stock, r.file.movements), Shelf(r'.stock, r'.file.movements))
  {
    var q := r.file.requests[k];
    var start := Shelf(r.stock, r.file.movements);
    var arrivals := Arrivals(r.file.order, q.items, inputs, |q.items|);
    var shelf := ReturnedToShelf(start, arrivals, |arrivals|);
    ArrivalsMove(start, arrivals, |arrivals|);
    if q.kind != DevolucionProducto {
      ReplacementsMove(shelf, q.items, inputs, options, |q.items|);
      MovesThenMoves(start, shelf, Replaced(shelf, q.items, inputs, options, |q.items|).shelf);
    }
  }

  lemma ReceptionTogether(r: Rows, k: nat, inputs: seq<Input>, options: map<nat, set<VariantId>>, now: Time)
    requires OrderOk(GoodsOf(r)) && StockCovers(GoodsOf(r)) && RequestReceived(r, k, inputs, options, now).Done?
    ensures var r' := RequestReceived(r, k, inputs, options, now).value;
            ReservesTogether(GoodsOf(r), GoodsOf(r')) && OrderOk(GoodsOf(r'))
  {
    ReceptionMoves(r, k, inputs, options, now);
    ReceptionWritesOrder(r, k, inputs, options, now);
    ShelfKeepsTogether(r, RequestReceived(r, k, inputs, options, now).value);
  }

  // ----- Every step -----

  /** Steps that write only requests, refunds or notes. */
  predicate IsPaperwork(e: Event) {
    e.CreateReturn? || e.ApproveReturn? || e.RejectReturn? || e.MoveRefund? || e.AnswerRefund? || e.RetryRefund? || e.ResolveRefund?
  }

  lemma PaperworkMovesNothing(r: Rows, e: Event, now: Time)
    requires IsPaperwork(e)
    ensures GoodsOf(Step(r, e, now)) == GoodsOf(r)
  {}

  lemma StatusStepTogether(r: Rows, e: Event, now: Time)
    requires LifeOk(LifeOf(r.file)) && OrderOk(GoodsOf(r)) && StockCovers(GoodsOf(r))
    requires e.Expire? || e.Compensate? || e.MoveAsAdmin?
    ensures Together(GoodsOf(r), GoodsOf(Step(r, e, now)))
  {
    NothingMoves(GoodsOf(r));
    if e.Expire? && ReservationDue(r.file.order, now) {
      ReleasingMoveTogether(r, OrderStatus.Cancelado, CancelledBy(ReservaVencida), now);
    } else if e.Compensate? && r.file.order.status == PendientePago {
      ReleasingMoveTogether(r, OrderStatus.Cancelado, CancelledBy(Pasarela), now);
    } else if e.MoveAsAdmin? && e.to in AdminTransitions(r.file.order.status) {
      AdminTransitionsAreTransitions(r.file.order.status, e.to);
      StaysTogether(GoodsOf(r), GoodsOf(Step(r, e, now)));
    }
  }

  lemma CustomerCancelTogether(r: Rows, userId: nat, expected: Status, now: Time)
    requires LifeOk(LifeOf(r.file)) && OrderOk(GoodsOf(r)) && StockCovers(GoodsOf(r))
    ensures Together(GoodsOf(r), GoodsOf(RowsOr(CustomerCancelled(r, userId, expected, now), r)))
  {
    if CustomerCancelled(r, userId, expected, now).Done? {
      CancellationTogether(r, Cliente, CU14, now);
    } else {
      NothingMoves(GoodsOf(r));
    }
  }

  lemma AdminCancelTogether(r: Rows, expected: Status, now: Time)
    requires LifeOk(LifeOf(r.file)) && OrderOk(GoodsOf(r)) && StockCovers(GoodsOf(r))
    ensures Together(GoodsOf(r), GoodsOf(RowsOr(AdminCancelled(r, expected, now), r)))
  {
    if AdminCancelled(r, expected, now).Done? {
      CancellationTogether(r, Administrador, CU19, now);
    } else {
      NothingMoves(GoodsOf(r));
    }
  }

  /** Every step keeps the flags, the deductions and the stock in step; all but a reception conserve units. */
  lemma StepTogether(r: Rows, e: Event, now: Time)
    requires LifeOk(LifeOf(r.file)) && OrderOk(GoodsOf(r)) && StockCovers(GoodsOf(r))
    ensures ReservesTogether(GoodsOf(r), GoodsOf(Step(r, e, now))) && OrderOk(GoodsOf(Step(r, e, now)))
    ensures MovesOrderStock(e) ==> Conserves(GoodsOf(r), GoodsOf(Step(r, e, now)))
  {
    NothingMoves(GoodsOf(r));
    if IsPaperwork(e) {
      PaperworkMovesNothing(r, e, now);
    } else if e.ReportPayment? {
      PaymentTogether(r, e.report, now);
    } else if e.CancelAsCustomer? {
      CustomerCancelTogether(r, e.userId, e.expected, now);
    } else if e.CancelAsAdmin? {
      AdminCancelTogether(r, e.expected, now);
    } else if e.RetryPay? {
      if |e.offers| == |r.file.order.items| { RetryTogether(r, e.payer, e.offers, now); }
    } else if e.ReceiveReturn? {
      if RequestReceived(r, e.request, e.inputs, e.options, now).Done? { ReceptionTogether(r, e.request, e.inputs, e.options, now); }
    } else {
      StatusStepTogether(r, e, now);
    }
  }
}
