/** Closing a rejected refund by hand does not check the balance: a run where it gives a payment back more than it brought. */
module ManualClosing {
  import opened Wrappers
  import opened OrderStatus
  import opened Stock
  import opened Entities
  import opened StockReservation
  import opened OrdersService
  import opened PaymentsService
  import opened PaymentLedger
  import opened RefundsService
  import opened Cart
  import opened Returns
  import opened Reception
  import opened Machine
  import opened MoneyInvariant
  import opened Runs
  import opened Checkout

  // ----- An order of two units at 50: a payment of 70 that does not match, then the one of 100 that credits it -----

  const OFFERED := Offer(true, true, true, 50)
  const CART := [CartItem(0, 2, 50, OFFERED)]
  const MISMATCHED := Payment(0, Aprobado, 70, true, 0)
  const CREDITING := Payment(1, Aprobado, 100, true, 1)

  /** What the run looks at in the order: its lines, payments, refunds and requests. */
  ghost predicate Shows(f: File, status: Status, payments: seq<Payment>, refunds: seq<Refund>, requests: seq<Request>) {
    && f.order.userId == 0 && f.order.total == 100 && f.order.status == status
    && |f.order.items| == 1 && f.order.items[0].quantity == 2 && f.order.items[0].unitPrice == 50
    && (status == Entregado ==> f.order.deliveredAt == Some(1))
    && f.payments == payments && f.refunds == refunds && f.requests == requests
  }

  ghost predicate At(sys: System, status: Status, payments: seq<Payment>, refunds: seq<Refund>, requests: seq<Request>) {
    |sys.files| == 1 && Shows(sys.files[0], status, payments, refunds, requests)
  }

  lemma RunStep(events: seq<SystemEvent>, e: SystemEvent)
    ensures Run(Empty, events + [e]) == SystemStep(Run(Empty, events), e)
  {
    assert (events + [e])[..|events|] == events;
  }

  /** The only order after an event. */
  lemma AtAfter(sys: System, e: Event, now: Time, status: Status, payments: seq<Payment>, refunds: seq<Refund>, requests: seq<Request>)
    ensures |sys.files| == 1 && Shows(Step(sys.Rows(0), e, now).file, status, payments, refunds, requests) ==>
              At(SystemStep(sys, OnOrder(0, e, now)), status, payments, refunds, requests)
  {}

  lemma Placed()
    ensures At(SystemStep(System([], map[0 := Level(2, 0)]), PlaceOrder(0, CART, 0, 100, 10)), PendientePago, [], [], [])
  {
    assert CartProblems(CART, 1) == CartProblems(CART, 0) == [];
    assert OrderItems(CART) == [Item(0, 2, 50, false)] + OrderItems(CART[1..]) == [Item(0, 2, 50, false)];
    var items := [Item(0, 2, 50, false)];
    assert Lines(items) == [Line(0, 2)] + Lines(items[1..]) == [Line(0, 2)];
    assert Units([Line(0, 2)], 0) == 2;
    assert Subtotal(items) == 100 + Subtotal(items[1..]) == 100;
  }

  /** The mismatch is noted. */
  lemma Mismatches(r: Rows)
    requires Shows(r.file, PendientePago, [], [], [])
    ensures Shows(PaymentProcessed(r, Report(0, RawApproved, 70, true), 0).0.file, PendientePago, [MISMATCHED], [], [])
  {
    assert Find(r.file.payments, 0) == 0;
  }

  lemma OrderCredited(r: Rows)
    requires Shows(r.file, PendientePago, [MISMATCHED, CREDITING], [], [])
    ensures Shows(OrdersService.Credited(r, 1, 1).rows.file, Pagado, [MISMATCHED, CREDITING], [], [])
  {
    var items := r.file.order.items;
    var sale := Sold(r.stock, Lines(items), r.file.order.reservationActive);
    assert |MarkCommitted(items, sale.shortages)| == 1 + |MarkCommitted(items[1..], sale.shortages)| == 1;
  }

  /** The exact payment credits the order. */
  lemma Credits(r: Rows)
    requires Shows(r.file, PendientePago, [MISMATCHED], [], [])
    ensures Shows(PaymentProcessed(r, Report(1, RawApproved, 100, true), 1).0.file, Pagado, [MISMATCHED, CREDITING], [], [])
  {
    var f := r.file;
    assert Find(f.payments, 1) == 1 + Find(f.payments[1..], 1) == 1;
    var saved := r.(file := Saved(f, 1, CREDITING));
    OrderCredited(saved);
    assert PaymentProcessed(r, Report(1, RawApproved, 100, true), 1).0 == PaymentApplied(saved, Approved, 1, 1).rows;
  }

  // ----- Delivered, then returned one unit at a time -----

  lemma Delivered(sys: System)
    requires At(sys, Pagado, [MISMATCHED, CREDITING], [], [])
    ensures var a := SystemStep(sys, OnOrder(0, MoveAsAdmin(Pagado, EnPreparacion), 1));
            var b := SystemStep(a, OnOrder(0, MoveAsAdmin(EnPreparacion, Despachado), 1));
            At(SystemStep(b, OnOrder(0, MoveAsAdmin(Despachado, Entregado), 1)), Entregado, [MISMATCHED, CREDITING], [], [])
  {}

  const ONE_UNIT := RequestItem(0, 1, None, None, None, None)
  const REQUESTED := Request(DevolucionProducto, Solicitada, [ONE_UNIT], None)
  const APPROVED := Request(DevolucionProducto, Aprobada, [ONE_UNIT.(approved := Some(1))], None)

  function Received(refund: nat): Request {
    Request(DevolucionProducto, Resuelta, [RequestItem(0, 1, Some(1), Some(1), Some(Ok), Some(true))], Some(refund))
  }

  const CREATE := OnOrder(0, CreateReturn(0, DevolucionProducto, [RequestedLine(0, 1)]), 2)

  const INPUTS := [Input(0, 1, Ok, true, None)]

  function Approving(k: nat): (e: SystemEvent)
    ensures e.OnOrder?
  {
    OnOrder(0, ApproveReturn(k, [Decision(0, 1)], false), 2)
  }

  function Receiving(k: nat): (e: SystemEvent)
    ensures e.OnOrder?
  {
    OnOrder(0, ReceiveReturn(k, INPUTS, map[]), 2)
  }

  lemma UnitRequested(r: Rows, refunds: seq<Refund>, requests: seq<Request>)
    requires Shows(r.file, Entregado, [MISMATCHED, CREDITING], refunds, requests) && Blocked(requests, |requests|, 0) <= 1
    ensures Shows(Step(r, CREATE.event, 2).file, Entregado, [MISMATCHED, CREDITING], refunds, requests + [REQUESTED])
  {
    var f, lines := r.file, [RequestedLine(0, 1)];
    assert EligibleOf(f, 0) >= 1;
    assert FirstLineError(f, lines, 1) == FirstLineError(f, lines, 0) == None;
    assert NewLines(lines) == [ONE_UNIT];
    assert RequestCreated(f, 0, DevolucionProducto, lines, 2) == Done(f.(requests := requests + [REQUESTED]));
  }

  lemma UnitApproved(r: Rows, refunds: seq<Refund>, requests: seq<Request>)
    requires Shows(r.file, Entregado, [MISMATCHED, CREDITING], refunds, requests + [REQUESTED])
    ensures Shows(Step(r, Approving(|requests|).event, 2).file, Entregado, [MISMATCHED, CREDITING], refunds, requests + [APPROVED])
  {
    var f, decisions := r.file, [Decision(0, 1)];
    assert Decided(decisions, 0) == Some(1);
    assert SameItems([ONE_UNIT], decisions);
    var lines := ApprovedLines([ONE_UNIT], decisions, 1);
    assert lines == [ONE_UNIT.(approved := Some(1))] && lines[0].approved.value == lines[0].requested == 1;
    assert (requests + [REQUESTED])[|requests| := APPROVED] == requests + [APPROVED];
    assert RequestApproved(f, |requests|, decisions, false) == Done(f.(requests := requests + [APPROVED]));
  }

  lemma ChosenIsMismatched(f: File)
    requires f.payments == [MISMATCHED, CREDITING] && RefundedCents(f.refunds, 0) <= 20 && RefundedCents(f.refunds, 1) == 0
    ensures ChosenPayment(f, 50, None) == Some(0)
  {
    assert FirstWithBalance(f, 50, None, 1) == Some(0);
    assert FirstWithBalance(f, 50, None, 2) == Some(0);
  }

  lemma LineReceived()
    ensures ReceptionError(APPROVED.items, INPUTS) == None
    ensures ReceivedLines(APPROVED, INPUTS, 1) == Received(0).items
  {
    assert InputFor(INPUTS, 0) == Some(INPUTS[0]);
    assert ReceivedLines(APPROVED, INPUTS, 1)[0] == Received(0).items[0];
  }

  /** The unit is refunded against the payment that did not match; the second one closes the order. */
  lemma UnitResolved(f: File, refunds: seq<Refund>, requests: seq<Request>)
    requires requests == [] || requests == [Received(0)]
    requires Shows(f, Entregado, [MISMATCHED, CREDITING], refunds, requests + [APPROVED])
    requires RefundedCents(refunds, 0) <= 20 && RefundedCents(refunds, 1) == 0
    ensures Shows(ReturnResolved(f, |requests|, Received(0).items, 2), if requests == [] then Entregado else Devuelto,
                  [MISMATCHED, CREDITING], refunds + [NewRefund(0, 50, CU22)], requests + [Received(|refunds|)])
  {
    var k, lines := |requests|, Received(0).items;
    ChosenIsMismatched(f);
    assert RefundAmount(f.order.items, lines, 1) == 50;
    assert ReturnRefunded(f, 50) == f.(refunds := refunds + [NewRefund(0, 50, CU22)]);
    var requests' := requests + [Received(|refunds|)];
    assert (requests + [APPROVED])[k := Received(|refunds|)] == requests';
    UnitsBack(requests, |refunds|);
  }

  lemma UnitsBack(requests: seq<Request>, refund: nat)
    requires requests == [] || requests == [Received(0)]
    ensures var requests' := requests + [Received(refund)]; ReturnedUnits(requests', |requests'|, 0) == |requests'|
  {
    assert ReceivedUnits(Received(refund).items, 1, 0) == 1;
    if requests != [] {
      assert ReturnedUnits(requests + [Received(refund)], 1, 0) == 1;
    }
  }

  lemma UnitReceived(r: Rows, k: nat) returns (movements: seq<Movement>)
    requires k < |r.file.requests| && r.file.requests[k] == APPROVED
    ensures Step(r, ReceiveReturn(k, INPUTS, map[]), 2).file == ReturnResolved(r.file.(movements := movements), k, Received(0).items, 2)
  {
    LineReceived();
    var arrivals := Arrivals(r.file.order, APPROVED.items, INPUTS, 1);
    var shelf := ReturnedToShelf(Shelf(r.stock, r.file.movements), arrivals, |arrivals|);
    movements := shelf.movements;
    assert RequestReceived(r, k, INPUTS, map[], 2)
           == Done(OrderRows(ReturnResolved(r.file.(movements := movements), k, Received(0).items, 2), shelf.levels));
  }

  lemma UnitReturned(r: Rows, refunds: seq<Refund>, requests: seq<Request>)
    requires requests == [] || requests == [Received(0)]
    requires Shows(r.file, Entregado, [MISMATCHED, CREDITING], refunds, requests + [APPROVED])
    requires RefundedCents(refunds, 0) <= 20 && RefundedCents(refunds, 1) == 0
    ensures Shows(Step(r, ReceiveReturn(|requests|, INPUTS, map[]), 2).file, if requests == [] then Entregado else Devuelto,
                  [MISMATCHED, CREDITING], refunds + [NewRefund(0, 50, CU22)], requests + [Received(|refunds|)])
  {
    var movements := UnitReceived(r, |requests|);
    UnitResolved(r.file.(movements := movements), refunds, requests);
  }

  // ----- The run -----

  const REJECTION := OnOrder(0, MoveRefund(0, 1, ReembolsoRechazado), 2)

  /** From a delivered order: one unit returned and its refund rejected, then the other one returned too. */
  lemma Returned(events: seq<SystemEvent>) returns (more: seq<SystemEvent>)
    requires At(Run(Empty, events), Entregado, [MISMATCHED, CREDITING], [], [])
    ensures At(Run(Empty, more), Devuelto, [MISMATCHED, CREDITING],
               [NewRefund(0, 50, CU22).(status := ReembolsoRechazado), NewRefund(0, 50, CU22)], [Received(0), Received(1)])
  {
    var rejected := [NewRefund(0, 50, CU22).(status := ReembolsoRechazado)];
    more := OneReturned(events, [], []);
    RunStep(more, REJECTION);
    more := more + [REJECTION];
    assert At(Run(Empty, more), Entregado, [MISMATCHED, CREDITING], rejected, [Received(0)]);
    more := OneReturned(more, rejected, [Received(0)]);
  }

  lemma OneReturned(events: seq<SystemEvent>, refunds: seq<Refund>, requests: seq<Request>) returns (more: seq<SystemEvent>)
    requires requests == [] || requests == [Received(0)]
    requires At(Run(Empty, events), Entregado, [MISMATCHED, CREDITING], refunds, requests)
    requires RefundedCents(refunds, 0) <= 20 && RefundedCents(refunds, 1) == 0
    ensures At(Run(Empty, more), if requests == [] then Entregado else Devuelto, [MISMATCHED, CREDITING],
               refunds + [NewRefund(0, 50, CU22)], requests + [Received(|refunds|)])
  {
    assert Blocked(requests, |requests|, 0) <= 1 by {
      assert BlockedByLines(Resuelta, Received(0).items, 1, 0) == 1;
    }
    UnitRequested(Run(Empty, events).Rows(0), refunds, requests);
    AtAfter(Run(Empty, events), CREATE.event, 2, Entregado, [MISMATCHED, CREDITING], refunds, requests + [REQUESTED]);
    RunStep(events, CREATE);
    more := events + [CREATE];
    UnitApproved(Run(Empty, more).Rows(0), refunds, requests);
    AtAfter(Run(Empty, more), Approving(|requests|).event, 2, Entregado, [MISMATCHED, CREDITING], refunds, requests + [APPROVED]);
    RunStep(more, Approving(|requests|));
    more := more + [Approving(|requests|)];
    UnitReturned(Run(Empty, more).Rows(0), refunds, requests);
    AtAfter(Run(Empty, more), Receiving(|requests|).event, 2, if requests == [] then Entregado else Devuelto, [MISMATCHED, CREDITING],
            refunds + [NewRefund(0, 50, CU22)], requests + [Received(|refunds|)]);
    RunStep(more, Receiving(|requests|));
    more := more + [Receiving(|requests|)];
  }

  lemma DeliveredRun() returns (events: seq<SystemEvent>)
    ensures At(Run(Empty, events), Entregado, [MISMATCHED, CREDITING], [], [])
  {
    var mismatch, credit := OnOrder(0, ReportPayment(Report(0, RawApproved, 70, true)), 0), OnOrder(0, ReportPayment(Report(1, RawApproved, 100, true)), 1);
    events := [AddVariant(0, 2)];
    RunStep([], AddVariant(0, 2));
    assert [] + [AddVariant(0, 2)] == events;
    RunStep(events, PlaceOrder(0, CART, 0, 100, 10));
    events := events + [PlaceOrder(0, CART, 0, 100, 10)];
    Placed();
    Mismatches(Run(Empty, events).Rows(0));
    RunStep(events, mismatch);
    events := events + [mismatch];
    Credits(Run(Empty, events).Rows(0));
    RunStep(events, credit);
    events := events + [credit];
    events := DeliveryRun(events);
  }

  lemma DeliveryRun(events: seq<SystemEvent>) returns (more: seq<SystemEvent>)
    requires At(Run(Empty, events), Pagado, [MISMATCHED, CREDITING], [], [])
    ensures At(Run(Empty, more), Entregado, [MISMATCHED, CREDITING], [], [])
  {
    Delivered(Run(Empty, events));
    RunStep(events, OnOrder(0, MoveAsAdmin(Pagado, EnPreparacion), 1));
    more := events + [OnOrder(0, MoveAsAdmin(Pagado, EnPreparacion), 1)];
    RunStep(more, OnOrder(0, MoveAsAdmin(EnPreparacion, Despachado), 1));
    more := more + [OnOrder(0, MoveAsAdmin(EnPreparacion, Despachado), 1)];
    RunStep(more, OnOrder(0, MoveAsAdmin(Despachado, Entregado), 1));
    more := more + [OnOrder(0, MoveAsAdmin(Despachado, Entregado), 1)];
  }

  /**
   * An order gets a payment that does not match and the one that credits it; both its units are returned against the
   * first, and the refund of one, rejected, is closed by hand after the other took its balance.
   */
  lemma ManualClosingCanExceed() returns (events: seq<SystemEvent>)
    ensures var sys := Run(Empty, events);
            && |sys.files| == 1 && |sys.files[0].payments| == 2 && WithinPayment(sys.files[0], 0)
            && RefundResolved(sys.files[0], 0).Done? && sys.files[0].refunds[0].payment == 0
            && !WithinPayment(SystemStep(sys, OnOrder(0, ResolveRefund(0), 3)).files[0], 0)
  {
    events := DeliveredRun();
    events := Returned(events);
    var f := Run(Empty, events).files[0];
    var closed := RefundResolved(f, 0).value.refunds;
    assert closed == [RowResolved(f.refunds[0]), f.refunds[1]];
    RefundsOfTwo(f.refunds);
    RefundsOfTwo(closed);
  }

  lemma RefundsOfTwo(refunds: seq<Refund>)
    requires |refunds| == 2 && refunds[0].payment == refunds[1].payment == 0
    ensures RefundedCents(refunds, 0)
            == (if Commits(refunds[0].status) then refunds[0].amount else 0) + if Commits(refunds[1].status) then refunds[1].amount else 0
  {
    assert RefundedCents(refunds[..1], 0) == if Commits(refunds[0].status) then refunds[0].amount else 0;
  }
}
