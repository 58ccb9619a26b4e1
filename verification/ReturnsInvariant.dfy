/** After-sale accounting: no unit is requested, approved or received twice, and an order is returned only when all came back. */
module ReturnsInvariant {
  import opened Wrappers
  import opened OrderStatus
  import opened Stock
  import opened Entities
  import opened OrdersService
  import opened PaymentsService
  import opened OrderCancellation
  import opened Returns
  import opened Reception
  import opened Machine

  ghost predicate DistinctLines(lines: seq<RequestItem>) {
    forall i, j :: 0 <= i < j < |lines| ==> lines[i].item != lines[j].item
  }

  /** What each line of a request says, by the status of the request. */
  ghost predicate LineOk(q: Request, l: RequestItem) {
    match q.status
    case Solicitada => l.requested > 0
    case Aprobada => l.approved.Some? && l.approved.value <= l.requested
    case Resuelta => l.received.Some? && (l.refundApproved == Some(true) ==> q.kind == DevolucionProducto)
    case RechazadaPorTienda => true
  }

  ghost predicate RequestOk(bought: nat, q: Request) {
    && q.items != [] && DistinctLines(q.items)
    && (forall i :: 0 <= i < |q.items| ==> q.items[i].item < bought && LineOk(q, q.items[i]))
    && (q.status != RechazadaPorTienda ==> exists i :: 0 <= i < |q.items| && BlockedLine(q.status, q.items[i], q.items[i].item) > 0)
  }

  /** The after-sale side of an order. */
  datatype AfterSale = AfterSale(bought: seq<Item>, status: Status, requests: seq<Request>)

  function AfterSaleOf(f: File): AfterSale {
    AfterSale(Uncommitted(f.order.items), f.order.status, f.requests)
  }

  function BlockedUnits(a: AfterSale, item: nat): nat {
    Blocked(a.requests, |a.requests|, item)
  }

  ghost predicate ReturnsOk(a: AfterSale) {
    && (a.requests != [] ==> a.status in {Entregado, Devuelto})
    && (forall k :: 0 <= k < |a.requests| ==> RequestOk(|a.bought|, a.requests[k]))
    && (forall i :: 0 <= i < |a.bought| ==> BlockedUnits(a, i) <= a.bought[i].quantity)
    && (a.status == Devuelto ==> forall i :: 0 <= i < |a.bought| ==> ReturnedUnits(a.requests, |a.requests|, i) == a.bought[i].quantity)
  }

  // ----- Sums over lines and requests -----

  lemma {:induction false} LinewiseAtMost(s: RequestStatus, lines: seq<RequestItem>, s': RequestStatus, lines': seq<RequestItem>, n: nat, item: nat)
    requires n <= |lines| == |lines'|
    requires forall l :: 0 <= l < n ==> BlockedLine(s, lines[l], item) <= BlockedLine(s', lines'[l], item)
    ensures BlockedByLines(s, lines, n, item) <= BlockedByLines(s', lines', n, item)
  {
    if n > 0 {
      LinewiseAtMost(s, lines, s', lines', n - 1, item);
    }
  }

  /** With one line per item, a request blocks of an item what that line blocks. */
  lemma {:induction false} BlockedByOne(s: RequestStatus, lines: seq<RequestItem>, n: nat, item: nat)
    requires n <= |lines| && DistinctLines(lines)
    ensures (forall l :: 0 <= l < n ==> lines[l].item != item) ==> BlockedByLines(s, lines, n, item) == 0
    ensures forall l :: 0 <= l < n && lines[l].item == item ==> BlockedByLines(s, lines, n, item) == BlockedLine(s, lines[l], item)
  {
    if n > 0 {
      BlockedByOne(s, lines, n - 1, item);
    }
  }

  lemma {:induction false} BlockedUpdate(requests: seq<Request>, n: nat, k: nat, q: Request, item: nat)
    requires k < |requests| && n <= |requests|
    ensures Blocked(requests[k := q], n, item) + (if k < n then BlockedBy(requests[k], item) else 0)
            == Blocked(requests, n, item) + if k < n then BlockedBy(q, item) else 0
  {
    if n > 0 {
      BlockedUpdate(requests, n - 1, k, q, item);
    }
  }

  lemma {:induction false} BlockedPrefix(requests: seq<Request>, more: seq<Request>, n: nat, item: nat)
    requires n <= |requests|
    ensures Blocked(requests + more, n, item) == Blocked(requests, n, item)
  {
    if n > 0 {
      BlockedPrefix(requests, more, n - 1, item);
    }
  }

  lemma {:induction false} ReceivedIsBlocked(lines: seq<RequestItem>, n: nat, item: nat)
    requires n <= |lines|
    ensures ReceivedUnits(lines, n, item) == BlockedByLines(Resuelta, lines, n, item)
  {
    if n > 0 {
      ReceivedIsBlocked(lines, n - 1, item);
    }
  }

  /** Units that came back are blocked; so is, on top of them, whatever another request `k` keeps. */
  lemma {:induction false} ReturnedIsBlocked(requests: seq<Request>, n: nat, item: nat)
    requires n <= |requests|
    ensures ReturnedUnits(requests, n, item) <= Blocked(requests, n, item)
    ensures forall k :: 0 <= k < n && !(requests[k].kind == DevolucionProducto && requests[k].status == Resuelta)
                        ==> ReturnedUnits(requests, n, item) + BlockedBy(requests[k], item) <= Blocked(requests, n, item)
  {
    if n > 0 {
      ReturnedIsBlocked(requests, n - 1, item);
      ReceivedIsBlocked(requests[n - 1].items, |requests[n - 1].items|, item);
    }
  }

  // ----- Consequences -----

  /** The clamp of the eligible units never bites. */
  lemma EligibleIsExact(f: File, i: nat)
    requires ReturnsOk(AfterSaleOf(f)) && i < |f.order.items|
    ensures EligibleOf(f, i) + Blocked(f.requests, |f.requests|, i) == f.order.items[i].quantity
  {
    UncommittedAt(f.order.items, i);
  }

  lemma {:induction false} UncommittedAt(items: seq<Item>, i: nat)
    requires i < |items|
    ensures |Uncommitted(items)| == |items| && Uncommitted(items)[i] == items[i].(stockCommitted := false)
  {
    if i > 0 {
      UncommittedAt(items[1..], i - 1);
    } else if |items| > 1 {
      UncommittedAt(items[1..], 0);
    }
  }

  lemma UncommittedLength(items: seq<Item>)
    ensures |Uncommitted(items)| == |items|
  {
    if items != [] {
      UncommittedAt(items, 0);
    }
  }

  /** Once returned, nothing is open, nothing was ever exchanged, and nothing can be requested any more. */
  lemma ReturnedIsClosed(f: File, owner: nat, kind: RequestKind, lines: seq<RequestedLine>, now: Time)
    requires ReturnsOk(AfterSaleOf(f)) && f.order.status == Devuelto
    ensures forall q <- f.requests :: q.status == RechazadaPorTienda || (q.status == Resuelta && q.kind == DevolucionProducto)
    ensures RequestCreated(f, owner, kind, lines, now).Refused?
  {
    var a := AfterSaleOf(f);
    forall q | q in f.requests
      ensures q.status == RechazadaPorTienda || (q.status == Resuelta && q.kind == DevolucionProducto)
    {
      var k :| 0 <= k < |f.requests| && f.requests[k] == q;
      assert RequestOk(|a.bought|, a.requests[k]);
      if q.status != RechazadaPorTienda {
        var l :| 0 <= l < |q.items| && BlockedLine(q.status, q.items[l], q.items[l].item) > 0;
        var i := q.items[l].item;
        BlockedByOne(q.status, q.items, |q.items|, i);
        ReturnedIsBlocked(f.requests, |f.requests|, i);
        assert BlockedUnits(a, i) <= a.bought[i].quantity == ReturnedUnits(f.requests, |f.requests|, i);
      }
    }
  }

  // ----- Steps -----

  lemma {:induction false} NoLineError(f: File, lines: seq<RequestedLine>, n: nat, k: nat)
    requires k < n <= |lines| && FirstLineError(f, lines, n) == None
    ensures LineError(f, lines[k]) == None
  {
    if k < n - 1 {
      NoLineError(f, lines, n - 1, k);
    }
  }

  lemma NewRequestOk(f: File, owner: nat, kind: RequestKind, lines: seq<RequestedLine>, now: Time)
    requires CreationError(f, owner, lines, now) == None
    ensures RequestOk(|f.order.items|, Request(kind, Solicitada, NewLines(lines), None))
    ensures forall l :: 0 <= l < |lines| ==> LineError(f, lines[l]) == None
  {
    var q := Request(kind, Solicitada, NewLines(lines), None);
    forall l | 0 <= l < |lines| ensures LineError(f, lines[l]) == None && lines[l].quantity > 0 {
      NoLineError(f, lines, |lines|, l);
      assert lines[l] in lines;
    }
    assert BlockedLine(q.status, q.items[0], q.items[0].item) > 0;
  }

  /** A new request blocks of each item no more than what was still eligible. */
  lemma NewRequestFits(f: File, lines: seq<RequestedLine>, i: nat)
    requires ReturnsOk(AfterSaleOf(f)) && i < |f.order.items| && DistinctItems(lines)
    requires forall l :: 0 <= l < |lines| ==> LineError(f, lines[l]) == None
    ensures Blocked(f.requests, |f.requests|, i) + BlockedByLines(Solicitada, NewLines(lines), |lines|, i) <= f.order.items[i].quantity
  {
    BlockedByOne(Solicitada, NewLines(lines), |lines|, i);
    EligibleIsExact(f, i);
    if l :| 0 <= l < |lines| && lines[l].item == i {
      assert LineError(f, lines[l]) == None && NewLines(lines)[l].item == i;
    } else {
      assert forall l :: 0 <= l < |lines| ==> NewLines(lines)[l].item != i;
    }
  }

  lemma CreateKeepsReturns(f: File, owner: nat, kind: RequestKind, lines: seq<RequestedLine>, now: Time)
    requires ReturnsOk(AfterSaleOf(f)) && RequestCreated(f, owner, kind, lines, now).Done?
    ensures ReturnsOk(AfterSaleOf(RequestCreated(f, owner, kind, lines, now).value))
  {
    var q := Request(kind, Solicitada, NewLines(lines), None);
    UncommittedLength(f.order.items);
    NewRequestOk(f, owner, kind, lines, now);
    var a' := AfterSaleOf(f).(requests := f.requests + [q]);
    forall i | 0 <= i < |a'.bought| ensures BlockedUnits(a', i) <= a'.bought[i].quantity {
      BlockedPrefix(f.requests, [q], |f.requests|, i);
      NewRequestFits(f, lines, i);
      UncommittedAt(f.order.items, i);
    }
    assert AfterSaleOf(RequestCreated(f, owner, kind, lines, now).value) == a';
  }

  /** A request replaced by one that blocks no more of any item keeps the accounts. */
  lemma ShrinkKeepsReturns(a: AfterSale, k: nat, q: Request)
    requires ReturnsOk(a) && k < |a.requests| && a.status == Entregado
    requires RequestOk(|a.bought|, q)
    requires forall i :: BlockedBy(q, i) <= BlockedBy(a.requests[k], i)
    ensures ReturnsOk(a.(requests := a.requests[k := q]))
  {
    var a' := a.(requests := a.requests[k := q]);
    forall i | 0 <= i < |a.bought| ensures BlockedUnits(a', i) <= a.bought[i].quantity {
      BlockedUpdate(a.requests, |a.requests|, k, q, i);
    }
  }

  lemma ApproveKeepsReturns(f: File, k: nat, decisions: seq<Decision>, withReason: bool)
    requires ReturnsOk(AfterSaleOf(f)) && RequestApproved(f, k, decisions, withReason).Done?
    ensures ReturnsOk(AfterSaleOf(RequestApproved(f, k, decisions, withReason).value))
  {
    OpenMeansDelivered(f, k);
    var q := f.requests[k];
    var lines := ApprovedLines(q.items, decisions, |q.items|);
    var q' := q.(status := Aprobada, items := lines);
    var some :| 0 <= some < |lines| && lines[some].approved.value != 0;
    assert BlockedLine(Aprobada, lines[some], lines[some].item) > 0;
    forall i ensures BlockedBy(q', i) <= BlockedBy(q, i) {
      LinewiseAtMost(Aprobada, lines, Solicitada, q.items, |lines|, i);
    }
    ShrinkKeepsReturns(AfterSaleOf(f), k, q');
  }

  lemma RejectKeepsReturns(f: File, k: nat)
    requires ReturnsOk(AfterSaleOf(f)) && RequestRejected(f, k).Done?
    ensures ReturnsOk(AfterSaleOf(RequestRejected(f, k).value))
  {
    OpenMeansDelivered(f, k);
    var q := f.requests[k];
    var q' := q.(status := RechazadaPorTienda, items := RejectedLines(q.items));
    forall i ensures BlockedBy(q', i) <= BlockedBy(q, i) {
      LinewiseAtMost(RechazadaPorTienda, q'.items, Solicitada, q.items, |q.items|, i);
    }
    ShrinkKeepsReturns(AfterSaleOf(f), k, q');
  }

  /** An open request exists only on a delivered order. */
  lemma OpenMeansDelivered(f: File, k: nat)
    requires ReturnsOk(AfterSaleOf(f)) && k < |f.requests| && f.requests[k].status in {Solicitada, Aprobada}
    ensures f.order.status == Entregado
  {
    var q := f.requests[k];
    assert q in f.requests;
    if f.order.status == Devuelto {
      ReturnedIsClosed(f, 0, CambioProducto, [], 0);
    }
  }

  lemma ReceivedKeepsShape(bought: nat, q: Request, inputs: seq<Input>, refund: Option<nat>)
    requires RequestOk(bought, q) && q.status == Aprobada && ReceptionError(q.items, inputs) == None
    ensures var q' := q.(status := Resuelta, items := ReceivedLines(q, inputs, |q.items|), refund := refund);
            RequestOk(bought, q') && forall i :: BlockedBy(q', i) <= BlockedBy(q, i)
  {
    var lines := ReceivedLines(q, inputs, |q.items|);
    var q' := q.(status := Resuelta, items := lines, refund := refund);
    var some :| 0 <= some < |q.items| && QuantityFor(inputs, q.items[some].item) != 0;
    assert BlockedLine(Resuelta, lines[some], lines[some].item) > 0;
    forall i ensures BlockedBy(q', i) <= BlockedBy(q, i) {
      forall l | 0 <= l < |lines| ensures BlockedLine(Resuelta, lines[l], i) <= BlockedLine(Aprobada, q.items[l], i) {
        assert QuantityFor(inputs, q.items[l].item) <= q.items[l].approved.GetOr(0);
      }
      LinewiseAtMost(Resuelta, lines, Aprobada, q.items, |lines|, i);
    }
  }

  /** What a reception leaves: the request resolved and, when everything came back, the order returned. */
  lemma ReceptionResolves(r: Rows, k: nat, inputs: seq<Input>, options: map<nat, set<VariantId>>, now: Time) returns (refund: Option<nat>)
    requires RequestReceived(r, k, inputs, options, now).Done?
    ensures RequestError(r.file, k, Aprobada) == None && ReceptionError(r.file.requests[k].items, inputs) == None
    ensures var q, f' := r.file.requests[k], RequestReceived(r, k, inputs, options, now).value.file;
            && f'.requests == r.file.requests[k := q.(status := Resuelta, items := ReceivedLines(q, inputs, |q.items|), refund := refund)]
            && f'.order.items == r.file.order.items
            && f'.payments == r.file.payments
            && (f'.order.status == r.file.order.status || (f'.order.status == Devuelto && AllReturned(r.file.order, f'.requests)))
  {
    refund := RequestReceived(r, k, inputs, options, now).value.file.requests[k].refund;
  }

  lemma ReceiveKeepsReturns(r: Rows, k: nat, inputs: seq<Input>, options: map<nat, set<VariantId>>, now: Time)
    requires ReturnsOk(AfterSaleOf(r.file)) && RequestReceived(r, k, inputs, options, now).Done?
    ensures ReturnsOk(AfterSaleOf(RequestReceived(r, k, inputs, options, now).value.file))
  {
    var f, f' := r.file, RequestReceived(r, k, inputs, options, now).value.file;
    var refund := ReceptionResolves(r, k, inputs, options, now);
    OpenMeansDelivered(f, k);
    var kept := AfterSaleOf(f).(requests := f'.requests);
    UncommittedLength(f.order.items);
    ReceivedKeepsShape(|kept.bought|, f.requests[k], inputs, refund);
    ShrinkKeepsReturns(AfterSaleOf(f), k, f'.requests[k]);
    if f'.order.status == Devuelto {
      AllReturnedIsExact(f, kept);
    }
    assert AfterSaleOf(f') == kept.(status := f'.order.status);
  }

  /** What came back never exceeds what was bought, so "at least everything" is exactly everything. */
  lemma AllReturnedIsExact(f: File, a: AfterSale)
    requires ReturnsOk(a) && a.bought == Uncommitted(f.order.items)
    ensures AllReturned(f.order, a.requests) ==>
              forall i :: 0 <= i < |a.bought| ==> ReturnedUnits(a.requests, |a.requests|, i) == a.bought[i].quantity
  {
    UncommittedLength(f.order.items);
    forall i | 0 <= i < |a.bought| && AllReturned(f.order, a.requests)
      ensures ReturnedUnits(a.requests, |a.requests|, i) == a.bought[i].quantity
    {
      UncommittedAt(f.order.items, i);
      ReturnedIsBlocked(a.requests, |a.requests|, i);
      assert BlockedUnits(a, i) <= a.bought[i].quantity;
    }
  }

  // ----- Every step -----

  lemma {:induction false} SameBasket(items: seq<Item>, shortages: seq<Line>)
    ensures Uncommitted(MarkCommitted(items, shortages)) == Uncommitted(items)
    ensures Uncommitted(Uncommitted(items)) == Uncommitted(items)
  {
    if items != [] {
      SameBasket(items[1..], shortages);
    }
  }

  /** Steps of other services write no request, and move no delivered order. */
  ghost predicate AfterSaleKept(a: AfterSale, a': AfterSale) {
    && a'.bought == a.bought && a'.requests == a.requests
    && (a'.status == a.status || (a.status !in {Entregado, Devuelto} && a'.status != Devuelto))
  }

  lemma CreditKeepsAfterSale(r: Rows, payment: PaymentRef, now: Time)
    requires CanTransition(r.file.order.status, Pagado)
    ensures AfterSaleKept(AfterSaleOf(r.file), AfterSaleOf(Credited(r, payment, now).rows.file))
  {
    var sale := Sold(r.stock, Lines(r.file.order.items), r.file.order.reservationActive);
    SameBasket(r.file.order.items, sale.shortages);
  }

  lemma OutcomeKeepsAfterSale(r: Rows, outcome: PaymentOutcome, payment: PaymentRef, now: Time)
    ensures AfterSaleKept(AfterSaleOf(r.file), AfterSaleOf(PaymentApplied(r, outcome, payment, now).rows.file))
  {
    if outcome == Approved && CanTransition(r.file.order.status, Pagado) {
      CreditKeepsAfterSale(r, payment, now);
    }
  }

  lemma PaymentKeepsAfterSale(r: Rows, report: Report, now: Time)
    ensures AfterSaleKept(AfterSaleOf(r.file), AfterSaleOf(PaymentProcessed(r, report, now).0.file))
  {
    var k, mapped := Find(r.file.payments, report.externalId), StatusMap(report.status);
    if mapped.Some? {
      var saved := r.(file := Saved(r.file, k, NewPayment(report, mapped.value.status, now)));
      OutcomeKeepsAfterSale(saved, mapped.value.outcome, report.externalId, now);
      assert AfterSaleOf(saved.file) == AfterSaleOf(r.file);
    }
  }

  lemma ReturnedStockKeepsAfterSale(r: Rows)
    ensures AfterSaleOf(StockReturned(r).file) == AfterSaleOf(r.file)
  {
    SameBasket(r.file.order.items, []);
  }

  lemma UndoneKeepsAfterSale(r: Rows, cause: Cause, now: Time)
    requires CanTransition(r.file.order.status, Cancelado)
    ensures AfterSaleKept(AfterSaleOf(r.file), AfterSaleOf(Undone(r, cause, now).file))
  {
    var moved := r.(file := Moved(r.file, Cancelado, CancelledBy(cause), now));
    ReturnedStockKeepsAfterSale(moved);
    assert AfterSaleOf(moved.file) == AfterSaleOf(r.file).(status := Cancelado);
  }

  lemma CancellationKeepsAfterSale(r: Rows, cause: Cause, origin: RefundOrigin, now: Time)
    requires CanTransition(r.file.order.status, Cancelado)
    ensures AfterSaleKept(AfterSaleOf(r.file), AfterSaleOf(Cancelled(r, cause, origin, now).file))
  {
    UndoneKeepsAfterSale(r, cause, now);
    assert AfterSaleOf(Cancelled(r, cause, origin, now).file) == AfterSaleOf(Undone(r, cause, now).file);
  }

  predicate IsReturnStep(e: Event) {
    e.CreateReturn? || e.ApproveReturn? || e.RejectReturn? || e.ReceiveReturn?
  }

  lemma CancelKeepsAfterSale(r: Rows, e: Event, now: Time)
    requires e.CancelAsCustomer? || e.CancelAsAdmin?
    ensures AfterSaleKept(AfterSaleOf(r.file), AfterSaleOf(Step(r, e, now).file))
  {
    if CanTransition(r.file.order.status, Cancelado) {
      if e.CancelAsCustomer? {
        CancellationKeepsAfterSale(r, Cliente, CU14, now);
      } else {
        CancellationKeepsAfterSale(r, Administrador, CU19, now);
      }
    }
  }

  lemma OtherStepKeepsAfterSale(r: Rows, e: Event, now: Time)
    requires !IsReturnStep(e)
    ensures AfterSaleKept(AfterSaleOf(r.file), AfterSaleOf(Step(r, e, now).file))
  {
    if e.ReportPayment? {
      PaymentKeepsAfterSale(r, e.report, now);
    } else if e.CancelAsCustomer? || e.CancelAsAdmin? {
      CancelKeepsAfterSale(r, e, now);
    }
  }

  /** Every step keeps the units of each item accounted for once. */
  lemma StepKeepsReturns(r: Rows, e: Event, now: Time)
    requires ReturnsOk(AfterSaleOf(r.file))
    ensures ReturnsOk(AfterSaleOf(Step(r, e, now).file))
  {
    match e
    case CreateReturn(owner, kind, lines) =>
      if RequestCreated(r.file, owner, kind, lines, now).Done? { CreateKeepsReturns(r.file, owner, kind, lines, now); }
    case ApproveReturn(k, decisions, withReason) =>
      if RequestApproved(r.file, k, decisions, withReason).Done? { ApproveKeepsReturns(r.file, k, decisions, withReason); }
    case RejectReturn(k) =>
      if RequestRejected(r.file, k).Done? { RejectKeepsReturns(r.file, k); }
    case ReceiveReturn(k, inputs, options) =>
      if RequestReceived(r, k, inputs, options, now).Done? { ReceiveKeepsReturns(r, k, inputs, options, now); }
    case _ => OtherStepKeepsAfterSale(r, e, now);
  }

  // ----- A delivered order is not complete -----

  /** While the order is only delivered, some unit of it has not come back. */
  ghost predicate StillOut(a: AfterSale) {
    a.status == Entregado ==> exists i :: 0 <= i < |a.bought| && ReturnedUnits(a.requests, |a.requests|, i) < a.bought[i].quantity
  }

  /** Units of the item that one request brought back. */
  function BroughtBack(q: Request, item: nat): nat {
    if q.kind == DevolucionProducto && q.status == Resuelta then ReceivedUnits(q.items, |q.items|, item) else 0
  }

  lemma {:induction false} ReturnedUpdate(requests: seq<Request>, n: nat, k: nat, q: Request, item: nat)
    requires k < |requests| && n <= |requests| && BroughtBack(q, item) == BroughtBack(requests[k], item)
    ensures ReturnedUnits(requests[k := q], n, item) == ReturnedUnits(requests, n, item)
  {
    if n > 0 {
      ReturnedUpdate(requests, n - 1, k, q, item);
    }
  }

  lemma {:induction false} ReturnedPrefix(requests: seq<Request>, more: seq<Request>, n: nat, item: nat)
    requires n <= |requests|
    ensures ReturnedUnits(requests + more, n, item) == ReturnedUnits(requests, n, item)
  {
    if n > 0 {
      ReturnedPrefix(requests, more, n - 1, item);
    }
  }

  /** A request replaced by one that brings back as much leaves the same units out. */
  lemma ReplacedStillOut(a: AfterSale, k: nat, q: Request)
    requires StillOut(a) && k < |a.requests| && forall i :: BroughtBack(q, i) == BroughtBack(a.requests[k], i)
    ensures StillOut(a.(requests := a.requests[k := q]))
  {
    if a.status == Entregado {
      var i :| 0 <= i < |a.bought| && ReturnedUnits(a.requests, |a.requests|, i) < a.bought[i].quantity;
      ReturnedUpdate(a.requests, |a.requests|, k, q, i);
    }
  }

  lemma CreateStillOut(f: File, owner: nat, kind: RequestKind, lines: seq<RequestedLine>, now: Time)
    requires StillOut(AfterSaleOf(f)) && RequestCreated(f, owner, kind, lines, now).Done?
    ensures StillOut(AfterSaleOf(RequestCreated(f, owner, kind, lines, now).value))
  {
    var a, a' := AfterSaleOf(f), AfterSaleOf(RequestCreated(f, owner, kind, lines, now).value);
    if a'.status == Entregado {
      var i :| 0 <= i < |a.bought| && ReturnedUnits(a.requests, |a.requests|, i) < a.bought[i].quantity;
      ReturnedPrefix(a.requests, [a'.requests[|a.requests|]], |a.requests|, i);
      assert ReturnedUnits(a'.requests, |a'.requests|, i) == ReturnedUnits(a.requests, |a.requests|, i);
    }
  }

  lemma DecisionStillOut(r: Rows, e: Event, now: Time)
    requires StillOut(AfterSaleOf(r.file)) && (e.ApproveReturn? || e.RejectReturn?)
    ensures StillOut(AfterSaleOf(Step(r, e, now).file))
  {
    var a, a' := AfterSaleOf(r.file), AfterSaleOf(Step(r, e, now).file);
    if a' != a {
      ReplacedStillOut(a, e.request, a'.requests[e.request]);
    }
  }

  /** A reception that leaves the order only delivered leaves something with the customer. */
  lemma ReceptionStillOut(r: Rows, k: nat, inputs: seq<Input>, options: map<nat, set<VariantId>>, now: Time)
    requires StillOut(AfterSaleOf(r.file)) && RequestReceived(r, k, inputs, options, now).Done?
    ensures StillOut(AfterSaleOf(RequestReceived(r, k, inputs, options, now).value.file))
  {
    var f, f' := r.file, RequestReceived(r, k, inputs, options, now).value.file;
    var a, a' := AfterSaleOf(f), AfterSaleOf(f');
    var _ := ReceptionResolves(r, k, inputs, options, now);
    ReceptionWritesOrder(r, k, inputs, options, now);
    if f'.order.status == Entregado {
      if f.requests[k].kind == DevolucionProducto {
        assert !AllReturned(f.order, f'.requests);
        var i :| 0 <= i < |f.order.items| && ReturnedUnits(f'.requests, |f'.requests|, i) < f.order.items[i].quantity;
        UncommittedAt(f.order.items, i);
      } else {
        ReplacedStillOut(a, k, f'.requests[k]);
        assert a' == a.(requests := f.requests[k := f'.requests[k]]);
      }
    }
  }

  /** A delivery starts with everything out. */
  lemma DeliveryStillOut(f: File)
    requires f.requests == [] && OrderShape(f.order)
    ensures StillOut(AfterSaleOf(f))
  {
    UncommittedAt(f.order.items, 0);
    assert f.order.items[0] in f.order.items;
    assert ReturnedUnits([], 0, 0) < Uncommitted(f.order.items)[0].quantity;
  }

  lemma KeptStillOut(a: AfterSale, f': File)
    requires ReturnsOk(a) && StillOut(a) && AfterSaleKept(a, AfterSaleOf(f')) && OrderShape(f'.order)
    ensures StillOut(AfterSaleOf(f'))
  {
    if f'.requests == [] {
      DeliveryStillOut(f');
    }
  }

  lemma StepStillOut(r: Rows, e: Event, now: Time)
    requires ReturnsOk(AfterSaleOf(r.file)) && StillOut(AfterSaleOf(r.file)) && OrderShape(Step(r, e, now).file.order)
    ensures StillOut(AfterSaleOf(Step(r, e, now).file))
  {
    if e.CreateReturn? {
      if RequestCreated(r.file, e.owner, e.kind, e.lines, now).Done? { CreateStillOut(r.file, e.owner, e.kind, e.lines, now); }
    } else if e.ApproveReturn? || e.RejectReturn? {
      DecisionStillOut(r, e, now);
    } else if e.ReceiveReturn? {
      if RequestReceived(r, e.request, e.inputs, e.options, now).Done? { ReceptionStillOut(r, e.request, e.inputs, e.options, now); }
    } else {
      OtherStepKeepsAfterSale(r, e, now);
      KeptStillOut(AfterSaleOf(r.file), Step(r, e, now).file);
    }
  }
}
