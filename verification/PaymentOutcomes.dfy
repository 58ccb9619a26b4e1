/** What each verified payment does to an order: which ones credit it, which are given back and what every other report leaves. */
module PaymentOutcomes {
  import opened Wrappers
  import opened OrderStatus
  import opened Stock
  import opened Entities
  import opened OrdersService
  import opened PaymentLedger
  import opened PaymentsService
  import opened History
  import opened StockInvariant
  import opened MoneyInvariant
  import opened Runs
  import opened StockOutcomes

  /** The payment has no row yet, or one that is not final. */
  ghost predicate IsOpenPayment(f: File, id: PaymentRef) {
    forall p <- f.payments :: p.externalId == id ==> p.status in {PagoPendiente, PendienteAcreditacion}
  }

  /** The order takes a payment: it awaits one, or it was cancelled only because none came in time. */
  predicate TakesPayments(order: Order) {
    || order.status in {PendientePago, PagoPendienteAcreditacion, PagoRechazado}
    || (order.status == OrderStatus.Cancelado && order.cause == Some(ReservaVencida))
  }

  /** The payment is processed and the order paid with it; nothing is given back. */
  predicate IsCredited(r: Rows, r': Rows, kind: Kind, id: PaymentRef, now: Time) {
    && kind == Processed
    && r'.file == r.file.(
         payments := r'.file.payments,
         order := r.file.order.(status := Pagado, cause := None, paidAt := Some(now), items := r'.file.order.items, reservationActive := false),
         history := r.file.history + [Entry(Some(r.file.order.status), Pagado, PaymentReported(id))],
         movements := r'.file.movements,
         notes := r'.file.notes)
  }

  /** Every item that the stock has units for leaves it, from the reservation if it was on; the rest is left short and noted. */
  ghost predicate IsDeducted(r: Rows, r': Rows) {
    var order, order' := r.file.order, r'.file.order;
    && |order'.items| == |order.items| && !order'.reservationActive
    && DeductsByLine(r.stock, Lines(order.items), order.reservationActive, r'.stock)
    && (forall i :: 0 <= i < |order.items| ==>
          order'.items[i] == order.items[i].(
            stockCommitted := HasUnits(r.stock, Line(order.items[i].variant, order.items[i].quantity), order.reservationActive)))
    && IsSaleRecorded(r, r')
  }

  /** The sales are in the stock history, and what is short in a note, if anything is. */
  ghost predicate IsSaleRecorded(r: Rows, r': Rows) {
    var (lines, reserved, n) := (Lines(r.file.order.items), r.file.order.reservationActive, |r.file.movements|);
    && n <= |r'.file.movements| && r'.file.movements[..n] == r.file.movements
    && (forall m <- r'.file.movements[n..] :: IsSaleOf(r.stock, lines, reserved, m))
    && (forall l <- lines :: HasUnits(r.stock, l, reserved) ==> HasSaleOf(r'.file.movements[n..], r.stock, l))
    && if forall l <- lines :: HasUnits(r.stock, l, reserved) then r'.file.notes == r.file.notes
       else exists short :: IsShortList(r.stock, lines, reserved, short) && r'.file.notes == r.file.notes + [StockShortage(short)]
  }

  ghost predicate IsShortList(stock: Levels, lines: seq<Line>, reserved: bool, short: seq<Line>) {
    forall l :: l in short <==> l in lines && !HasUnits(stock, l, reserved)
  }

  /** The payment row written by the report: the one it had, or one more. */
  ghost predicate IsRecorded(f: File, f': File, payment: Payment) {
    exists p :: RecordedAt(f, f', payment, p)
  }

  predicate RecordedAt(f: File, f': File, payment: Payment, p: nat) {
    && (if p < |f.payments| then f'.payments == f.payments[p := payment] && f.payments[p].externalId == payment.externalId
        else p == |f.payments| && f'.payments == f.payments + [payment])
  }

  // ----- An approval for the exact amount -----

  lemma NothingDeductedYet(r: Rows)
    requires OrderOk(GoodsOf(r)) && r.file.order.paidAt == None
    ensures forall i :: 0 <= i < |r.file.order.items| ==> !r.file.order.items[i].stockCommitted
  {
    var items := r.file.order.items;
    forall i | 0 <= i < |items| ensures !items[i].stockCommitted {
      assert Committed(r.file.order, items[i].variant) == 0 && items[i] in items;
      if items[i].stockCommitted {
        CommittedAt(items, i);
      }
    }
  }

  lemma {:induction false} CommittedAt(items: seq<Item>, i: nat)
    requires i < |items| && items[i].stockCommitted
    ensures Units(CommittedLines(items), items[i].variant) >= items[i].quantity
  {
    if i > 0 {
      CommittedAt(items[1..], i - 1);
    }
    if items[0].stockCommitted {
      var line := Line(items[0].variant, items[0].quantity);
      assert ([line] + CommittedLines(items[1..]))[1..] == CommittedLines(items[1..]);
    }
  }

  lemma CreditIsRecorded(r: Rows, id: PaymentRef, now: Time)
    requires OrderShape(r.file.order)
    ensures IsSaleRecorded(r, Credited(r, id, now).rows)
  {
    var lines, reserved := Lines(r.file.order.items), r.file.order.reservationActive;
    var sale, r' := Sold(r.stock, lines, reserved), Credited(r, id, now).rows;
    OrderLinesDiffer(r.file.order);
    SoldByLine(r.stock, lines, reserved);
    SaleMovements(r.stock, lines, reserved);
    SalesAreRecorded(r.stock, lines, reserved);
    assert r'.file.movements[|r.file.movements|..] == sale.movements;
    assert IsShortList(r.stock, lines, reserved, sale.shortages);
    if sale.shortages == [] {
      forall l | l in lines ensures HasUnits(r.stock, l, reserved) {
        assert l !in sale.shortages;
      }
    } else {
      assert sale.shortages[0] in sale.shortages;
    }
  }

  lemma CreditMarks(r: Rows, id: PaymentRef, now: Time, i: nat)
    requires OrderOk(GoodsOf(r)) && r.file.order.paidAt == None && i < |r.file.order.items|
    ensures var order, items := r.file.order, Credited(r, id, now).rows.file.order.items;
            i < |items|
            && items[i] == order.items[i].(
                 stockCommitted := HasUnits(r.stock, Line(order.items[i].variant, order.items[i].quantity), order.reservationActive))
  {
    var order := r.file.order;
    var lines, reserved := Lines(order.items), order.reservationActive;
    var sale := Sold(r.stock, lines, reserved);
    OrderLinesDiffer(order);
    LinesAt(order.items);
    SoldByLine(r.stock, lines, reserved);
    MarkedAt(order.items, sale.shortages);
    NothingDeductedYet(r);
    assert lines[i] in lines;
    if IsShort(sale.shortages, order.items[i].variant) {
      var s :| s in sale.shortages && s.variant == order.items[i].variant;
      assert s in lines;
      var j :| 0 <= j < |lines| && lines[j] == s;
      assert j == i;
    }
  }

  lemma CreditDeducts(r: Rows, id: PaymentRef, now: Time)
    requires OrderOk(GoodsOf(r)) && r.file.order.paidAt == None
    ensures IsDeducted(r, Credited(r, id, now).rows)
  {
    var order := r.file.order;
    OrderLinesDiffer(order);
    SoldByLine(r.stock, Lines(order.items), order.reservationActive);
    MarkedAt(order.items, Sold(r.stock, Lines(order.items), order.reservationActive).shortages);
    CreditIsRecorded(r, id, now);
    forall i | 0 <= i < |order.items|
      ensures Credited(r, id, now).rows.file.order.items[i]
              == order.items[i].(
                   stockCommitted := HasUnits(r.stock, Line(order.items[i].variant, order.items[i].quantity), order.reservationActive))
    {
      CreditMarks(r, id, now, i);
    }
  }

  lemma OpenPaymentIsNotFinal(f: File, id: PaymentRef)
    requires IsOpenPayment(f, id)
    ensures var k := Find(f.payments, id); k < |f.payments| ==> f.payments[k].externalId == id && !FinalPayment(f.payments[k].status)
  {
    var k := Find(f.payments, id);
    if k < |f.payments| {
      assert f.payments[k] in f.payments;
    }
  }

  /** Where the report of an open payment for the exact amount goes: its row, then its outcome. */
  lemma ExactApproval(r: Rows, report: Report, now: Time)
    requires IsOpenPayment(r.file, report.externalId) && report.status == RawApproved
    requires report.amount == r.file.order.total && report.storeCurrency
    ensures var payment := Payment(report.externalId, Aprobado, report.amount, true, now);
            var k := Find(r.file.payments, report.externalId);
            var saved := r.(file := Saved(r.file, k, payment));
            var applied := PaymentApplied(saved, Approved, report.externalId, now);
            PaymentProcessed(r, report, now)
            == if !applied.discrepancy then (applied.rows, Processed)
               else
                 var noted := Noted(applied.rows.file, PaymentDiscrepancy(report.externalId));
                 (applied.rows.(file := if applied.refundOrigin.Some? then Requested(noted, report.amount, applied.refundOrigin.value, Some(k))
                                        else noted),
                  Discrepancy)
  {
    OpenPaymentIsNotFinal(r.file, report.externalId);
  }

  lemma CreditWrites(r: Rows, id: PaymentRef, now: Time)
    requires OrderOk(GoodsOf(r)) && r.file.order.paidAt == None
    ensures IsCredited(r, Credited(r, id, now).rows, Processed, id, now) && IsDeducted(r, Credited(r, id, now).rows)
  {
    CreditDeducts(r, id, now);
  }

  /** Neither depends on the payment rows. */
  lemma PaymentsApart(r: Rows, saved: Rows, r': Rows, kind: Kind, id: PaymentRef, now: Time)
    requires saved == r.(file := r.file.(payments := saved.file.payments))
    requires IsCredited(saved, r', kind, id, now) && IsDeducted(saved, r')
    ensures IsCredited(r, r', kind, id, now) && IsDeducted(r, r')
  {}

  lemma ApprovalCredits(r: Rows, report: Report, now: Time)
    requires FileOk(r.file) && OrderOk(GoodsOf(r)) && TakesPayments(r.file.order)
    requires IsOpenPayment(r.file, report.externalId) && report.status == RawApproved
    requires report.amount == r.file.order.total && report.storeCurrency
    ensures var (r', kind) := PaymentProcessed(r, report, now);
            && IsCredited(r, r', kind, report.externalId, now) && IsDeducted(r, r')
            && IsRecorded(r.file, r'.file, Payment(report.externalId, Aprobado, report.amount, true, now))
  {
    var k, payment := Find(r.file.payments, report.externalId), Payment(report.externalId, Aprobado, report.amount, true, now);
    var saved := r.(file := Saved(r.file, k, payment));
    var credited := Credited(saved, report.externalId, now);
    ExactApproval(r, report, now);
    assert LifeOf(r.file).paidAt == None;
    assert PaymentApplied(saved, Approved, report.externalId, now) == credited;
    CreditWrites(saved, report.externalId, now);
    PaymentsApart(r, saved, credited.rows, Processed, report.externalId, now);
    assert RecordedAt(r.file, credited.rows.file, payment, k);
  }

  /** The refund of the whole payment, with the cause of the cancellation as its origin. */
  function LateOrigin(order: Order): RefundOrigin {
    if order.status == OrderStatus.Cancelado && order.cause == Some(Cliente) then CU14
    else if order.status == OrderStatus.Cancelado && order.cause == Some(Administrador) then CU19
    else CU05
  }

  /** The payment is recorded and noted, and one refund of it all is registered; nothing else of the order changes. */
  ghost predicate IsGivenBack(r: Rows, r': Rows, kind: Kind, payment: Payment) {
    && kind == Discrepancy && r'.stock == r.stock
    && exists p :: RecordedAt(r.file, r'.file, payment, p)
         && r'.file == r.file.(
              payments := r'.file.payments,
              notes := r.file.notes + [PaymentDiscrepancy(payment.externalId)],
              refunds := r.file.refunds + [Refund(p, payment.amount, EnTramite, None, LateOrigin(r.file.order), 1, false)])
  }

  lemma ApprovalIsGivenBack(r: Rows, report: Report, now: Time)
    requires FileOk(r.file) && !TakesPayments(r.file.order) && r.file.order.total > 0
    requires IsOpenPayment(r.file, report.externalId) && report.status == RawApproved
    requires report.amount == r.file.order.total && report.storeCurrency
    ensures var (r', kind) := PaymentProcessed(r, report, now);
            IsGivenBack(r, r', kind, Payment(report.externalId, Aprobado, report.amount, true, now))
  {
    var f, k := r.file, Find(r.file.payments, report.externalId);
    var payment := Payment(report.externalId, Aprobado, report.amount, true, now);
    var saved := r.(file := Saved(f, k, payment));
    OpenPaymentIsNotFinal(f, report.externalId);
    ExactApproval(r, report, now);
    assert PaymentApplied(saved, Approved, report.externalId, now) == Applied(saved, false, true, Some(LateOrigin(f.order)), []);
    SaveKeepsMoney(LedgerOf(f), k, payment);
    var noted := Noted(saved.file, PaymentDiscrepancy(report.externalId));
    NewPaymentIsChosen(noted, k, report.amount);
    assert RecordedAt(f, PaymentProcessed(r, report, now).0.file, payment, k);
  }

  lemma NewPaymentIsChosen(f: File, k: nat, amount: Cents)
    requires k < |f.payments| && f.payments[k].status == Aprobado && f.payments[k].amount == amount > 0
    requires forall j :: 0 <= j < |f.refunds| ==> f.refunds[j].payment != k
    ensures ChosenPayment(f, amount, Some(k)) == Some(k)
  {
    NothingAgainst(f.refunds, k);
    RefundedIsSum(f.refunds, k);
    assert CanRefund(f, amount, Some(k), k);
  }

  // ----- Every other report -----

  /** An approval for another amount, or in another currency, is recorded and noted, and nothing else. */
  ghost predicate IsMismatch(r: Rows, r': Rows, kind: Kind, report: Report, now: Time) {
    && kind == Discrepancy && r'.stock == r.stock
    && IsRecorded(r.file, r'.file, Payment(report.externalId, Aprobado, report.amount, report.storeCurrency, now))
    && r'.file == r.file.(payments := r'.file.payments, notes := r.file.notes + [AmountMismatch(report.externalId)])
  }

  lemma InexactApproval(r: Rows, report: Report, now: Time)
    requires IsOpenPayment(r.file, report.externalId) && report.status == RawApproved
    requires report.amount != r.file.order.total || !report.storeCurrency
    ensures IsMismatch(r, PaymentProcessed(r, report, now).0, PaymentProcessed(r, report, now).1, report, now)
  {
    OpenPaymentIsNotFinal(r.file, report.externalId);
    assert RecordedAt(r.file, PaymentProcessed(r, report, now).0.file, Payment(report.externalId, Aprobado, report.amount, report.storeCurrency, now),
                      Find(r.file.payments, report.externalId));
  }

  /** The status with which the gateway's final answers are recorded. */
  predicate SaysFinal(raw: RawStatus, status: PaymentStatus) {
    (raw == RawApproved && status == Aprobado) || (raw == RawRejected && status == Rechazado) || (raw == RawCancelled && status == PagoCancelado)
  }

  /** A payment with a final row never changes anything: the same answer is a duplicate, another final one is noted. */
  lemma FinalPaymentStays(r: Rows, report: Report, now: Time, p: nat)
    requires p < |r.file.payments| && r.file.payments[p].externalId == report.externalId
    requires forall q :: 0 <= q < |r.file.payments| && r.file.payments[q].externalId == report.externalId ==> q == p
    requires r.file.payments[p].status in {Aprobado, Rechazado, PagoCancelado}
    ensures PaymentProcessed(r, report, now)
            == if report.status == RawOther then (r, Ignored)
               else if SaysFinal(report.status, r.file.payments[p].status) || report.status in {RawPending, RawInProcess, RawAuthorized}
               then (r, Duplicate)
               else (r.(file := r.file.(notes := r.file.notes + [FinalStatusConflict(report.externalId)])), Discrepancy)
  {
    assert Find(r.file.payments, report.externalId) == p;
  }

  /** The order moved to another status by the payment, everything else as it was. */
  ghost predicate IsMoved(r: Rows, r': Rows, to: Status, reserved: bool, notes: seq<Note>, id: PaymentRef) {
    r'.file == r.file.(
      payments := r'.file.payments,
      order := r.file.order.(status := to, cause := None, reservationActive := reserved),
      history := r.file.history + [Entry(Some(r.file.order.status), to, PaymentReported(id))],
      notes := r.file.notes + notes)
  }

  ghost predicate IsOnlyRecorded(r: Rows, r': Rows, notes: seq<Note>) {
    r'.stock == r.stock && r'.file == r.file.(payments := r'.file.payments, notes := r.file.notes + notes)
  }

  /** A rejection releases the reservation of an order that awaited the payment, and changes no other. */
  ghost predicate IsRejection(r: Rows, r': Rows, kind: Kind, report: Report, now: Time) {
    var (order, id) := (r.file.order, report.externalId);
    && IsRecorded(r.file, r'.file,
                  Payment(id, if report.status == RawRejected then Rechazado else PagoCancelado, report.amount, report.storeCurrency, now))
    && if order.status in {PendientePago, PagoPendienteAcreditacion} then
         && kind == Processed && IsMoved(r, r', OrderStatus.PagoRechazado, false, [], id)
         && if order.reservationActive then ShiftsReserved(r.stock, Lines(order.items), -1, r'.stock) else r'.stock == r.stock
       else if order.status in {OrderStatus.PagoRechazado, OrderStatus.Cancelado} then kind == Processed && IsOnlyRecorded(r, r', [])
       else kind == Discrepancy && IsOnlyRecorded(r, r', [PaymentDiscrepancy(id)])
  }

  lemma Rejection(r: Rows, report: Report, now: Time)
    requires OrderOk(GoodsOf(r)) && StockCovers(GoodsOf(r))
    requires IsOpenPayment(r.file, report.externalId) && report.status in {RawRejected, RawCancelled}
    ensures IsRejection(r, PaymentProcessed(r, report, now).0, PaymentProcessed(r, report, now).1, report, now)
  {
    var order := r.file.order;
    OpenPaymentIsNotFinal(r.file, report.externalId);
    var status := if report.status == RawRejected then Rechazado else PagoCancelado;
    var payment := Payment(report.externalId, status, report.amount, report.storeCurrency, now);
    assert RecordedAt(r.file, PaymentProcessed(r, report, now).0.file, payment, Find(r.file.payments, report.externalId));
    assert r.file.notes + [] == r.file.notes;
    OrderReleases(r.(file := Saved(r.file, Find(r.file.payments, report.externalId), payment)));
  }

  /**
   * A payment to be credited later keeps the reservation; after a rejection it takes it again, if the stock has every
   * unit, or leaves a note. It changes no other order.
   */
  ghost predicate IsPendency(r: Rows, r': Rows, kind: Kind, report: Report, now: Time) {
    var (order, id) := (r.file.order, report.externalId);
    && kind == Processed
    && IsRecorded(r.file, r'.file, Payment(id, PendienteAcreditacion, report.amount, report.storeCurrency, now))
    && if order.status == PendientePago then
         IsMoved(r, r', PagoPendienteAcreditacion, order.reservationActive, [], id) && r'.stock == r.stock
       else if order.status == OrderStatus.PagoRechazado then
         if forall l <- Lines(order.items) :: HasUnits(r.stock, l, false) then
           IsMoved(r, r', PagoPendienteAcreditacion, true, [], id) && ShiftsReserved(r.stock, Lines(order.items), 1, r'.stock)
         else
           IsMoved(r, r', PagoPendienteAcreditacion, false, [ReservationNotRetaken(id)], id) && r'.stock == r.stock
       else IsOnlyRecorded(r, r', [])
  }

  lemma Pendency(r: Rows, report: Report, now: Time)
    requires OrderOk(GoodsOf(r)) && report.status in {RawPending, RawInProcess, RawAuthorized}
    requires forall p <- r.file.payments :: p.externalId == report.externalId ==> p.status == PagoPendiente
    ensures IsPendency(r, PaymentProcessed(r, report, now).0, PaymentProcessed(r, report, now).1, report, now)
  {
    var order := r.file.order;
    OpenPaymentIsNotFinal(r.file, report.externalId);
    PendingIsNew(r.file, report.externalId);
    var payment := Payment(report.externalId, PendienteAcreditacion, report.amount, report.storeCurrency, now);
    assert RecordedAt(r.file, PaymentProcessed(r, report, now).0.file, payment, Find(r.file.payments, report.externalId));
    assert r.file.notes + [] == r.file.notes;
    OrderLinesDiffer(order);
    ReservedByLine(r.stock, Lines(order.items));
  }

  lemma PendingIsNew(f: File, id: PaymentRef)
    requires forall p <- f.payments :: p.externalId == id ==> p.status == PagoPendiente
    ensures var k := Find(f.payments, id); k < |f.payments| ==> f.payments[k].status == PagoPendiente
  {
    var k := Find(f.payments, id);
    if k < |f.payments| {
      assert f.payments[k] in f.payments;
    }
  }

  // ----- Over every reachable order -----

  lemma ReservedIsDeducted(r: Rows, r': Rows)
    requires StockCovers(GoodsOf(r)) && IsDeducted(r, r') && r.file.order.reservationActive
    ensures forall i <- r'.file.order.items :: i.stockCommitted
  {
    ReservedHasUnits(r);
  }

  /**
   * The report of an open payment, approved for the exact total, credits the order if and only if it awaited a payment or
   * was cancelled for the lack of one: then its stock is deducted, all of it if it was reserved. In every other status
   * the whole payment is given back.
   */
  lemma ExactPaymentCredits(sys: System, k: nat, report: Report, now: Time)
    requires IsReachable(sys) && k < |sys.files|
    requires IsOpenPayment(sys.files[k], report.externalId) && report.status == RawApproved
    requires report.amount == sys.files[k].order.total && report.storeCurrency
    ensures var r := sys.Rows(k);
            var (r', kind) := PaymentProcessed(r, report, now);
            && (IsCredited(r, r', kind, report.externalId, now) <==> TakesPayments(r.file.order))
            && (TakesPayments(r.file.order) ==>
                  && IsDeducted(r, r') && IsRecorded(r.file, r'.file, Payment(report.externalId, Aprobado, report.amount, true, now))
                  && (r.file.order.reservationActive ==> forall i <- r'.file.order.items :: i.stockCommitted))
            && (!TakesPayments(r.file.order) && r.file.order.total > 0 ==>
                  IsGivenBack(r, r', kind, Payment(report.externalId, Aprobado, report.amount, true, now)))
  {
    var r := sys.Rows(k);
    var f := Reachable(sys, k);
    if TakesPayments(f.order) {
      ApprovalCredits(r, report, now);
      if f.order.reservationActive {
        ReachableIsOk(sys);
        StockCoversOrder(sys, k);
        ReservedIsDeducted(r, PaymentProcessed(r, report, now).0);
      }
    } else if f.order.total > 0 {
      ApprovalIsGivenBack(r, report, now);
    }
  }

  /** What every report of a payment that is still open, other than that approval, does to the order. */
  lemma OtherReports(sys: System, k: nat, report: Report, now: Time)
    requires IsReachable(sys) && k < |sys.files| && IsOpenPayment(sys.files[k], report.externalId)
    ensures var r := sys.Rows(k);
            var (r', kind) := PaymentProcessed(r, report, now);
            && (report.status in {RawRejected, RawCancelled} ==> IsRejection(r, r', kind, report, now))
            && (report.status in {RawPending, RawInProcess, RawAuthorized} ==>
                  if exists p <- r.file.payments :: p.externalId == report.externalId && p.status == PendienteAcreditacion
                  then r' == r && kind == Duplicate
                  else IsPendency(r, r', kind, report, now))
            && (report.status == RawOther ==> r' == r && kind == Ignored)
  {
    var r := sys.Rows(k);
    var f := Reachable(sys, k);
    ReachableIsOk(sys);
    StockCoversOrder(sys, k);
    if report.status in {RawRejected, RawCancelled} {
      Rejection(r, report, now);
    } else if report.status in {RawPending, RawInProcess, RawAuthorized} {
      if exists p <- f.payments :: p.externalId == report.externalId && p.status == PendienteAcreditacion {
        UniqueIds(f);
        PendingTwice(r, report, now);
      } else {
        Pendency(r, report, now);
      }
    }
  }

  lemma UniqueIds(f: File)
    requires FileOk(f)
    ensures forall a, b :: 0 <= a < b < |f.payments| ==> f.payments[a].externalId != f.payments[b].externalId
  {
    var l := LedgerOf(f);
    assert BooksOk(l.payments, l.refunds);
  }

  lemma FindOnly(payments: seq<Payment>, i: nat)
    requires i < |payments| && forall a, b :: 0 <= a < b < |payments| ==> payments[a].externalId != payments[b].externalId
    ensures Find(payments, payments[i].externalId) == i
  {}

  lemma PendingTwice(r: Rows, report: Report, now: Time)
    requires report.status in {RawPending, RawInProcess, RawAuthorized}
    requires forall a, b :: 0 <= a < b < |r.file.payments| ==> r.file.payments[a].externalId != r.file.payments[b].externalId
    requires exists p <- r.file.payments :: p.externalId == report.externalId && p.status == PendienteAcreditacion
    ensures PaymentProcessed(r, report, now) == (r, Duplicate)
  {
    var p :| p in r.file.payments && p.externalId == report.externalId && p.status == PendienteAcreditacion;
    var i :| 0 <= i < |r.file.payments| && r.file.payments[i] == p;
    FindOnly(r.file.payments, i);
  }

  /** A payment whose row is final. */
  lemma FinalPaymentsStay(sys: System, k: nat, report: Report, now: Time, p: nat)
    requires IsReachable(sys) && k < |sys.files| && p < |sys.files[k].payments|
    requires sys.files[k].payments[p].externalId == report.externalId
    requires sys.files[k].payments[p].status in {Aprobado, Rechazado, PagoCancelado}
    ensures var r := sys.Rows(k);
            PaymentProcessed(r, report, now)
            == if report.status == RawOther then (r, Ignored)
               else if SaysFinal(report.status, r.file.payments[p].status) || report.status in {RawPending, RawInProcess, RawAuthorized}
               then (r, Duplicate)
               else (r.(file := r.file.(notes := r.file.notes + [FinalStatusConflict(report.externalId)])), Discrepancy)
  {
    var f := Reachable(sys, k);
    UniqueIds(f);
    FinalPaymentStays(sys.Rows(k), report, now, p);
  }
}
