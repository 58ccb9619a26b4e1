/** Reports that come after the first final one of their payment leave at most a note: dropping them changes nothing else. */
module LateReports {
  import opened Wrappers
  import opened OrderStatus
  import opened Stock
  import opened Entities
  import opened StockReservation
  import opened OrdersService
  import opened PaymentLedger
  import opened PaymentsService
  import opened OrderCancellation
  import opened Returns
  import opened Reception
  import opened Machine
  import opened MoneyInvariant

  /** The rows without the internal notes. */
  function Quiet(f: File): File {
    f.(notes := [])
  }

  function QuietRows(r: Rows): Rows {
    r.(file := Quiet(r.file))
  }

  function QuietSystem(sys: System): System {
    System(seq(|sys.files|, i requires 0 <= i < |sys.files| => Quiet(sys.files[i])), sys.stock)
  }

  // ----- No step reads a note -----

  lemma QuietOutcome(r: Rows, outcome: PaymentOutcome, payment: PaymentRef, now: Time)
    ensures var a, b := PaymentApplied(QuietRows(r), outcome, payment, now), PaymentApplied(r, outcome, payment, now);
            QuietRows(a.rows) == QuietRows(b.rows) && a.discrepancy == b.discrepancy && a.refundOrigin == b.refundOrigin
  {}

  lemma QuietRequest(f: File, f': File, amount: Cents, origin: RefundOrigin, only: Option<nat>)
    requires Quiet(f) == Quiet(f')
    ensures Quiet(Requested(f, amount, origin, only)) == Quiet(Requested(f', amount, origin, only))
    ensures ChosenPayment(f, amount, only) == ChosenPayment(f', amount, only)
  {
    assert f.payments == Quiet(f).payments == f'.payments && f.refunds == Quiet(f).refunds == f'.refunds;
    SameChoice(f, f', amount, only, |f.payments|);
  }

  lemma QuietPayment(r: Rows, report: Report, now: Time)
    ensures QuietRows(PaymentProcessed(QuietRows(r), report, now).0) == QuietRows(PaymentProcessed(r, report, now).0)
  {
    if StatusMap(report.status).Some? {
      var mapped, k := StatusMap(report.status).value, Find(r.file.payments, report.externalId);
      var payment := NewPayment(report, mapped.status, now);
      var saved := r.(file := Saved(r.file, k, payment));
      QuietOutcome(saved, mapped.outcome, report.externalId, now);
      var a := PaymentApplied(QuietRows(saved), mapped.outcome, report.externalId, now);
      var b := PaymentApplied(saved, mapped.outcome, report.externalId, now);
      if b.discrepancy && b.refundOrigin.Some? {
        var note := PaymentDiscrepancy(report.externalId);
        QuietRequest(Noted(a.rows.file, note), Noted(b.rows.file, note), payment.amount, b.refundOrigin.value, Some(k));
      }
      assert QuietRows(saved) == QuietRows(r).(file := Saved(Quiet(r.file), k, payment));
    }
  }

  lemma QuietCancellation(r: Rows, cause: Cause, origin: RefundOrigin, now: Time)
    ensures QuietRows(Cancelled(QuietRows(r), cause, origin, now)) == QuietRows(Cancelled(r, cause, origin, now))
  {
    var a, b := Undone(QuietRows(r), cause, now), Undone(r, cause, now);
    assert QuietRows(a) == QuietRows(b);
    QuietRequest(a.file, b.file, CancellationAmount(r.file.order), origin, None);
  }

  lemma {:induction false} QuietLineErrors(f: File, lines: seq<RequestedLine>, n: nat)
    requires n <= |lines|
    ensures FirstLineError(Quiet(f), lines, n) == FirstLineError(f, lines, n)
  {
    if n > 0 {
      QuietLineErrors(f, lines, n - 1);
    }
  }

  lemma QuietReception(r: Rows, k: nat, inputs: seq<Input>, options: map<nat, set<VariantId>>, now: Time)
    ensures QuietRows(RowsOr(RequestReceived(QuietRows(r), k, inputs, options, now), QuietRows(r)))
            == QuietRows(RowsOr(RequestReceived(r, k, inputs, options, now), r))
  {
    if RequestError(r.file, k, Aprobada) == None {
      var q := r.file.requests[k];
      var lines := ReceivedLines(q, inputs, |q.items|);
      var arrivals := Arrivals(r.file.order, q.items, inputs, |q.items|);
      var moved := r.file.(movements := ReturnedToShelf(Shelf(r.stock, r.file.movements), arrivals, |arrivals|).movements);
      QuietRefund(moved, RefundAmount(r.file.order.items, lines, |lines|));
      QuietResolution(moved, k, lines, now);
    }
  }

  lemma QuietRefund(f: File, amount: Cents)
    ensures Quiet(ReturnRefunded(Quiet(f), amount)) == Quiet(ReturnRefunded(f, amount))
  {
    QuietRequest(Quiet(f), f, amount, CU22, None);
  }

  lemma QuietResolution(f: File, k: nat, lines: seq<RequestItem>, now: Time)
    requires k < |f.requests|
    ensures Quiet(ReturnResolved(Quiet(f), k, lines, now)) == Quiet(ReturnResolved(f, k, lines, now))
  {
    QuietRefund(f, RefundAmount(f.order.items, lines, |lines|));
  }

  lemma QuietRequestStep(r: Rows, e: Event, now: Time)
    requires e.CreateReturn? || e.ApproveReturn? || e.RejectReturn?
    ensures QuietRows(Step(QuietRows(r), e, now)) == QuietRows(Step(r, e, now))
  {
    if e.CreateReturn? {
      QuietLineErrors(r.file, e.lines, |e.lines|);
    }
  }

  lemma QuietOtherStep(r: Rows, e: Event, now: Time)
    requires e.Expire? || e.Compensate? || e.MoveAsAdmin? || e.RetryPay?
    ensures QuietRows(Step(QuietRows(r), e, now)) == QuietRows(Step(r, e, now))
  {}

  lemma QuietRefundStep(r: Rows, e: Event, now: Time)
    requires e.MoveRefund? || e.AnswerRefund? || e.RetryRefund? || e.ResolveRefund?
    ensures QuietRows(Step(QuietRows(r), e, now)) == QuietRows(Step(r, e, now))
  {}

  /** What a step does, notes apart, does not depend on the notes. */
  lemma QuietStep(r: Rows, e: Event, now: Time)
    ensures QuietRows(Step(QuietRows(r), e, now)) == QuietRows(Step(r, e, now))
  {
    match e
    case ReportPayment(report) => QuietPayment(r, report, now);
    case CancelAsCustomer(_, _) => QuietCancellation(r, Cliente, CU14, now);
    case CancelAsAdmin(_) => QuietCancellation(r, Administrador, CU19, now);
    case CreateReturn(_, _, _) => QuietRequestStep(r, e, now);
    case ApproveReturn(_, _, _) => QuietRequestStep(r, e, now);
    case RejectReturn(_) => QuietRequestStep(r, e, now);
    case ReceiveReturn(k, inputs, options) => QuietReception(r, k, inputs, options, now);
    case MoveRefund(_, _, _) => QuietRefundStep(r, e, now);
    case AnswerRefund(_, _, _) => QuietRefundStep(r, e, now);
    case RetryRefund(_) => QuietRefundStep(r, e, now);
    case ResolveRefund(_) => QuietRefundStep(r, e, now);
    case _ => QuietOtherStep(r, e, now);
  }

  lemma QuietSystemStep(sys: System, e: SystemEvent)
    ensures QuietSystem(SystemStep(QuietSystem(sys), e)) == QuietSystem(SystemStep(sys, e))
  {
    if e.OnOrder? && e.order < |sys.files| {
      QuietStep(sys.Rows(e.order), e.event, e.now);
      assert QuietSystem(sys).Rows(e.order) == QuietRows(sys.Rows(e.order));
    } else {
      assert QuietSystem(QuietSystem(sys)) == QuietSystem(sys);
    }
  }

  // ----- A final payment stays final -----

  predicate HasFinal(f: File, id: PaymentRef) {
    var p := Find(f.payments, id);
    p < |f.payments| && FinalPayment(f.payments[p].status)
  }

  lemma {:induction false} FindSaved(payments: seq<Payment>, k: nat, payment: Payment, id: PaymentRef)
    requires k == Find(payments, payment.externalId)
    ensures var saved := if k < |payments| then payments[k := payment] else payments + [payment];
            && Find(saved, payment.externalId) == k
            && (id != payment.externalId && Find(payments, id) < |payments| ==> Find(saved, id) == Find(payments, id))
  {
    if payments != [] && k > 0 {
      FindSaved(payments[1..], k - 1, payment, id);
      if k < |payments| {
        assert payments[k := payment][1..] == payments[1..][k - 1 := payment];
      } else {
        assert (payments + [payment])[1..] == payments[1..] + [payment];
      }
    }
  }

  /** A report writes at most its own payment row, and only if that row is not final. */
  lemma ReportWritesOneRow(r: Rows, report: Report, now: Time)
    ensures var f, f' := r.file, PaymentProcessed(r, report, now).0.file;
            var k := Find(f.payments, report.externalId);
            var mapped := StatusMap(report.status);
            if mapped == None || HasFinal(f, report.externalId) || (k < |f.payments| && f.payments[k].status == mapped.value.status)
            then Quiet(f') == Quiet(f)
            else f'.payments == Saved(f, k, NewPayment(report, mapped.value.status, now)).payments
  {}

  /** After a final report its payment is final; nothing makes it otherwise. */
  lemma StepKeepsFinal(r: Rows, e: Event, now: Time, id: PaymentRef)
    requires HasFinal(r.file, id) || (e.ReportPayment? && e.report.externalId == id && StatusMap(e.report.status).Some? && FinalPayment(StatusMap(e.report.status).value.status))
    ensures HasFinal(Step(r, e, now).file, id)
  {
    if e.ReportPayment? {
      ReportWritesOneRow(r, e.report, now);
      var k, mapped := Find(r.file.payments, e.report.externalId), StatusMap(e.report.status);
      if mapped.Some? {
        FindSaved(r.file.payments, k, NewPayment(e.report, mapped.value.status, now), id);
      }
      assert Quiet(r.file).payments == r.file.payments;
    } else {
      PaymentsKept(r, e, now);
    }
  }

  lemma CancellationKeepsPayments(r: Rows, cause: Cause, origin: RefundOrigin, now: Time)
    ensures Cancelled(r, cause, origin, now).file.payments == r.file.payments
  {}

  lemma PaymentsKept(r: Rows, e: Event, now: Time)
    requires !e.ReportPayment?
    ensures Step(r, e, now).file.payments == r.file.payments
  {
    if e.CancelAsCustomer? {
      CancellationKeepsPayments(r, Cliente, CU14, now);
    } else if e.CancelAsAdmin? {
      CancellationKeepsPayments(r, Administrador, CU19, now);
    }
  }

  // ----- Runs -----

  predicate IsFinalReport(e: SystemEvent, k: nat, id: PaymentRef) {
    && e.OnOrder? && e.order == k && e.event.ReportPayment? && e.event.report.externalId == id
    && StatusMap(e.event.report.status).Some? && FinalPayment(StatusMap(e.event.report.status).value.status)
  }

  /** The event reports a payment that an earlier event already reported as final to the same, existing, order. */
  ghost predicate IsLate(sys: System, before: seq<SystemEvent>, e: SystemEvent) {
    && e.OnOrder? && e.event.ReportPayment?
    && exists j :: 0 <= j < |before| && IsFinalReport(before[j], e.order, e.event.report.externalId) && e.order < |Run(sys, before[..j]).files|
  }

  /** The run without its late reports. */
  ghost function Pruned(sys: System, events: seq<SystemEvent>): seq<SystemEvent>
    decreases |events|
  {
    if events == [] then []
    else
      var before, last := events[..|events| - 1], events[|events| - 1];
      Pruned(sys, before) + if IsLate(sys, before, last) then [] else [last]
  }

  lemma {:induction false} OrdersStay(sys: System, events: seq<SystemEvent>, j: nat)
    requires j <= |events|
    ensures |Run(sys, events[..j]).files| <= |Run(sys, events).files|
    decreases |events|
  {
    if j < |events| {
      OrdersStay(sys, events[..|events| - 1], j);
      assert events[..|events| - 1][..j] == events[..j];
    } else {
      assert events[..j] == events;
    }
  }

  lemma {:induction false} FinalStays(sys: System, events: seq<SystemEvent>, j: nat, k: nat, id: PaymentRef)
    requires j < |events| && IsFinalReport(events[j], k, id) && k < |Run(sys, events[..j]).files|
    ensures k < |Run(sys, events).files| && HasFinal(Run(sys, events).files[k], id)
    decreases |events|
  {
    var before, last := events[..|events| - 1], events[|events| - 1];
    var sys' := Run(sys, before);
    if j < |before| {
      assert before[..j] == events[..j];
      FinalStays(sys, before, j, k, id);
    }
    assert Run(sys, events) == SystemStep(sys', last);
    if last.OnOrder? && last.order == k {
      StepKeepsFinal(sys'.Rows(k), last.event, last.now, id);
    }
  }

  /**
   * Dropping every report that comes after the first final one of its payment (duplicates, pendings out of order,
   * conflicting finals) leaves the same orders, stock, payments and refunds: only internal notes may differ.
   */
  lemma {:induction false} LateReportsOnlyNote(sys: System, events: seq<SystemEvent>)
    ensures QuietSystem(Run(sys, Pruned(sys, events))) == QuietSystem(Run(sys, events))
    decreases |events|
  {
    if events != [] {
      var before, last := events[..|events| - 1], events[|events| - 1];
      LateReportsOnlyNote(sys, before);
      var a, b := Run(sys, Pruned(sys, before)), Run(sys, before);
      if IsLate(sys, before, last) {
        LateReportIsNoted(sys, before, last);
        assert Pruned(sys, events) == Pruned(sys, before);
        assert Run(sys, events) == SystemStep(b, last);
      } else {
        assert Pruned(sys, events)[..|Pruned(sys, before)|] == Pruned(sys, before);
        QuietSystemStep(a, last);
        QuietSystemStep(b, last);
      }
    }
  }

  lemma LateReportIsNoted(sys: System, before: seq<SystemEvent>, e: SystemEvent)
    requires IsLate(sys, before, e)
    ensures QuietSystem(SystemStep(Run(sys, before), e)) == QuietSystem(Run(sys, before))
  {
    var id := e.event.report.externalId;
    var j :| 0 <= j < |before| && IsFinalReport(before[j], e.order, id) && e.order < |Run(sys, before[..j]).files|;
    FinalStays(sys, before, j, e.order, id);
    ReportWritesOneRow(Run(sys, before).Rows(e.order), e.event.report, e.now);
    LateReportMovesNoStock(Run(sys, before).Rows(e.order), e.event.report, e.now);
  }

  lemma LateReportMovesNoStock(r: Rows, report: Report, now: Time)
    requires HasFinal(r.file, report.externalId)
    ensures PaymentProcessed(r, report, now).0.stock == r.stock
  {}
}