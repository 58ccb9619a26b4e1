/** Every transaction on an order of a reachable database, said of the order, the request and the stock alone. */
module StepOutcomes {
  import opened Wrappers
  import opened OrderStatus
  import opened Stock
  import opened Entities
  import opened PaymentsService
  import opened OrderCancellation
  import opened Cart
  import opened Checkout
  import opened Returns
  import opened Reception
  import opened Machine
  import opened History
  import opened MoneyInvariant
  import opened Runs
  import opened PaymentOutcomes
  import opened OrderOutcomes
  import opened CheckoutOutcomes
  import opened ReceptionOutcomes
  import opened ReturnOutcomes
  import RefundAnswers

  // ----- What each request leaves -----

  /** The answer written, or everything as it was. */
  predicate WritesFile(r: Rows, r': Rows, answer: Outcome<File>) {
    r' == match answer case Done(f) => r.(file := f) case Refused(_) => r
  }

  predicate WritesRows(r: Rows, r': Rows, answer: Outcome<Rows>) {
    r' == match answer case Done(rows) => rows case Refused(_) => r
  }

  /** A payment that has no final row: credited, given back, moved along or only recorded, as its status and amount say. */
  ghost predicate OpenReport(r: Rows, r': Rows, kind: Kind, report: Report, now: Time) {
    var (f, id) := (r.file, report.externalId);
    match report.status
    case RawApproved =>
      if report.amount != f.order.total || !report.storeCurrency then IsMismatch(r, r', kind, report, now)
      else if TakesPayments(f.order) then IsCredited(r, r', kind, id, now) && IsDeducted(r, r')
      else f.order.total > 0 ==> IsGivenBack(r, r', kind, Payment(id, Aprobado, report.amount, true, now))
    case RawRejected => IsRejection(r, r', kind, report, now)
    case RawCancelled => IsRejection(r, r', kind, report, now)
    case RawOther => r' == r && kind == Ignored
    case _ =>
      if exists p <- f.payments :: p.externalId == id && p.status == PendienteAcreditacion then r' == r && kind == Duplicate
      else IsPendency(r, r', kind, report, now)
  }

  /** A payment recorded as final: nothing, or a note if it is final otherwise now. */
  ghost predicate FinalReport(r: Rows, r': Rows, report: Report) {
    r' == r || r' == r.(file := r.file.(notes := r.file.notes + [FinalStatusConflict(report.externalId)]))
  }

  ghost predicate IsReported(r: Rows, r': Rows, report: Report, now: Time) {
    if IsOpenPayment(r.file, report.externalId) then exists kind :: OpenReport(r, r', kind, report, now)
    else FinalReport(r, r', report)
  }

  /** The owner, on the status they saw, before the payment or within 24 hours of it and before the dispatch. */
  predicate CustomerMay(order: Order, userId: nat, expected: Status, now: Time) {
    && order.userId == userId && order.status == expected
    && (|| order.status in {PendientePago, PagoPendienteAcreditacion, OrderStatus.PagoRechazado}
        || (order.status in {Pagado, EnPreparacion} && (order.paidAt == None || now < order.paidAt.value + 24 * 60 * 60 * 1000)))
  }

  predicate AdminMay(order: Order, expected: Status) {
    && order.status == expected
    && order.status in {PendientePago, PagoPendienteAcreditacion, OrderStatus.PagoRechazado, Pagado, EnPreparacion, Despachado}
  }

  predicate IsNext(from: Status, to: Status) {
    (from == Pagado && to == EnPreparacion) || (from == EnPreparacion && to == Despachado) || (from == Despachado && to == Entregado)
  }

  predicate IsAdvanced(r: Rows, r': Rows, to: Status, now: Time) {
    var order := r.file.order;
    r' == r.(file := r.file.(
      order := order.(status := to, cause := None, deliveredAt := if to == Entregado then Some(now) else order.deliveredAt),
      history := r.file.history + [Entry(Some(order.status), to, AdminAction)]))
  }

  ghost predicate IsRetried(r: Rows, r': Rows, payer: nat, offers: seq<Offer>, now: Time)
    requires |offers| == |r.file.order.items|
  {
    exists answer :: RetryAnswer(r, payer, offers, now, answer) && r' == if answer.Opened? then answer.rows else r
  }

  ghost predicate IsCreated(r: Rows, r': Rows, owner: nat, kind: RequestKind, lines: seq<RequestedLine>, now: Time) {
    exists answer :: CreationAnswer(r.file, owner, kind, lines, now, answer) && WritesFile(r, r', answer)
  }

  ghost predicate IsAnswered(r: Rows, r': Rows, k: nat, decisions: seq<Decision>, withReason: bool) {
    exists answer :: ApprovalAnswer(r.file, k, decisions, withReason, answer) && WritesFile(r, r', answer)
  }

  ghost predicate IsTakenIn(r: Rows, r': Rows, k: nat, inputs: seq<Input>, options: map<nat, set<VariantId>>) {
    exists answer :: ReceptionAnswer(r, k, inputs, options, answer) && WritesRows(r, r', answer)
  }

  /** A request of change or return rejected: every line approved for nothing. */
  ghost predicate IsRejected(r: Rows, r': Rows, k: nat) {
    if k >= |r.file.requests| || r.file.requests[k].status != Solicitada then r' == r
    else
      && |r'.file.requests| == |r.file.requests| && |r'.file.requests[k].items| == |r.file.requests[k].items|
      && r' == r.(file := r.file.(requests := r.file.requests[
           k := r.file.requests[k].(status := RechazadaPorTienda, items := r'.file.requests[k].items)]))
      && forall i :: 0 <= i < |r.file.requests[k].items| ==> r'.file.requests[k].items[i] == r.file.requests[k].items[i].(approved := Some(0))
  }

  /** The refund row waits for the answer of that attempt. */
  predicate Awaits(f: File, k: nat, attempt: nat) {
    k < |f.refunds| && f.refunds[k].status == EnTramite && f.refunds[k].attempt == attempt
  }

  function WithRefund(r: Rows, k: nat, row: Refund): Rows
    requires k < |r.file.refunds|
  {
    r.(file := r.file.(refunds := r.file.refunds[k := row]))
  }

  /** A refund that failed asked for again: as it was if nobody answered, as a new attempt if it was rejected and still fits. */
  predicate IsAskedAgain(r: Rows, r': Rows, k: nat) {
    if k >= |r.file.refunds| then r' == r
    else
      var row := r.file.refunds[k];
      if row.status == PendienteDeGestion then r' == WithRefund(r, k, row.(status := EnTramite))
      else if row.status == ReembolsoRechazado && row.payment < |r.file.payments|
              && Sum(r.file.refunds, CommittedTo(row.payment)) + row.amount <= r.file.payments[row.payment].amount
      then r' == WithRefund(r, k, row.(status := EnTramite, attempt := row.attempt + 1, external := None))
      else r' == r
  }

  predicate IsClosedByHand(r: Rows, r': Rows, k: nat) {
    if k < |r.file.refunds| && r.file.refunds[k].status in {ReembolsoRechazado, PendienteDeGestion}
    then r' == WithRefund(r, k, r.file.refunds[k].(status := Reembolsado, manual := true))
    else r' == r
  }

  /** What one transaction leaves of its order, whatever the request. */
  ghost predicate StepAnswer(r: Rows, e: Event, now: Time, r': Rows) {
    match e
    case ReportPayment(report) => IsReported(r, r', report, now)
    case Expire => if RanOut(r.file.order, now) then IsDropped(r, r', ReservaVencida) else r' == r
    case Compensate => if r.file.order.status == PendientePago then IsDropped(r, r', Pasarela) else r' == r
    case CancelAsCustomer(userId, expected) =>
      if CustomerMay(r.file.order, userId, expected, now) then IsCancelled(r, r', Cliente) && IsSettled(r.file, r'.file, CU14) else r' == r
    case CancelAsAdmin(expected) =>
      if AdminMay(r.file.order, expected) then IsCancelled(r, r', Administrador) && IsSettled(r.file, r'.file, CU19) else r' == r
    case MoveAsAdmin(expected, to) =>
      if r.file.order.status == expected && IsNext(expected, to) then IsAdvanced(r, r', to, now) else r' == r
    case RetryPay(payer, offers) => |offers| == |r.file.order.items| ==> IsRetried(r, r', payer, offers, now)
    case CreateReturn(owner, kind, lines) => IsCreated(r, r', owner, kind, lines, now)
    case ApproveReturn(k, decisions, withReason) => IsAnswered(r, r', k, decisions, withReason)
    case RejectReturn(k) => IsRejected(r, r', k)
    case ReceiveReturn(k, inputs, options) => IsTakenIn(r, r', k, inputs, options)
    case MoveRefund(k, attempt, to) =>
      to != EnTramite ==> r' == if Awaits(r.file, k, attempt) then WithRefund(r, k, r.file.refunds[k].(status := to)) else r
    case AnswerRefund(k, attempt, external) =>
      r' == if Awaits(r.file, k, attempt) && r.file.refunds[k].external == None
            then WithRefund(r, k, r.file.refunds[k].(external := Some(external))) else r
    case RetryRefund(k) => IsAskedAgain(r, r', k)
    case ResolveRefund(k) => IsClosedByHand(r, r', k)
  }

  // ----- Proofs -----

  lemma FinalRow(f: File, id: PaymentRef) returns (p: nat)
    requires !IsOpenPayment(f, id)
    ensures p < |f.payments| && f.payments[p].externalId == id && f.payments[p].status in {Aprobado, Rechazado, PagoCancelado}
  {
    var payment :| payment in f.payments && payment.externalId == id && payment.status !in {PagoPendiente, PendienteAcreditacion};
    p :| 0 <= p < |f.payments| && f.payments[p] == payment;
    assert payment.status.Aprobado? || payment.status.Rechazado? || payment.status.PagoCancelado?;
  }

  lemma ReportAnswers(sys: System, k: nat, report: Report, now: Time)
    requires IsReachable(sys) && k < |sys.files|
    ensures IsReported(sys.Rows(k), PaymentProcessed(sys.Rows(k), report, now).0, report, now)
  {
    var f := sys.files[k];
    var (r', kind) := PaymentProcessed(sys.Rows(k), report, now);
    if IsOpenPayment(f, report.externalId) {
      OpenReportAnswers(sys, k, report, now);
      assert OpenReport(sys.Rows(k), r', kind, report, now);
    } else {
      var p := FinalRow(f, report.externalId);
      FinalPaymentsStay(sys, k, report, now, p);
    }
  }

  lemma OpenReportAnswers(sys: System, k: nat, report: Report, now: Time)
    requires IsReachable(sys) && k < |sys.files| && IsOpenPayment(sys.files[k], report.externalId)
    ensures OpenReport(sys.Rows(k), PaymentProcessed(sys.Rows(k), report, now).0, PaymentProcessed(sys.Rows(k), report, now).1, report, now)
  {
    if report.status == RawApproved {
      if report.amount != sys.files[k].order.total || !report.storeCurrency {
        InexactApproval(sys.Rows(k), report, now);
      } else {
        ExactPaymentCredits(sys, k, report, now);
      }
    } else {
      OtherReports(sys, k, report, now);
    }
  }

  lemma CancellationAnswers(sys: System, k: nat, e: Event, now: Time)
    requires IsReachable(sys) && k < |sys.files| && (e.CancelAsCustomer? || e.CancelAsAdmin?)
    ensures StepAnswer(sys.Rows(k), e, now, Step(sys.Rows(k), e, now))
  {
    if e.CancelAsCustomer? {
      var _ := Reachable(sys, k);
      CustomerCancels(sys, k, e.userId, e.expected, now);
      CustomerMayCancel(sys.Rows(k), e.userId, e.expected, now);
    } else {
      AdminCancels(sys, k, e.expected, now);
    }
  }

  lemma CustomerMayCancel(r: Rows, userId: nat, expected: Status, now: Time)
    requires LifeOk(LifeOf(r.file))
    ensures CustomerCancelled(r, userId, expected, now).Done? <==> CustomerMay(r.file.order, userId, expected, now)
  {
    assert LifeOf(r.file).status == r.file.order.status;
  }

  lemma OrderStepAnswers(sys: System, k: nat, e: Event, now: Time)
    requires IsReachable(sys) && k < |sys.files| && (e.Expire? || e.Compensate? || e.MoveAsAdmin? || e.RetryPay?)
    ensures StepAnswer(sys.Rows(k), e, now, Step(sys.Rows(k), e, now))
  {
    var r := sys.Rows(k);
    match e
    case MoveAsAdmin(expected, to) => AdminMovesExactly(r, expected, to, now);
    case RetryPay(payer, offers) =>
      if |offers| == |r.file.order.items| {
        RetryOpensExactly(sys, k, payer, offers, now);
        assert RetryAnswer(r, payer, offers, now, RetryOpened(r, payer, offers, now));
      }
    case _ => DropsExactly(sys, k, now);
  }

  lemma RequestStepAnswers(sys: System, k: nat, e: Event, now: Time)
    requires IsReachable(sys) && k < |sys.files| && (e.CreateReturn? || e.ApproveReturn? || e.RejectReturn? || e.ReceiveReturn?)
    ensures StepAnswer(sys.Rows(k), e, now, Step(sys.Rows(k), e, now))
  {
    var r := sys.Rows(k);
    match e
    case CreateReturn(owner, kind, lines) =>
      RequestsAreAnswered(sys, k, owner, kind, lines, now);
      assert WritesFile(r, Step(r, e, now), RequestCreated(r.file, owner, kind, lines, now));
    case ApproveReturn(q, decisions, withReason) =>
      ApprovalAnswers(r.file, q, decisions, withReason);
      assert WritesFile(r, Step(r, e, now), RequestApproved(r.file, q, decisions, withReason));
    case RejectReturn(q) => RejectionAnswers(r.file, q);
    case ReceiveReturn(q, inputs, options) =>
      ReceptionAnswers(sys, k, q, inputs, options, now);
      assert WritesRows(r, Step(r, e, now), RequestReceived(r, q, inputs, options, now));
  }

  lemma RefundStepAnswers(r: Rows, e: Event, now: Time)
    requires e.MoveRefund? || e.AnswerRefund? || e.RetryRefund? || e.ResolveRefund?
    ensures StepAnswer(r, e, now, Step(r, e, now))
  {
    match e
    case RetryRefund(k) => RefundAnswers.RetryAnswers(r.file, k);
    case ResolveRefund(k) => RefundAnswers.ClosingAnswers(r.file, k);
    case MoveRefund(k, _, _) => assert k < |r.file.refunds| ==> r.file.refunds[k := r.file.refunds[k]] == r.file.refunds;
    case AnswerRefund(k, _, _) => assert k < |r.file.refunds| ==> r.file.refunds[k := r.file.refunds[k]] == r.file.refunds;
  }

  /** Any transaction on any order of any reachable database leaves what the request and the order call for, and commits on that order. */
  lemma StepAnswers(sys: System, k: nat, e: Event, now: Time)
    requires IsReachable(sys) && k < |sys.files|
    ensures var sys' := SystemStep(sys, OnOrder(k, e, now));
            && k < |sys'.files| && sys' == sys.Commit(k, sys'.Rows(k))
            && StepAnswer(sys.Rows(k), e, now, sys'.Rows(k))
  {
    if e.ReportPayment? {
      ReportAnswers(sys, k, e.report, now);
    } else if e.CancelAsCustomer? || e.CancelAsAdmin? {
      CancellationAnswers(sys, k, e, now);
    } else if e.Expire? || e.Compensate? || e.MoveAsAdmin? || e.RetryPay? {
      OrderStepAnswers(sys, k, e, now);
    } else if e.CreateReturn? || e.ApproveReturn? || e.RejectReturn? || e.ReceiveReturn? {
      RequestStepAnswers(sys, k, e, now);
    } else {
      RefundStepAnswers(sys.Rows(k), e, now);
    }
  }

  /** The order placed after the others, or nothing. */
  ghost predicate IsConfirmed(sys: System, sys': System, e: SystemEvent)
    requires e.PlaceOrder?
  {
    exists answer ::
      && ConfirmAnswer(sys.stock, e.userId, e.cart, e.shippingCost, e.expectedTotal, e.expiresAt, answer)
      && sys' == if answer.Opened? then System(sys.files + [answer.rows.file], answer.rows.stock) else sys
  }

  /** Any checkout on any database. */
  lemma CheckoutAnswers(sys: System, e: SystemEvent)
    requires e.PlaceOrder? && ValidCart(e.cart)
    ensures IsConfirmed(sys, SystemStep(sys, e), e)
  {
    ConfirmAnswers(sys.stock, e.userId, e.cart, e.shippingCost, e.expectedTotal, e.expiresAt);
  }
}
