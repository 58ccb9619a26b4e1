/** The status history of an order: a path of the transition graph, paid at most once. */
module History {
  import opened Wrappers
  import opened OrderStatus
  import opened Stock
  import opened Entities
  import opened Cart
  import opened OrdersService
  import opened PaymentsService
  import opened OrderCancellation
  import opened Checkout
  import opened Reception
  import opened Machine

  /** The part of the order that status changes write. */
  datatype Life = Life(status: Status, cause: Option<Cause>, paidAt: Option<Time>, history: seq<Entry>)

  function LifeOf(f: File): Life {
    Life(f.order.status, f.order.cause, f.order.paidAt, f.history)
  }

  function Lived(l: Life, to: Status, reason: Reason, now: Time): Life {
    Life(to, if to == Cancelado && reason.CancelledBy? then Some(reason.cause) else None,
         if to == Pagado then Some(now) else l.paidAt,
         l.history + [Entry(Some(l.status), to, reason)])
  }

  function Count(history: seq<Entry>, s: Status): nat {
    if history == [] then 0
    else Count(history[..|history| - 1], s) + if history[|history| - 1].to == s then 1 else 0
  }

  /** Each entry starts where the one before ended, along an edge of the graph. */
  ghost predicate IsPath(h: seq<Entry>) {
    && h != [] && h[0].from == None && h[0].to == PendientePago
    && forall k :: 1 <= k < |h| ==> h[k].from == Some(h[k - 1].to) && CanTransition(h[k - 1].to, h[k].to)
  }

  ghost predicate Explained(h: seq<Entry>) {
    forall e <- h :: (e.to == Cancelado ==> e.reason.CancelledBy?) && (e.to == Pagado ==> e.reason.PaymentReported?)
  }

  /** Every cancellation but the last entry was undone by a late payment, so it was an expiry. */
  ghost predicate UndoneOnlyExpiries(h: seq<Entry>) {
    forall k :: 0 <= k < |h| - 1 && h[k].to == Cancelado ==> h[k].reason == CancelledBy(ReservaVencida)
  }

  function Last(h: seq<Entry>): Entry
    requires h != []
  {
    h[|h| - 1]
  }

  ghost predicate LifeOk(l: Life) {
    && IsPath(l.history) && Explained(l.history) && UndoneOnlyExpiries(l.history)
    && Last(l.history).to == l.status
    && l.cause == (if l.status == Cancelado then Some(Last(l.history).reason.cause) else None)
    && Count(l.history, Pagado) == (if l.paidAt.Some? then 1 else 0)
    && Count(l.history, Cancelado) <= (if l.status == Cancelado then 2 else 1)
    && (Awaiting(l.status) ==> l.paidAt == None && Count(l.history, Cancelado) == 0)
    && (Paid(l.status) ==> l.paidAt.Some?)
    && (l.cause == Some(ReservaVencida) ==> l.paidAt == None && Count(l.history, Cancelado) == 1)
  }

  /** What the services check before a status change, beyond the graph: the guard on the cause of the cancellation. */
  predicate LegalMove(l: Life, to: Status, reason: Reason) {
    && CanMove(l.status, to, reason)
    && (l.status == Cancelado ==> l.cause == Some(ReservaVencida))
    && (to == Cancelado && reason == CancelledBy(ReservaVencida) ==> Awaiting(l.status))
    && (to == Pagado ==> reason.PaymentReported?)
  }

  lemma PathGrows(l: Life, to: Status, reason: Reason)
    requires LifeOk(l) && LegalMove(l, to, reason)
    ensures var h := l.history + [Entry(Some(l.status), to, reason)];
            IsPath(h) && Explained(h) && UndoneOnlyExpiries(h)
  {
    var h := l.history + [Entry(Some(l.status), to, reason)];
    forall k | 0 <= k < |h| - 1 && h[k].to == Cancelado
      ensures h[k].reason == CancelledBy(ReservaVencida)
    {
      if k == |l.history| - 1 {
        assert l.status == Cancelado && l.history[k] in l.history;
      }
    }
  }

  lemma CountGrows(h: seq<Entry>, e: Entry, s: Status)
    ensures Count(h + [e], s) == Count(h, s) + if e.to == s then 1 else 0
  {
    assert (h + [e])[..|h|] == h;
  }

  lemma LegalMoveKeepsLife(l: Life, to: Status, reason: Reason, now: Time)
    requires LifeOk(l) && LegalMove(l, to, reason)
    ensures LifeOk(Lived(l, to, reason, now))
  {
    PathGrows(l, to, reason);
    CountGrows(l.history, Entry(Some(l.status), to, reason), Pagado);
    CountGrows(l.history, Entry(Some(l.status), to, reason), Cancelado);
    assert Last(Lived(l, to, reason, now).history) == Entry(Some(l.status), to, reason);
  }

  /** The graph alone does not forbid to be paid twice: `Cancelado` leads back to `Pagado`. */
  lemma GraphHasCycle() returns (h: seq<Entry>)
    ensures IsPath(h) && Explained(h) && Count(h, Pagado) == 2
  {
    var paid := PaymentReported(0);
    var e1, e2 := Entry(None, PendientePago, CheckoutConfirmed), Entry(Some(PendientePago), Pagado, paid);
    var e3, e4 := Entry(Some(Pagado), Cancelado, CancelledBy(Cliente)), Entry(Some(Cancelado), Pagado, paid);
    h := [e1, e2, e3, e4];
    CountGrows([], e1, Pagado);
    CountGrows([e1], e2, Pagado);
    CountGrows([e1, e2], e3, Pagado);
    CountGrows([e1, e2, e3], e4, Pagado);
    assert [] + [e1] == [e1] && [e1] + [e2] == [e1, e2] && [e1, e2] + [e3] == [e1, e2, e3] && [e1, e2, e3] + [e4] == h;
  }

  /** Either the status part of the order is untouched, or it made one legal move. */
  ghost predicate LivesLegally(l: Life, l': Life) {
    l' == l || exists to, reason, now :: LegalMove(l, to, reason) && l' == Lived(l, to, reason, now)
  }

  lemma MoveIsLegal(l: Life, to: Status, reason: Reason, now: Time)
    requires LegalMove(l, to, reason)
    ensures LivesLegally(l, Lived(l, to, reason, now))
  {}

  lemma OutcomeLivesLegally(r: Rows, outcome: PaymentOutcome, payment: PaymentRef, now: Time)
    ensures LivesLegally(LifeOf(r.file), LifeOf(PaymentApplied(r, outcome, payment, now).rows.file))
  {
    var l, reason := LifeOf(r.file), PaymentReported(payment);
    match outcome
    case Approved => if LegalMove(l, Pagado, reason) { MoveIsLegal(l, Pagado, reason, now); }
    case Rejected => if LegalMove(l, PagoRechazado, reason) { MoveIsLegal(l, PagoRechazado, reason, now); }
    case Pending => if LegalMove(l, PagoPendienteAcreditacion, reason) { MoveIsLegal(l, PagoPendienteAcreditacion, reason, now); }
  }

  lemma PaymentLivesLegally(r: Rows, report: Report, now: Time)
    ensures LivesLegally(LifeOf(r.file), LifeOf(PaymentProcessed(r, report, now).0.file))
  {
    var k, mapped := Find(r.file.payments, report.externalId), StatusMap(report.status);
    if mapped.Some? {
      var saved := r.(file := Saved(r.file, k, NewPayment(report, mapped.value.status, now)));
      OutcomeLivesLegally(saved, mapped.value.outcome, report.externalId, now);
      assert LifeOf(saved.file) == LifeOf(r.file);
    }
  }

  lemma CancellationLivesLegally(r: Rows, cause: Cause, origin: RefundOrigin, now: Time)
    requires CanTransition(r.file.order.status, Cancelado) && cause != ReservaVencida
    ensures LivesLegally(LifeOf(r.file), LifeOf(Cancelled(r, cause, origin, now).file))
  {
    MoveIsLegal(LifeOf(r.file), Cancelado, CancelledBy(cause), now);
  }

  lemma RetryLivesLegally(r: Rows, payer: nat, offers: seq<Offer>, now: Time)
    requires |offers| == |r.file.order.items|
    ensures LivesLegally(LifeOf(r.file), LifeOf(OpenedOr(RetryOpened(r, payer, offers, now), r).file))
  {
    if r.file.order.status == OrderStatus.PagoRechazado {
      MoveIsLegal(LifeOf(r.file), PendientePago, PaymentRetry, now);
    }
  }

  lemma ReceptionLivesLegally(r: Rows, k: nat, inputs: seq<Input>, options: map<nat, set<VariantId>>, now: Time)
    ensures LivesLegally(LifeOf(r.file), LifeOf(RowsOr(RequestReceived(r, k, inputs, options, now), r).file))
  {
    if RequestReceived(r, k, inputs, options, now).Done? {
      var l, l' := LifeOf(r.file), LifeOf(RequestReceived(r, k, inputs, options, now).value.file);
      ReceptionWritesOrder(r, k, inputs, options, now);
      assert l' == l || (l.status == Entregado && l' == Lived(l, Devuelto, FullReturn(k), now));
      if l.status == Entregado {
        MoveIsLegal(l, Devuelto, FullReturn(k), now);
      }
    }
  }

  lemma SystemMovesLiveLegally(r: Rows, now: Time)
    ensures LivesLegally(LifeOf(r.file), LifeOf(Expired(r, now).file))
    ensures LivesLegally(LifeOf(r.file), LifeOf(Compensated(r, now).file))
  {
    if Awaiting(r.file.order.status) {
      MoveIsLegal(LifeOf(r.file), Cancelado, CancelledBy(ReservaVencida), now);
      MoveIsLegal(LifeOf(r.file), Cancelado, CancelledBy(Pasarela), now);
    }
  }

  lemma AdminMoveLivesLegally(r: Rows, expected: Status, to: Status, now: Time)
    ensures LivesLegally(LifeOf(r.file), LifeOf(RowsOr(AdminMoved(r, expected, to, now), r).file))
  {
    if to in AdminTransitions(r.file.order.status) {
      AdminTransitionsAreTransitions(r.file.order.status, to);
      MoveIsLegal(LifeOf(r.file), to, AdminAction, now);
    }
  }

  /** No step ever makes a status change that the guards do not allow. */
  lemma StepLivesLegally(r: Rows, e: Event, now: Time)
    ensures LivesLegally(LifeOf(r.file), LifeOf(Step(r, e, now).file))
  {
    match e
    case ReportPayment(report) => PaymentLivesLegally(r, report, now);
    case Expire => SystemMovesLiveLegally(r, now);
    case CancelAsCustomer(userId, expected) =>
      if CustomerCancellable(r.file.order.status) { CancellationLivesLegally(r, Cliente, CU14, now); }
    case CancelAsAdmin(expected) =>
      if AdminCancellable(r.file.order.status) { CancellationLivesLegally(r, Administrador, CU19, now); }
    case MoveAsAdmin(expected, to) => AdminMoveLivesLegally(r, expected, to, now);
    case RetryPay(payer, offers) =>
      if |offers| == |r.file.order.items| { RetryLivesLegally(r, payer, offers, now); }
    case Compensate => SystemMovesLiveLegally(r, now);
    case ReceiveReturn(k, inputs, options) => ReceptionLivesLegally(r, k, inputs, options, now);
    case _ =>
  }

  lemma StepKeepsLife(r: Rows, e: Event, now: Time)
    requires LifeOk(LifeOf(r.file))
    ensures LifeOk(LifeOf(Step(r, e, now).file))
  {
    var l, l' := LifeOf(r.file), LifeOf(Step(r, e, now).file);
    StepLivesLegally(r, e, now);
    if l' != l {
      var to, reason, at :| LegalMove(l, to, reason) && l' == Lived(l, to, reason, at);
      LegalMoveKeepsLife(l, to, reason, at);
    }
  }
}
