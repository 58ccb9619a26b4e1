/** Cancellation by the customer or the administrator: stock given back and, if there was a payment, its refund registered. */
module OrderCancellation {
  import opened Wrappers
  import opened OrderStatus
  import opened Entities
  import opened OrdersService
  import opened PaymentLedger

  /** A dispatched order keeps its stock out and does not refund the shipping. */
  function CancellationAmount(order: Order): Cents {
    if order.status == Despachado then order.subtotal else order.total
  }

  /** The order cancelled and its stock given back, before any refund. */
  function Undone(r: Rows, cause: Cause, now: Time): Rows {
    var moved := r.(file := Moved(r.file, OrderStatus.Cancelado, CancelledBy(cause), now));
    if r.file.order.status == Despachado then moved else StockReturned(moved)
  }

  /** The refund registered, or the note that it could not be. */
  function Refunded(f: File, amount: Cents, origin: RefundOrigin): File {
    if ChosenPayment(f, amount, None) == None then Noted(f, RefundNotRegistered) else Requested(f, amount, origin, None)
  }

  function Cancelled(r: Rows, cause: Cause, origin: RefundOrigin, now: Time): Rows {
    var undone := Undone(r, cause, now);
    if r.file.order.paidAt == None then undone
    else undone.(file := Refunded(undone.file, CancellationAmount(r.file.order), origin))
  }

  method ApplyCancellation(tx: Tables, cause: Cause, origin: RefundOrigin, now: Time) returns (refund: Option<nat>)
    requires CanTransition(tx.order.status, OrderStatus.Cancelado)
    modifies tx
    ensures tx.View() == Cancelled(old(tx.View()), cause, origin, now)
    ensures refund.Some? ==> refund.value == |old(tx.refunds)| && |tx.refunds| == |old(tx.refunds)| + 1
    ensures refund == None ==> tx.refunds == old(tx.refunds)
  {
    var previousStatus := tx.order.status;
    var dispatched := previousStatus == Despachado;
    var ok := ChangeStatus(tx, OrderStatus.Cancelado, CancelledBy(cause), now);
    assert ok;
    if !dispatched {
      ReturnStockOnCancel(tx);
    }
    refund := None;
    if tx.order.paidAt.Some? {
      refund := RequestRefund(tx, if dispatched then tx.order.subtotal else tx.order.total, origin, None);
      if refund == None {
        AppendInternalNote(tx, RefundNotRegistered);
      }
    }
  }

  /** Is the customer still allowed to cancel? */
  function CustomerCancellation(order: Order, now: Time): Option<string> {
    if !CustomerCancellable(order.status) then Some("ORDER_NOT_CANCELLABLE")
    else if order.paidAt.Some? && order.paidAt.value + CUSTOMER_CANCEL_WINDOW_MS <= now then Some("CANCEL_WINDOW_EXPIRED")
    else None
  }

  function CustomerCancelled(r: Rows, userId: nat, expected: Status, now: Time): Outcome<Rows> {
    if r.file.order.userId != userId then Refused("NOT_FOUND")
    else if r.file.order.status != expected then Refused("ORDER_STATUS_CHANGED")
    else match CustomerCancellation(r.file.order, now)
      case Some(code) => Refused(code)
      case None => Done(Cancelled(r, Cliente, CU14, now))
  }

  method CancelByCustomer(tx: Tables, userId: nat, expected: Status, now: Time) returns (error: Option<string>)
    modifies tx
    ensures match CustomerCancelled(old(tx.View()), userId, expected, now)
            case Done(rows) => error == None && tx.View() == rows
            case Refused(code) => error == Some(code) && tx.View() == old(tx.View())
  {
    if tx.order.userId != userId {
      return Some("NOT_FOUND");
    }
    if tx.order.status != expected {
      return Some("ORDER_STATUS_CHANGED");
    }
    error := CustomerCancellation(tx.order, now);
    if error == None {
      var _ := ApplyCancellation(tx, Cliente, CU14, now);
    }
  }

  function AdminCancelled(r: Rows, expected: Status, now: Time): Outcome<Rows> {
    if r.file.order.status != expected then Refused("ORDER_STATUS_CHANGED")
    else if !AdminCancellable(r.file.order.status) then Refused("ORDER_NOT_CANCELLABLE")
    else Done(Cancelled(r, Administrador, CU19, now))
  }

  method CancelByAdmin(tx: Tables, expected: Status, now: Time) returns (error: Option<string>)
    modifies tx
    ensures match AdminCancelled(old(tx.View()), expected, now)
            case Done(rows) => error == None && tx.View() == rows
            case Refused(code) => error == Some(code) && tx.View() == old(tx.View())
  {
    if tx.order.status != expected {
      return Some("ORDER_STATUS_CHANGED");
    }
    if !AdminCancellable(tx.order.status) {
      return Some("ORDER_NOT_CANCELLABLE");
    }
    var _ := ApplyCancellation(tx, Administrador, CU19, now);
    error := None;
  }

  function AdminMoved(r: Rows, expected: Status, to: Status, now: Time): Outcome<Rows> {
    if r.file.order.status != expected then Refused("ORDER_STATUS_CHANGED")
    else if to !in AdminTransitions(r.file.order.status) then Refused("INVALID_TRANSITION")
    else Done(r.(file := Moved(r.file, to, AdminAction, now)))
  }

  method ChangeStatusByAdmin(tx: Tables, expected: Status, to: Status, now: Time) returns (error: Option<string>)
    modifies tx
    ensures match AdminMoved(old(tx.View()), expected, to, now)
            case Done(rows) => error == None && tx.View() == rows
            case Refused(code) => error == Some(code) && tx.View() == old(tx.View())
  {
    if tx.order.status != expected {
      return Some("ORDER_STATUS_CHANGED");
    }
    if to !in AdminTransitions(tx.order.status) {
      return Some("INVALID_TRANSITION");
    }
    AdminTransitionsAreTransitions(tx.order.status, to);
    var ok := ChangeStatus(tx, to, AdminAction, now);
    assert ok;
    error := None;
  }
}
