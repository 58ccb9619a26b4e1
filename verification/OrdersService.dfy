/** Life cycle of an order: status changes with history, the effect of a verified payment, expiry of the reservation. */
module OrdersService {
  import opened Wrappers
  import opened OrderStatus
  import opened Stock
  import opened Entities
  import opened StockReservation

  datatype PaymentOutcome = Approved | Rejected | Pending

  /** `refundOrigin`: the approved payment does not belong to the order and has to be given back whole. */
  datatype Applied = Applied(
    rows: Rows,
    changed: bool,
    discrepancy: bool,
    refundOrigin: Option<RefundOrigin>,
    shortages: seq<Line>)

  /** The order after a legal status change, with its milestone dates and its history entry. */
  function Moved(f: File, to: Status, reason: Reason, now: Time): File {
    f.(order := f.order.(
         status := to,
         cause := if to == Cancelado && reason.CancelledBy? then Some(reason.cause) else None,
         paidAt := if to == Pagado then Some(now) else f.order.paidAt,
         deliveredAt := if to == Entregado then Some(now) else f.order.deliveredAt),
       history := f.history + [Entry(Some(f.order.status), to, reason)])
  }

  /** A cancellation always carries its cause. */
  predicate CanMove(from: Status, to: Status, reason: Reason) {
    CanTransition(from, to) && (to == Cancelado ==> reason.CancelledBy?)
  }

  /** Refuses, leaving everything as it was, what the graph does not allow. */
  method ChangeStatus(tx: Tables, to: Status, reason: Reason, now: Time) returns (ok: bool)
    modifies tx`order, tx`history
    ensures ok <==> CanMove(old(tx.order.status), to, reason)
    ensures tx.Contents() == if ok then Moved(old(tx.Contents()), to, reason, now) else old(tx.Contents())
  {
    if !CanTransition(tx.order.status, to) {
      return false;
    }
    if to == Cancelado && !reason.CancelledBy? {
      return false;
    }
    var from := tx.order.status;
    tx.order := tx.order.(status := to, cause := if to == Cancelado then Some(reason.cause) else None);
    if to == Pagado {
      tx.order := tx.order.(paidAt := Some(now));
    }
    if to == Entregado {
      tx.order := tx.order.(deliveredAt := Some(now));
    }
    RecordHistory(tx, Some(from), to, reason);
    ok := true;
  }

  method RecordHistory(tx: Tables, from: Option<Status>, to: Status, reason: Reason)
    modifies tx`history
    ensures tx.history == old(tx.history) + [Entry(from, to, reason)]
  {
    tx.history := tx.history + [Entry(from, to, reason)];
  }

  function ReservationReleased(r: Rows): Rows {
    if !r.file.order.reservationActive then r
    else OrderRows(r.file.(order := r.file.order.(reservationActive := false)), Released(r.stock, Lines(r.file.order.items)))
  }

  method ReleaseReservation(tx: Tables)
    modifies tx`order, tx`stock
    ensures tx.View() == ReservationReleased(old(tx.View()))
  {
    if !tx.order.reservationActive {
      return;
    }
    Release(tx, Lines(tx.order.items));
    tx.order := tx.order.(reservationActive := false);
  }

  function Uncommitted(items: seq<Item>): seq<Item> {
    if items == [] then [] else [items[0].(stockCommitted := false)] + Uncommitted(items[1..])
  }

  /** Reserved stock is released; deducted stock is put back, but only the items that were deducted. */
  function StockReturned(r: Rows): Rows {
    var released := ReservationReleased(r);
    var lines := CommittedLines(r.file.order.items);
    if lines == [] then released
    else OrderRows(
           released.file.(order := released.file.order.(items := Uncommitted(r.file.order.items)),
                          movements := r.file.movements + RestockMovements(released.stock, lines)),
           Restocked(released.stock, lines))
  }

  method ReturnStockOnCancel(tx: Tables)
    modifies tx`order, tx`stock, tx`movements
    ensures tx.View() == StockReturned(old(tx.View()))
  {
    ReleaseReservation(tx);
    var committed := CommittedLines(tx.order.items);
    if |committed| == 0 {
      return;
    }
    RestockCancelledSale(tx, committed);
    tx.order := tx.order.(items := Uncommitted(tx.order.items));
  }

  predicate IsShort(shortages: seq<Line>, v: VariantId) {
    exists s <- shortages :: s.variant == v
  }

  /** The items that were not short are marked as deducted. */
  function MarkCommitted(items: seq<Item>, shortages: seq<Line>): seq<Item> {
    if items == [] then []
    else [if IsShort(shortages, items[0].variant) then items[0] else items[0].(stockCommitted := true)]
         + MarkCommitted(items[1..], shortages)
  }

  function Noted(f: File, note: Note): File {
    f.(notes := f.notes + [note])
  }

  /** An approved payment is credited: stock deducted for good, shortages noted, order paid. */
  function Credited(r: Rows, payment: PaymentRef, now: Time): Applied {
    var order := r.file.order;
    var sale := Sold(r.stock, Lines(order.items), order.reservationActive);
    var f := r.file.(
      order := order.(reservationActive := false, items := MarkCommitted(order.items, sale.shortages)),
      movements := r.file.movements + sale.movements);
    var noted := if sale.shortages == [] then f else Noted(f, StockShortage(sale.shortages));
    Applied(OrderRows(Moved(noted, Pagado, PaymentReported(payment), now), sale.levels), true, false, None, sale.shortages)
  }

  /** A payment pending after a rejection takes the reservation again, if the stock is still there. */
  ghost function Retaken(r: Rows, payment: PaymentRef): Rows {
    if Fits(r.stock, Lines(r.file.order.items)) then
      OrderRows(r.file.(order := r.file.order.(reservationActive := true)), Reserved(r.stock, Lines(r.file.order.items)))
    else
      r.(file := Noted(r.file, ReservationNotRetaken(payment)))
  }

  ghost function PaymentApplied(r: Rows, outcome: PaymentOutcome, payment: PaymentRef, now: Time): Applied {
    var order := r.file.order;
    match outcome
    case Approved =>
      if Paid(order.status) then Applied(r, false, true, Some(CU05), [])
      else if order.status == Cancelado && order.cause != Some(ReservaVencida) then
        Applied(r, false, true,
                Some(if order.cause == Some(Cliente) then CU14 else if order.cause == Some(Administrador) then CU19 else CU05), [])
      else Credited(r, payment, now)
    case Rejected =>
      if Paid(order.status) then Applied(r, false, true, None, [])
      else if order.status !in {PendientePago, PagoPendienteAcreditacion} then Applied(r, false, false, None, [])
      else
        var released := ReservationReleased(r);
        Applied(released.(file := Moved(released.file, PagoRechazado, PaymentReported(payment), now)), true, false, None, [])
    case Pending =>
      if order.status !in {PendientePago, PagoRechazado} then Applied(r, false, false, None, [])
      else
        var taken := if order.status == PagoRechazado then Retaken(r, payment) else r;
        Applied(taken.(file := Moved(taken.file, PagoPendienteAcreditacion, PaymentReported(payment), now)), true, false, None, [])
  }

  method CreditPayment(tx: Tables, payment: PaymentRef, now: Time) returns (shortages: seq<Line>)
    requires CanTransition(tx.order.status, Pagado)
    modifies tx
    ensures Credited(old(tx.View()), payment, now) == Applied(tx.View(), true, false, None, shortages)
  {
    shortages := ConfirmSale(tx, Lines(tx.order.items), tx.order.reservationActive);
    tx.order := tx.order.(reservationActive := false);
    tx.order := tx.order.(items := MarkCommitted(tx.order.items, shortages));
    if |shortages| > 0 {
      AppendInternalNote(tx, StockShortage(shortages));
    }
    var ok := ChangeStatus(tx, Pagado, PaymentReported(payment), now);
    assert ok;
  }

  method RetakeReservation(tx: Tables, payment: PaymentRef)
    modifies tx
    ensures tx.View() == Retaken(old(tx.View()), payment)
  {
    var reserved := Reserve(tx, Lines(tx.order.items));
    if reserved {
      tx.order := tx.order.(reservationActive := true);
    } else {
      AppendInternalNote(tx, ReservationNotRetaken(payment));
    }
  }

  /** The status change is never refused: each branch is guarded by the status it starts from. */
  method ApplyPaymentOutcome(tx: Tables, outcome: PaymentOutcome, payment: PaymentRef, now: Time)
    returns (changed: bool, discrepancy: bool, refundOrigin: Option<RefundOrigin>, shortages: seq<Line>)
    modifies tx
    ensures PaymentApplied(old(tx.View()), outcome, payment, now)
            == Applied(tx.View(), changed, discrepancy, refundOrigin, shortages)
  {
    var paid := Paid(tx.order.status);
    match outcome
    case Approved =>
      if paid {
        return false, true, Some(CU05), [];
      }
      if tx.order.status == Cancelado && tx.order.cause != Some(ReservaVencida) {
        return false, true,
          Some(if tx.order.cause == Some(Cliente) then CU14 else if tx.order.cause == Some(Administrador) then CU19 else CU05), [];
      }
      shortages := CreditPayment(tx, payment, now);
      return true, false, None, shortages;

    case Rejected =>
      if paid {
        return false, true, None, [];
      }
      if tx.order.status != PendientePago && tx.order.status != PagoPendienteAcreditacion {
        return false, false, None, [];
      }
      ReleaseReservation(tx);
      var ok := ChangeStatus(tx, PagoRechazado, PaymentReported(payment), now);
      assert ok;
      return true, false, None, [];

    case Pending =>
      if tx.order.status == PagoRechazado {
        RetakeReservation(tx, payment);
      } else if tx.order.status != PendientePago {
        return false, false, None, [];
      }
      var ok := ChangeStatus(tx, PagoPendienteAcreditacion, PaymentReported(payment), now);
      assert ok;
      return true, false, None, [];
  }

  method AppendInternalNote(tx: Tables, note: Note)
    modifies tx`notes
    ensures tx.notes == old(tx.notes) + [note]
  {
    tx.notes := tx.notes + [note];
  }

  predicate ReservationDue(order: Order, now: Time) {
    Awaiting(order.status) && order.reservationExpiresAt < now
  }

  /** The reservation ran out with no payment credited: stock released, order cancelled. */
  function Expired(r: Rows, now: Time): Rows {
    if !ReservationDue(r.file.order, now) then r
    else
      var released := ReservationReleased(r);
      released.(file := Moved(released.file, Cancelado, CancelledBy(ReservaVencida), now))
  }

  /** The orders whose reservation ran out, among the first `n`. */
  function Due(files: seq<File>, n: nat, now: Time): (due: seq<nat>)
    requires n <= |files|
    ensures forall i :: 0 <= i < |due| ==> due[i] < n
  {
    if n == 0 then []
    else Due(files, n - 1, now) + if ReservationDue(files[n - 1].order, now) then [n - 1] else []
  }

  /** One transaction per order of the list. */
  function Swept(sys: System, due: seq<nat>, now: Time): (after: System)
    requires forall i :: 0 <= i < |due| ==> due[i] < |sys.files|
    ensures |after.files| == |sys.files|
    decreases |due|
  {
    if due == [] then sys
    else
      var before := Swept(sys, due[..|due| - 1], now);
      var k := due[|due| - 1];
      before.Commit(k, Expired(before.Rows(k), now))
  }

  lemma {:induction false} DueOnce(files: seq<File>, n: nat, now: Time)
    requires n <= |files|
    ensures forall k :: k in Due(files, n, now) <==> 0 <= k < n && ReservationDue(files[k].order, now)
    ensures forall i, j :: 0 <= i < j < |Due(files, n, now)| ==> Due(files, n, now)[i] != Due(files, n, now)[j]
  {
    if n > 0 {
      DueOnce(files, n - 1, now);
    }
  }

  /** Expiring some orders does not touch the rows of the others. */
  lemma {:induction false} SweptKeeps(sys: System, due: seq<nat>, now: Time, k: nat)
    requires forall i :: 0 <= i < |due| ==> due[i] < |sys.files|
    requires k < |sys.files| && k !in due
    ensures Swept(sys, due, now).files[k] == sys.files[k]
    decreases |due|
  {
    if due != [] {
      SweptKeeps(sys, due[..|due| - 1], now, k);
    }
  }

  /** One transaction: the order is locked and, if its reservation did run out, expired. */
  method ExpireReservation(store: Store, id: nat, now: Time) returns (done: bool)
    requires id < |store.files|
    modifies store
    ensures done == ReservationDue(old(store.files)[id].order, now)
    ensures done ==> store.View() == old(store.View()).Commit(id, Expired(old(store.View()).Rows(id), now))
    ensures !done ==> store.View() == old(store.View())
  {
    var tx := store.Begin(id);
    done := Awaiting(tx.order.status) && tx.order.reservationExpiresAt < now;
    if done {
      ReleaseReservation(tx);
      var ok := ChangeStatus(tx, Cancelado, CancelledBy(ReservaVencida), now);
      assert ok;
      store.Commit(id, tx);
    }
  }

  /** Every reservation that ran out is expired, in its own transaction. */
  method ExpireReservations(store: Store, now: Time) returns (expired: nat)
    modifies store
    ensures store.View() == Swept(old(store.View()), Due(old(store.files), |old(store.files)|, now), now)
    ensures expired == |Due(old(store.files), |old(store.files)|, now)|
  {
    ghost var before := store.View();
    var due := Due(store.files, |store.files|, now);
    DueOnce(store.files, |store.files|, now);
    expired := 0;
    for i := 0 to |due|
      invariant |store.files| == |before.files|
      invariant store.View() == Swept(before, due[..i], now)
      invariant expired == i
    {
      assert due[..i + 1][..i] == due[..i];
      SweptKeeps(before, due[..i], now, due[i]);
      var done := ExpireReservation(store, due[i], now);
      if done {
        expired := expired + 1;
      }
    }
    assert due[..|due|] == due;
  }
}
