/** Processing of a payment as reported by the gateway: at most once per payment, credited only when it is the exact amount. */
module PaymentsService {
  import opened Wrappers
  import opened Entities
  import opened OrdersService
  import opened PaymentLedger

  /** Raw statuses of the gateway; any other one is outside this use case. */
  datatype RawStatus = RawApproved | RawRejected | RawCancelled | RawPending | RawInProcess | RawAuthorized | RawOther

  /** A payment as the gateway reports it; its order is fixed by the gateway. */
  datatype Report = Report(externalId: PaymentRef, status: RawStatus, amount: Cents, storeCurrency: bool)

  datatype Mapped = Mapped(status: PaymentStatus, outcome: PaymentOutcome)

  function StatusMap(raw: RawStatus): Option<Mapped> {
    match raw
    case RawApproved => Some(Mapped(Aprobado, Approved))
    case RawRejected => Some(Mapped(Rechazado, Rejected))
    case RawCancelled => Some(Mapped(PagoCancelado, Rejected))
    case RawPending => Some(Mapped(PendienteAcreditacion, Pending))
    case RawInProcess => Some(Mapped(PendienteAcreditacion, Pending))
    case RawAuthorized => Some(Mapped(PendienteAcreditacion, Pending))
    case RawOther => None
  }

  datatype Kind = Ignored | Duplicate | Discrepancy | Processed

  /** Position of the payment row with this external id, or the number of rows. */
  function Find(payments: seq<Payment>, id: PaymentRef): (k: nat)
    ensures k <= |payments|
    ensures k < |payments| ==> payments[k].externalId == id
    ensures forall i :: 0 <= i < k ==> payments[i].externalId != id
  {
    if payments == [] then 0
    else if payments[0].externalId == id then 0
    else 1 + Find(payments[1..], id)
  }

  function NewPayment(report: Report, status: PaymentStatus, now: Time): Payment {
    Payment(report.externalId, status, report.amount, report.storeCurrency, now)
  }

  /** The payment row is updated in place, or added. */
  function Saved(f: File, k: nat, payment: Payment): File
    requires k <= |f.payments|
  {
    f.(payments := if k < |f.payments| then f.payments[k := payment] else f.payments + [payment])
  }

  predicate ExactAmount(payment: Payment, order: Order) {
    payment.amount == order.total && payment.storeCurrency
  }

  /** Already recorded with that status, or a pending report that came after a final one. */
  predicate IsDuplicate(recorded: PaymentStatus, reported: PaymentStatus) {
    recorded == reported || (FinalPayment(recorded) && !FinalPayment(reported))
  }

  ghost function PaymentProcessed(r: Rows, report: Report, now: Time): (Rows, Kind) {
    match StatusMap(report.status)
    case None => (r, Ignored)
    case Some(mapped) =>
      var k := Find(r.file.payments, report.externalId);
      if k < |r.file.payments| && IsDuplicate(r.file.payments[k].status, mapped.status) then (r, Duplicate)
      else if k < |r.file.payments| && FinalPayment(r.file.payments[k].status) then
        (r.(file := Noted(r.file, FinalStatusConflict(report.externalId))), Discrepancy)
      else
        var payment := NewPayment(report, mapped.status, now);
        var saved := r.(file := Saved(r.file, k, payment));
        if mapped.outcome == Approved && !ExactAmount(payment, r.file.order) then
          (saved.(file := Noted(saved.file, AmountMismatch(report.externalId))), Discrepancy)
        else
          var applied := PaymentApplied(saved, mapped.outcome, report.externalId, now);
          if !applied.discrepancy then (applied.rows, Processed)
          else
            var noted := Noted(applied.rows.file, PaymentDiscrepancy(report.externalId));
            match applied.refundOrigin
            case None => (applied.rows.(file := noted), Discrepancy)
            case Some(origin) => (applied.rows.(file := Requested(noted, payment.amount, origin, Some(k))), Discrepancy)
  }

  method ProcessPayment(tx: Tables, report: Report, now: Time) returns (kind: Kind)
    modifies tx
    ensures PaymentProcessed(old(tx.View()), report, now) == (tx.View(), kind)
  {
    var mapped := StatusMap(report.status);
    if mapped == None {
      return Ignored;
    }
    var k := Find(tx.payments, report.externalId);
    if k < |tx.payments| && IsDuplicate(tx.payments[k].status, mapped.value.status) {
      return Duplicate;
    }
    if k < |tx.payments| && FinalPayment(tx.payments[k].status) {
      AppendInternalNote(tx, FinalStatusConflict(report.externalId));
      return Discrepancy;
    }
    var payment := NewPayment(report, mapped.value.status, now);
    if k < |tx.payments| {
      tx.payments := tx.payments[k := payment];
    } else {
      tx.payments := tx.payments + [payment];
    }
    if mapped.value.outcome == Approved && !ExactAmount(payment, tx.order) {
      AppendInternalNote(tx, AmountMismatch(report.externalId));
      return Discrepancy;
    }
    var changed, discrepancy, refundOrigin, shortages := ApplyPaymentOutcome(tx, mapped.value.outcome, report.externalId, now);
    if discrepancy {
      AppendInternalNote(tx, PaymentDiscrepancy(report.externalId));
      if refundOrigin.Some? {
        var _ := RequestRefund(tx, payment.amount, refundOrigin.value, Some(k));
      }
      return Discrepancy;
    }
    kind := Processed;
  }
}
