/** Registers refunds against the payments of an order, never beyond what each payment still has to give back. */
module PaymentLedger {
  import opened Wrappers
  import opened Entities

  /** Cents of payment `p` already committed to a refund, or given back. */
  function RefundedCents(refunds: seq<Refund>, p: nat): nat {
    if refunds == [] then 0
    else RefundedCents(refunds[..|refunds| - 1], p)
         + var r := refunds[|refunds| - 1]; if r.payment == p && Commits(r.status) then r.amount else 0
  }

  function RefundableCents(f: File, p: nat): int
    requires p < |f.payments|
  {
    f.payments[p].amount - RefundedCents(f.refunds, p)
  }

  /** An approved payment, the requested one if any, with balance enough. */
  predicate CanRefund(f: File, amount: Cents, only: Option<nat>, p: nat) {
    && p < |f.payments|
    && f.payments[p].status == Aprobado
    && (only == None || only == Some(p))
    && amount <= RefundableCents(f, p)
  }

  predicate Earlier(f: File, p: nat, q: nat)
    requires p < |f.payments| && q < |f.payments|
  {
    f.payments[p].processedAt < f.payments[q].processedAt || (f.payments[p].processedAt == f.payments[q].processedAt && p <= q)
  }

  /** Among the first `n` payments, the earliest processed one that can take the refund. */
  function FirstWithBalance(f: File, amount: Cents, only: Option<nat>, n: nat): (chosen: Option<nat>)
    requires n <= |f.payments|
    ensures chosen == None ==> forall p :: 0 <= p < n ==> !CanRefund(f, amount, only, p)
    ensures chosen.Some? ==>
              && chosen.value < n && CanRefund(f, amount, only, chosen.value)
              && (forall p :: 0 <= p < n && CanRefund(f, amount, only, p) ==> f.payments[chosen.value].processedAt <= f.payments[p].processedAt)
              && (forall p :: 0 <= p < chosen.value && CanRefund(f, amount, only, p) ==> f.payments[chosen.value].processedAt < f.payments[p].processedAt)
  {
    if n == 0 then None
    else
      var best := FirstWithBalance(f, amount, only, n - 1);
      if !CanRefund(f, amount, only, n - 1) then best
      else if best.Some? && Earlier(f, best.value, n - 1) then best
      else Some(n - 1)
  }

  /** The payment the refund goes against; none when the amount is zero or no payment has the balance. */
  function ChosenPayment(f: File, amount: Cents, only: Option<nat>): Option<nat> {
    if amount == 0 then None else FirstWithBalance(f, amount, only, |f.payments|)
  }

  function NewRefund(p: nat, amount: Cents, origin: RefundOrigin): Refund {
    Refund(p, amount, EnTramite, None, origin, 1, false)
  }

  function Requested(f: File, amount: Cents, origin: RefundOrigin, only: Option<nat>): File {
    match ChosenPayment(f, amount, only)
    case None => f
    case Some(p) => f.(refunds := f.refunds + [NewRefund(p, amount, origin)])
  }

  /** The index of the new refund row, or none when there is nothing to refund from. */
  method RequestRefund(tx: Tables, amount: Cents, origin: RefundOrigin, only: Option<nat>) returns (refund: Option<nat>)
    modifies tx`refunds
    ensures tx.Contents() == Requested(old(tx.Contents()), amount, origin, only)
    ensures refund == match ChosenPayment(old(tx.Contents()), amount, only) case None => None case Some(p) => Some(|old(tx.refunds)|)
  {
    var f := tx.Contents();
    var payment: Option<nat> := None;
    for p := 0 to |tx.payments|
      invariant payment == FirstWithBalance(f, amount, only, p)
    {
      if CanRefund(f, amount, only, p) && (payment == None || !Earlier(f, payment.value, p)) {
        payment := Some(p);
      }
    }
    if amount <= 0 || payment == None {
      return None;
    }
    tx.refunds := tx.refunds + [NewRefund(payment.value, amount, origin)];
    refund := Some(|tx.refunds| - 1);
  }

  /** Does the refund fit in its payment's balance, not counting itself? */
  predicate FitsInBalance(f: File, k: nat)
    requires k < |f.refunds|
  {
    var refund := f.refunds[k];
    && refund.payment < |f.payments|
    && refund.amount <= f.payments[refund.payment].amount - RefundedCents(f.refunds[..k] + f.refunds[k + 1..], refund.payment)
  }
}
