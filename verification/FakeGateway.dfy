/** The simulated payment gateway: preferences, payments, and refunds created at most once per idempotency key. */
module FakeGateway {
  import opened Wrappers
  import opened Entities
  import opened PaymentsService
  import opened Checkout

  type PreferenceId = nat

  datatype Preference = Preference(order: nat, amount: Cents, expiresAt: Time)
  datatype GatewayPayment = GatewayPayment(status: RawStatus, amount: Cents, order: nat)
  datatype GatewayStatus = InProcess | RefundApproved | RefundRejected
  datatype GatewayRefund = GatewayRefund(payment: PaymentRef, status: GatewayStatus, amount: Cents)

  /** The idempotency key of a refund: order, row and attempt. */
  datatype Key = Key(order: nat, refund: nat, attempt: nat)

  /** Contents of the gateway. Ids are issued from counters: an id never comes back. */
  datatype Gateway = Gateway(
    preferences: map<PreferenceId, Preference>,
    payments: map<PaymentRef, GatewayPayment>,
    refunds: map<GatewayRefundId, GatewayRefund>,
    refundKeys: map<Key, GatewayRefundId>,
    nextPreference: PreferenceId,
    nextPayment: PaymentRef,
    nextRefund: GatewayRefundId)

  /** Cents of the payment that refunds below id `n` took, unless rejected. */
  function Taken(refunds: map<GatewayRefundId, GatewayRefund>, n: GatewayRefundId, payment: PaymentRef): nat {
    if n == 0 then 0
    else Taken(refunds, n - 1, payment)
         + if n - 1 in refunds && refunds[n - 1].payment == payment && refunds[n - 1].status != RefundRejected
           then refunds[n - 1].amount else 0
  }

  /** Ids stay below the counters, keys name existing refunds, and no payment is refunded beyond its amount. */
  ghost predicate GatewayOk(g: Gateway) {
    && (forall p <- g.preferences :: p < g.nextPreference)
    && (forall p <- g.payments :: p < g.nextPayment)
    && (forall r <- g.refunds :: r < g.nextRefund && g.refunds[r].payment in g.payments)
    && (forall key <- g.refundKeys :: g.refundKeys[key] in g.refunds)
    && (forall a, b :: a in g.refundKeys && b in g.refundKeys && g.refundKeys[a] == g.refundKeys[b] ==> a == b)
    && (forall p <- g.payments :: Taken(g.refunds, g.nextRefund, p) <= g.payments[p].amount)
  }

  function PreferenceCreated(g: Gateway, order: nat, items: seq<PreferenceItem>, expiresAt: Time): Gateway {
    g.(preferences := g.preferences[g.nextPreference := Preference(order, PreferenceAmount(items), expiresAt)],
       nextPreference := g.nextPreference + 1)
  }

  function PreferenceExpired(g: Gateway, p: PreferenceId, now: Time): Gateway {
    if p in g.preferences then g.(preferences := g.preferences[p := g.preferences[p].(expiresAt := now)]) else g
  }

  /** A preference takes payments until it expires. */
  predicate IsOpen(g: Gateway, p: PreferenceId, now: Time) {
    p in g.preferences && g.preferences[p].expiresAt > now
  }

  datatype SimulatedOutcome = PayApproved | PayRejected | PayPending

  function Raw(outcome: SimulatedOutcome): RawStatus {
    match outcome case PayApproved => RawApproved case PayRejected => RawRejected case PayPending => RawInProcess
  }

  /** The customer pays: a payment for the preference's amount and order. */
  function PaymentSimulated(g: Gateway, p: PreferenceId, outcome: SimulatedOutcome, now: Time): Outcome<Gateway> {
    if p !in g.preferences then Refused("PREFERENCE_NOT_FOUND")
    else if g.preferences[p].expiresAt <= now then Refused("PREFERENCE_EXPIRED")
    else Done(g.(payments := g.payments[g.nextPayment := GatewayPayment(Raw(outcome), g.preferences[p].amount, g.preferences[p].order)],
                 nextPayment := g.nextPayment + 1))
  }

  /** Only a pending payment is settled later. */
  function PaymentSettled(g: Gateway, p: PaymentRef, approved: bool): Outcome<Gateway> {
    if p !in g.payments then Refused("PAYMENT_NOT_FOUND")
    else if g.payments[p].status != RawInProcess then Refused("PAYMENT_ALREADY_SETTLED")
    else Done(g.(payments := g.payments[p := g.payments[p].(status := if approved then RawApproved else RawRejected)]))
  }

  /** The refund created with the key, or the one created before with it; refused beyond the payment's balance. */
  function RefundCreated(g: Gateway, payment: PaymentRef, amount: Cents, key: Key): Outcome<Gateway> {
    if key in g.refundKeys then Done(g)
    else if payment !in g.payments || g.payments[payment].status != RawApproved then Refused("PAYMENT_NOT_APPROVED")
    else if Taken(g.refunds, g.nextRefund, payment) + amount > g.payments[payment].amount then Refused("REFUND_EXCEEDS_BALANCE")
    else Done(g.(refunds := g.refunds[g.nextRefund := GatewayRefund(payment, InProcess, amount)],
                 refundKeys := g.refundKeys[key := g.nextRefund],
                 nextRefund := g.nextRefund + 1))
  }

  function RefundSettled(g: Gateway, r: GatewayRefundId, approved: bool): Outcome<Gateway> {
    if r !in g.refunds then Refused("REFUND_NOT_FOUND")
    else if g.refunds[r].status != InProcess then Refused("REFUND_ALREADY_SETTLED")
    else Done(g.(refunds := g.refunds[r := g.refunds[r].(status := if approved then RefundApproved else RefundRejected)]))
  }

  class FakePaymentGateway {
    var preferences: map<PreferenceId, Preference>
    var payments: map<PaymentRef, GatewayPayment>
    var refunds: map<GatewayRefundId, GatewayRefund>
    var refundKeys: map<Key, GatewayRefundId>
    var nextPreference: PreferenceId
    var nextPayment: PaymentRef
    var nextRefund: GatewayRefundId

    constructor ()
      ensures View() == Gateway(map[], map[], map[], map[], 0, 0, 0) && GatewayOk(View())
    {
      preferences, payments, refunds, refundKeys := map[], map[], map[], map[];
      nextPreference, nextPayment, nextRefund := 0, 0, 0;
    }

    function View(): Gateway
      reads this
    {
      Gateway(preferences, payments, refunds, refundKeys, nextPreference, nextPayment, nextRefund)
    }

    method CreatePreference(order: nat, items: seq<PreferenceItem>, expiresAt: Time) returns (id: PreferenceId)
      requires GatewayOk(View())
      modifies this
      ensures View() == PreferenceCreated(old(View()), order, items, expiresAt) && GatewayOk(View())
      ensures id !in old(preferences) && preferences == old(preferences)[id := Preference(order, PreferenceAmount(items), expiresAt)]
    {
      id := nextPreference;
      var amount := 0;
      for k := 0 to |items|
        invariant amount + PreferenceAmount(items[k..]) == PreferenceAmount(items)
        invariant View() == old(View())
      {
        assert items[k..][1..] == items[k + 1..];
        amount := amount + items[k].unitPrice * items[k].quantity;
      }
      preferences := preferences[id := Preference(order, amount, expiresAt)];
      nextPreference := nextPreference + 1;
    }

    method ExpirePreference(p: PreferenceId, now: Time)
      modifies this`preferences
      ensures View() == PreferenceExpired(old(View()), p, now)
      ensures !IsOpen(View(), p, now)
    {
      if p in preferences {
        preferences := preferences[p := preferences[p].(expiresAt := now)];
      }
    }

    /** A second call with the same key gives back the same refund and creates nothing. */
    method CreateRefund(payment: PaymentRef, amount: Cents, key: Key) returns (r: Option<GatewayRefundId>)
      requires GatewayOk(View())
      modifies this`refunds, this`refundKeys, this`nextRefund
      ensures match RefundCreated(old(View()), payment, amount, key)
              case Done(g) => View() == g && key in g.refundKeys && r == Some(g.refundKeys[key])
              case Refused(_) => r == None && View() == old(View())
      ensures GatewayOk(View())
    {
      if key in refundKeys {
        return Some(refundKeys[key]);
      }
      if payment !in payments || payments[payment].status != RawApproved {
        return None;
      }
      var refunded := 0;
      for id := 0 to nextRefund
        invariant refunded == Taken(refunds, id, payment)
        invariant View() == old(View())
      {
        if id in refunds && refunds[id].payment == payment && refunds[id].status != RefundRejected {
          refunded := refunded + refunds[id].amount;
        }
      }
      if refunded + amount > payments[payment].amount {
        return None;
      }
      CreateRefundKeepsGateway(View(), payment, amount, key);
      refunds := refunds[nextRefund := GatewayRefund(payment, InProcess, amount)];
      refundKeys := refundKeys[key := nextRefund];
      r := Some(nextRefund);
      nextRefund := nextRefund + 1;
    }

    method SettleRefund(r: GatewayRefundId, approved: bool) returns (error: Option<string>)
      requires GatewayOk(View())
      modifies this`refunds
      ensures match RefundSettled(old(View()), r, approved)
              case Done(g) => error == None && View() == g
              case Refused(code) => error == Some(code) && View() == old(View())
      ensures GatewayOk(View())
    {
      if r !in refunds {
        return Some("REFUND_NOT_FOUND");
      }
      if refunds[r].status != InProcess {
        return Some("REFUND_ALREADY_SETTLED");
      }
      SettleRefundKeepsGateway(View(), r, approved);
      refunds := refunds[r := refunds[r].(status := if approved then RefundApproved else RefundRejected)];
      error := None;
    }

    method SimulatePayment(p: PreferenceId, outcome: SimulatedOutcome, now: Time) returns (payment: Option<PaymentRef>)
      requires GatewayOk(View())
      modifies this`payments, this`nextPayment
      ensures match PaymentSimulated(old(View()), p, outcome, now)
              case Done(g) => View() == g && payment == Some(old(nextPayment))
              case Refused(_) => payment == None && View() == old(View())
      ensures GatewayOk(View())
    {
      if p !in preferences || preferences[p].expiresAt <= now {
        return None;
      }
      SimulatePaymentKeepsGateway(View(), p, outcome, now);
      payments := payments[nextPayment := GatewayPayment(Raw(outcome), preferences[p].amount, preferences[p].order)];
      payment := Some(nextPayment);
      nextPayment := nextPayment + 1;
    }

    method SettlePayment(p: PaymentRef, approved: bool) returns (error: Option<string>)
      requires GatewayOk(View())
      modifies this`payments
      ensures match PaymentSettled(old(View()), p, approved)
              case Done(g) => error == None && View() == g
              case Refused(code) => error == Some(code) && View() == old(View())
      ensures GatewayOk(View())
    {
      if p !in payments {
        return Some("PAYMENT_NOT_FOUND");
      }
      if payments[p].status != RawInProcess {
        return Some("PAYMENT_ALREADY_SETTLED");
      }
      payments := payments[p := payments[p].(status := if approved then RawApproved else RawRejected)];
      error := None;
    }
  }

  // ----- Refunds stay inside their payment -----

  lemma {:induction false} TakenBelow(refunds: map<GatewayRefundId, GatewayRefund>, refunds': map<GatewayRefundId, GatewayRefund>, n: GatewayRefundId, payment: PaymentRef)
    requires forall r: GatewayRefundId :: r < n ==> (r in refunds' <==> r in refunds) && (r in refunds ==> refunds'[r] == refunds[r])
    ensures Taken(refunds', n, payment) == Taken(refunds, n, payment)
  {
    if n > 0 {
      TakenBelow(refunds, refunds', n - 1, payment);
    }
  }

  lemma {:induction false} TakenShrinks(refunds: map<GatewayRefundId, GatewayRefund>, n: GatewayRefundId, r: GatewayRefundId, status: GatewayStatus, payment: PaymentRef)
    requires r in refunds && refunds[r].status != RefundRejected
    ensures Taken(refunds[r := refunds[r].(status := status)], n, payment) <= Taken(refunds, n, payment)
  {
    if n > 0 {
      TakenShrinks(refunds, n - 1, r, status, payment);
    }
  }

  lemma {:induction false} NothingTaken(refunds: map<GatewayRefundId, GatewayRefund>, n: GatewayRefundId, payment: PaymentRef)
    requires forall r <- refunds :: refunds[r].payment != payment
    ensures Taken(refunds, n, payment) == 0
  {
    if n > 0 {
      NothingTaken(refunds, n - 1, payment);
    }
  }

  lemma CreateRefundKeepsGateway(g: Gateway, payment: PaymentRef, amount: Cents, key: Key)
    requires GatewayOk(g) && RefundCreated(g, payment, amount, key).Done?
    ensures GatewayOk(RefundCreated(g, payment, amount, key).value)
  {
    var g' := RefundCreated(g, payment, amount, key).value;
    forall p | p in g'.payments ensures Taken(g'.refunds, g'.nextRefund, p) <= g'.payments[p].amount {
      TakenBelow(g.refunds, g'.refunds, g.nextRefund, p);
    }
  }

  lemma SettleRefundKeepsGateway(g: Gateway, r: GatewayRefundId, approved: bool)
    requires GatewayOk(g) && RefundSettled(g, r, approved).Done?
    ensures GatewayOk(RefundSettled(g, r, approved).value)
  {
    var g' := RefundSettled(g, r, approved).value;
    forall p | p in g'.payments ensures Taken(g'.refunds, g'.nextRefund, p) <= g'.payments[p].amount {
      TakenShrinks(g.refunds, g.nextRefund, r, g'.refunds[r].status, p);
    }
  }

  lemma SimulatePaymentKeepsGateway(g: Gateway, p: PreferenceId, outcome: SimulatedOutcome, now: Time)
    requires GatewayOk(g) && PaymentSimulated(g, p, outcome, now).Done?
    ensures GatewayOk(PaymentSimulated(g, p, outcome, now).value)
  {
    NothingTaken(g.refunds, g.nextRefund, g.nextPayment);
  }
}
