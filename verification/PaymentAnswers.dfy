/** A payment from the customer's screen to the order: simulated at the gateway, read there, and processed. */
module PaymentAnswers {
  import opened Entities
  import opened PaymentsService
  import opened Machine
  import opened Runs
  import opened FakeGateway
  import opened RefundProtocol
  import opened RefundBalance
  import opened PaymentOutcomes

  // ----- The database of a reachable net is reachable -----

  lemma ReachableAfter(sys: System, e: SystemEvent)
    requires IsReachable(sys)
    ensures IsReachable(SystemStep(sys, e))
  {
    var events :| sys == Run(Empty, events);
    assert (events + [e])[..|events|] == events;
    assert Run(Empty, events + [e]) == SystemStep(sys, e);
  }

  lemma CallsAreTransactions(sys: System, c: RefundProtocol.Call)
    requires IsReachable(sys)
    ensures IsReachable(RefundProtocol.Applied(sys, c).0)
  {
    match c
    case Applying(key, _, status) =>
      ReachableAfter(sys, OnOrder(key.order, MoveRefund(key.refund, key.attempt, Reembolsado), 0));
      ReachableAfter(sys, OnOrder(key.order, MoveRefund(key.refund, key.attempt, ReembolsoRechazado), 0));
    case Rejecting(key) => ReachableAfter(sys, OnOrder(key.order, MoveRefund(key.refund, key.attempt, ReembolsoRechazado), 0));
    case GivingUp(key) => ReachableAfter(sys, OnOrder(key.order, MoveRefund(key.refund, key.attempt, PendienteDeGestion), 0));
    case _ =>
  }

  lemma ActionsAreTransactions(net: Net, a: RefundProtocol.Action)
    requires IsReachable(net.sys)
    ensures IsReachable(NetStep(net, a).sys)
  {
    match a
    case Commit(e) => ReachableAfter(net.sys, e);
    case Process(i, now) => if i < |net.calls| && net.calls[i].Reporting? { ReachableAfter(net.sys, ReportOf(net.calls[i], now)); }
    case Store(i) =>
      if i < |net.calls| && net.calls[i].Answered? {
        var key := net.calls[i].key;
        ReachableAfter(net.sys, OnOrder(key.order, AnswerRefund(key.refund, key.attempt, net.calls[i].result), 0));
      }
    case Apply(i) => if i < |net.calls| { CallsAreTransactions(net.sys, net.calls[i]); }
    case _ =>
  }

  lemma {:induction false} NetRunIsReachable(actions: seq<RefundProtocol.Action>)
    ensures IsReachable(NetRun(START, actions).sys)
    decreases |actions|
  {
    if actions == [] {
      assert Run(Empty, []) == Empty;
    } else {
      NetRunIsReachable(actions[..|actions| - 1]);
      ActionsAreTransactions(NetRun(START, actions[..|actions| - 1]), actions[|actions| - 1]);
    }
  }

  lemma NetIsReachable(net: Net)
    requires IsReachableNet(net)
    ensures IsReachable(net.sys)
  {
    var actions :| net == NetRun(START, actions);
    NetRunIsReachable(actions);
  }

  // ----- A report of what the gateway holds -----

  /** The payment read at the gateway and processed, with nothing in between. */
  ghost function ReadAndProcessed(net: Net, q: PaymentRef, now: Time): Net {
    NetStep(NetStep(net, StartReport(q)), Process(|net.calls|, now))
  }

  lemma ReportAnswers(net: Net, q: PaymentRef, now: Time)
    requires q in net.gateway.payments && net.gateway.payments[q].order < |net.sys.files|
    ensures var payment := net.gateway.payments[q];
            var (k, report) := (payment.order, Report(q, payment.status, payment.amount, true));
            ReadAndProcessed(net, q, now)
            == net.(sys := net.sys.Commit(k, PaymentProcessed(net.sys.Rows(k), report, now).0), calls := net.calls + [Over])
  {}

  /** What processing the payment leaves of its order, when it is for the exact total. */
  ghost predicate IsPaidFor(r: Rows, r': Rows, q: PaymentRef, now: Time) {
    if TakesPayments(r.file.order) then IsCredited(r, r', Processed, q, now) && IsDeducted(r, r')
    else r.file.order.total > 0 ==> IsGivenBack(r, r', Discrepancy, Payment(q, Aprobado, r.file.order.total, true, now))
  }

  ghost predicate IsRefused(r: Rows, r': Rows, q: PaymentRef, now: Time) {
    exists kind :: IsRejection(r, r', kind, Report(q, RawRejected, r.file.order.total, true), now)
  }

  ghost predicate IsPending(r: Rows, r': Rows, q: PaymentRef, now: Time) {
    exists kind :: IsPendency(r, r', kind, Report(q, RawInProcess, r.file.order.total, true), now)
  }

  /** The rows of order `k` after the transaction of a report. */
  ghost predicate LeavesRows(net: Net, net': Net, k: nat)
    requires k < |net.sys.files|
  {
    k < |net'.sys.files| && net'.sys == net.sys.Commit(k, net'.sys.Rows(k))
  }

  lemma ExactReport(net: Net, q: PaymentRef, now: Time)
    requires IsReachable(net.sys) && q in net.gateway.payments && net.gateway.payments[q].order < |net.sys.files|
    requires IsOpenPayment(net.sys.files[net.gateway.payments[q].order], q)
    requires net.gateway.payments[q].amount == net.sys.files[net.gateway.payments[q].order].order.total
    ensures var (k, net') := (net.gateway.payments[q].order, ReadAndProcessed(net, q, now));
            && LeavesRows(net, net', k) && net'.gateway == net.gateway && net'.calls == net.calls + [Over]
            && var (r, r') := (net.sys.Rows(k), net'.sys.Rows(k));
               && (net.gateway.payments[q].status == RawApproved ==> IsPaidFor(r, r', q, now))
               && (net.gateway.payments[q].status == RawRejected ==> IsRefused(r, r', q, now))
               && (net.gateway.payments[q].status == RawInProcess && !IsKnownPending(r.file, q) ==> IsPending(r, r', q, now))
  {
    var payment := net.gateway.payments[q];
    var (k, report) := (payment.order, Report(q, payment.status, payment.amount, true));
    ReportAnswers(net, q, now);
    if payment.status == RawApproved {
      ExactPaymentCredits(net.sys, k, report, now);
    } else {
      OtherReports(net.sys, k, report, now);
      var (r', kind) := PaymentProcessed(net.sys.Rows(k), report, now);
      assert payment.status == RawRejected ==> IsRejection(net.sys.Rows(k), r', kind, report, now);
    }
  }

  /** The payment is recorded as pending already. */
  ghost predicate IsKnownPending(f: File, q: PaymentRef) {
    exists p <- f.payments :: p.externalId == q && p.status == PendienteAcreditacion
  }

  // ----- A payment of the customer -----

  /** No row names a payment that the gateway does not have. */
  lemma NewPaymentIsOpen(net: Net, k: nat, q: PaymentRef)
    requires IsReachableNet(net) && k < |net.sys.files| && q !in net.gateway.payments
    ensures IsOpenPayment(net.sys.files[k], q) && !IsKnownPending(net.sys.files[k], q)
  {
    ReachableNetIsTied(net);
    var f := net.sys.files[k];
    assert FileTied(net.gateway, k, f);
    forall p | p in f.payments ensures p.externalId != q {
      var i :| 0 <= i < |f.payments| && f.payments[i] == p;
      assert PaymentTied(net.gateway, k, f.payments[i]);
    }
  }

  /** A customer who pays through an open preference for the exact total: what the order becomes with each outcome. */
  lemma PaymentGoesThrough(net: Net, p: PreferenceId, outcome: SimulatedOutcome, now: Time, later: Time)
    requires IsReachableNet(net) && p in net.gateway.preferences && net.gateway.preferences[p].expiresAt > now
    requires net.gateway.preferences[p].order < |net.sys.files|
    requires net.gateway.preferences[p].amount == net.sys.files[net.gateway.preferences[p].order].order.total
    ensures var (k, q) := (net.gateway.preferences[p].order, net.gateway.nextPayment);
            var net' := ReadAndProcessed(NetStep(net, Pay(p, outcome, now)), q, later);
            && LeavesRows(net, net', k)
            && var (r, r') := (net.sys.Rows(k), net'.sys.Rows(k));
               match outcome
               case PayApproved => IsPaidFor(r, r', q, later)
               case PayRejected => IsRefused(r, r', q, later)
               case PayPending => IsPending(r, r', q, later)
  {
    var (k, q) := (net.gateway.preferences[p].order, net.gateway.nextPayment);
    ReachableNetIsOk(net);
    assert GatewayOk(net.gateway);
    NetIsReachable(net);
    NewPaymentIsOpen(net, k, q);
    ExactReport(NetStep(net, Pay(p, outcome, now)), q, later);
  }

  /** A preference that is not there, or not open, takes no payment. */
  lemma ClosedTakesNoPayment(net: Net, p: PreferenceId, outcome: SimulatedOutcome, now: Time)
    requires p !in net.gateway.preferences || net.gateway.preferences[p].expiresAt <= now
    ensures NetStep(net, Pay(p, outcome, now)) == net
  {}

  /** A payment in process, settled later: an approval pays its order, a rejection frees it; a settled payment stays as it is. */
  lemma SettlementGoesThrough(net: Net, q: PaymentRef, approved: bool, later: Time)
    requires IsReachableNet(net) && q in net.gateway.payments && net.gateway.payments[q].order < |net.sys.files|
    requires IsOpenPayment(net.sys.files[net.gateway.payments[q].order], q)
    requires net.gateway.payments[q].amount == net.sys.files[net.gateway.payments[q].order].order.total
    ensures var (k, settled) := (net.gateway.payments[q].order, NetStep(net, SettlePayment(q, approved)));
            if net.gateway.payments[q].status != RawInProcess then settled == net
            else
              var net' := ReadAndProcessed(settled, q, later);
              && LeavesRows(net, net', k)
              && var (r, r') := (net.sys.Rows(k), net'.sys.Rows(k));
                 if approved then IsPaidFor(r, r', q, later)
                 else IsRefused(r, r', q, later)
  {
    NetIsReachable(net);
    if net.gateway.payments[q].status == RawInProcess {
      ExactReport(NetStep(net, SettlePayment(q, approved)), q, later);
    }
  }
}
