/** Refunds between the database and the gateway: dispatches, reconcilers and retries racing, calls in any interleaving. */
module RefundProtocol {
  import opened Wrappers
  import opened OrderStatus
  import opened Stock
  import opened Entities
  import opened OrdersService
  import opened PaymentLedger
  import opened PaymentsService
  import opened OrderCancellation
  import opened RefundsService
  import opened Checkout
  import opened Reception
  import opened Machine
  import opened MoneyInvariant
  import opened Runs
  import opened LateReports
  import opened FakeGateway

  /** Attempts at reaching the gateway before giving up. */
  const MAX_TRIES := 3

  /** A call in progress, with what it read before waiting. */
  datatype Call =
    | Dispatching(key: Key, payment: PaymentRef, amount: Cents, tries: nat)
    | Answered(key: Key, result: GatewayRefundId, status: GatewayStatus)
    | Applying(key: Key, result: GatewayRefundId, status: GatewayStatus)
    | Rejecting(key: Key)
    | GivingUp(key: Key)
    | Reconciling(key: Key, result: GatewayRefundId)
    | Reporting(order: nat, payment: PaymentRef, raw: RawStatus, amount: Cents)
    | Over

  datatype Net = Net(sys: System, gateway: Gateway, calls: seq<Call>)

  datatype Action =
    | Commit(e: SystemEvent)
    | OpenPreference(forOrder: nat, items: seq<PreferenceItem>, expiresAt: Time)
    | Pay(preference: PreferenceId, outcome: SimulatedOutcome, now: Time)
    | SettlePayment(payment: PaymentRef, approved: bool)
    | SettleRefund(gatewayRefund: GatewayRefundId, approved: bool)
    | StartDispatch(order: nat, refund: nat)
    | StartReconcile(order: nat, refund: nat)
    | StartReport(payment: PaymentRef)
    | Process(call: nat, now: Time)
    | Deliver(call: nat)
    | Lose(call: nat, reached: bool)
    | Fail(call: nat)
    | Store(call: nat)
    | Apply(call: nat)

  predicate HasRow(sys: System, key: Key) {
    key.order < |sys.files| && key.refund < |sys.files[key.order].refunds|
  }

  function Row(sys: System, key: Key): Refund
    requires HasRow(sys, key)
  {
    sys.files[key.order].refunds[key.refund]
  }

  /** The row's own key, for its current attempt. */
  function CurrentKey(sys: System, k: nat, j: nat): Key
    requires k < |sys.files| && j < |sys.files[k].refunds|
  {
    Key(k, j, sys.files[k].refunds[j].attempt)
  }

  /** The payment of a row, as the gateway knows it. */
  predicate PaidBy(sys: System, key: Key, payment: PaymentRef) {
    && HasRow(sys, key)
    && Row(sys, key).payment < |sys.files[key.order].payments|
    && sys.files[key.order].payments[Row(sys, key).payment].externalId == payment
  }

  /** The database has no other way to write a refund's answer than a call that got it. */
  predicate IsAnswer(e: SystemEvent) {
    e.OnOrder? && (e.event.MoveRefund? || e.event.AnswerRefund?)
  }

  /** Nor to learn of a payment than what a call read at the gateway. */
  predicate IsReport(e: SystemEvent) {
    e.OnOrder? && e.event.ReportPayment?
  }

  ghost function Update(sys: System, key: Key, to: RefundStatus): System {
    SystemStep(sys, OnOrder(key.order, MoveRefund(key.refund, key.attempt, to), 0))
  }

  function GatewayOr(attempt: Outcome<Gateway>, g: Gateway): Gateway {
    match attempt case Done(g') => g' case Refused(_) => g
  }

  /** A refund is asked for, or asked about, only while in progress; which of both depends on its gateway id. */
  function Started(sys: System, k: nat, j: nat, dispatch: bool): Option<Call> {
    if k >= |sys.files| || j >= |sys.files[k].refunds| then None
    else
      var row, f := sys.files[k].refunds[j], sys.files[k];
      if row.status != EnTramite || row.payment >= |f.payments| then None
      else if dispatch then
        if row.external == None then Some(Dispatching(CurrentKey(sys, k, j), f.payments[row.payment].externalId, row.amount, 0)) else None
      else
        match row.external case Some(g) => Some(Reconciling(CurrentKey(sys, k, j), g)) case None => None
  }

  /** The state of a payment as the gateway holds it now; its order is fixed there. */
  function Reported(g: Gateway, payment: PaymentRef): Option<Call> {
    if payment in g.payments then Some(Reporting(g.payments[payment].order, payment, g.payments[payment].status, g.payments[payment].amount)) else None
  }

  /** The transaction that processes what the call read. */
  function ReportOf(c: Call, now: Time): SystemEvent
    requires c.Reporting?
  {
    OnOrder(c.order, ReportPayment(Report(c.payment, c.raw, c.amount, true)), now)
  }

  /** The gateway's answer reaches the call. */
  function Delivered(g: Gateway, c: Call): (Gateway, Call) {
    match c
    case Dispatching(key, payment, amount, _) =>
      (match RefundCreated(g, payment, amount, key)
       case Done(g') =>
         if key in g'.refundKeys && g'.refundKeys[key] in g'.refunds
         then (g', Answered(key, g'.refundKeys[key], g'.refunds[g'.refundKeys[key]].status)) else (g', Over)
       case Refused(_) => (g, Rejecting(key)))
    case Reconciling(key, result) => (g, if result in g.refunds then Applying(key, result, g.refunds[result].status) else Over)
    case _ => (g, c)
  }

  /** No answer; the gateway may have created the refund all the same. After the last try the call gives up. */
  function Lost(g: Gateway, c: Call, reached: bool): (Gateway, Call) {
    match c
    case Dispatching(key, payment, amount, tries) =>
      (if reached then GatewayOr(RefundCreated(g, payment, amount, key), g) else g,
       if tries + 1 < MAX_TRIES then c.(tries := tries + 1) else GivingUp(key))
    case Reconciling(_, _) => (g, Over)
    case _ => (g, c)
  }

  /** The call writes what it learnt, conditioned on the attempt it read. */
  ghost function Applied(sys: System, c: Call): (System, Call) {
    match c
    case Applying(key, _, status) =>
      (if status == RefundApproved then Update(sys, key, Reembolsado)
       else if status == RefundRejected then Update(sys, key, ReembolsoRechazado) else sys, Over)
    case Rejecting(key) => (Update(sys, key, ReembolsoRechazado), Over)
    case GivingUp(key) => (Update(sys, key, PendienteDeGestion), Over)
    case _ => (sys, c)
  }

  ghost function NetStep(net: Net, a: Action): Net {
    match a
    case Commit(e) => if IsAnswer(e) || IsReport(e) then net else net.(sys := SystemStep(net.sys, e))
    case OpenPreference(k, items, expiresAt) => net.(gateway := PreferenceCreated(net.gateway, k, items, expiresAt))
    case Pay(p, outcome, now) => net.(gateway := GatewayOr(PaymentSimulated(net.gateway, p, outcome, now), net.gateway))
    case SettlePayment(p, approved) => net.(gateway := GatewayOr(PaymentSettled(net.gateway, p, approved), net.gateway))
    case SettleRefund(g, approved) => net.(gateway := GatewayOr(RefundSettled(net.gateway, g, approved), net.gateway))
    case StartDispatch(k, j) => net.(calls := net.calls + match Started(net.sys, k, j, true) case Some(c) => [c] case None => [])
    case StartReconcile(k, j) => net.(calls := net.calls + match Started(net.sys, k, j, false) case Some(c) => [c] case None => [])
    case StartReport(p) => net.(calls := net.calls + match Reported(net.gateway, p) case Some(c) => [c] case None => [])
    case Process(i, now) =>
      if i >= |net.calls| || !net.calls[i].Reporting? then net
      else Net(SystemStep(net.sys, ReportOf(net.calls[i], now)), net.gateway, net.calls[i := Over])
    case Deliver(i) =>
      if i >= |net.calls| then net
      else var (g, c) := Delivered(net.gateway, net.calls[i]); Net(net.sys, g, net.calls[i := c])
    case Lose(i, reached) =>
      if i >= |net.calls| then net
      else var (g, c) := Lost(net.gateway, net.calls[i], reached); Net(net.sys, g, net.calls[i := c])
    case Fail(i) =>
      if i >= |net.calls| || !net.calls[i].Dispatching? then net
      else net.(calls := net.calls[i := GivingUp(net.calls[i].key)])
    case Store(i) =>
      if i >= |net.calls| || !net.calls[i].Answered? then net
      else
        var Answered(key, result, status) := net.calls[i];
        Net(SystemStep(net.sys, OnOrder(key.order, AnswerRefund(key.refund, key.attempt, result), 0)), net.gateway,
            net.calls[i := Applying(key, result, status)])
    case Apply(i) =>
      if i >= |net.calls| then net
      else var (sys, c) := Applied(net.sys, net.calls[i]); Net(sys, net.gateway, net.calls[i := c])
  }

  ghost function NetRun(net: Net, actions: seq<Action>): Net
    decreases |actions|
  {
    if actions == [] then net else NetStep(NetRun(net, actions[..|actions| - 1]), actions[|actions| - 1])
  }

  const START := Net(Empty, Gateway(map[], map[], map[], map[], 0, 0, 0), [])

  // ----- What each step of a call leaves -----

  lemma DeliverStep(net: Net, i: nat, g': Gateway, c': Call)
    ensures i < |net.calls| && (g', c') == Delivered(net.gateway, net.calls[i]) ==>
              NetStep(net, Deliver(i)) == Net(net.sys, g', net.calls[i := c'])
  {}

  lemma LoseStep(net: Net, i: nat, reached: bool, g': Gateway, c': Call)
    ensures i < |net.calls| && (g', c') == Lost(net.gateway, net.calls[i], reached) ==>
              NetStep(net, Lose(i, reached)) == Net(net.sys, g', net.calls[i := c'])
  {}

  lemma StoreStep(net: Net, i: nat)
    ensures i < |net.calls| && net.calls[i].Answered? ==>
              var Answered(key, result, status) := net.calls[i];
              NetStep(net, Store(i))
              == Net(SystemStep(net.sys, OnOrder(key.order, AnswerRefund(key.refund, key.attempt, result), 0)), net.gateway,
                     net.calls[i := Applying(key, result, status)])
  {}

  lemma ApplyStep(net: Net, i: nat, sys': System, c': Call)
    ensures i < |net.calls| && (sys', c') == Applied(net.sys, net.calls[i]) ==>
              NetStep(net, Apply(i)) == Net(sys', net.gateway, net.calls[i := c'])
  {}

  lemma FailStep(net: Net, i: nat)
    ensures i < |net.calls| && net.calls[i].Dispatching? ==>
              NetStep(net, Fail(i)) == Net(net.sys, net.gateway, net.calls[i := GivingUp(net.calls[i].key)])
  {}

  // ----- The invariant -----

  /** A gateway refund is for the payment and the amount of the row its key names, for an attempt already opened. */
  ghost predicate KeyOk(net: Net, key: Key)
    requires key in net.gateway.refundKeys && net.gateway.refundKeys[key] in net.gateway.refunds
  {
    var refund := net.gateway.refunds[net.gateway.refundKeys[key]];
    PaidBy(net.sys, key, refund.payment) && key.attempt <= Row(net.sys, key).attempt && refund.amount == Row(net.sys, key).amount
  }

  /** The stored id is the gateway's refund for the current attempt; a refund closed by the gateway was approved there. */
  ghost predicate RowMatches(g: Gateway, key: Key, row: Refund) {
    && (row.external.Some? ==> key in g.refundKeys && g.refundKeys[key] == row.external.value)
    && (row.status == Reembolsado && !row.manual ==>
          key in g.refundKeys && g.refundKeys[key] in g.refunds && g.refunds[g.refundKeys[key]].status == RefundApproved)
  }

  ghost predicate RowOk(net: Net, k: nat, j: nat)
    requires k < |net.sys.files| && j < |net.sys.files[k].refunds|
  {
    RowMatches(net.gateway, CurrentKey(net.sys, k, j), net.sys.files[k].refunds[j])
  }

  ghost predicate CallOk(net: Net, c: Call) {
    var g := net.gateway;
    match c
    case Dispatching(key, payment, amount, _) =>
      PaidBy(net.sys, key, payment) && key.attempt <= Row(net.sys, key).attempt && amount == Row(net.sys, key).amount
    case Answered(key, result, status) => Confirmed(g, key, result, status)
    case Applying(key, result, status) => Confirmed(g, key, result, status)
    case Reconciling(key, result) => key in g.refundKeys && g.refundKeys[key] == result
    case _ => true
  }

  /** The gateway did answer that, and an answer that is final stays so. */
  ghost predicate Confirmed(g: Gateway, key: Key, result: GatewayRefundId, status: GatewayStatus) {
    && key in g.refundKeys && g.refundKeys[key] == result && result in g.refunds
    && (status != InProcess ==> g.refunds[result].status == status)
  }

  ghost predicate NetOk(net: Net) {
    && SystemOk(net.sys) && GatewayOk(net.gateway)
    && (forall key <- net.gateway.refundKeys :: KeyOk(net, key))
    && (forall k, j :: 0 <= k < |net.sys.files| && 0 <= j < |net.sys.files[k].refunds| ==> RowOk(net, k, j))
    && (forall i :: 0 <= i < |net.calls| ==> CallOk(net, net.calls[i]))
  }

  // ----- Transactions on orders -----

  /** What a transaction other than an answer does to a refund row: nothing, a retry, or a closing by hand. */
  ghost predicate Evolved(r: Refund, r': Refund) {
    && r'.payment == r.payment && r'.amount == r.amount && r.attempt <= r'.attempt
    && (r'.external.Some? ==> r'.external == r.external && r'.attempt == r.attempt)
    && (r'.status == Reembolsado && !r'.manual ==> r' == r)
    && (r'.status == ReembolsoRechazado ==> r' == r)
    && (r'.attempt > r.attempt ==> r.status == ReembolsoRechazado && r'.attempt == r.attempt + 1)
  }

  /** Rows are never lost; new refund rows have not reached the gateway. */
  ghost predicate FileEvolved(f: File, f': File) {
    && |f.payments| <= |f'.payments|
    && (forall p :: 0 <= p < |f.payments| ==> f'.payments[p].externalId == f.payments[p].externalId)
    && |f.refunds| <= |f'.refunds|
    && (forall j :: 0 <= j < |f.refunds| ==> Evolved(f.refunds[j], f'.refunds[j]))
    && (forall j :: |f.refunds| <= j < |f'.refunds| ==> f'.refunds[j].external == None && f'.refunds[j].status == EnTramite && f'.refunds[j].attempt == 1)
  }

  ghost predicate SystemEvolved(sys: System, sys': System) {
    && |sys.files| <= |sys'.files|
    && (forall k :: 0 <= k < |sys.files| ==> FileEvolved(sys.files[k], sys'.files[k]))
    && (forall k :: |sys.files| <= k < |sys'.files| ==> sys'.files[k].refunds == [])
  }

  /** At most one refund row is added, not yet asked for. */
  ghost predicate AtMostOneMore(refunds: seq<Refund>, refunds': seq<Refund>) {
    refunds' == refunds || exists p, amount, origin :: refunds' == refunds + [NewRefund(p, amount, origin)]
  }

  lemma RequestAddsOne(f: File, amount: Cents, origin: RefundOrigin, only: Option<nat>)
    ensures AtMostOneMore(f.refunds, Requested(f, amount, origin, only).refunds)
    ensures Requested(f, amount, origin, only).payments == f.payments
  {
    if ChosenPayment(f, amount, only).Some? {
      assert Requested(f, amount, origin, only).refunds == f.refunds + [NewRefund(ChosenPayment(f, amount, only).value, amount, origin)];
    }
  }

  lemma PaymentAddsOne(r: Rows, report: Report, now: Time)
    ensures AtMostOneMore(r.file.refunds, PaymentProcessed(r, report, now).0.file.refunds)
  {
    if StatusMap(report.status).Some? {
      var mapped, k := StatusMap(report.status).value, Find(r.file.payments, report.externalId);
      var payment := NewPayment(report, mapped.status, now);
      var applied := PaymentApplied(r.(file := Saved(r.file, k, payment)), mapped.outcome, report.externalId, now);
      if applied.refundOrigin.Some? {
        RequestAddsOne(Noted(applied.rows.file, PaymentDiscrepancy(report.externalId)), payment.amount, applied.refundOrigin.value, Some(k));
      }
    }
  }

  lemma PaymentEvolves(r: Rows, report: Report, now: Time)
    ensures FileEvolved(r.file, PaymentProcessed(r, report, now).0.file)
  {
    PaymentAddsOne(r, report, now);
    ReportWritesOneRow(r, report, now);
    assert Quiet(r.file).payments == r.file.payments;
  }

  lemma CancellationEvolves(r: Rows, cause: Cause, origin: RefundOrigin, now: Time)
    ensures FileEvolved(r.file, Cancelled(r, cause, origin, now).file)
  {
    var undone := Undone(r, cause, now).file;
    UndoneLedger(r, cause, now);
    assert undone.payments == LedgerOf(undone).payments && undone.refunds == LedgerOf(undone).refunds;
    RequestAddsOne(undone, CancellationAmount(r.file.order), origin, None);
  }

  lemma ReceptionEvolves(r: Rows, k: nat, inputs: seq<Input>, options: map<nat, set<VariantId>>, now: Time)
    ensures FileEvolved(r.file, RowsOr(RequestReceived(r, k, inputs, options, now), r).file)
  {
    if RequestReceived(r, k, inputs, options, now).Done? {
      ReceptionBooks(r, k, inputs, options, now);
    }
  }

  lemma ManagementEvolves(r: Rows, e: Event, now: Time)
    requires e.RetryRefund? || e.ResolveRefund?
    ensures FileEvolved(r.file, Step(r, e, now).file)
  {}

  lemma OtherEvolves(r: Rows, e: Event, now: Time)
    requires e.Expire? || e.Compensate? || e.MoveAsAdmin? || e.RetryPay? || e.CreateReturn? || e.ApproveReturn? || e.RejectReturn?
    ensures FileEvolved(r.file, Step(r, e, now).file)
  {
    assert Step(r, e, now).file.payments == r.file.payments && Step(r, e, now).file.refunds == r.file.refunds;
  }

  lemma StepEvolves(r: Rows, e: Event, now: Time)
    requires !e.MoveRefund? && !e.AnswerRefund?
    ensures FileEvolved(r.file, Step(r, e, now).file)
  {
    match e
    case ReportPayment(report) => PaymentEvolves(r, report, now);
    case CancelAsCustomer(_, _) => CancellationEvolves(r, Cliente, CU14, now);
    case CancelAsAdmin(_) => CancellationEvolves(r, Administrador, CU19, now);
    case ReceiveReturn(k, inputs, options) => ReceptionEvolves(r, k, inputs, options, now);
    case RetryRefund(_) => ManagementEvolves(r, e, now);
    case ResolveRefund(_) => ManagementEvolves(r, e, now);
    case _ => OtherEvolves(r, e, now);
  }

  lemma CommitEvolves(sys: System, e: SystemEvent)
    requires !IsAnswer(e)
    ensures SystemEvolved(sys, SystemStep(sys, e))
  {
    if e.OnOrder? && e.order < |sys.files| {
      StepEvolves(sys.Rows(e.order), e.event, e.now);
    }
  }

  lemma EvolutionKeepsNet(net: Net, sys': System)
    requires NetOk(net) && SystemOk(sys') && SystemEvolved(net.sys, sys')
    ensures NetOk(net.(sys := sys'))
  {
    var net' := net.(sys := sys');
    forall key | key in net'.gateway.refundKeys ensures KeyOk(net', key) {
      assert KeyOk(net, key);
      assert Evolved(Row(net.sys, key), Row(sys', key));
    }
    forall k, j | 0 <= k < |sys'.files| && 0 <= j < |sys'.files[k].refunds| ensures RowOk(net', k, j) {
      if k < |net.sys.files| && j < |net.sys.files[k].refunds| {
        assert RowOk(net, k, j);
        assert Evolved(net.sys.files[k].refunds[j], sys'.files[k].refunds[j]);
      }
    }
    forall i | 0 <= i < |net.calls| ensures CallOk(net', net.calls[i]) {
      assert CallOk(net, net.calls[i]);
      if net.calls[i].Dispatching? {
        assert Evolved(Row(net.sys, net.calls[i].key), Row(sys', net.calls[i].key));
      }
    }
  }

  // ----- Answers -----

  /** One refund row rewritten in place, with the same payment and amount. */
  ghost predicate OnlyRow(sys: System, sys': System, key: Key)
  {
    && |sys'.files| == |sys.files|
    && (forall k :: 0 <= k < |sys.files| ==> sys'.files[k].payments == sys.files[k].payments && |sys'.files[k].refunds| == |sys.files[k].refunds|)
    && (forall k, j :: 0 <= k < |sys.files| && 0 <= j < |sys.files[k].refunds| && !(k == key.order && j == key.refund)
                       ==> sys'.files[k].refunds[j] == sys.files[k].refunds[j])
    && (HasRow(sys, key) ==>
          var row, row' := Row(sys, key), Row(sys', key);
          row'.payment == row.payment && row'.amount == row.amount && row'.attempt == row.attempt)
  }

  lemma RowKeepsNet(net: Net, sys': System, key: Key)
    requires NetOk(net) && SystemOk(sys') && OnlyRow(net.sys, sys', key)
    requires HasRow(net.sys, key) ==> RowOk(net.(sys := sys'), key.order, key.refund)
    ensures NetOk(net.(sys := sys'))
  {
    var net' := net.(sys := sys');
    forall other | other in net'.gateway.refundKeys ensures KeyOk(net', other) {
      assert KeyOk(net, other);
    }
    forall k, j | 0 <= k < |sys'.files| && 0 <= j < |sys'.files[k].refunds| ensures RowOk(net', k, j) {
      assert RowOk(net, k, j);
    }
    forall i | 0 <= i < |net.calls| ensures CallOk(net', net.calls[i]) {
      assert CallOk(net, net.calls[i]);
    }
  }

  lemma AnswerWritesOneRow(sys: System, key: Key, e: Event)
    requires (e.MoveRefund? || e.AnswerRefund?) && e.refund == key.refund && e.attempt == key.attempt
    ensures OnlyRow(sys, SystemStep(sys, OnOrder(key.order, e, 0)), key)
  {}

  lemma UpdatedRow(sys: System, key: Key, to: RefundStatus)
    requires HasRow(sys, key)
    ensures HasRow(Update(sys, key, to), key)
    ensures Row(Update(sys, key, to), key) == if to == EnTramite then Row(sys, key) else RowMoved(Row(sys, key), key.attempt, to)
  {}

  lemma UpdatedRowIsOk(net: Net, key: Key, to: RefundStatus)
    requires NetOk(net) && HasRow(net.sys, key)
    requires to == Reembolsado ==> exists g :: Confirmed(net.gateway, key, g, RefundApproved)
    ensures HasRow(Update(net.sys, key, to), key) && RowOk(net.(sys := Update(net.sys, key, to)), key.order, key.refund)
  {
    assert RowMatches(net.gateway, CurrentKey(net.sys, key.order, key.refund), Row(net.sys, key)) by {
      assert RowOk(net, key.order, key.refund);
    }
    UpdatedRow(net.sys, key, to);
  }

  lemma UpdateKeepsNet(net: Net, key: Key, to: RefundStatus)
    requires NetOk(net)
    requires to == Reembolsado ==> exists g :: Confirmed(net.gateway, key, g, RefundApproved)
    ensures NetOk(net.(sys := Update(net.sys, key, to)))
  {
    var e := OnOrder(key.order, MoveRefund(key.refund, key.attempt, to), 0);
    StepKeepsSystem(net.sys, e);
    AnswerWritesOneRow(net.sys, key, e.event);
    if HasRow(net.sys, key) {
      UpdatedRowIsOk(net, key, to);
    }
    RowKeepsNet(net, Update(net.sys, key, to), key);
  }

  lemma StoredRow(sys: System, key: Key, result: GatewayRefundId)
    requires HasRow(sys, key)
    ensures var sys' := SystemStep(sys, OnOrder(key.order, AnswerRefund(key.refund, key.attempt, result), 0));
            HasRow(sys', key) && Row(sys', key) == RowAnswered(Row(sys, key), key.attempt, result)
  {}

  lemma StoredRowIsOk(net: Net, key: Key, result: GatewayRefundId)
    requires NetOk(net) && HasRow(net.sys, key) && key in net.gateway.refundKeys && net.gateway.refundKeys[key] == result
    ensures var sys' := SystemStep(net.sys, OnOrder(key.order, AnswerRefund(key.refund, key.attempt, result), 0));
            HasRow(sys', key) && RowOk(net.(sys := sys'), key.order, key.refund)
  {
    assert RowMatches(net.gateway, CurrentKey(net.sys, key.order, key.refund), Row(net.sys, key)) by {
      assert RowOk(net, key.order, key.refund);
    }
    StoredRow(net.sys, key, result);
  }

  lemma StoreKeepsNet(net: Net, key: Key, result: GatewayRefundId)
    requires NetOk(net) && key in net.gateway.refundKeys && net.gateway.refundKeys[key] == result
    ensures NetOk(net.(sys := SystemStep(net.sys, OnOrder(key.order, AnswerRefund(key.refund, key.attempt, result), 0))))
  {
    var e := OnOrder(key.order, AnswerRefund(key.refund, key.attempt, result), 0);
    StepKeepsSystem(net.sys, e);
    AnswerWritesOneRow(net.sys, key, e.event);
    if HasRow(net.sys, key) {
      StoredRowIsOk(net, key, result);
    }
    RowKeepsNet(net, SystemStep(net.sys, e), key);
  }

  // ----- The gateway -----

  /** Keys and refunds are never lost; a settled refund keeps its outcome. */
  ghost predicate GatewayGrows(g: Gateway, g': Gateway) {
    && (forall key <- g.refundKeys :: key in g'.refundKeys && g'.refundKeys[key] == g.refundKeys[key])
    && (forall r <- g.refunds ::
          && r in g'.refunds && g'.refunds[r].payment == g.refunds[r].payment && g'.refunds[r].amount == g.refunds[r].amount
          && (g.refunds[r].status != InProcess ==> g'.refunds[r].status == g.refunds[r].status))
  }

  lemma GatewayKeepsNet(net: Net, g': Gateway)
    requires NetOk(net) && GatewayOk(g') && GatewayGrows(net.gateway, g')
    requires forall key <- g'.refundKeys :: key in net.gateway.refundKeys || KeyOk(net.(gateway := g'), key)
    ensures NetOk(net.(gateway := g'))
  {
    var net' := net.(gateway := g');
    forall key | key in g'.refundKeys ensures KeyOk(net', key) {
      if key in net.gateway.refundKeys {
        assert KeyOk(net, key);
      }
    }
    forall k, j | 0 <= k < |net.sys.files| && 0 <= j < |net.sys.files[k].refunds| ensures RowOk(net', k, j) {
      assert RowOk(net, k, j);
    }
    forall i | 0 <= i < |net.calls| ensures CallOk(net', net.calls[i]) {
      assert CallOk(net, net.calls[i]);
    }
  }

  lemma CreationKeepsNet(net: Net, key: Key, payment: PaymentRef, amount: Cents)
    requires NetOk(net) && CallOk(net, Dispatching(key, payment, amount, 0)) && RefundCreated(net.gateway, payment, amount, key).Done?
    ensures var g' := RefundCreated(net.gateway, payment, amount, key).value;
            NetOk(net.(gateway := g')) && key in g'.refundKeys && g'.refundKeys[key] in g'.refunds
  {
    CreateRefundKeepsGateway(net.gateway, payment, amount, key);
    GatewayKeepsNet(net, RefundCreated(net.gateway, payment, amount, key).value);
  }

  lemma CallKeepsNet(net: Net, i: nat, c: Call)
    requires NetOk(net) && i < |net.calls| && CallOk(net, c)
    ensures NetOk(net.(calls := net.calls[i := c]))
  {
    var net' := net.(calls := net.calls[i := c]);
    forall j | 0 <= j < |net'.calls| ensures CallOk(net', net'.calls[j]) {
      assert CallOk(net, net.calls[j]);
      assert CallOk(net, net'.calls[j]);
    }
    NetKept(net, net');
  }

  lemma NetKept(net: Net, net': Net)
    requires NetOk(net) && net'.sys == net.sys && net'.gateway == net.gateway
    requires forall i :: 0 <= i < |net'.calls| ==> CallOk(net, net'.calls[i])
    ensures NetOk(net')
  {
    forall key | key in net'.gateway.refundKeys ensures KeyOk(net', key) { assert KeyOk(net, key); }
    forall k, j | 0 <= k < |net'.sys.files| && 0 <= j < |net'.sys.files[k].refunds| ensures RowOk(net', k, j) { assert RowOk(net, k, j); }
  }

  // ----- Every action -----

  lemma StartKeepsNet(net: Net, k: nat, j: nat, dispatch: bool)
    requires NetOk(net)
    ensures NetOk(net.(calls := net.calls + match Started(net.sys, k, j, dispatch) case Some(c) => [c] case None => []))
  {
    if Started(net.sys, k, j, dispatch).Some? {
      assert RowOk(net, k, j);
      assert CallOk(net, Started(net.sys, k, j, dispatch).value);
    }
    NetKept(net, net.(calls := net.calls + match Started(net.sys, k, j, dispatch) case Some(c) => [c] case None => []));
  }

  lemma DeliveredKeepsNet(net: Net, c: Call)
    requires NetOk(net) && CallOk(net, c)
    ensures var (g', c') := Delivered(net.gateway, c); NetOk(net.(gateway := g')) && CallOk(net.(gateway := g'), c')
  {
    if c.Dispatching? && RefundCreated(net.gateway, c.payment, c.amount, c.key).Done? {
      CreationKeepsNet(net, c.key, c.payment, c.amount);
    }
  }

  lemma DeliverKeepsNet(net: Net, i: nat)
    requires NetOk(net) && i < |net.calls|
    ensures NetOk(NetStep(net, Deliver(i)))
  {
    assert CallOk(net, net.calls[i]);
    DeliveredKeepsNet(net, net.calls[i]);
    var (g', c') := Delivered(net.gateway, net.calls[i]);
    CallKeepsNet(net.(gateway := g'), i, c');
    DeliverStep(net, i, g', c');
  }

  lemma LostKeepsNet(net: Net, c: Call, reached: bool)
    requires NetOk(net) && CallOk(net, c)
    ensures var (g', c') := Lost(net.gateway, c, reached); NetOk(net.(gateway := g')) && CallOk(net.(gateway := g'), c')
  {
    if c.Dispatching? && reached && RefundCreated(net.gateway, c.payment, c.amount, c.key).Done? {
      CreationKeepsNet(net, c.key, c.payment, c.amount);
    }
  }

  lemma LoseKeepsNet(net: Net, i: nat, reached: bool)
    requires NetOk(net) && i < |net.calls|
    ensures NetOk(NetStep(net, Lose(i, reached)))
  {
    assert CallOk(net, net.calls[i]);
    LostKeepsNet(net, net.calls[i], reached);
    var (g', c') := Lost(net.gateway, net.calls[i], reached);
    CallKeepsNet(net.(gateway := g'), i, c');
    LoseStep(net, i, reached, g', c');
  }

  lemma AppliedKeepsNet(net: Net, c: Call)
    requires NetOk(net) && CallOk(net, c)
    ensures NetOk(net.(sys := Applied(net.sys, c).0))
  {
    if c.Applying? && c.status == RefundApproved {
      assert Confirmed(net.gateway, c.key, c.result, RefundApproved);
      UpdateKeepsNet(net, c.key, Reembolsado);
    } else if c.Applying? && c.status == RefundRejected {
      UpdateKeepsNet(net, c.key, ReembolsoRechazado);
    } else if c.Rejecting? {
      UpdateKeepsNet(net, c.key, ReembolsoRechazado);
    } else if c.GivingUp? {
      UpdateKeepsNet(net, c.key, PendienteDeGestion);
    } else {
      assert net.(sys := Applied(net.sys, c).0) == net;
    }
  }

  lemma ApplyKeepsNet(net: Net, i: nat)
    requires NetOk(net) && i < |net.calls|
    ensures NetOk(NetStep(net, Apply(i)))
  {
    var c := net.calls[i];
    assert CallOk(net, c);
    AppliedKeepsNet(net, c);
    var (sys', c') := Applied(net.sys, c);
    assert CallOk(net.(sys := sys'), net.calls[i]);
    CallKeepsNet(net.(sys := sys'), i, c');
    ApplyStep(net, i, sys', c');
  }

  lemma PaymentsGrow(g: Gateway, p: PreferenceId, outcome: SimulatedOutcome, now: Time)
    requires GatewayOk(g)
    ensures var g' := GatewayOr(PaymentSimulated(g, p, outcome, now), g); GatewayOk(g') && GatewayGrows(g, g') && g'.refundKeys == g.refundKeys
  {
    if PaymentSimulated(g, p, outcome, now).Done? { SimulatePaymentKeepsGateway(g, p, outcome, now); }
  }

  lemma PaymentsSettle(g: Gateway, payment: PaymentRef, approved: bool)
    requires GatewayOk(g)
    ensures var g' := GatewayOr(PaymentSettled(g, payment, approved), g); GatewayOk(g') && GatewayGrows(g, g') && g'.refundKeys == g.refundKeys
  {}

  lemma RefundsGrow(g: Gateway, r: GatewayRefundId, approved: bool)
    requires GatewayOk(g)
    ensures var g' := GatewayOr(RefundSettled(g, r, approved), g); GatewayOk(g') && GatewayGrows(g, g') && g'.refundKeys == g.refundKeys
  {
    if RefundSettled(g, r, approved).Done? { SettleRefundKeepsGateway(g, r, approved); }
  }

  lemma GatewayActionKeepsNet(net: Net, a: Action)
    requires NetOk(net) && (a.OpenPreference? || a.Pay? || a.SettlePayment? || a.SettleRefund?)
    ensures NetOk(NetStep(net, a))
  {
    var g := net.gateway;
    match a
    case OpenPreference(k, items, expiresAt) => GatewayKeepsNet(net, PreferenceCreated(g, k, items, expiresAt));
    case Pay(p, outcome, now) =>
      PaymentsGrow(g, p, outcome, now);
      GatewayKeepsNet(net, GatewayOr(PaymentSimulated(g, p, outcome, now), g));
    case SettlePayment(p, approved) =>
      PaymentsSettle(g, p, approved);
      GatewayKeepsNet(net, GatewayOr(PaymentSettled(g, p, approved), g));
    case SettleRefund(r, approved) =>
      RefundsGrow(g, r, approved);
      GatewayKeepsNet(net, GatewayOr(RefundSettled(g, r, approved), g));
  }

  lemma CommitKeepsNet(net: Net, e: SystemEvent)
    requires NetOk(net) && !IsAnswer(e)
    ensures NetOk(net.(sys := SystemStep(net.sys, e)))
  {
    StepKeepsSystem(net.sys, e);
    CommitEvolves(net.sys, e);
    EvolutionKeepsNet(net, SystemStep(net.sys, e));
  }

  lemma StoreActionKeepsNet(net: Net, i: nat)
    requires NetOk(net) && i < |net.calls| && net.calls[i].Answered?
    ensures NetOk(NetStep(net, Store(i)))
  {
    var Answered(key, result, status) := net.calls[i];
    var sys', c' := SystemStep(net.sys, OnOrder(key.order, AnswerRefund(key.refund, key.attempt, result), 0)), Applying(key, result, status);
    assert CallOk(net, net.calls[i]);
    StoreKeepsNet(net, key, result);
    CallKeepsNet(net.(sys := sys'), i, c');
    StoreStep(net, i);
  }

  lemma ProcessKeepsNet(net: Net, i: nat, now: Time)
    requires NetOk(net) && i < |net.calls| && net.calls[i].Reporting?
    ensures NetOk(NetStep(net, Process(i, now)))
  {
    var e := ReportOf(net.calls[i], now);
    CommitKeepsNet(net, e);
    var processed := net.(sys := SystemStep(net.sys, e));
    CallKeepsNet(processed, i, Over);
    assert NetStep(net, Process(i, now)) == processed.(calls := net.calls[i := Over]);
  }

  lemma ActionKeepsNet(net: Net, a: Action)
    requires NetOk(net)
    ensures NetOk(NetStep(net, a))
  {
    match a
    case Commit(e) => if !IsAnswer(e) { CommitKeepsNet(net, e); }
    case StartReport(p) => NetKept(net, NetStep(net, a));
    case Process(i, now) => if i < |net.calls| && net.calls[i].Reporting? { ProcessKeepsNet(net, i, now); }
    case StartDispatch(k, j) => StartKeepsNet(net, k, j, true);
    case StartReconcile(k, j) => StartKeepsNet(net, k, j, false);
    case Deliver(i) => if i < |net.calls| { DeliverKeepsNet(net, i); }
    case Lose(i, reached) => if i < |net.calls| { LoseKeepsNet(net, i, reached); }
    case Fail(i) => if i < |net.calls| && net.calls[i].Dispatching? { CallKeepsNet(net, i, GivingUp(net.calls[i].key)); }
    case Store(i) => if i < |net.calls| && net.calls[i].Answered? { StoreActionKeepsNet(net, i); }
    case Apply(i) => if i < |net.calls| { ApplyKeepsNet(net, i); }
    case _ => GatewayActionKeepsNet(net, a);
  }

  lemma {:induction false} NetRunKeeps(net: Net, actions: seq<Action>)
    requires NetOk(net)
    ensures NetOk(NetRun(net, actions))
    decreases |actions|
  {
    if actions != [] {
      NetRunKeeps(net, actions[..|actions| - 1]);
      ActionKeepsNet(NetRun(net, actions[..|actions| - 1]), actions[|actions| - 1]);
    }
  }

  // ----- Results over every interleaving -----

  /** The state after some interleaving that started with nothing. */
  ghost predicate IsReachableNet(net: Net) {
    exists actions :: net == NetRun(START, actions)
  }

  lemma ReachableNetIsOk(net: Net)
    requires IsReachableNet(net)
    ensures NetOk(net)
  {
    var actions :| net == NetRun(START, actions);
    NetRunKeeps(START, actions);
  }

  /**
   * The stored id is always the gateway's refund under the row's current key, for the row's payment and amount,
   * and a row refunded without a manual closing was approved by the gateway under that key.
   */
  lemma RowsMatchTheGateway(net: Net, k: nat, j: nat)
    requires IsReachableNet(net) && k < |net.sys.files| && j < |net.sys.files[k].refunds|
    ensures var f, g, key := net.sys.files[k], net.gateway, CurrentKey(net.sys, k, j);
            var row := f.refunds[j];
            && (row.external.Some? ==> key in g.refundKeys && g.refundKeys[key] == row.external.value)
            && (row.status == Reembolsado && !row.manual ==>
                  && key in g.refundKeys && g.refundKeys[key] in g.refunds && row.payment < |f.payments|
                  && g.refunds[g.refundKeys[key]] == GatewayRefund(f.payments[row.payment].externalId, RefundApproved, row.amount))
  {
    ReachableNetIsOk(net);
    assert RowOk(net, k, j);
    var key := CurrentKey(net.sys, k, j);
    if key in net.gateway.refundKeys {
      assert KeyOk(net, key);
    }
  }

  /** The gateway never holds refunds, rejected ones apart, for more than the payment's amount. */
  lemma GatewayStaysWithin(net: Net, payment: PaymentRef)
    requires IsReachableNet(net) && payment in net.gateway.payments
    ensures Taken(net.gateway.refunds, net.gateway.nextRefund, payment) <= net.gateway.payments[payment].amount
  {
    ReachableNetIsOk(net);
  }

  /** Two refund rows, or two attempts of one, never share a refund of the gateway. */
  lemma OneRefundPerKey(net: Net, a: Key, b: Key)
    requires IsReachableNet(net)
    ensures a in net.gateway.refundKeys && b in net.gateway.refundKeys && net.gateway.refundKeys[a] == net.gateway.refundKeys[b] ==> a == b
  {
    ReachableNetIsOk(net);
  }

  /** A call that read an older attempt, or a row no longer in progress, writes nothing. */
  lemma StaleAnswerChangesNothing(net: Net, i: nat, a: Action)
    requires i < |net.calls| && (a == Store(i) || a == Apply(i))
    requires net.calls[i].Answered? || net.calls[i].Applying? || net.calls[i].Rejecting? || net.calls[i].GivingUp?
    requires var key := net.calls[i].key;
             HasRow(net.sys, key) && (key.attempt != Row(net.sys, key).attempt || Row(net.sys, key).status != EnTramite)
    ensures NetStep(net, a).sys == net.sys
  {
    var key := net.calls[i].key;
    var f := net.sys.files[key.order];
    assert f.refunds[key.refund := f.refunds[key.refund]] == f.refunds;
    assert net.sys.files[key.order := f] == net.sys.files;
  }
}
