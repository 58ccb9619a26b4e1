/** Payments reported as the gateway holds them: no refund is ever refused, and no row is refunded twice. */
module RefundBalance {
  import opened Wrappers
  import opened OrderStatus
  import opened Entities
  import opened OrdersService
  import opened PaymentLedger
  import opened PaymentsService
  import opened OrderCancellation
  import opened RefundsService
  import opened Reception
  import opened Machine
  import opened MoneyInvariant
  import opened LateReports
  import opened Runs
  import opened FakeGateway
  import opened RefundProtocol
  import opened RefundOnce

  // ----- What the rows of a payment can still take at the gateway -----

  /** The gateway rejected the attempt. */
  predicate IsSpent(g: Gateway, key: Key) {
    key in g.refundKeys && g.refundKeys[key] in g.refunds && g.refunds[g.refundKeys[key]].status == RefundRejected
  }

  /** Cents that a row takes, or may take, at the gateway: all of them while committed, unless its attempt was rejected there. */
  function Share(g: Gateway, key: Key, row: Refund): nat {
    if Commits(row.status) && !IsSpent(g, key) then row.amount else 0
  }

  function Part(g: Gateway, k: nat, refunds: seq<Refund>, i: nat, j: nat): nat
    requires j < |refunds|
  {
    if refunds[j].payment == i then Share(g, Key(k, j, refunds[j].attempt), refunds[j]) else 0
  }

  /** Shares of the first `m` refund rows of order `k` against its payment `i`. */
  function Backed(g: Gateway, k: nat, refunds: seq<Refund>, i: nat, m: nat): nat
    requires m <= |refunds|
  {
    if m == 0 then 0 else Backed(g, k, refunds, i, m - 1) + Part(g, k, refunds, i, m - 1)
  }

  /** Cents of those rows whose current attempt holds, among the gateway's first `n` refunds, one that is not rejected. */
  function Drawn(g: Gateway, k: nat, refunds: seq<Refund>, i: nat, n: nat, m: nat): nat
    requires m <= |refunds|
  {
    if m == 0 then 0
    else Drawn(g, k, refunds, i, n, m - 1) + Draw(g, k, refunds, i, n, m - 1)
  }

  function Draw(g: Gateway, k: nat, refunds: seq<Refund>, i: nat, n: nat, j: nat): nat
    requires j < |refunds|
  {
    var key := Key(k, j, refunds[j].attempt);
    if refunds[j].payment == i && IsLive(g, key) && g.refundKeys[key] < n then refunds[j].amount else 0
  }

  // ----- The invariant -----

  /** A payment row says what the gateway says of that payment; approved there too if it is here. */
  ghost predicate PaymentTied(g: Gateway, k: nat, payment: Payment) {
    && payment.externalId in g.payments
    && var held := g.payments[payment.externalId];
       && held.order == k && held.amount == payment.amount && payment.storeCurrency
       && (payment.status == Aprobado ==> held.status == RawApproved)
  }

  /** What a call read of a payment: still so, if it was approved. */
  ghost predicate ReportTied(g: Gateway, c: Call) {
    c.Reporting? ==>
      && c.payment in g.payments
      && g.payments[c.payment].order == c.order && g.payments[c.payment].amount == c.amount
      && (c.raw == RawApproved ==> g.payments[c.payment].status == RawApproved)
  }

  ghost predicate Covered(g: Gateway, k: nat, f: File) {
    forall i :: 0 <= i < |f.payments| ==> Backed(g, k, f.refunds, i, |f.refunds|) <= f.payments[i].amount
  }

  /** A row is rejected only if its attempt was, at the gateway. */
  ghost predicate RejectedThere(g: Gateway, k: nat, f: File) {
    forall j :: 0 <= j < |f.refunds| && f.refunds[j].status == ReembolsoRechazado ==> IsSpent(g, Key(k, j, f.refunds[j].attempt))
  }

  ghost predicate FileTied(g: Gateway, k: nat, f: File) {
    && (forall i :: 0 <= i < |f.payments| ==> PaymentTied(g, k, f.payments[i]))
    && Covered(g, k, f) && RejectedThere(g, k, f)
  }

  ghost predicate HasKey(g: Gateway, r: GatewayRefundId) {
    exists key :: key in g.refundKeys && g.refundKeys[key] == r
  }

  /** Every refund of the gateway was created under a key. */
  ghost predicate Keyed(g: Gateway) {
    forall r <- g.refunds :: HasKey(g, r)
  }

  ghost predicate CallTied(g: Gateway, c: Call) {
    !c.Rejecting? && ReportTied(g, c)
  }

  ghost predicate Tied(files: seq<File>, g: Gateway, calls: seq<Call>) {
    && Keyed(g)
    && (forall k :: 0 <= k < |files| ==> FileTied(g, k, files[k]))
    && (forall c :: 0 <= c < |calls| ==> CallTied(g, calls[c]))
  }

  ghost predicate TiedOk(net: Net) {
    OnceOk(net) && Tied(net.sys.files, net.gateway, net.calls)
  }

  // ----- Sums -----

  lemma {:induction false} DrawnGrows(g: Gateway, k: nat, refunds: seq<Refund>, i: nat, n: nat, m: nat)
    requires m <= |refunds|
    ensures Drawn(g, k, refunds, i, n, m) <= Drawn(g, k, refunds, i, n + 1, m)
    ensures forall j :: 0 <= j < m && Draw(g, k, refunds, i, n, j) == 0 ==>
              Drawn(g, k, refunds, i, n, m) + Draw(g, k, refunds, i, n + 1, j) <= Drawn(g, k, refunds, i, n + 1, m)
  {
    if m > 0 {
      DrawnGrows(g, k, refunds, i, n, m - 1);
    }
  }

  /** What is drawn is backed; a row with its share still to draw adds it. */
  lemma {:induction false} DrawnIsBacked(g: Gateway, k: nat, f: File, i: nat, n: nat, m: nat)
    requires m <= |f.refunds| && RejectedThere(g, k, f)
    ensures Drawn(g, k, f.refunds, i, n, m) <= Backed(g, k, f.refunds, i, m)
    ensures forall j :: 0 <= j < m && f.refunds[j].payment == i && Draw(g, k, f.refunds, i, n, j) == 0 ==>
              Drawn(g, k, f.refunds, i, n, m) + Share(g, Key(k, j, f.refunds[j].attempt), f.refunds[j]) <= Backed(g, k, f.refunds, i, m)
  {
    if m > 0 {
      DrawnIsBacked(g, k, f, i, n, m - 1);
    }
  }

  predicate TakenBy(g: Gateway, r: GatewayRefundId, payment: PaymentRef) {
    r in g.refunds && g.refunds[r].payment == payment && g.refunds[r].status != RefundRejected
  }

  /** Some row of the payment drew the refund in its current attempt. */
  ghost predicate HasDrawer(g: Gateway, k: nat, refunds: seq<Refund>, i: nat, r: GatewayRefundId)
    requires r in g.refunds
  {
    exists j :: 0 <= j < |refunds| && Drew(g, k, refunds, i, r, j)
  }

  predicate Drew(g: Gateway, k: nat, refunds: seq<Refund>, i: nat, r: GatewayRefundId, j: nat)
    requires r in g.refunds && j < |refunds|
  {
    var key := Key(k, j, refunds[j].attempt);
    refunds[j].payment == i && refunds[j].amount == g.refunds[r].amount && key in g.refundKeys && g.refundKeys[key] == r
  }

  /** What the gateway took from a payment was drawn by the rows of that payment. */
  lemma {:induction false} TakenIsDrawn(g: Gateway, k: nat, refunds: seq<Refund>, i: nat, payment: PaymentRef, n: nat)
    requires forall r <- g.refunds :: TakenBy(g, r, payment) ==> HasDrawer(g, k, refunds, i, r)
    ensures Taken(g.refunds, n, payment) <= Drawn(g, k, refunds, i, n, |refunds|)
  {
    if n > 0 {
      TakenIsDrawn(g, k, refunds, i, payment, n - 1);
      DrawnGrows(g, k, refunds, i, n - 1, |refunds|);
      if TakenBy(g, n - 1, payment) {
        assert HasDrawer(g, k, refunds, i, n - 1);
        var j :| 0 <= j < |refunds| && Drew(g, k, refunds, i, n - 1, j);
        assert Draw(g, k, refunds, i, n - 1, j) == 0 && Draw(g, k, refunds, i, n, j) == g.refunds[n - 1].amount;
      }
    }
  }

  /** A refund that is not rejected is of its row's current attempt. */
  lemma LiveIsCurrent(net: Net, key: Key)
    requires OnceOk(net) && IsLive(net.gateway, key)
    ensures HasRow(net.sys, key) && key.attempt == Row(net.sys, key).attempt
    ensures net.gateway.refunds[net.gateway.refundKeys[key]].amount == Row(net.sys, key).amount
    ensures PaidBy(net.sys, key, net.gateway.refunds[net.gateway.refundKeys[key]].payment)
  {
    assert Buried(net, key) && NetOk(net);
    assert KeyOk(net, key);
  }

  /** Payment ids are unique: in an order by its rows, and over orders because the gateway fixes the order of each. */
  lemma SamePayment(net: Net, key: Key, k: nat, i: nat)
    requires TiedOk(net) && k < |net.sys.files| && i < |net.sys.files[k].payments|
    requires PaidBy(net.sys, key, net.sys.files[k].payments[i].externalId)
    ensures key.order == k && Row(net.sys, key).payment == i
  {
    assert FileTied(net.gateway, key.order, net.sys.files[key.order]) && FileTied(net.gateway, k, net.sys.files[k]);
    assert PaymentTied(net.gateway, key.order, net.sys.files[key.order].payments[Row(net.sys, key).payment]);
    assert PaymentTied(net.gateway, k, net.sys.files[k].payments[i]);
    UniqueIds(net.sys, k);
  }

  lemma UniqueIds(sys: System, k: nat)
    requires SystemOk(sys) && k < |sys.files|
    ensures BooksOk(sys.files[k].payments, sys.files[k].refunds)
  {
    assert OrderFileOk(sys, k);
    var l := LedgerOf(sys.files[k]);
    assert BooksOk(l.payments, l.refunds);
  }

  /** The row that drew a refund of the gateway: the one its key names, in its current attempt. */
  lemma DrawerOf(net: Net, k: nat, i: nat, r: GatewayRefundId)
    requires TiedOk(net) && k < |net.sys.files| && i < |net.sys.files[k].payments| && r in net.gateway.refunds
    requires TakenBy(net.gateway, r, net.sys.files[k].payments[i].externalId)
    ensures HasDrawer(net.gateway, k, net.sys.files[k].refunds, i, r)
  {
    assert HasKey(net.gateway, r);
    var key :| key in net.gateway.refundKeys && net.gateway.refundKeys[key] == r;
    LiveIsCurrent(net, key);
    SamePayment(net, key, k, i);
    assert Drew(net.gateway, k, net.sys.files[k].refunds, i, r, key.refund);
  }

  lemma TakenFits(net: Net, k: nat, i: nat, j: nat)
    requires TiedOk(net) && k < |net.sys.files| && i < |net.sys.files[k].payments|
    requires var f := net.sys.files[k]; j < |f.refunds| && f.refunds[j].payment == i && Key(k, j, f.refunds[j].attempt) !in net.gateway.refundKeys
    requires Commits(net.sys.files[k].refunds[j].status)
    ensures Taken(net.gateway.refunds, net.gateway.nextRefund, net.sys.files[k].payments[i].externalId) + net.sys.files[k].refunds[j].amount
            <= net.sys.files[k].payments[i].amount
  {
    var g, f := net.gateway, net.sys.files[k];
    forall r | r in g.refunds && TakenBy(g, r, f.payments[i].externalId) ensures HasDrawer(g, k, f.refunds, i, r) {
      DrawerOf(net, k, i, r);
    }
    TakenIsDrawn(g, k, f.refunds, i, f.payments[i].externalId, g.nextRefund);
    assert FileTied(g, k, f);
    DrawnIsBacked(g, k, f, i, g.nextRefund, |f.refunds|);
    assert Draw(g, k, f.refunds, i, g.nextRefund, j) == 0;
  }

  /** A dispatch that waits for its answer is never refused: the payment is approved, and has the balance. */
  lemma DispatchIsNotRefused(net: Net, c: Call)
    requires TiedOk(net) && c.Dispatching? && CallOk(net, c) && IsAwaited(net.calls, c.key)
    ensures RefundCreated(net.gateway, c.payment, c.amount, c.key).Done?
  {
    var g, k, row := net.gateway, c.key.order, Row(net.sys, c.key);
    if c.key !in g.refundKeys {
      assert Buried(net, c.key);
      UniqueIds(net.sys, k);
      TakenFits(net, k, row.payment, c.key.refund);
      assert FileTied(g, k, net.sys.files[k]);
      assert PaymentTied(g, k, net.sys.files[k].payments[row.payment]);
    }
  }

  // ----- Transactions on one order -----

  lemma {:induction false} BackedAtMost(g: Gateway, g': Gateway, k: nat, refunds: seq<Refund>, refunds': seq<Refund>, i: nat, m: nat)
    requires m <= |refunds| && m <= |refunds'|
    requires forall j :: 0 <= j < m ==> Part(g', k, refunds', i, j) <= Part(g, k, refunds, i, j)
    ensures Backed(g', k, refunds', i, m) <= Backed(g, k, refunds, i, m)
  {
    if m > 0 {
      BackedAtMost(g, g', k, refunds, refunds', i, m - 1);
    }
  }

  lemma {:induction false} BackedIsCommitted(g: Gateway, k: nat, refunds: seq<Refund>, i: nat)
    ensures Backed(g, k, refunds, i, |refunds|) <= RefundedCents(refunds, i)
  {
    if refunds != [] {
      var init := refunds[..|refunds| - 1];
      BackedIsCommitted(g, k, init, i);
      BackedAtMost(g, g, k, init, refunds, i, |init|);
    }
  }

  lemma {:induction false} NothingBacked(g: Gateway, k: nat, refunds: seq<Refund>, i: nat, m: nat)
    requires m <= |refunds| && forall j :: 0 <= j < m ==> refunds[j].payment != i
    ensures Backed(g, k, refunds, i, m) == 0
  {
    if m > 0 {
      NothingBacked(g, k, refunds, i, m - 1);
    }
  }

  /** Payments are never lost, and an approved one never changes. */
  ghost predicate PaymentsStep(f: File, f': File) {
    && |f.payments| <= |f'.payments|
    && forall i :: 0 <= i < |f.payments| && f.payments[i].status == Aprobado ==> f'.payments[i] == f.payments[i]
  }

  /** A refund row registered against a payment with the balance. */
  ghost predicate RowAdded(f: File, f': File) {
    exists p, amount, origin :: AddedTo(f, f', p, amount, origin)
  }

  predicate AddedTo(f: File, f': File, p: nat, amount: Cents, origin: RefundOrigin) {
    && f'.refunds == f.refunds + [NewRefund(p, amount, origin)]
    && p < |f'.payments| && amount + RefundedCents(f.refunds, p) <= f'.payments[p].amount
  }

  /** A row that needed attention retried, in its balance if it was rejected, or closed by hand. */
  ghost predicate RowManaged(f: File, f': File) {
    exists j :: 0 <= j < |f.refunds| && ManagedAt(f, f', j)
  }

  ghost predicate ManagedAt(f: File, f': File, j: nat)
    requires j < |f.refunds|
  {
    && |f'.refunds| == |f.refunds| && f'.payments == f.payments
    && var row, row' := f.refunds[j], f'.refunds[j];
       && f'.refunds == f.refunds[j := row'] && row'.payment == row.payment && row'.amount == row.amount
       && Commits(row'.status) && NeedsAttention(row.status)
       && (row'.attempt != row.attempt ==> row.status == ReembolsoRechazado && row'.status == EnTramite && FitsInBalance(f, j))
  }

  ghost predicate BooksStep(f: File, f': File) {
    PaymentsStep(f, f') && (f'.refunds == f.refunds || RowAdded(f, f') || RowManaged(f, f'))
  }

  /** For a payment with no new or retried row, what its rows back does not grow. */
  lemma UntouchedCovered(g: Gateway, k: nat, f: File, f': File, i: nat)
    requires Covered(g, k, f) && BooksOk(f.payments, f.refunds) && PaymentsStep(f, f') && i < |f'.payments| && |f.refunds| <= |f'.refunds|
    requires forall j :: 0 <= j < |f.refunds| ==> Part(g, k, f'.refunds, i, j) <= Part(g, k, f.refunds, i, j)
    requires forall j :: |f.refunds| <= j < |f'.refunds| ==> f'.refunds[j].payment != i
    ensures Backed(g, k, f'.refunds, i, |f'.refunds|) <= f'.payments[i].amount
  {
    BackedAtMost(g, g, k, f.refunds, f'.refunds, i, |f.refunds|);
    BackedTail(g, k, f'.refunds, i, |f.refunds|, |f'.refunds|);
    if i >= |f.payments| || f.payments[i].status != Aprobado {
      NothingBacked(g, k, f.refunds, i, |f.refunds|);
    }
  }

  lemma {:induction false} BackedTail(g: Gateway, k: nat, refunds: seq<Refund>, i: nat, n: nat, m: nat)
    requires n <= m <= |refunds| && forall j :: n <= j < m ==> refunds[j].payment != i
    ensures Backed(g, k, refunds, i, m) == Backed(g, k, refunds, i, n)
  {
    if n < m {
      BackedTail(g, k, refunds, i, n, m - 1);
    }
  }

  lemma AddedKeepsCover(g: Gateway, k: nat, f: File, f': File, p: nat, amount: Cents, origin: RefundOrigin)
    requires Covered(g, k, f) && BooksOk(f.payments, f.refunds) && PaymentsStep(f, f') && AddedTo(f, f', p, amount, origin)
    ensures Covered(g, k, f')
  {
    forall i | 0 <= i < |f'.payments| ensures Backed(g, k, f'.refunds, i, |f'.refunds|) <= f'.payments[i].amount {
      if i == p {
        BackedIsCommitted(g, k, f'.refunds, p);
        assert f'.refunds[..|f'.refunds| - 1] == f.refunds;
      } else {
        UntouchedCovered(g, k, f, f', i);
      }
    }
  }

  lemma ManagedKeepsCover(g: Gateway, k: nat, f: File, f': File, j: nat)
    requires Covered(g, k, f) && RejectedThere(g, k, f) && BooksOk(f.payments, f.refunds) && j < |f.refunds| && ManagedAt(f, f', j)
    ensures Covered(g, k, f')
  {
    var p := f.refunds[j].payment;
    forall i | 0 <= i < |f'.payments| ensures Backed(g, k, f'.refunds, i, |f'.refunds|) <= f'.payments[i].amount {
      if i == p && f'.refunds[j].attempt != f.refunds[j].attempt {
        BackedIsCommitted(g, k, f'.refunds, p);
        RetriedFits(f, f', j);
      } else {
        UntouchedCovered(g, k, f, f', i);
      }
    }
  }

  /** What a retry checks: with the row committed again, the payment still covers its refunds. */
  lemma RetriedFits(f: File, f': File, j: nat)
    requires j < |f.refunds| && ManagedAt(f, f', j) && FitsInBalance(f, j)
    ensures RefundedCents(f'.refunds, f.refunds[j].payment) <= f.payments[f.refunds[j].payment].amount
  {
    var p := f.refunds[j].payment;
    RefundedIsSum(f'.refunds, p);
    SumWithout(f'.refunds, j, CommittedTo(p));
    assert f'.refunds[..j] + f'.refunds[j + 1..] == f.refunds[..j] + f.refunds[j + 1..];
    RefundedIsSum(f.refunds[..j] + f.refunds[j + 1..], p);
  }

  lemma BooksStepKeepsTied(g: Gateway, k: nat, f: File, f': File)
    requires FileTied(g, k, f) && BooksOk(f.payments, f.refunds) && BooksStep(f, f')
    requires forall i :: 0 <= i < |f'.payments| ==> PaymentTied(g, k, f'.payments[i])
    ensures FileTied(g, k, f')
  {
    if f'.refunds == f.refunds {
      forall i | 0 <= i < |f'.payments| ensures Backed(g, k, f'.refunds, i, |f'.refunds|) <= f'.payments[i].amount {
        UntouchedCovered(g, k, f, f', i);
      }
    } else if RowAdded(f, f') {
      var p, amount, origin :| AddedTo(f, f', p, amount, origin);
      AddedKeepsCover(g, k, f, f', p, amount, origin);
    } else {
      var j :| 0 <= j < |f.refunds| && ManagedAt(f, f', j);
      ManagedKeepsCover(g, k, f, f', j);
    }
  }

  // ----- Each event of an order -----

  lemma RequestStep(f: File, f': File, p: nat, amount: Cents, origin: RefundOrigin)
    requires f'.payments == f.payments && CanRefund(f, amount, None, p) && f'.refunds == f.refunds + [NewRefund(p, amount, origin)]
    ensures BooksStep(f, f')
  {
    assert AddedTo(f, f', p, amount, origin);
  }

  lemma ReportStep(r: Rows, report: Report, now: Time)
    ensures BooksStep(r.file, PaymentProcessed(r, report, now).0.file)
  {
    var f, f' := r.file, PaymentProcessed(r, report, now).0.file;
    ReportWritesOneRow(r, report, now);
    assert Quiet(f).payments == f.payments && Quiet(f').payments == f'.payments;
    ReportRefund(r, report, now);
  }

  /** A report registers at most the refund of its own payment, which has the balance. */
  lemma ReportRefund(r: Rows, report: Report, now: Time)
    ensures var f, f' := r.file, PaymentProcessed(r, report, now).0.file; f'.refunds == f.refunds || RowAdded(f, f')
  {
    var f, f' := r.file, PaymentProcessed(r, report, now).0.file;
    if StatusMap(report.status).Some? {
      var mapped, k := StatusMap(report.status).value, Find(f.payments, report.externalId);
      var payment := NewPayment(report, mapped.status, now);
      var applied := PaymentApplied(r.(file := Saved(f, k, payment)), mapped.outcome, report.externalId, now);
      if f'.refunds != f.refunds {
        var origin, noted := applied.refundOrigin.value, Noted(applied.rows.file, PaymentDiscrepancy(report.externalId));
        assert f' == Requested(noted, payment.amount, origin, Some(k));
        assert CanRefund(noted, payment.amount, Some(k), ChosenPayment(noted, payment.amount, Some(k)).value);
        assert AddedTo(f, f', ChosenPayment(noted, payment.amount, Some(k)).value, payment.amount, origin);
      }
    }
  }

  lemma CancellationStep(r: Rows, cause: Cause, origin: RefundOrigin, now: Time)
    requires FileOk(r.file) && CanTransition(r.file.order.status, OrderStatus.Cancelado)
    ensures BooksStep(r.file, Cancelled(r, cause, origin, now).file)
  {
    var f, f' := r.file, Cancelled(r, cause, origin, now).file;
    CancellationIsRefunded(r, cause, origin, now);
    CancellationKeepsPayments(r, cause, origin, now);
    if f'.refunds != f.refunds {
      var p: nat :| CanRefund(f, CancellationAmount(f.order), None, p) && f'.refunds == f.refunds + [NewRefund(p, CancellationAmount(f.order), origin)];
      RequestStep(f, f', p, CancellationAmount(f.order), origin);
    }
  }

  lemma ReceptionStep(r: Rows, e: Event, now: Time)
    requires FileOk(r.file) && e.ReceiveReturn?
    ensures BooksStep(r.file, Step(r, e, now).file)
  {
    var f, f' := r.file, Step(r, e, now).file;
    if RequestReceived(r, e.request, e.inputs, e.options, now).Done? {
      ReceptionIsRefunded(r, e.request, e.inputs, e.options, now);
      var amount := ReceivedValue(f, e.request, e.inputs);
      if f'.refunds != f.refunds {
        var p: nat :| CanRefund(f, amount, None, p) && f'.refunds == f.refunds + [NewRefund(p, amount, CU22)];
        RequestStep(f, f', p, amount, CU22);
      }
    }
  }

  lemma ManagementStep(r: Rows, e: Event, now: Time)
    requires e.RetryRefund? || e.ResolveRefund?
    ensures BooksStep(r.file, Step(r, e, now).file)
  {
    var f, f' := r.file, Step(r, e, now).file;
    if f'.refunds != f.refunds {
      assert ManagedAt(f, f', e.refund);
    }
  }

  lemma OtherStep(r: Rows, e: Event, now: Time)
    requires e.Expire? || e.Compensate? || e.MoveAsAdmin? || e.RetryPay? || e.CreateReturn? || e.ApproveReturn? || e.RejectReturn?
    ensures Step(r, e, now).file.payments == r.file.payments && Step(r, e, now).file.refunds == r.file.refunds
  {}

  /** No transaction other than an answer gives a payment more refunds than it covers. */
  lemma EventStep(r: Rows, e: Event, now: Time)
    requires FileOk(r.file) && !e.MoveRefund? && !e.AnswerRefund?
    ensures BooksStep(r.file, Step(r, e, now).file)
  {
    if e.ReportPayment? {
      ReportStep(r, e.report, now);
    } else if e.CancelAsCustomer? {
      if CustomerCancellable(r.file.order.status) { CancellationStep(r, Cliente, CU14, now); }
    } else if e.CancelAsAdmin? {
      if AdminCancellable(r.file.order.status) { CancellationStep(r, Administrador, CU19, now); }
    } else if e.ReceiveReturn? {
      ReceptionStep(r, e, now);
    } else if e.RetryRefund? || e.ResolveRefund? {
      ManagementStep(r, e, now);
    } else {
      OtherStep(r, e, now);
    }
  }

  // ----- The gateway and the answers -----

  /** The gateway keeps the order and the amount of every payment, and an approved payment stays approved. */
  ghost predicate PaymentsStay(g: Gateway, g': Gateway) {
    forall p <- g.payments ::
      && p in g'.payments && g'.payments[p].order == g.payments[p].order && g'.payments[p].amount == g.payments[p].amount
      && (g.payments[p].status == RawApproved ==> g'.payments[p].status == RawApproved)
  }

  lemma GatewayKeepsFile(g: Gateway, g': Gateway, k: nat, f: File)
    requires FileTied(g, k, f) && GatewayGrows(g, g') && PaymentsStay(g, g')
    ensures FileTied(g', k, f)
  {
    forall i | 0 <= i < |f.payments| ensures PaymentTied(g', k, f.payments[i]) {
      assert PaymentTied(g, k, f.payments[i]);
    }
    forall i | 0 <= i < |f.payments| ensures Backed(g', k, f.refunds, i, |f.refunds|) <= f.payments[i].amount {
      BackedAtMost(g, g', k, f.refunds, f.refunds, i, |f.refunds|);
    }
  }

  lemma GatewayKeepsTied(files: seq<File>, g: Gateway, g': Gateway, calls: seq<Call>)
    requires Tied(files, g, calls) && Keyed(g') && GatewayGrows(g, g') && PaymentsStay(g, g')
    ensures Tied(files, g', calls)
  {
    forall k | 0 <= k < |files| ensures FileTied(g', k, files[k]) {
      GatewayKeepsFile(g, g', k, files[k]);
    }
    forall c | 0 <= c < |calls| ensures CallTied(g', calls[c]) {
      assert CallTied(g, calls[c]);
    }
  }

  lemma CallKeepsTied(files: seq<File>, g: Gateway, calls: seq<Call>, i: nat, c: Call)
    requires Tied(files, g, calls) && i < |calls| && CallTied(g, c)
    ensures Tied(files, g, calls[i := c])
  {
    var calls' := calls[i := c];
    forall j | 0 <= j < |calls'| ensures CallTied(g, calls'[j]) {
      assert CallTied(g, calls[j]);
    }
  }

  lemma StartKeepsTied(files: seq<File>, g: Gateway, calls: seq<Call>, started: Option<Call>)
    requires Tied(files, g, calls) && (started.Some? ==> CallTied(g, started.value))
    ensures Tied(files, g, calls + match started case Some(c) => [c] case None => [])
  {}

  lemma FileKeepsTied(files: seq<File>, g: Gateway, calls: seq<Call>, k: nat, f': File)
    requires Tied(files, g, calls) && k < |files| && FileTied(g, k, f')
    ensures Tied(files[k := f'], g, calls)
  {
    var files' := files[k := f'];
    forall other | 0 <= other < |files'| ensures FileTied(g, other, files'[other]) {
      assert FileTied(g, other, files[other]);
    }
  }

  lemma NewOrderTied(files: seq<File>, g: Gateway, calls: seq<Call>, f: File)
    requires Tied(files, g, calls) && f.payments == [] && f.refunds == []
    ensures Tied(files + [f], g, calls)
  {
    forall k | 0 <= k <= |files| ensures FileTied(g, k, (files + [f])[k]) {
      assert k < |files| ==> FileTied(g, k, files[k]);
    }
  }

  lemma Together(net: Net, sys: System, g: Gateway, calls: seq<Call>)
    requires OnceOk(net) && Tied(sys.files, g, calls) && net == Net(sys, g, calls)
    ensures TiedOk(net)
  {}

  // ----- The gateway by itself -----

  lemma CreationGrows(g: Gateway, payment: PaymentRef, amount: Cents, key: Key)
    requires GatewayOk(g)
    ensures var g' := GatewayOr(RefundCreated(g, payment, amount, key), g);
            GatewayGrows(g, g') && PaymentsStay(g, g')
  {}

  /** A refund created is under its key. */
  lemma CreationIsKeyed(g: Gateway, payment: PaymentRef, amount: Cents, key: Key)
    requires Keyed(g) && GatewayOk(g)
    ensures Keyed(GatewayOr(RefundCreated(g, payment, amount, key), g))
  {
    var g' := GatewayOr(RefundCreated(g, payment, amount, key), g);
    CreationGrows(g, payment, amount, key);
    forall r | r in g'.refunds ensures HasKey(g', r) {
      if r in g.refunds {
        assert HasKey(g, r);
        var other :| other in g.refundKeys && g.refundKeys[other] == r;
        assert g'.refundKeys[other] == r;
      } else {
        assert g'.refundKeys[key] == r;
      }
    }
  }

  lemma SameKeysKeyed(g: Gateway, g': Gateway)
    requires Keyed(g) && g'.refundKeys == g.refundKeys && g'.refunds.Keys == g.refunds.Keys
    ensures Keyed(g')
  {
    forall r | r in g'.refunds ensures HasKey(g', r) {
      assert r in g.refunds && HasKey(g, r);
      var key :| key in g.refundKeys && g.refundKeys[key] == r;
      assert g'.refundKeys[key] == r;
    }
  }

  lemma PaymentsStaySimulated(g: Gateway, p: PreferenceId, outcome: SimulatedOutcome, now: Time)
    requires GatewayOk(g)
    ensures var g' := GatewayOr(PaymentSimulated(g, p, outcome, now), g); PaymentsStay(g, g') && g'.refunds == g.refunds
  {}

  lemma PaymentsStaySettled(g: Gateway, p: PaymentRef, approved: bool)
    ensures var g' := GatewayOr(PaymentSettled(g, p, approved), g); PaymentsStay(g, g') && g'.refunds == g.refunds
  {}

  lemma PaymentsStayRefunded(g: Gateway, r: GatewayRefundId, approved: bool)
    ensures var g' := GatewayOr(RefundSettled(g, r, approved), g); PaymentsStay(g, g') && g'.refunds.Keys == g.refunds.Keys
  {}

  lemma GatewayActionKeepsTied(net: Net, a: Action)
    requires TiedOk(net) && (a.OpenPreference? || a.Pay? || a.SettlePayment? || a.SettleRefund?)
    ensures TiedOk(NetStep(net, a))
  {
    var g, g' := net.gateway, NetStep(net, a).gateway;
    assert GatewayOk(g) by { assert NetOk(net); }
    GatewayKeepsOnce(net, a);
    match a {
      case OpenPreference(_, _, _) =>
      case Pay(p, outcome, now) => PaymentsGrow(g, p, outcome, now); PaymentsStaySimulated(g, p, outcome, now);
      case SettlePayment(p, approved) => PaymentsSettle(g, p, approved); PaymentsStaySettled(g, p, approved);
      case SettleRefund(r, approved) => RefundsGrow(g, r, approved); PaymentsStayRefunded(g, r, approved);
    }
    SameKeysKeyed(g, g');
    GatewayKeepsTied(net.sys.files, g, g', net.calls);
    assert NetStep(net, a) == net.(gateway := g');
  }

  // ----- Calls -----

  lemma DeliveredIsTied(files: seq<File>, g: Gateway, calls: seq<Call>, i: nat)
    requires Tied(files, g, calls) && GatewayOk(g) && i < |calls|
    requires calls[i].Dispatching? ==> RefundCreated(g, calls[i].payment, calls[i].amount, calls[i].key).Done?
    ensures var (g', c') := Delivered(g, calls[i]); Tied(files, g', calls[i := c'])
  {
    var c := calls[i];
    var (g', c') := Delivered(g, c);
    assert CallTied(g, c);
    if c.Dispatching? {
      CreationGrows(g, c.payment, c.amount, c.key);
      CreationIsKeyed(g, c.payment, c.amount, c.key);
      GatewayKeepsTied(files, g, g', calls);
    }
    CallKeepsTied(files, g', calls, i, c');
  }

  /** The answer of the gateway reaches a dispatch: never a refusal. */
  lemma DeliverKeepsTied(net: Net, i: nat)
    requires TiedOk(net) && i < |net.calls|
    ensures TiedOk(NetStep(net, Deliver(i)))
  {
    var c := net.calls[i];
    DeliverKeepsOnce(net, i);
    assert NetOk(net) && CallOk(net, c);
    if c.Dispatching? {
      DispatchIsNotRefused(net, c);
    }
    DeliveredIsTied(net.sys.files, net.gateway, net.calls, i);
    var (g', c') := Delivered(net.gateway, c);
    DeliverStep(net, i, g', c');
    Together(NetStep(net, Deliver(i)), net.sys, g', net.calls[i := c']);
  }

  lemma LostIsTied(files: seq<File>, g: Gateway, calls: seq<Call>, i: nat, reached: bool)
    requires Tied(files, g, calls) && GatewayOk(g) && i < |calls|
    ensures var (g', c') := Lost(g, calls[i], reached); Tied(files, g', calls[i := c'])
  {
    var c := calls[i];
    var (g', c') := Lost(g, c, reached);
    assert CallTied(g, c);
    if c.Dispatching? && reached {
      CreationGrows(g, c.payment, c.amount, c.key);
      CreationIsKeyed(g, c.payment, c.amount, c.key);
      GatewayKeepsTied(files, g, g', calls);
    }
    CallKeepsTied(files, g', calls, i, c');
  }

  lemma LoseKeepsTied(net: Net, i: nat, reached: bool)
    requires TiedOk(net) && i < |net.calls|
    ensures TiedOk(NetStep(net, Lose(i, reached)))
  {
    var (g', c') := Lost(net.gateway, net.calls[i], reached);
    assert Tied(net.sys.files, g', net.calls[i := c']) by {
      assert NetOk(net);
      LostIsTied(net.sys.files, net.gateway, net.calls, i, reached);
    }
    assert OnceOk(NetStep(net, Lose(i, reached))) by {
      LoseKeepsOnce(net, i, reached);
    }
    LoseStep(net, i, reached, g', c');
    Together(NetStep(net, Lose(i, reached)), net.sys, g', net.calls[i := c']);
  }

  /** What a call reads of a payment is what the gateway holds. */
  lemma StartActionKeepsTied(net: Net, a: Action)
    requires TiedOk(net) && (a.StartDispatch? || a.StartReconcile? || a.StartReport?)
    ensures TiedOk(NetStep(net, a))
  {
    ActionKeepsOnce(net, a);
    match a
    case StartDispatch(k, j) => StartKeepsTied(net.sys.files, net.gateway, net.calls, Started(net.sys, k, j, true));
    case StartReconcile(k, j) => StartKeepsTied(net.sys.files, net.gateway, net.calls, Started(net.sys, k, j, false));
    case StartReport(p) => StartKeepsTied(net.sys.files, net.gateway, net.calls, Reported(net.gateway, p));
  }

  lemma FailKeepsTied(net: Net, i: nat)
    requires TiedOk(net) && i < |net.calls| && net.calls[i].Dispatching?
    ensures TiedOk(NetStep(net, Fail(i)))
  {
    var c := GivingUp(net.calls[i].key);
    FailKeepsOnce(net, i);
    CallKeepsTied(net.sys.files, net.gateway, net.calls, i, c);
    FailStep(net, i);
    Together(NetStep(net, Fail(i)), net.sys, net.gateway, net.calls[i := c]);
  }

  // ----- Transactions -----

  /** Any event but an answer, on an order with its books in order. */
  lemma EventKeepsTied(g: Gateway, k: nat, r: Rows, e: Event, now: Time)
    requires FileTied(g, k, r.file) && FileOk(r.file) && BooksOk(r.file.payments, r.file.refunds) && !e.MoveRefund? && !e.AnswerRefund?
    ensures var f' := Step(r, e, now).file;
            (forall i :: 0 <= i < |f'.payments| ==> PaymentTied(g, k, f'.payments[i])) ==> FileTied(g, k, f')
  {
    var f' := Step(r, e, now).file;
    EventStep(r, e, now);
    if forall i :: 0 <= i < |f'.payments| ==> PaymentTied(g, k, f'.payments[i]) {
      BooksStepKeepsTied(g, k, r.file, f');
    }
  }

  lemma CommittedIsTied(sys: System, g: Gateway, calls: seq<Call>, e: SystemEvent)
    requires SystemOk(sys) && Tied(sys.files, g, calls) && !IsAnswer(e) && !IsReport(e)
    ensures Tied(SystemStep(sys, e).files, g, calls)
  {
    if e.PlaceOrder? {
      if SystemStep(sys, e) != sys {
        var placed := Checkout.Confirmed(sys.stock, e.userId, e.cart, e.shippingCost, e.expectedTotal, e.expiresAt);
        NewOrderTied(sys.files, g, calls, placed.rows.file);
      }
    } else if e.OnOrder? && e.order < |sys.files| {
      var k := e.order;
      assert OrderFileOk(sys, k) && FileTied(g, k, sys.files[k]);
      UniqueIds(sys, k);
      PaymentsKept(sys.Rows(k), e.event, e.now);
      EventKeepsTied(g, k, sys.Rows(k), e.event, e.now);
      FileKeepsTied(sys.files, g, calls, k, Step(sys.Rows(k), e.event, e.now).file);
    }
  }

  lemma CommitKeepsTied(net: Net, e: SystemEvent)
    requires TiedOk(net)
    ensures TiedOk(NetStep(net, Commit(e)))
  {
    if !IsAnswer(e) && !IsReport(e) {
      CommitKeepsOnce(net, e);
      assert SystemOk(net.sys) by { assert NetOk(net); }
      CommittedIsTied(net.sys, net.gateway, net.calls, e);
    }
  }

  /** A report records what the gateway said. */
  lemma ReportedIsTied(g: Gateway, r: Rows, c: Call, now: Time)
    requires c.Reporting? && ReportTied(g, c) && FileTied(g, c.order, r.file)
    ensures var f' := Step(r, ReportOf(c, now).event, now).file;
            forall i :: 0 <= i < |f'.payments| ==> PaymentTied(g, c.order, f'.payments[i])
  {
    var f := r.file;
    ReportWritesOneRow(r, ReportOf(c, now).event.report, now);
    assert Quiet(f).payments == f.payments;
    forall i | 0 <= i < |f.payments| ensures PaymentTied(g, c.order, f.payments[i]) {}
  }

  lemma ProcessedIsTied(sys: System, g: Gateway, calls: seq<Call>, i: nat, now: Time)
    requires SystemOk(sys) && Tied(sys.files, g, calls) && i < |calls| && calls[i].Reporting?
    ensures Tied(SystemStep(sys, ReportOf(calls[i], now)).files, g, calls[i := Over])
  {
    var c := calls[i];
    CallKeepsTied(sys.files, g, calls, i, Over);
    if c.order < |sys.files| {
      var k, e := c.order, ReportOf(c, now).event;
      assert CallTied(g, c) && OrderFileOk(sys, k) && FileTied(g, k, sys.files[k]);
      UniqueIds(sys, k);
      ReportedIsTied(g, sys.Rows(k), c, now);
      EventKeepsTied(g, k, sys.Rows(k), e, now);
      FileKeepsTied(sys.files, g, calls[i := Over], k, Step(sys.Rows(k), e, now).file);
    }
  }

  lemma ProcessKeepsTied(net: Net, i: nat, now: Time)
    requires TiedOk(net) && i < |net.calls| && net.calls[i].Reporting?
    ensures TiedOk(NetStep(net, Process(i, now)))
  {
    ProcessKeepsOnce(net, i, now);
    assert SystemOk(net.sys) by { assert NetOk(net); }
    ProcessedIsTied(net.sys, net.gateway, net.calls, i, now);
    Together(NetStep(net, Process(i, now)), SystemStep(net.sys, ReportOf(net.calls[i], now)), net.gateway, net.calls[i := Over]);
  }

  // ----- Answers -----

  /** One row answered: same payment, amount and attempt; committed as before, or rejected as the gateway says. */
  lemma AnswerKeepsFile(g: Gateway, k: nat, f: File, j: nat, row: Refund)
    requires FileTied(g, k, f) && j < |f.refunds|
    requires row.payment == f.refunds[j].payment && row.amount == f.refunds[j].amount && row.attempt == f.refunds[j].attempt
    requires Commits(row.status) ==> Commits(f.refunds[j].status)
    requires row.status == ReembolsoRechazado ==> IsSpent(g, Key(k, j, f.refunds[j].attempt))
    ensures FileTied(g, k, f.(refunds := f.refunds[j := row]))
  {
    var f' := f.(refunds := f.refunds[j := row]);
    forall i | 0 <= i < |f'.payments| ensures Backed(g, k, f'.refunds, i, |f'.refunds|) <= f'.payments[i].amount {
      BackedAtMost(g, g, k, f.refunds, f'.refunds, i, |f.refunds|);
    }
  }

  lemma UpdateIsTied(sys: System, g: Gateway, calls: seq<Call>, key: Key, to: RefundStatus)
    requires Tied(sys.files, g, calls) && (to == ReembolsoRechazado ==> IsSpent(g, key))
    ensures Tied(Update(sys, key, to).files, g, calls)
  {
    var k, j := key.order, key.refund;
    if k < |sys.files| {
      var f := sys.files[k];
      assert FileTied(g, k, f);
      if j < |f.refunds| {
        AnswerKeepsFile(g, k, f, j, RowMoved(f.refunds[j], key.attempt, to));
      }
      FileKeepsTied(sys.files, g, calls, k, RefundMoved(f, j, key.attempt, to));
      FileKeepsTied(sys.files, g, calls, k, f);
    }
  }

  lemma StoredIsTied(sys: System, g: Gateway, calls: seq<Call>, key: Key, result: GatewayRefundId)
    requires Tied(sys.files, g, calls)
    ensures Tied(SystemStep(sys, OnOrder(key.order, AnswerRefund(key.refund, key.attempt, result), 0)).files, g, calls)
  {
    var k, j := key.order, key.refund;
    if k < |sys.files| {
      var f := sys.files[k];
      assert FileTied(g, k, f);
      if j < |f.refunds| {
        AnswerKeepsFile(g, k, f, j, RowAnswered(f.refunds[j], key.attempt, result));
      }
      FileKeepsTied(sys.files, g, calls, k, RefundAnswered(f, j, key.attempt, result));
    }
  }

  lemma StoreKeepsTied(net: Net, i: nat)
    requires TiedOk(net) && i < |net.calls| && net.calls[i].Answered?
    ensures TiedOk(NetStep(net, Store(i)))
  {
    var Answered(key, result, status) := net.calls[i];
    var sys', c' := SystemStep(net.sys, OnOrder(key.order, AnswerRefund(key.refund, key.attempt, result), 0)), Applying(key, result, status);
    StoreKeepsOnce(net, i);
    CallKeepsTied(net.sys.files, net.gateway, net.calls, i, c');
    StoredIsTied(net.sys, net.gateway, net.calls[i := c'], key, result);
    StoreStep(net, i);
    Together(NetStep(net, Store(i)), sys', net.gateway, net.calls[i := c']);
  }

  /** What a call writes of its answer; `confirmed` is what the gateway answered. */
  lemma AppliedIsTied(sys: System, g: Gateway, calls: seq<Call>, c: Call)
    requires Tied(sys.files, g, calls) && CallTied(g, c)
    requires c.Applying? ==> Confirmed(g, c.key, c.result, c.status)
    ensures var (sys', c') := RefundProtocol.Applied(sys, c); Tied(sys'.files, g, calls) && CallTied(g, c')
  {
    if c.Applying? && c.status == RefundApproved {
      UpdateIsTied(sys, g, calls, c.key, Reembolsado);
    } else if c.Applying? && c.status == RefundRejected {
      UpdateIsTied(sys, g, calls, c.key, ReembolsoRechazado);
    } else if c.GivingUp? {
      UpdateIsTied(sys, g, calls, c.key, PendienteDeGestion);
    }
  }

  lemma ApplyKeepsTied(net: Net, i: nat)
    requires TiedOk(net) && i < |net.calls|
    ensures TiedOk(NetStep(net, Apply(i)))
  {
    var c := net.calls[i];
    assert CallTied(net.gateway, c);
    assert CallOk(net, c) by { assert NetOk(net); }
    ApplyKeepsOnce(net, i);
    AppliedIsTied(net.sys, net.gateway, net.calls, c);
    var (sys', c') := RefundProtocol.Applied(net.sys, c);
    CallKeepsTied(sys'.files, net.gateway, net.calls, i, c');
    ApplyStep(net, i, sys', c');
    Together(NetStep(net, Apply(i)), sys', net.gateway, net.calls[i := c']);
  }

  // ----- Every action, every run -----

  /** Every action keeps the rows, the calls and the gateway in agreement, with no refund refused. */
  lemma ActionKeepsTied(net: Net, a: Action)
    requires TiedOk(net)
    ensures TiedOk(NetStep(net, a))
  {
    match a
    case Commit(e) => CommitKeepsTied(net, e);
    case Process(i, now) => if i < |net.calls| && net.calls[i].Reporting? { ProcessKeepsTied(net, i, now); }
    case Deliver(i) => if i < |net.calls| { DeliverKeepsTied(net, i); }
    case Lose(i, reached) => if i < |net.calls| { LoseKeepsTied(net, i, reached); }
    case Store(i) => if i < |net.calls| && net.calls[i].Answered? { StoreKeepsTied(net, i); }
    case Apply(i) => if i < |net.calls| { ApplyKeepsTied(net, i); }
    case StartDispatch(_, _) => StartActionKeepsTied(net, a);
    case StartReconcile(_, _) => StartActionKeepsTied(net, a);
    case StartReport(_) => StartActionKeepsTied(net, a);
    case Fail(i) => if i < |net.calls| && net.calls[i].Dispatching? { FailKeepsTied(net, i); }
    case _ => GatewayActionKeepsTied(net, a);
  }

  lemma {:induction false} RunKeepsTied(actions: seq<Action>)
    ensures TiedOk(NetRun(START, actions))
    decreases |actions|
  {
    if actions != [] {
      RunKeepsTied(actions[..|actions| - 1]);
      ActionKeepsTied(NetRun(START, actions[..|actions| - 1]), actions[|actions| - 1]);
    }
  }

  lemma ReachableNetIsTied(net: Net)
    requires IsReachableNet(net)
    ensures TiedOk(net)
  {
    var actions :| net == NetRun(START, actions);
    RunKeepsTied(actions);
  }

  // ----- Results over every interleaving -----

  /** No dispatch is ever refused: its payment is approved at the gateway, which has the balance for it. */
  lemma RefundsAreNeverRefused(net: Net, i: nat)
    requires IsReachableNet(net)
    ensures i < |net.calls| ==> !net.calls[i].Rejecting?
    ensures i < |net.calls| && net.calls[i].Dispatching? ==>
              RefundCreated(net.gateway, net.calls[i].payment, net.calls[i].amount, net.calls[i].key).Done?
  {
    ReachableNetIsTied(net);
    if i < |net.calls| {
      assert CallTied(net.gateway, net.calls[i]) && CallOk(net, net.calls[i]);
      if net.calls[i].Dispatching? {
        DispatchIsNotRefused(net, net.calls[i]);
      }
    }
  }

  /**
   * The idempotency key keeps a row from being refunded twice: whatever its dispatches, retries and reconcilers do,
   * at most one of its attempts, the current one, holds a refund at the gateway that is not rejected.
   */
  lemma OneLiveRefundPerRow(net: Net, a: Key, b: Key)
    requires IsReachableNet(net)
    ensures IsLive(net.gateway, a) ==> HasRow(net.sys, a) && a.attempt == Row(net.sys, a).attempt
    ensures a.order == b.order && a.refund == b.refund && IsLive(net.gateway, a) && IsLive(net.gateway, b) ==> a == b
  {
    ReachableNetIsTied(net);
    if IsLive(net.gateway, a) {
      LiveIsCurrent(net, a);
    }
    if IsLive(net.gateway, b) {
      LiveIsCurrent(net, b);
    }
  }

  /** A refund row is recorded as rejected only if the gateway rejected its current attempt. */
  lemma RejectionsAreTheGateways(net: Net, k: nat, j: nat)
    requires IsReachableNet(net) && k < |net.sys.files| && j < |net.sys.files[k].refunds|
    ensures net.sys.files[k].refunds[j].status == ReembolsoRechazado ==> IsSpent(net.gateway, CurrentKey(net.sys, k, j))
  {
    ReachableNetIsTied(net);
    assert FileTied(net.gateway, k, net.sys.files[k]);
  }

  /** An approved payment row is approved at the gateway, for that order and amount. */
  lemma ApprovalsAreTheGateways(net: Net, k: nat, i: nat)
    requires IsReachableNet(net) && k < |net.sys.files| && i < |net.sys.files[k].payments|
    ensures var payment := net.sys.files[k].payments[i];
            payment.status == Aprobado ==>
              && payment.externalId in net.gateway.payments
              && net.gateway.payments[payment.externalId] == GatewayPayment(RawApproved, payment.amount, k)
  {
    ReachableNetIsTied(net);
    assert FileTied(net.gateway, k, net.sys.files[k]);
    assert PaymentTied(net.gateway, k, net.sys.files[k].payments[i]);
  }
}
