/** The attempts a refund row left behind are buried: rejected at the gateway, or never created there and not awaited. */
module RefundOnce {
  import opened Entities
  import opened Machine
  import opened FakeGateway
  import opened RefundProtocol

  /** The gateway still owes, or already gave, the refund created with the key. */
  predicate IsLive(g: Gateway, key: Key) {
    key in g.refundKeys && g.refundKeys[key] in g.refunds && g.refunds[g.refundKeys[key]].status != RefundRejected
  }

  /** An attempt that the row left behind, or that it records as rejected. */
  predicate IsDead(sys: System, key: Key) {
    HasRow(sys, key) && (key.attempt < Row(sys, key).attempt || (key.attempt == Row(sys, key).attempt && Row(sys, key).status == ReembolsoRechazado))
  }

  /** A dispatch of the attempt has not had its answer yet. */
  ghost predicate IsAwaited(calls: seq<Call>, key: Key) {
    exists i :: 0 <= i < |calls| && calls[i].Dispatching? && calls[i].key == key
  }

  /** A dead attempt is rejected at the gateway, or was never created there and no dispatch of it is left. */
  ghost predicate Buried(net: Net, key: Key) {
    IsDead(net.sys, key) ==> !IsLive(net.gateway, key) && (key in net.gateway.refundKeys || !IsAwaited(net.calls, key))
  }

  ghost predicate OnceOk(net: Net) {
    NetOk(net) && forall key :: Buried(net, key)
  }

  // ----- Each action -----

  /** Whatever is known of a key at the gateway, or awaited, belongs to a row. */
  lemma KeysHaveRows(net: Net, key: Key)
    requires NetOk(net) && (key in net.gateway.refundKeys || IsAwaited(net.calls, key))
    ensures HasRow(net.sys, key)
  {
    if key in net.gateway.refundKeys {
      assert KeyOk(net, key);
    } else {
      var i :| 0 <= i < |net.calls| && net.calls[i].Dispatching? && net.calls[i].key == key;
      assert CallOk(net, net.calls[i]);
    }
  }

  /** Transactions other than answers kill only attempts that were dead already. */
  lemma EvolutionKillsNothing(net: Net, sys': System, key: Key)
    requires OnceOk(net) && SystemEvolved(net.sys, sys') && IsDead(sys', key)
    ensures IsDead(net.sys, key) || (key !in net.gateway.refundKeys && !IsAwaited(net.calls, key))
  {
    assert NetOk(net);
    if key in net.gateway.refundKeys || IsAwaited(net.calls, key) {
      KeysHaveRows(net, key);
      assert Evolved(Row(net.sys, key), Row(sys', key));
    }
  }

  /** A transaction other than an answer, whatever becomes of the call that ran it. */
  lemma EventKeepsOnce(net: Net, e: SystemEvent, net': Net)
    requires OnceOk(net) && !IsAnswer(e) && NetOk(net')
    requires net'.sys == SystemStep(net.sys, e) && net'.gateway == net.gateway
    requires forall key :: IsAwaited(net'.calls, key) ==> IsAwaited(net.calls, key)
    ensures OnceOk(net')
  {
    CommitEvolves(net.sys, e);
    forall key ensures Buried(net', key) {
      assert Buried(net, key);
      if IsDead(net'.sys, key) {
        EvolutionKillsNothing(net, net'.sys, key);
      }
    }
  }

  lemma CommitKeepsOnce(net: Net, e: SystemEvent)
    requires OnceOk(net)
    ensures OnceOk(NetStep(net, Commit(e)))
  {
    if !IsAnswer(e) && !IsReport(e) {
      ActionKeepsNet(net, Commit(e));
      EventKeepsOnce(net, e, NetStep(net, Commit(e)));
    }
  }

  lemma ProcessKeepsOnce(net: Net, i: nat, now: Time)
    requires OnceOk(net) && i < |net.calls| && net.calls[i].Reporting?
    ensures OnceOk(NetStep(net, Process(i, now)))
  {
    ActionKeepsNet(net, Process(i, now));
    forall key ensures IsAwaited(net.calls[i := Over], key) ==> IsAwaited(net.calls, key) {
      AwaitedStays(net.calls, i, Over, key);
    }
    EventKeepsOnce(net, ReportOf(net.calls[i], now), NetStep(net, Process(i, now)));
  }

  /** Gateway events never bring a rejected refund back to life, nor create one. */
  lemma QuietGatewayKeepsOnce(net: Net, net': Net)
    requires OnceOk(net) && NetOk(net') && net'.sys == net.sys && net'.calls == net.calls
    requires GatewayGrows(net.gateway, net'.gateway) && net'.gateway.refundKeys == net.gateway.refundKeys
    ensures OnceOk(net')
  {
    forall key ensures Buried(net', key) {
      assert Buried(net, key);
      assert NetOk(net);
      if key in net.gateway.refundKeys {
        assert KeyOk(net, key);
      }
    }
  }

  lemma GatewayKeepsOnce(net: Net, a: Action)
    requires OnceOk(net) && (a.OpenPreference? || a.Pay? || a.SettlePayment? || a.SettleRefund?)
    ensures OnceOk(NetStep(net, a))
  {
    var g := net.gateway;
    ActionKeepsNet(net, a);
    match a {
      case OpenPreference(_, _, _) =>
      case Pay(p, outcome, now) => PaymentsGrow(g, p, outcome, now);
      case SettlePayment(p, approved) => PaymentsSettle(g, p, approved);
      case SettleRefund(r, approved) => RefundsGrow(g, r, approved);
    }
    QuietGatewayKeepsOnce(net, NetStep(net, a));
  }

  /** Calls that start, move on without the gateway, or end: no attempt is awaited that was not, unless it is alive. */
  lemma CallsKeepOnce(net: Net, net': Net)
    requires OnceOk(net) && NetOk(net') && net'.sys == net.sys && net'.gateway == net.gateway
    requires forall key :: IsAwaited(net'.calls, key) ==> IsAwaited(net.calls, key) || !IsDead(net.sys, key)
    ensures OnceOk(net')
  {
    forall key ensures Buried(net', key) {
      assert Buried(net, key);
    }
  }

  lemma AwaitedStays(calls: seq<Call>, i: nat, c: Call, key: Key)
    requires i < |calls|
    ensures IsAwaited(calls[i := c], key) ==> IsAwaited(calls, key) || (c.Dispatching? && c.key == key)
  {
    if IsAwaited(calls[i := c], key) {
      var j :| 0 <= j < |calls| && calls[i := c][j].Dispatching? && calls[i := c][j].key == key;
      assert j == i || calls[j] == calls[i := c][j];
    }
  }

  lemma StartKeepsOnce(net: Net, k: nat, j: nat, dispatch: bool)
    requires OnceOk(net)
    ensures OnceOk(net.(calls := net.calls + match Started(net.sys, k, j, dispatch) case Some(c) => [c] case None => []))
  {
    var net' := net.(calls := net.calls + match Started(net.sys, k, j, dispatch) case Some(c) => [c] case None => []);
    StartKeepsNet(net, k, j, dispatch);
    forall key | IsAwaited(net'.calls, key) ensures IsAwaited(net.calls, key) || !IsDead(net.sys, key) {
      var i :| 0 <= i < |net'.calls| && net'.calls[i].Dispatching? && net'.calls[i].key == key;
      assert i < |net.calls| ==> net.calls[i] == net'.calls[i];
    }
    CallsKeepOnce(net, net');
  }

  lemma ReportKeepsOnce(net: Net, p: PaymentRef)
    requires OnceOk(net)
    ensures OnceOk(NetStep(net, StartReport(p)))
  {
    var net' := NetStep(net, StartReport(p));
    ActionKeepsNet(net, StartReport(p));
    forall key | IsAwaited(net'.calls, key) ensures IsAwaited(net.calls, key) {
      var i :| 0 <= i < |net'.calls| && net'.calls[i].Dispatching? && net'.calls[i].key == key;
      assert net.calls[i] == net'.calls[i];
    }
    CallsKeepOnce(net, net');
  }

  /** A dispatch that reaches the gateway creates a refund only for its own, awaited, key: not for a dead one. */
  lemma CreationKeepsOnce(net: Net, c: Call, g': Gateway, key: Key)
    requires OnceOk(net) && c.Dispatching? && CallOk(net, c) && IsAwaited(net.calls, c.key)
    requires g' == GatewayOr(RefundCreated(net.gateway, c.payment, c.amount, c.key), net.gateway)
    ensures IsDead(net.sys, key) ==> !IsLive(g', key)
    ensures key in net.gateway.refundKeys ==> key in g'.refundKeys
  {
    assert Buried(net, key) && NetOk(net);
    if key in net.gateway.refundKeys {
      assert KeyOk(net, key);
      assert net.gateway.refundKeys[key] < net.gateway.nextRefund;
    }
  }

  lemma GatewayCallKeepsOnce(net: Net, i: nat, g': Gateway, c': Call)
    requires OnceOk(net) && i < |net.calls| && NetOk(Net(net.sys, g', net.calls[i := c']))
    requires c'.Dispatching? ==> net.calls[i].Dispatching? && c'.key == net.calls[i].key
    requires g' == net.gateway
             || (net.calls[i].Dispatching?
                 && g' == GatewayOr(RefundCreated(net.gateway, net.calls[i].payment, net.calls[i].amount, net.calls[i].key), net.gateway))
    ensures OnceOk(Net(net.sys, g', net.calls[i := c']))
  {
    var c, net' := net.calls[i], Net(net.sys, g', net.calls[i := c']);
    assert NetOk(net) && CallOk(net, c);
    forall key ensures Buried(net', key) {
      assert Buried(net, key);
      AwaitedStays(net.calls, i, c', key);
      if g' != net.gateway {
        CreationKeepsOnce(net, c, g', key);
      }
    }
  }

  lemma DeliverKeepsOnce(net: Net, i: nat)
    requires OnceOk(net) && i < |net.calls|
    ensures OnceOk(NetStep(net, Deliver(i)))
  {
    ActionKeepsNet(net, Deliver(i));
    var (g', c') := Delivered(net.gateway, net.calls[i]);
    DeliverStep(net, i, g', c');
    GatewayCallKeepsOnce(net, i, g', c');
  }

  lemma LoseKeepsOnce(net: Net, i: nat, reached: bool)
    requires OnceOk(net) && i < |net.calls|
    ensures OnceOk(NetStep(net, Lose(i, reached)))
  {
    ActionKeepsNet(net, Lose(i, reached));
    var (g', c') := Lost(net.gateway, net.calls[i], reached);
    LoseStep(net, i, reached, g', c');
    GatewayCallKeepsOnce(net, i, g', c');
  }

  /** Writing an answer kills at most the attempt that was answered as rejected. */
  lemma UpdateKills(sys: System, written: Key, to: RefundStatus, key: Key)
    ensures to != EnTramite && IsDead(Update(sys, written, to), key) ==> IsDead(sys, key) || (key == written && to == ReembolsoRechazado)
  {}

  lemma StoreKills(sys: System, written: Key, result: GatewayRefundId, key: Key)
    ensures IsDead(SystemStep(sys, OnOrder(written.order, AnswerRefund(written.refund, written.attempt, result), 0)), key) ==> IsDead(sys, key)
  {}

  lemma StoreBuries(net: Net, i: nat, key: Key)
    requires OnceOk(net) && i < |net.calls| && net.calls[i].Answered?
    ensures Buried(NetStep(net, Store(i)), key)
  {
    var c, net' := net.calls[i], NetStep(net, Store(i));
    StoreStep(net, i);
    assert Buried(net, key);
    AwaitedStays(net.calls, i, Applying(c.key, c.result, c.status), key);
    if IsDead(net'.sys, key) {
      StoreKills(net.sys, c.key, c.result, key);
    }
  }

  lemma StoreKeepsOnce(net: Net, i: nat)
    requires OnceOk(net)
    ensures OnceOk(NetStep(net, Store(i)))
  {
    ActionKeepsNet(net, Store(i));
    if i < |net.calls| && net.calls[i].Answered? {
      forall key ensures Buried(NetStep(net, Store(i)), key) {
        StoreBuries(net, i, key);
      }
    }
  }

  lemma AppliedKills(net: Net, c: Call, key: Key)
    requires NetOk(net) && CallOk(net, c)
    ensures IsDead(RefundProtocol.Applied(net.sys, c).0, key) ==>
            || IsDead(net.sys, key)
            || (c.Rejecting? && key == c.key)
            || (c.Applying? && key == c.key && key in net.gateway.refundKeys && !IsLive(net.gateway, key))
  {
    match c
    case Applying(written, result, status) =>
      if status == RefundApproved {
        UpdateKills(net.sys, written, Reembolsado, key);
      } else if status == RefundRejected {
        UpdateKills(net.sys, written, ReembolsoRechazado, key);
      }
    case Rejecting(written) => UpdateKills(net.sys, written, ReembolsoRechazado, key);
    case GivingUp(written) => UpdateKills(net.sys, written, PendienteDeGestion, key);
    case _ =>
  }

  lemma ApplyKeepsOnce(net: Net, i: nat)
    requires OnceOk(net) && i < |net.calls| && !net.calls[i].Rejecting?
    ensures OnceOk(NetStep(net, Apply(i)))
  {
    var c := net.calls[i];
    var (sys', c') := RefundProtocol.Applied(net.sys, c);
    ActionKeepsNet(net, Apply(i));
    ApplyStep(net, i, sys', c');
    assert NetOk(net) && CallOk(net, c);
    var net' := Net(sys', net.gateway, net.calls[i := c']);
    forall key ensures Buried(net', key) {
      assert Buried(net, key);
      AwaitedStays(net.calls, i, c', key);
      AppliedKills(net, c, key);
    }
  }

  /** As long as no refund has been refused, every action leaves the attempts that rows left behind buried. */
  lemma ActionKeepsOnce(net: Net, a: Action)
    requires OnceOk(net) && forall i :: 0 <= i < |net.calls| ==> !net.calls[i].Rejecting?
    ensures OnceOk(NetStep(net, a))
  {
    match a
    case Commit(e) => CommitKeepsOnce(net, e);
    case StartReport(p) => ReportKeepsOnce(net, p);
    case Process(i, now) => if i < |net.calls| && net.calls[i].Reporting? { ProcessKeepsOnce(net, i, now); }
    case StartDispatch(k, j) => StartKeepsOnce(net, k, j, true);
    case StartReconcile(k, j) => StartKeepsOnce(net, k, j, false);
    case Deliver(i) => if i < |net.calls| { DeliverKeepsOnce(net, i); }
    case Lose(i, reached) => if i < |net.calls| { LoseKeepsOnce(net, i, reached); }
    case Fail(i) => FailKeepsOnce(net, i);
    case Store(i) => StoreKeepsOnce(net, i);
    case Apply(i) => if i < |net.calls| { ApplyKeepsOnce(net, i); }
    case _ => GatewayKeepsOnce(net, a);
  }

  lemma FailKeepsOnce(net: Net, i: nat)
    requires OnceOk(net)
    ensures OnceOk(NetStep(net, Fail(i)))
  {
    ActionKeepsNet(net, Fail(i));
    if i < |net.calls| && net.calls[i].Dispatching? {
      forall key ensures IsAwaited(net.calls[i := GivingUp(net.calls[i].key)], key) ==> IsAwaited(net.calls, key) {
        AwaitedStays(net.calls, i, GivingUp(net.calls[i].key), key);
      }
      CallsKeepOnce(net, NetStep(net, Fail(i)));
    }
  }
}
