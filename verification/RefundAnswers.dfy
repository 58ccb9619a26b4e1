/** What the answer of each call to the gateway writes on its refund row, and where a refund ends once it is asked for. */
module RefundAnswers {
  import opened Wrappers
  import opened Entities
  import opened RefundsService
  import opened Machine
  import opened MoneyInvariant
  import opened Runs
  import opened FakeGateway
  import opened RefundProtocol
  import opened RefundBalance

  // ----- One call -----

  /** The status of a row once the gateway's answer is applied to it. */
  function Ends(status: GatewayStatus): RefundStatus {
    match status case RefundApproved => Reembolsado case RefundRejected => ReembolsoRechazado case InProcess => EnTramite
  }

  /** The row is still waiting for the attempt of the call. */
  predicate Waits(sys: System, key: Key) {
    HasRow(sys, key) && Row(sys, key).status == EnTramite && Row(sys, key).attempt == key.attempt
  }

  /** A call that was answered writes the answer; one that was refused, or gave up, says so. No other row changes. */
  lemma AnswersAreWritten(net: Net, i: nat)
    requires i < |net.calls| && (net.calls[i].Applying? || net.calls[i].Rejecting? || net.calls[i].GivingUp?)
    requires Waits(net.sys, net.calls[i].key)
    ensures var (c, net') := (net.calls[i], NetStep(net, Apply(i)));
            && HasRow(net'.sys, c.key) && OnlyRow(net.sys, net'.sys, c.key) && net'.calls == net.calls[i := Over] && net'.gateway == net.gateway
            && Row(net'.sys, c.key) == Row(net.sys, c.key).(
                 status := if c.Applying? then Ends(c.status) else if c.Rejecting? then ReembolsoRechazado else PendienteDeGestion)
  {
    var c := net.calls[i];
    var (sys', c') := RefundProtocol.Applied(net.sys, c);
    ApplyStep(net, i, sys', c');
    UpdatedRow(net.sys, c.key, Reembolsado);
    UpdatedRow(net.sys, c.key, ReembolsoRechazado);
    UpdatedRow(net.sys, c.key, PendienteDeGestion);
    AnswerWritesOneRow(net.sys, c.key, MoveRefund(c.key.refund, c.key.attempt, Reembolsado));
    AnswerWritesOneRow(net.sys, c.key, MoveRefund(c.key.refund, c.key.attempt, ReembolsoRechazado));
    AnswerWritesOneRow(net.sys, c.key, MoveRefund(c.key.refund, c.key.attempt, PendienteDeGestion));
  }

  /** The gateway's id is stored once. */
  lemma IdsAreStored(net: Net, i: nat)
    requires i < |net.calls| && net.calls[i].Answered? && Waits(net.sys, net.calls[i].key)
    ensures var (c, net') := (net.calls[i], NetStep(net, Store(i)));
            && HasRow(net'.sys, c.key) && OnlyRow(net.sys, net'.sys, c.key) && net'.gateway == net.gateway
            && net'.calls == net.calls[i := Applying(c.key, c.result, c.status)]
            && Row(net'.sys, c.key) == Row(net.sys, c.key).(
                 external := if Row(net.sys, c.key).external == None then Some(c.result) else Row(net.sys, c.key).external)
  {
    var c := net.calls[i];
    StoreStep(net, i);
    StoredRow(net.sys, c.key, c.result);
    AnswerWritesOneRow(net.sys, c.key, AnswerRefund(c.key.refund, c.key.attempt, c.result));
  }

  // ----- From the row to the gateway and back -----

  lemma ReachableStep(net: Net, a: Action)
    requires IsReachableNet(net)
    ensures IsReachableNet(NetStep(net, a))
  {
    var actions :| net == NetRun(START, actions);
    assert (actions + [a])[..|actions|] == actions;
    assert NetRun(START, actions + [a]) == NetStep(net, a);
  }

  /** A refund row of order `k`. */
  predicate IsRow(sys: System, k: nat, j: nat) {
    k < |sys.files| && j < |sys.files[k].refunds|
  }

  /** The call asks for exactly what the row says: its payment, its amount, under the key of its attempt. */
  predicate IsAsked(sys: System, k: nat, j: nat, c: Call)
    requires IsRow(sys, k, j)
  {
    var (f, row) := (sys.files[k], sys.files[k].refunds[j]);
    row.payment < |f.payments| && c == Dispatching(Key(k, j, row.attempt), f.payments[row.payment].externalId, row.amount, 0)
  }

  lemma RowsHavePayments(net: Net, k: nat, j: nat)
    requires IsReachableNet(net) && IsRow(net.sys, k, j)
    ensures net.sys.files[k].refunds[j].payment < |net.sys.files[k].payments|
  {
    ReachableNetIsOk(net);
    assert OrderFileOk(net.sys, k);
    var l := LedgerOf(net.sys.files[k]);
    assert BooksOk(l.payments, l.refunds);
  }

  /** A dispatch starts exactly for a row in progress with no id; a reconciliation, for one in progress with its id. */
  lemma StartsExactly(net: Net, k: nat, j: nat)
    requires IsReachableNet(net)
    ensures var (asked, awaited) := (NetStep(net, StartDispatch(k, j)), NetStep(net, StartReconcile(k, j)));
            if !IsRow(net.sys, k, j) || net.sys.files[k].refunds[j].status != EnTramite then asked == net && awaited == net
            else match net.sys.files[k].refunds[j].external
              case None => awaited == net && exists c :: IsAsked(net.sys, k, j, c) && asked == net.(calls := net.calls + [c])
              case Some(g) => asked == net && awaited == net.(calls := net.calls + [Reconciling(Key(k, j, net.sys.files[k].refunds[j].attempt), g)])
  {
    assert net.calls + [] == net.calls && net.(calls := net.calls) == net;
    if IsRow(net.sys, k, j) {
      RowsHavePayments(net, k, j);
      var (f, row) := (net.sys.files[k], net.sys.files[k].refunds[j]);
      assert IsAsked(net.sys, k, j, Dispatching(Key(k, j, row.attempt), f.payments[row.payment].externalId, row.amount, 0));
    }
  }

  /** The gateway's refund under a key. */
  predicate IsHeld(g: Gateway, key: Key, id: GatewayRefundId) {
    key in g.refundKeys && g.refundKeys[key] == id && id in g.refunds
  }

  /** The gateway answers a dispatch with the refund under its key: the one it had, or a new one in process. */
  lemma AskedIsAnswered(net: Net, i: nat) returns (id: GatewayRefundId)
    requires IsReachableNet(net) && i < |net.calls| && net.calls[i].Dispatching?
    ensures var (c, net') := (net.calls[i], NetStep(net, Deliver(i)));
            && net'.sys == net.sys && IsHeld(net'.gateway, c.key, id)
            && net'.calls == net.calls[i := Answered(c.key, id, net'.gateway.refunds[id].status)]
            && if c.key in net.gateway.refundKeys then net'.gateway == net.gateway
               else net'.gateway.refunds[id] == GatewayRefund(c.payment, InProcess, c.amount)
  {
    var c := net.calls[i];
    RefundsAreNeverRefused(net, i);
    ReachableNetIsOk(net);
    var g' := RefundCreated(net.gateway, c.payment, c.amount, c.key).value;
    id := g'.refundKeys[c.key];
    assert GatewayOk(net.gateway);
    DeliverStep(net, i, g', Answered(c.key, id, g'.refunds[id].status));
  }

  /** A dispatch from the row to the row: asked, answered, stored and applied. */
  ghost function Dispatched(net: Net, k: nat, j: nat): Net {
    var i := |net.calls|;
    NetStep(NetStep(NetStep(NetStep(net, StartDispatch(k, j)), Deliver(i)), Store(i)), Apply(i))
  }

  ghost function Reconciled(net: Net, k: nat, j: nat): Net {
    var i := |net.calls|;
    NetStep(NetStep(NetStep(net, StartReconcile(k, j)), Deliver(i)), Apply(i))
  }

  /** A row not asked for yet gets the gateway's id, and ends as the gateway says of that refund. */
  lemma DispatchEnds(net: Net, k: nat, j: nat) returns (id: GatewayRefundId)
    requires IsReachableNet(net) && IsRow(net.sys, k, j)
    requires net.sys.files[k].refunds[j].status == EnTramite && net.sys.files[k].refunds[j].external == None
    ensures var (net', row) := (Dispatched(net, k, j), net.sys.files[k].refunds[j]);
            var key := Key(k, j, row.attempt);
            && IsHeld(net'.gateway, key, id) && HasRow(net'.sys, key)
            && Row(net'.sys, key) == row.(external := Some(id), status := Ends(net'.gateway.refunds[id].status))
            && (if key in net.gateway.refundKeys then net'.gateway == net.gateway else net'.gateway.refunds[id].status == InProcess)
  {
    var (row, i) := (net.sys.files[k].refunds[j], |net.calls|);
    var key := Key(k, j, row.attempt);
    StartsExactly(net, k, j);
    var asked := NetStep(net, StartDispatch(k, j));
    ReachableStep(net, StartDispatch(k, j));
    id := AskedIsAnswered(asked, i);
    var answered := NetStep(asked, Deliver(i));
    IdsAreStored(answered, i);
    AnswersAreWritten(NetStep(answered, Store(i)), i);
  }

  /** A row already asked for ends as the gateway says of its refund. */
  lemma ReconciliationEnds(net: Net, k: nat, j: nat)
    requires IsReachableNet(net) && IsRow(net.sys, k, j)
    requires net.sys.files[k].refunds[j].status == EnTramite && net.sys.files[k].refunds[j].external.Some?
    ensures var (net', row) := (Reconciled(net, k, j), net.sys.files[k].refunds[j]);
            var (key, id) := (Key(k, j, row.attempt), row.external.value);
            && net'.gateway == net.gateway && IsHeld(net.gateway, key, id) && HasRow(net'.sys, key)
            && Row(net'.sys, key) == row.(status := Ends(net.gateway.refunds[id].status))
  {
    var (row, i) := (net.sys.files[k].refunds[j], |net.calls|);
    var (key, id) := (Key(k, j, row.attempt), row.external.value);
    StartsExactly(net, k, j);
    RowsMatchTheGateway(net, k, j);
    ReachableNetIsOk(net);
    assert KeyOk(net, key) && GatewayOk(net.gateway);
    var asked := NetStep(net, StartReconcile(k, j));
    DeliverStep(asked, i, net.gateway, Applying(key, id, net.gateway.refunds[id].status));
    AnswersAreWritten(NetStep(asked, Deliver(i)), i);
  }

  lemma DispatchedIsReachable(net: Net, k: nat, j: nat)
    requires IsReachableNet(net)
    ensures IsReachableNet(Dispatched(net, k, j))
  {
    var i := |net.calls|;
    ReachableStep(net, StartDispatch(k, j));
    ReachableStep(NetStep(net, StartDispatch(k, j)), Deliver(i));
    ReachableStep(NetStep(NetStep(net, StartDispatch(k, j)), Deliver(i)), Store(i));
    ReachableStep(NetStep(NetStep(NetStep(net, StartDispatch(k, j)), Deliver(i)), Store(i)), Apply(i));
  }

  /**
   * The whole way of a refund registered and not asked for: dispatched, settled by the gateway and reconciled, its row is
   * refunded with the gateway's id if it was approved, and rejected if it was not.
   */
  lemma SettledRefundIsRecorded(net: Net, k: nat, j: nat, approved: bool) returns (id: GatewayRefundId)
    requires IsReachableNet(net) && IsRow(net.sys, k, j)
    requires net.sys.files[k].refunds[j].status == EnTramite && net.sys.files[k].refunds[j].external == None
    requires Key(k, j, net.sys.files[k].refunds[j].attempt) !in net.gateway.refundKeys
    ensures var row := net.sys.files[k].refunds[j];
            var net' := Reconciled(NetStep(Dispatched(net, k, j), SettleRefund(id, approved)), k, j);
            && IsRow(net'.sys, k, j)
            && net'.sys.files[k].refunds[j] == row.(external := Some(id), status := if approved then Reembolsado else ReembolsoRechazado)
  {
    id := DispatchEnds(net, k, j);
    DispatchedIsReachable(net, k, j);
    var dispatched := Dispatched(net, k, j);
    ReachableStep(dispatched, SettleRefund(id, approved));
    ReconciliationEnds(NetStep(dispatched, SettleRefund(id, approved)), k, j);
  }

  /** A dispatch with no answer: the same one, tried once more. */
  lemma LostOnce(net: Net, i: nat, reached: bool)
    requires i < |net.calls| && net.calls[i].Dispatching?
    ensures var (c, net') := (net.calls[i], NetStep(net, Lose(i, reached)));
            && net'.sys == net.sys
            && net'.calls == net.calls[i := if c.tries < 2 then c.(tries := c.tries + 1) else GivingUp(c.key)]
  {
    var (g', c') := Lost(net.gateway, net.calls[i], reached);
    LoseStep(net, i, reached, g', c');
  }

  /** With no answer three times, whether or not the gateway got them, the refund is left for the administrator, attempt and all. */
  lemma ThreeLossesGiveUp(net: Net, k: nat, j: nat, first: bool, second: bool, third: bool)
    requires IsReachableNet(net) && IsRow(net.sys, k, j)
    requires net.sys.files[k].refunds[j].status == EnTramite && net.sys.files[k].refunds[j].external == None
    ensures var (i, row) := (|net.calls|, net.sys.files[k].refunds[j]);
            var lost := NetStep(NetStep(NetStep(NetStep(net, StartDispatch(k, j)), Lose(i, first)), Lose(i, second)), Lose(i, third));
            var net' := NetStep(lost, Apply(i));
            IsRow(net'.sys, k, j) && net'.sys.files[k].refunds[j] == row.(status := PendienteDeGestion)
  {
    var i := |net.calls|;
    StartsExactly(net, k, j);
    var asked := NetStep(net, StartDispatch(k, j));
    LostOnce(asked, i, first);
    LostOnce(NetStep(asked, Lose(i, first)), i, second);
    LostOnce(NetStep(NetStep(asked, Lose(i, first)), Lose(i, second)), i, third);
    AnswersAreWritten(NetStep(NetStep(NetStep(asked, Lose(i, first)), Lose(i, second)), Lose(i, third)), i);
  }

  // ----- What the administrator does with a refund that failed -----

  /** A retry asks again: with a new attempt after a rejection, if the payment still has the balance; else with the same one. */
  lemma RetryAnswers(f: File, k: nat)
    ensures RefundRetried(f, k)
            == if k >= |f.refunds| then Refused("NOT_FOUND")
               else
                 var row := f.refunds[k];
                 if row.status == PendienteDeGestion then Done(f.(refunds := f.refunds[k := row.(status := EnTramite)]))
                 else if row.status != ReembolsoRechazado then Refused("REFUND_NOT_RETRYABLE")
                 else if row.payment < |f.payments| && Sum(f.refunds, CommittedTo(row.payment)) + row.amount <= f.payments[row.payment].amount
                 then Done(f.(refunds := f.refunds[k := row.(status := EnTramite, attempt := row.attempt + 1, external := None)]))
                 else Refused("REFUND_EXCEEDS_BALANCE")
  {
    if k < |f.refunds| {
      var p := f.refunds[k].payment;
      SumWithout(f.refunds, k, CommittedTo(p));
      RefundedIsSum(f.refunds[..k] + f.refunds[k + 1..], p);
    }
  }

  /** A manual closing says so, of any refund that failed and of no other. */
  lemma ClosingAnswers(f: File, k: nat)
    ensures RefundResolved(f, k)
            == if k >= |f.refunds| then Refused("NOT_FOUND")
               else if f.refunds[k].status !in {ReembolsoRechazado, PendienteDeGestion} then Refused("REFUND_NOT_RETRYABLE")
               else Done(f.(refunds := f.refunds[k := f.refunds[k].(status := Reembolsado, manual := true)]))
  {}
}
