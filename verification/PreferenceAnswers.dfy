/** How each request goes through with its payment preference when its calls are answered: what is opened, closed and attached. */
module PreferenceAnswers {
  import opened Wrappers
  import opened OrderStatus
  import opened Stock
  import opened Entities
  import opened StockReservation
  import opened Cart
  import opened Checkout
  import opened Machine
  import opened Runs
  import opened FakeGateway
  import opened PreferenceProtocol

  // ----- One call -----

  /** One preference more, of order `k`, for its total and until its reservation runs out. */
  function WithPreference(g: Gateway, k: nat, order: Order): Gateway {
    g.(preferences := g.preferences[g.nextPreference := Preference(k, order.total, order.reservationExpiresAt)],
       nextPreference := g.nextPreference + 1)
  }

  function Closed(g: Gateway, p: PreferenceId, now: Time): Gateway {
    if p in g.preferences then g.(preferences := g.preferences[p := g.preferences[p].(expiresAt := now)]) else g
  }

  lemma AmountIsTotal(desk: Desk, c: Call)
    requires DeskOk(desk) && c.Creating? && PreferenceProtocol.CallOk(desk, c)
    ensures c.order < |desk.sys.files|
    ensures PreferenceAmount(PreferenceItems(desk.sys.files[c.order].order)) == desk.sys.files[c.order].order.total
  {
    assert OrderFileOk(desk.sys, c.order);
    PreferenceChargesTotal(desk.sys.files[c.order].order);
  }

  lemma CreateAnswers(desk: Desk, i: nat)
    requires DeskOk(desk) && i < |desk.calls| && desk.calls[i].Creating?
    ensures var Creating(k, expected, _) := desk.calls[i];
            && k < |desk.sys.files|
            && DeskStep(desk, Create(i)) == desk.(gateway := WithPreference(desk.gateway, k, desk.sys.files[k].order),
                                                  calls := desk.calls[i := Attaching(k, expected, desk.gateway.nextPreference)])
  {
    assert PreferenceProtocol.CallOk(desk, desk.calls[i]);
    AmountIsTotal(desk, desk.calls[i]);
  }

  lemma FailureAnswers(desk: Desk, i: nat)
    requires i < |desk.calls| && desk.calls[i].Creating?
    ensures var Creating(k, _, checkout) := desk.calls[i];
            DeskStep(desk, FailToCreate(i)) == desk.(calls := desk.calls[i := if checkout then Compensating(k) else Ended])
  {}

  /** A new preference becomes the order's only if it still waits for its first payment and nobody replaced what the request read. */
  lemma AttachAnswers(desk: Desk, i: nat)
    requires DeskOk(desk) && i < |desk.calls| && desk.calls[i].Attaching?
    ensures var Attaching(k, expected, p) := desk.calls[i];
            && k < |desk.sys.files| == |desk.current|
            && DeskStep(desk, Attach(i))
               == if desk.sys.files[k].order.status == PendientePago && desk.current[k] == expected
                  then desk.(current := desk.current[k := Some(p)], calls := desk.calls[i := Ended])
                  else desk.(calls := desk.calls[i := Closing(p)])
  {
    assert PreferenceProtocol.CallOk(desk, desk.calls[i]);
  }

  /** Created and attached, with nothing in between. */
  lemma CreatesAndAttaches(desk: Desk, i: nat)
    requires DeskOk(desk) && i < |desk.calls| && desk.calls[i].Creating?
    requires var k := desk.calls[i].order;
             && k < |desk.sys.files| && k < |desk.current|
             && desk.sys.files[k].order.status == PendientePago && desk.current[k] == desk.calls[i].expected
    ensures var k := desk.calls[i].order;
            DeskStep(DeskStep(desk, Create(i)), Attach(i))
            == desk.(gateway := WithPreference(desk.gateway, k, desk.sys.files[k].order),
                     current := desk.current[k := Some(desk.gateway.nextPreference)],
                     calls := desk.calls[i := Ended])
  {
    CreateAnswers(desk, i);
    ActionKeepsDesk(desk, Create(i));
    AttachAnswers(DeskStep(desk, Create(i)), i);
  }

  // ----- Checkout -----

  predicate IsAccepted(answer: Attempt) {
    answer.Opened?
  }

  /** The checkout is accepted. */
  ghost predicate Opens(desk: Desk, e: SystemEvent) {
    e.PlaceOrder? && ValidCart(e.cart)
    && IsAccepted(Confirmed(desk.sys.stock, e.userId, e.cart, e.shippingCost, e.expectedTotal, e.expiresAt))
  }

  /** The order placed, with the request that places it about to ask for its preference. */
  lemma CheckoutCommits(desk: Desk, e: SystemEvent)
    requires DeskOk(desk) && e.PlaceOrder?
    ensures if Opens(desk, e) then
              var rows := Confirmed(desk.sys.stock, e.userId, e.cart, e.shippingCost, e.expectedTotal, e.expiresAt).rows;
              && DeskStep(desk, Commit(e))
                 == desk.(sys := System(desk.sys.files + [rows.file], rows.stock), current := desk.current + [None],
                          calls := desk.calls + [Creating(|desk.sys.files|, None, true)])
              && rows.file.order.status == PendientePago && rows.file.order.reservationActive && rows.file.order.reservationExpiresAt == e.expiresAt
            else DeskStep(desk, Commit(e)) == desk
  {
    assert desk.current + [] == desk.current && desk.calls + [] == desk.calls;
  }

  /** A checkout accepted leaves a pending order with its preference attached, open for its total until the reservation runs out. */
  lemma CheckoutOpensPayment(desk: Desk, e: SystemEvent)
    requires IsReachableDesk(desk) && Opens(desk, e)
    ensures var (k, i, p) := (|desk.sys.files|, |desk.calls|, desk.gateway.nextPreference);
            var desk' := DeskStep(DeskStep(DeskStep(desk, Commit(e)), Create(i)), Attach(i));
            && |desk'.sys.files| == k + 1 && desk'.sys.files[k].order.status == PendientePago
            && desk'.current == desk.current + [Some(p)] && desk'.calls == desk.calls + [Ended]
            && desk'.gateway == WithPreference(desk.gateway, k, desk'.sys.files[k].order)
            && (IsOpen(desk'.gateway, p, desk'.now) <==> desk.now < e.expiresAt)
  {
    ReachableDeskIsOk(desk);
    CheckoutCommits(desk, e);
    ActionKeepsDesk(desk, Commit(e));
    CreatesAndAttaches(DeskStep(desk, Commit(e)), |desk.calls|);
  }

  /** Nothing was deducted of an order just placed: cancelling it leaves the stock as it was. */
  lemma PlacedAndDropped(file: File, stock: Levels, before: Levels, now: Time)
    requires file.order.status == PendientePago && file.order.reservationActive && stock == Reserved(before, Lines(file.order.items))
    ensures var r' := Compensated(OrderRows(file, stock), now);
            && r'.stock == before && !r'.file.order.reservationActive
            && r'.file.order.status == OrderStatus.Cancelado && r'.file.order.cause == Some(Pasarela)
  {
    ReleasedUndoesReserved(before, Lines(file.order.items));
  }

  lemma CompensateAnswers(desk: Desk, i: nat)
    requires i < |desk.calls| && desk.calls[i].Compensating? && desk.calls[i].order < |desk.sys.files|
    ensures var k := desk.calls[i].order;
            DeskStep(desk, Action.Compensate(i))
            == desk.(sys := desk.sys.Commit(k, Compensated(desk.sys.Rows(k), desk.now)), calls := desk.calls[i := Ended])
  {}

  /** The checkout committed, its preference refused and its order compensated. */
  ghost function FailedCheckout(desk: Desk, e: SystemEvent): Desk {
    var i := |desk.calls|;
    DeskStep(DeskStep(DeskStep(desk, Commit(e)), FailToCreate(i)), Action.Compensate(i))
  }

  /** The checkout committed, with its order about to be compensated. */
  lemma CheckoutFails(desk: Desk, e: SystemEvent)
    requires DeskOk(desk) && Opens(desk, e)
    ensures var rows := Confirmed(desk.sys.stock, e.userId, e.cart, e.shippingCost, e.expectedTotal, e.expiresAt).rows;
            DeskStep(DeskStep(desk, Commit(e)), FailToCreate(|desk.calls|))
            == desk.(sys := System(desk.sys.files + [rows.file], rows.stock), current := desk.current + [None],
                     calls := desk.calls + [Compensating(|desk.sys.files|)])
  {
    CheckoutCommits(desk, e);
    FailureAnswers(DeskStep(desk, Commit(e)), |desk.calls|);
  }

  lemma FailedCheckoutIs(desk: Desk, e: SystemEvent)
    requires DeskOk(desk) && Opens(desk, e)
    ensures var rows := Confirmed(desk.sys.stock, e.userId, e.cart, e.shippingCost, e.expectedTotal, e.expiresAt).rows;
            var dropped := Compensated(rows, desk.now);
            FailedCheckout(desk, e)
            == desk.(sys := System(desk.sys.files + [dropped.file], dropped.stock), current := desk.current + [None], calls := desk.calls + [Ended])
  {
    CheckoutFails(desk, e);
    var rows := Confirmed(desk.sys.stock, e.userId, e.cart, e.shippingCost, e.expectedTotal, e.expiresAt).rows;
    var failing := desk.(sys := System(desk.sys.files + [rows.file], rows.stock), current := desk.current + [None],
                         calls := desk.calls + [Compensating(|desk.sys.files|)]);
    CompensateAnswers(failing, |desk.calls|);
  }

  /** With no preference, the order just placed is cancelled and the stock is as it was before the checkout. */
  lemma FailedCheckoutIsUndone(desk: Desk, e: SystemEvent)
    requires IsReachableDesk(desk) && Opens(desk, e)
    ensures var (k, desk') := (|desk.sys.files|, FailedCheckout(desk, e));
            && |desk'.sys.files| == k + 1 && desk'.sys.files[..k] == desk.sys.files
            && desk'.sys.files[k].order.status == OrderStatus.Cancelado && desk'.sys.files[k].order.cause == Some(Pasarela)
            && !desk'.sys.files[k].order.reservationActive
            && desk'.sys.stock == desk.sys.stock && desk'.gateway == desk.gateway && desk'.current == desk.current + [None]
            && desk'.calls == desk.calls + [Ended]
  {
    ReachableDeskIsOk(desk);
    FailedCheckoutIs(desk, e);
    var rows := Confirmed(desk.sys.stock, e.userId, e.cart, e.shippingCost, e.expectedTotal, e.expiresAt).rows;
    PlacedAndDropped(rows.file, rows.stock, desk.sys.stock, desk.now);
  }

  // ----- Retry -----

  ghost predicate Reopens(desk: Desk, k: nat, payer: nat, offers: seq<Offer>) {
    k < |desk.sys.files| && |offers| == |desk.sys.files[k].order.items| && IsAccepted(RetryOpened(desk.sys.Rows(k), payer, offers, desk.now))
  }

  function RetryOf(k: nat, payer: nat, offers: seq<Offer>): Action {
    Commit(OnOrder(k, RetryPay(payer, offers), 0))
  }

  /** The order pending payment again, with the request about to close the preference it had and ask for another. */
  lemma RetryCommits(desk: Desk, k: nat, payer: nat, offers: seq<Offer>)
    requires DeskOk(desk)
    ensures if Reopens(desk, k, payer, offers) then
              && k < |desk.current|
              && DeskStep(desk, RetryOf(k, payer, offers))
                 == desk.(sys := desk.sys.Commit(k, RetryOpened(desk.sys.Rows(k), payer, offers, desk.now).rows),
                          calls := desk.calls + match desk.current[k] case Some(p) => [Superseding(k, p)] case None => [Creating(k, None, false)])
              && RetryOpened(desk.sys.Rows(k), payer, offers, desk.now).rows.file.order.status == PendientePago
              && desk.now < desk.sys.files[k].order.reservationExpiresAt
            else DeskStep(desk, RetryOf(k, payer, offers)) == desk
  {
    assert desk.current + [] == desk.current && desk.calls + [] == desk.calls;
    if k < |desk.sys.files| {
      assert desk.sys.files[k := desk.sys.files[k]] == desk.sys.files;
    }
  }

  /** The order asked for its preference again, after the one it had, if any, was closed. */
  ghost function AskedAgain(desk: Desk, k: nat, payer: nat, offers: seq<Offer>): Desk {
    var retried := DeskStep(desk, RetryOf(k, payer, offers));
    if k < |desk.current| && desk.current[k].Some? then DeskStep(retried, ExpirePrevious(|desk.calls|)) else retried
  }

  lemma AskedAgainIs(desk: Desk, k: nat, payer: nat, offers: seq<Offer>)
    requires DeskOk(desk) && Reopens(desk, k, payer, offers)
    ensures k < |desk.current| && DeskOk(AskedAgain(desk, k, payer, offers))
    ensures AskedAgain(desk, k, payer, offers)
            == desk.(sys := desk.sys.Commit(k, RetryOpened(desk.sys.Rows(k), payer, offers, desk.now).rows),
                     gateway := match desk.current[k] case Some(p) => Closed(desk.gateway, p, desk.now) case None => desk.gateway,
                     calls := desk.calls + [Creating(k, desk.current[k], false)])
  {
    RetryCommits(desk, k, payer, offers);
    ActionKeepsDesk(desk, RetryOf(k, payer, offers));
    var retried := DeskStep(desk, RetryOf(k, payer, offers));
    ActionKeepsDesk(retried, ExpirePrevious(|desk.calls|));
  }

  /** A retry accepted closes the preference the order had, and attaches a new one that is open for the total. */
  lemma RetryReplacesPreference(desk: Desk, k: nat, payer: nat, offers: seq<Offer>)
    requires IsReachableDesk(desk) && Reopens(desk, k, payer, offers)
    ensures var (i, p) := (|desk.calls|, desk.gateway.nextPreference);
            var desk' := DeskStep(DeskStep(AskedAgain(desk, k, payer, offers), Create(i)), Attach(i));
            && k < |desk'.sys.files| && desk'.sys.files[k].order.status == PendientePago && k < |desk.current|
            && desk'.current == desk.current[k := Some(p)] && desk'.calls == desk.calls + [Ended]
            && IsOpen(desk'.gateway, p, desk'.now)
            && desk'.gateway.preferences[p] == Preference(k, desk.sys.files[k].order.total, desk.sys.files[k].order.reservationExpiresAt)
            && (desk.current[k].Some? ==> !IsOpen(desk'.gateway, desk.current[k].value, desk'.now))
            && (forall q <- desk.gateway.preferences :: desk.current[k] != Some(q) ==>
                  q in desk'.gateway.preferences && desk'.gateway.preferences[q] == desk.gateway.preferences[q])
  {
    ReachableDeskIsOk(desk);
    RetryCommits(desk, k, payer, offers);
    AskedAgainIs(desk, k, payer, offers);
    CreatesAndAttaches(AskedAgain(desk, k, payer, offers), |desk.calls|);
    EventKeepsOrderTotal(desk, k, payer, offers);
    PreferencesAreOld(desk, k);
  }

  lemma EventKeepsOrderTotal(desk: Desk, k: nat, payer: nat, offers: seq<Offer>)
    requires DeskOk(desk) && Reopens(desk, k, payer, offers)
    ensures var (order, order') := (desk.sys.files[k].order, RetryOpened(desk.sys.Rows(k), payer, offers, desk.now).rows.file.order);
            order'.total == order.total && order'.reservationExpiresAt == order.reservationExpiresAt
  {}

  lemma PreferencesAreOld(desk: Desk, k: nat)
    requires DeskOk(desk) && k < |desk.sys.files|
    ensures forall q <- desk.gateway.preferences :: q < desk.gateway.nextPreference
    ensures desk.current[k].Some? ==> desk.current[k].value < desk.gateway.nextPreference
  {
    forall q | q in desk.gateway.preferences ensures q < desk.gateway.nextPreference {
      assert PreferenceOk(desk, q);
    }
    assert OrderOkAtDesk(desk, k);
  }

  /** With no preference, the order of a retry stays pending payment, reserved, and can be retried again; the one it had is closed. */
  lemma FailedRetryStaysPending(desk: Desk, k: nat, payer: nat, offers: seq<Offer>)
    requires IsReachableDesk(desk) && Reopens(desk, k, payer, offers)
    ensures var (asked, i) := (AskedAgain(desk, k, payer, offers), |desk.calls|);
            var desk' := DeskStep(asked, FailToCreate(i));
            && desk' == asked.(calls := desk.calls + [Ended])
            && k < |desk'.sys.files| && desk'.sys.files[k].order.status == PendientePago
            && desk'.current == desk.current && Reopens(desk', k, payer, offers)
  {
    ReachableDeskIsOk(desk);
    AskedAgainIs(desk, k, payer, offers);
    FailureAnswers(AskedAgain(desk, k, payer, offers), |desk.calls|);
    assert OrderFileOk(desk.sys, k);
    RetryReopens(desk.sys.Rows(k), payer, offers, desk.now);
  }

  /** What a retry opened can be opened again, and nothing more changes. */
  lemma RetryReopens(r: Rows, payer: nat, offers: seq<Offer>, now: Time)
    requires |offers| == |r.file.order.items| && RetryOpened(r, payer, offers, now).Opened?
    requires r.file.order.status == PendientePago ==> r.file.order.reservationActive
    ensures var r' := RetryOpened(r, payer, offers, now).rows;
            r'.file.order.status == PendientePago && |offers| == |r'.file.order.items| && RetryOpened(r', payer, offers, now) == Opened(r')
  {}

  // ----- Cancellation -----

  /** The customer or the administrator cancels an order that awaited its payment. */
  ghost predicate CallsOff(desk: Desk, k: nat, event: Event) {
    && k < |desk.sys.files| && (event.CancelAsCustomer? || event.CancelAsAdmin?)
    && desk.sys.files[k].order.status in {PendientePago, PagoPendienteAcreditacion, OrderStatus.PagoRechazado}
    && Step(desk.sys.Rows(k), event, desk.now).file.order.status == OrderStatus.Cancelado
  }

  lemma CancellationCommits(desk: Desk, k: nat, event: Event)
    requires DeskOk(desk) && k < |desk.sys.files| && (event.CancelAsCustomer? || event.CancelAsAdmin?)
    ensures k < |desk.current|
    ensures DeskStep(desk, Commit(OnOrder(k, event, 0)))
            == desk.(sys := desk.sys.Commit(k, Step(desk.sys.Rows(k), event, desk.now)),
                     calls := desk.calls + if CallsOff(desk, k, event) && desk.current[k].Some? then [Closing(desk.current[k].value)] else [])
  {
    assert desk.current + [] == desk.current && desk.calls + [] == desk.calls;
  }

  lemma CloseAnswers(desk: Desk, i: nat)
    requires i < |desk.calls| && desk.calls[i].Closing?
    ensures DeskStep(desk, Close(i)) == desk.(gateway := Closed(desk.gateway, desk.calls[i].preference, desk.now), calls := desk.calls[i := Ended])
  {}

  /** Cancelling an order that awaited its payment closes its preference; cancelling any other calls nobody. */
  lemma CancellationClosesPreference(desk: Desk, k: nat, event: Event)
    requires IsReachableDesk(desk) && k < |desk.sys.files| && (event.CancelAsCustomer? || event.CancelAsAdmin?)
    ensures var (cancelled, i) := (DeskStep(desk, Commit(OnOrder(k, event, 0))), |desk.calls|);
            && cancelled.sys == desk.sys.Commit(k, Step(desk.sys.Rows(k), event, desk.now))
            && cancelled.current == desk.current && cancelled.gateway == desk.gateway && k < |desk.current|
            && if CallsOff(desk, k, event) && desk.current[k].Some? then
                 DeskStep(cancelled, Close(i))
                 == cancelled.(gateway := Closed(desk.gateway, desk.current[k].value, desk.now), calls := desk.calls + [Ended])
               else cancelled.calls == desk.calls
  {
    var i := |desk.calls|;
    ReachableDeskIsOk(desk);
    CancellationCommits(desk, k, event);
    if CallsOff(desk, k, event) && desk.current[k].Some? {
      CloseAnswers(DeskStep(desk, Commit(OnOrder(k, event, 0))), i);
    } else {
      assert desk.calls + [] == desk.calls;
    }
  }

  /** No other transaction calls the gateway for a preference. */
  lemma OthersCallNobody(desk: Desk, k: nat, event: Event)
    requires !event.RetryPay? && !event.CancelAsCustomer? && !event.CancelAsAdmin? && !event.Compensate?
    ensures DeskStep(desk, Commit(OnOrder(k, event, 0))) == desk.(sys := SystemStep(desk.sys, OnOrder(k, event, desk.now)))
  {
    assert desk.current + [] == desk.current && desk.calls + [] == desk.calls;
  }
}
