/** Payment preferences between the database and a gateway that answers every call: checkouts, retries and cancellations racing. */
module PreferenceProtocol {
  import opened Wrappers
  import opened OrderStatus
  import opened Stock
  import opened Entities
  import opened PaymentsService
  import opened OrderCancellation
  import opened Cart
  import opened Checkout
  import opened Reception
  import opened Machine
  import opened History
  import opened StockInvariant
  import opened Runs
  import opened FakeGateway

  /** A request past its transaction, with what it read there. `checkout`: a failure cancels the order just created. */
  datatype Call =
    | Superseding(order: nat, previous: PreferenceId)
    | Creating(order: nat, expected: Option<PreferenceId>, checkout: bool)
    | Attaching(order: nat, expected: Option<PreferenceId>, preference: PreferenceId)
    | Closing(preference: PreferenceId)
    | Compensating(order: nat)
    | Ended

  /** `current[k]`: the payment preference column of order `k`. */
  datatype Desk = Desk(sys: System, current: seq<Option<PreferenceId>>, gateway: Gateway, calls: seq<Call>, now: Time)

  datatype Action =
    | Tick(time: Time)
    | Commit(e: SystemEvent)
    | Pay(preference: PreferenceId, outcome: SimulatedOutcome)
    | ExpirePrevious(call: nat)
    | Create(call: nat)
    | FailToCreate(call: nat)
    | Attach(call: nat)
    | Close(call: nat)
    | Compensate(call: nat)

  predicate IsCancellation(e: Event) {
    e.CancelAsCustomer? || e.CancelAsAdmin?
  }

  /** The event happens now; the compensation belongs to its own call. */
  function AtNow(e: SystemEvent, now: Time): SystemEvent {
    if e.OnOrder? then OnOrder(e.order, e.event, now) else e
  }

  /** What the request does next, after its transaction committed. */
  ghost function Next(desk: Desk, e: SystemEvent, sys': System): seq<Call> {
    if e.PlaceOrder? && |sys'.files| > |desk.sys.files| then [Creating(|desk.sys.files|, None, true)]
    else if e.OnOrder? && e.order < |desk.sys.files| && e.order < |desk.current| && e.order < |sys'.files| then
      var r, current := desk.sys.Rows(e.order), desk.current[e.order];
      if e.event.RetryPay? && |e.event.offers| == |r.file.order.items| && RetryOpened(r, e.event.payer, e.event.offers, desk.now).Opened? then
        (match current case Some(p) => [Superseding(e.order, p)] case None => [Creating(e.order, None, false)])
      else if IsCancellation(e.event) && Awaiting(r.file.order.status) && sys'.files[e.order].order.status == OrderStatus.Cancelado then
        (match current case Some(p) => [Closing(p)] case None => [])
      else []
    else []
  }

  /** A transaction commits, and the request that ran it goes on with its calls. */
  ghost function Committed(desk: Desk, e: SystemEvent): Desk {
    var sys' := SystemStep(desk.sys, e);
    desk.(sys := sys',
          current := desk.current + if |sys'.files| > |desk.sys.files| then [None] else [],
          calls := desk.calls + Next(desk, e, sys'))
  }

  /** One step of a call; `desk.calls[i]` becomes what is left to do. */
  ghost function Progress(desk: Desk, i: nat, a: Action): Desk
    requires i < |desk.calls|
  {
    var g, c := desk.gateway, desk.calls[i];
    match c
    case Superseding(k, previous) =>
      if a.ExpirePrevious? then desk.(gateway := PreferenceExpired(g, previous, desk.now), calls := desk.calls[i := Creating(k, Some(previous), false)])
      else desk
    case Creating(k, expected, checkout) =>
      if a.Create? && k < |desk.sys.files| then
        var order := desk.sys.files[k].order;
        desk.(gateway := PreferenceCreated(g, k, PreferenceItems(order), order.reservationExpiresAt),
              calls := desk.calls[i := Attaching(k, expected, g.nextPreference)])
      else if a.FailToCreate? then desk.(calls := desk.calls[i := if checkout then Compensating(k) else Ended])
      else desk
    case Attaching(k, expected, p) =>
      if !a.Attach? then desk
      else if k < |desk.sys.files| && k < |desk.current| && desk.sys.files[k].order.status == PendientePago && desk.current[k] == expected then
        desk.(current := desk.current[k := Some(p)], calls := desk.calls[i := Ended])
      else desk.(calls := desk.calls[i := Closing(p)])
    case Closing(p) =>
      if a.Close? then desk.(gateway := PreferenceExpired(g, p, desk.now), calls := desk.calls[i := Ended]) else desk
    case Compensating(k) =>
      if a.Compensate? then desk.(sys := SystemStep(desk.sys, OnOrder(k, Event.Compensate, desk.now)), calls := desk.calls[i := Ended]) else desk
    case Ended => desk
  }

  ghost function DeskStep(desk: Desk, a: Action): Desk {
    match a
    case Tick(t) => if desk.now <= t then desk.(now := t) else desk
    case Commit(e) =>
      if e.OnOrder? && e.event.Compensate? then desk else Committed(desk, AtNow(e, desk.now))
    case Pay(p, outcome) =>
      (match PaymentSimulated(desk.gateway, p, outcome, desk.now) case Done(g) => desk.(gateway := g) case Refused(_) => desk)
    case _ => if a.call < |desk.calls| then Progress(desk, a.call, a) else desk
  }

  ghost function DeskRun(desk: Desk, actions: seq<Action>): Desk
    decreases |actions|
  {
    if actions == [] then desk else DeskStep(DeskRun(desk, actions[..|actions| - 1]), actions[|actions| - 1])
  }

  const OPENING := Desk(Empty, [], Gateway(map[], map[], map[], map[], 0, 0, 0), [], 0)

  // ----- The invariant -----

  /** Some request in progress knows the preference, and will attach it or close it. */
  ghost predicate HeldByCall(desk: Desk, p: PreferenceId) {
    exists i :: 0 <= i < |desk.calls| && Holds(desk.calls[i], p)
  }

  predicate Holds(c: Call, p: PreferenceId) {
    (c.Attaching? && c.preference == p) || c == Closing(p)
  }

  ghost predicate ClosingCall(desk: Desk, p: PreferenceId) {
    exists i :: 0 <= i < |desk.calls| && desk.calls[i] == Closing(p)
  }

  /** Cancelled by the customer or the administrator before any payment was credited. */
  predicate CalledOff(order: Order) {
    order.status == OrderStatus.Cancelado && order.cause in {Some(Cliente), Some(Administrador)} && order.paidAt == None
  }

  /** A preference is for its order's total and lasts no longer than the reservation, unless it is already closed. */
  ghost predicate PreferenceOk(desk: Desk, p: PreferenceId)
    requires p in desk.gateway.preferences
  {
    var pref := desk.gateway.preferences[p];
    && p < desk.gateway.nextPreference && pref.order < |desk.sys.files|
    && pref.amount == desk.sys.files[pref.order].order.total
    && (pref.expiresAt <= desk.now || pref.expiresAt == desk.sys.files[pref.order].order.reservationExpiresAt)
  }

  /** An open preference is the order's own, or some request holds it. */
  ghost predicate Known(desk: Desk, p: PreferenceId)
    requires p in desk.gateway.preferences
  {
    var k := desk.gateway.preferences[p].order;
    IsOpen(desk.gateway, p, desk.now) ==> (k < |desk.current| && desk.current[k] == Some(p)) || HeldByCall(desk, p)
  }

  ghost predicate OrderOkAtDesk(desk: Desk, k: nat)
    requires k < |desk.sys.files| && k < |desk.current|
  {
    var order := desk.sys.files[k].order;
    && (desk.current[k].Some? ==> desk.current[k].value < desk.gateway.nextPreference)
    && (CalledOff(order) && desk.current[k].Some? ==>
          !IsOpen(desk.gateway, desk.current[k].value, desk.now) || ClosingCall(desk, desk.current[k].value))
    && (order.cause == Some(ReservaVencida) ==> order.reservationExpiresAt < desk.now)
  }

  ghost predicate Shut(desk: Desk, expected: Option<PreferenceId>) {
    expected.Some? ==> expected.value < desk.gateway.nextPreference && !IsOpen(desk.gateway, expected.value, desk.now)
  }

  ghost predicate CallOk(desk: Desk, c: Call) {
    match c
    case Superseding(k, p) => k < |desk.sys.files| && p < desk.gateway.nextPreference
    case Creating(k, expected, _) => k < |desk.sys.files| && Shut(desk, expected)
    case Attaching(k, expected, p) =>
      && k < |desk.sys.files| && Shut(desk, expected) && p < desk.gateway.nextPreference
      && p in desk.gateway.preferences && desk.gateway.preferences[p].order == k
    case Closing(p) => p < desk.gateway.nextPreference
    case _ => true
  }

  ghost predicate PaymentOk(desk: Desk, p: PaymentRef)
    requires p in desk.gateway.payments
  {
    var payment := desk.gateway.payments[p];
    payment.order < |desk.sys.files| && payment.amount == desk.sys.files[payment.order].order.total
  }

  ghost predicate DeskOk(desk: Desk) {
    && SystemOk(desk.sys) && |desk.current| == |desk.sys.files|
    && (forall p <- desk.gateway.preferences :: PreferenceOk(desk, p) && Known(desk, p))
    && (forall k :: 0 <= k < |desk.sys.files| ==> OrderOkAtDesk(desk, k))
    && (forall i :: 0 <= i < |desk.calls| ==> CallOk(desk, desk.calls[i]))
    && (forall p <- desk.gateway.payments :: PaymentOk(desk, p))
  }

  // ----- What a transaction does to an order -----

  /** Total and term of the reservation never change; who called the order off, or that it ran out, has its step. */
  ghost predicate OrderKept(order: Order, order': Order, e: Event, now: Time) {
    && order'.total == order.total && order'.reservationExpiresAt == order.reservationExpiresAt
    && (CalledOff(order') ==> CalledOff(order) || (IsCancellation(e) && Awaiting(order.status)))
    && (order'.cause == Some(ReservaVencida) ==> order.cause == Some(ReservaVencida) || order.reservationExpiresAt < now)
  }

  lemma PaymentKeepsOrder(r: Rows, report: Report, now: Time)
    ensures OrderKept(r.file.order, PaymentProcessed(r, report, now).0.file.order, ReportPayment(report), now)
  {}

  lemma UndoneOrder(r: Rows, cause: Cause, now: Time)
    ensures var order, order' := r.file.order, Undone(r, cause, now).file.order;
            order' == order.(status := OrderStatus.Cancelado, cause := Some(cause), items := order'.items, reservationActive := order'.reservationActive)
  {}

  lemma CancelledOrder(r: Rows, cause: Cause, origin: RefundOrigin, now: Time)
    ensures Cancelled(r, cause, origin, now).file.order == Undone(r, cause, now).file.order
  {}

  lemma CancellationKeepsOrder(r: Rows, cause: Cause, origin: RefundOrigin, now: Time, e: Event)
    requires LifeOk(LifeOf(r.file)) && IsCancellation(e) && CanTransition(r.file.order.status, OrderStatus.Cancelado) && cause != ReservaVencida
    ensures OrderKept(r.file.order, Cancelled(r, cause, origin, now).file.order, e, now)
  {
    UndoneOrder(r, cause, now);
    CancelledOrder(r, cause, origin, now);
    var l := LifeOf(r.file);
    assert Paid(l.status) ==> l.paidAt.Some?;
  }

  lemma ReceptionKeepsOrder(r: Rows, e: Event, now: Time)
    requires e.ReceiveReturn?
    ensures OrderKept(r.file.order, Step(r, e, now).file.order, e, now)
  {
    if RequestReceived(r, e.request, e.inputs, e.options, now).Done? {
      ReceptionWritesOrder(r, e.request, e.inputs, e.options, now);
    }
  }

  lemma StatusStepKeepsOrder(r: Rows, e: Event, now: Time)
    requires e.Expire? || e.Compensate? || e.MoveAsAdmin? || e.RetryPay?
    ensures OrderKept(r.file.order, Step(r, e, now).file.order, e, now)
  {
    if e.MoveAsAdmin? && e.to in AdminTransitions(r.file.order.status) {
      AdminTransitionsAreTransitions(r.file.order.status, e.to);
    }
  }

  lemma PaperworkKeepsOrder(r: Rows, e: Event, now: Time)
    requires IsPaperwork(e)
    ensures OrderKept(r.file.order, Step(r, e, now).file.order, e, now)
  {
    PaperworkMovesNothing(r, e, now);
    assert GoodsOf(Step(r, e, now)).order == GoodsOf(r).order;
  }

  lemma EventKeepsOrder(r: Rows, e: Event, now: Time)
    requires LifeOk(LifeOf(r.file))
    ensures OrderKept(r.file.order, Step(r, e, now).file.order, e, now)
  {
    if IsPaperwork(e) {
      PaperworkKeepsOrder(r, e, now);
    } else if e.ReportPayment? {
      PaymentKeepsOrder(r, e.report, now);
    } else if e.CancelAsCustomer? {
      if CustomerCancellable(r.file.order.status) { CancellationKeepsOrder(r, Cliente, CU14, now, e); }
    } else if e.CancelAsAdmin? {
      if AdminCancellable(r.file.order.status) { CancellationKeepsOrder(r, Administrador, CU19, now, e); }
    } else if e.ReceiveReturn? {
      ReceptionKeepsOrder(r, e, now);
    } else {
      StatusStepKeepsOrder(r, e, now);
    }
  }

  // ----- Transactions -----

  /** Each order after a transaction, given the calls that follow it. */
  ghost predicate FilesKept(desk: Desk, sys': System, more: seq<Call>)
    requires |desk.current| == |desk.sys.files|
  {
    && |desk.sys.files| <= |sys'.files| <= |desk.sys.files| + 1
    && (forall k :: 0 <= k < |desk.sys.files| ==>
          var order, order' := desk.sys.files[k].order, sys'.files[k].order;
          && order'.total == order.total && order'.reservationExpiresAt == order.reservationExpiresAt
          && (CalledOff(order') ==> CalledOff(order) || (desk.current[k].Some? ==> Closing(desk.current[k].value) in more))
          && (order'.cause == Some(ReservaVencida) ==> order.cause == Some(ReservaVencida) || order.reservationExpiresAt < desk.now))
    && (forall k :: |desk.sys.files| <= k < |sys'.files| ==> sys'.files[k].order.cause == None)
  }

  lemma CallStays(calls: seq<Call>, more: seq<Call>, c: Call)
    ensures c in calls ==> exists i :: 0 <= i < |calls + more| && (calls + more)[i] == c
    ensures c in more ==> exists i :: 0 <= i < |calls + more| && (calls + more)[i] == c
  {
    if c in calls {
      var i :| 0 <= i < |calls| && calls[i] == c;
      assert (calls + more)[i] == c;
    }
    if c in more {
      var i :| 0 <= i < |more| && more[i] == c;
      assert (calls + more)[|calls| + i] == c;
    }
  }

  lemma TransactionKeepsDesk(desk: Desk, sys': System, more: seq<Call>)
    requires DeskOk(desk) && SystemOk(sys') && FilesKept(desk, sys', more)
    requires forall c <- more :: CallOk(desk.(sys := sys'), c)
    ensures DeskOk(desk.(sys := sys', current := desk.current + if |sys'.files| > |desk.sys.files| then [None] else [], calls := desk.calls + more))
  {
    var desk' := desk.(sys := sys', current := desk.current + if |sys'.files| > |desk.sys.files| then [None] else [], calls := desk.calls + more);
    forall p | p in desk'.gateway.preferences ensures PreferenceOk(desk', p) && Known(desk', p) {
      assert PreferenceOk(desk, p) && Known(desk, p);
      if HeldByCall(desk, p) {
        var i :| 0 <= i < |desk.calls| && Holds(desk.calls[i], p);
        assert Holds(desk'.calls[i], p);
      }
    }
    forall k | 0 <= k < |sys'.files| ensures OrderOkAtDesk(desk', k) {
      if k < |desk.sys.files| {
        assert OrderOkAtDesk(desk, k);
        if desk.current[k].Some? {
          CallStays(desk.calls, more, Closing(desk.current[k].value));
        }
      }
    }
    forall i | 0 <= i < |desk'.calls| ensures CallOk(desk', desk'.calls[i]) {
      if i < |desk.calls| {
        assert CallOk(desk, desk.calls[i]);
      } else {
        assert desk'.calls[i] in more;
      }
    }
    forall p | p in desk'.gateway.payments ensures PaymentOk(desk', p) {
      assert PaymentOk(desk, p);
    }
  }

  lemma FilesAfterEvent(desk: Desk, k: nat, r': Rows, e: Event, more: seq<Call>)
    requires |desk.current| == |desk.sys.files| && k < |desk.sys.files|
    requires OrderKept(desk.sys.files[k].order, r'.file.order, e, desk.now)
    requires (IsCancellation(e) && Awaiting(desk.sys.files[k].order.status) && desk.current[k].Some?
              && CalledOff(r'.file.order)) ==> Closing(desk.current[k].value) in more
    ensures FilesKept(desk, desk.sys.Commit(k, r'), more)
  {}

  lemma OrderEventKeepsFiles(desk: Desk, k: nat, event: Event, more: seq<Call>)
    requires DeskOk(desk) && k < |desk.sys.files|
    requires var order := desk.sys.files[k].order;
             (IsCancellation(event) && Awaiting(order.status) && desk.current[k].Some?
              && CalledOff(Step(desk.sys.Rows(k), event, desk.now).file.order)) ==> Closing(desk.current[k].value) in more
    ensures FilesKept(desk, SystemStep(desk.sys, OnOrder(k, event, desk.now)), more)
  {
    assert OrderFileOk(desk.sys, k);
    EventKeepsOrder(desk.sys.Rows(k), event, desk.now);
    FilesAfterEvent(desk, k, Step(desk.sys.Rows(k), event, desk.now), event, more);
  }

  lemma CommitKeepsDesk(desk: Desk, e: SystemEvent)
    requires DeskOk(desk) && (e.OnOrder? ==> e.now == desk.now)
    ensures DeskOk(Committed(desk, e))
  {
    var sys' := SystemStep(desk.sys, e);
    var more := Next(desk, e, sys');
    StepKeepsSystem(desk.sys, e);
    if e.OnOrder? && e.order < |desk.sys.files| {
      OrderEventKeepsFiles(desk, e.order, e.event, more);
      assert OrderOkAtDesk(desk, e.order);
    }
    TransactionKeepsDesk(desk, sys', more);
  }

  lemma CompensationKeepsDesk(desk: Desk, k: nat)
    requires DeskOk(desk)
    ensures DeskOk(desk.(sys := SystemStep(desk.sys, OnOrder(k, Event.Compensate, desk.now))))
  {
    var e := OnOrder(k, Event.Compensate, desk.now);
    var sys' := SystemStep(desk.sys, e);
    StepKeepsSystem(desk.sys, e);
    if k < |desk.sys.files| {
      OrderEventKeepsFiles(desk, k, Event.Compensate, []);
    }
    TransactionKeepsDesk(desk, sys', []);
    assert desk.current + [] == desk.current && desk.calls + [] == desk.calls;
  }

  // ----- Calls -----

  /** Call `i` moved on; nothing reopened, and whoever held a preference holds it still, unless it closed or was attached. */
  ghost predicate CallMoved(desk: Desk, desk': Desk, i: nat) {
    && i < |desk.calls| == |desk'.calls|
    && desk'.sys == desk.sys && desk'.now == desk.now && desk'.gateway.payments == desk.gateway.payments
    && |desk'.current| == |desk.current| && desk.gateway.nextPreference <= desk'.gateway.nextPreference
    && (forall j :: 0 <= j < |desk.calls| && j != i ==> desk'.calls[j] == desk.calls[j])
    && (forall p <- desk.gateway.preferences :: p in desk'.gateway.preferences
          && desk'.gateway.preferences[p] == desk.gateway.preferences[p].(expiresAt := desk'.gateway.preferences[p].expiresAt)
          && (desk'.gateway.preferences[p].expiresAt == desk.gateway.preferences[p].expiresAt || desk'.gateway.preferences[p].expiresAt == desk.now))
    && (forall p <- desk'.gateway.preferences :: p in desk.gateway.preferences || p >= desk.gateway.nextPreference)
  }

  lemma HeldStill(desk: Desk, desk': Desk, i: nat, p: PreferenceId)
    requires CallMoved(desk, desk', i)
    ensures HeldByCall(desk, p) && (Holds(desk.calls[i], p) ==> Holds(desk'.calls[i], p)) ==> HeldByCall(desk', p)
    ensures ClosingCall(desk, p) && desk.calls[i] != Closing(p) ==> ClosingCall(desk', p)
  {
    if HeldByCall(desk, p) && (Holds(desk.calls[i], p) ==> Holds(desk'.calls[i], p)) {
      var j :| 0 <= j < |desk.calls| && Holds(desk.calls[j], p);
      assert Holds(desk'.calls[j], p);
    }
    if ClosingCall(desk, p) && desk.calls[i] != Closing(p) {
      var j :| 0 <= j < |desk.calls| && desk.calls[j] == Closing(p);
      assert desk'.calls[j] == Closing(p);
    }
  }

  lemma MovedCallKeepsDesk(desk: Desk, desk': Desk, i: nat)
    requires DeskOk(desk) && CallMoved(desk, desk', i) && CallOk(desk', desk'.calls[i])
    requires forall p <- desk'.gateway.preferences :: p !in desk.gateway.preferences ==> PreferenceOk(desk', p) && Holds(desk'.calls[i], p)
    requires forall p <- desk.gateway.preferences ::
               Holds(desk.calls[i], p) && IsOpen(desk'.gateway, p, desk.now) ==>
                 Holds(desk'.calls[i], p) || desk'.current[desk.gateway.preferences[p].order] == Some(p)
    requires desk.calls[i].Closing? ==> !IsOpen(desk'.gateway, desk.calls[i].preference, desk.now)
    requires forall k :: 0 <= k < |desk.current| ==>
               || desk'.current[k] == desk.current[k]
               || (desk'.current[k].Some? && desk'.current[k].value < desk'.gateway.nextPreference
                   && Shut(desk, desk.current[k]) && !CalledOff(desk.sys.files[k].order))
    ensures DeskOk(desk')
  {
    forall p | p in desk'.gateway.preferences ensures PreferenceOk(desk', p) && Known(desk', p) {
      if p in desk.gateway.preferences {
        assert PreferenceOk(desk, p) && Known(desk, p);
        HeldStill(desk, desk', i, p);
      } else {
        assert Holds(desk'.calls[i], p);
      }
    }
    forall k | 0 <= k < |desk'.sys.files| ensures OrderOkAtDesk(desk', k) {
      assert OrderOkAtDesk(desk, k);
      if desk.current[k].Some? {
        HeldStill(desk, desk', i, desk.current[k].value);
      }
    }
    forall j | 0 <= j < |desk'.calls| ensures CallOk(desk', desk'.calls[j]) {
      assert CallOk(desk, desk.calls[j]);
    }
    forall p | p in desk'.gateway.payments ensures PaymentOk(desk', p) {
      assert PaymentOk(desk, p);
    }
  }

  lemma CreateKeepsDesk(desk: Desk, i: nat)
    requires DeskOk(desk) && i < |desk.calls| && desk.calls[i].Creating?
    ensures DeskOk(Progress(desk, i, Create(i)))
  {
    var k := desk.calls[i].order;
    assert CallOk(desk, desk.calls[i]) && OrderFileOk(desk.sys, k);
    PreferenceChargesTotal(desk.sys.files[k].order);
    forall p | p in desk.gateway.preferences ensures p < desk.gateway.nextPreference {
      assert PreferenceOk(desk, p);
    }
    MovedCallKeepsDesk(desk, Progress(desk, i, Create(i)), i);
  }

  lemma AttachKeepsDesk(desk: Desk, i: nat)
    requires DeskOk(desk) && i < |desk.calls| && desk.calls[i].Attaching?
    ensures DeskOk(Progress(desk, i, Attach(i)))
  {
    assert CallOk(desk, desk.calls[i]);
    MovedCallKeepsDesk(desk, Progress(desk, i, Attach(i)), i);
  }

  lemma CloseKeepsDesk(desk: Desk, i: nat, a: Action)
    requires DeskOk(desk) && i < |desk.calls| && (desk.calls[i].Closing? || desk.calls[i].Superseding?)
    requires a.Close? || a.ExpirePrevious?
    ensures DeskOk(Progress(desk, i, a))
  {
    assert CallOk(desk, desk.calls[i]);
    var desk' := Progress(desk, i, a);
    if desk' != desk {
      MovedCallKeepsDesk(desk, desk', i);
    }
  }

  lemma ProgressKeepsDesk(desk: Desk, i: nat, a: Action)
    requires DeskOk(desk) && i < |desk.calls|
    ensures DeskOk(Progress(desk, i, a))
  {
    match desk.calls[i]
    case Superseding(_, _) => if a.ExpirePrevious? { CloseKeepsDesk(desk, i, a); }
    case Closing(_) => if a.Close? { CloseKeepsDesk(desk, i, a); }
    case Attaching(_, _, _) => if a.Attach? { AttachKeepsDesk(desk, i); }
    case Creating(k, _, _) =>
      if a.Create? {
        if k < |desk.sys.files| { CreateKeepsDesk(desk, i); }
      } else if a.FailToCreate? {
        MovedCallKeepsDesk(desk, Progress(desk, i, a), i);
      }
    case Compensating(k) =>
      if a.Compensate? {
        CompensationKeepsDesk(desk, k);
        var desk' := desk.(sys := SystemStep(desk.sys, OnOrder(k, Event.Compensate, desk.now)));
        MovedCallKeepsDesk(desk', desk'.(calls := desk.calls[i := Ended]), i);
      }
    case Ended =>
  }

  lemma TickKeepsDesk(desk: Desk, t: Time)
    requires DeskOk(desk) && desk.now <= t
    ensures DeskOk(desk.(now := t))
  {
    var desk' := desk.(now := t);
    forall p | p in desk'.gateway.preferences ensures PreferenceOk(desk', p) && Known(desk', p) {
      assert PreferenceOk(desk, p) && Known(desk, p);
      if HeldByCall(desk, p) {
        var i :| 0 <= i < |desk.calls| && Holds(desk.calls[i], p);
        assert Holds(desk'.calls[i], p);
      }
    }
    forall k | 0 <= k < |desk'.sys.files| ensures OrderOkAtDesk(desk', k) {
      assert OrderOkAtDesk(desk, k);
      if desk.current[k].Some? && ClosingCall(desk, desk.current[k].value) {
        var i :| 0 <= i < |desk.calls| && desk.calls[i] == Closing(desk.current[k].value);
        assert desk'.calls[i] == Closing(desk.current[k].value);
      }
    }
    forall i | 0 <= i < |desk'.calls| ensures CallOk(desk', desk'.calls[i]) { assert CallOk(desk, desk.calls[i]); }
    forall p | p in desk'.gateway.payments ensures PaymentOk(desk', p) { assert PaymentOk(desk, p); }
  }

  lemma PayKeepsDesk(desk: Desk, p: PreferenceId, outcome: SimulatedOutcome)
    requires DeskOk(desk)
    ensures DeskOk(DeskStep(desk, Pay(p, outcome)))
  {
    var desk' := DeskStep(desk, Pay(p, outcome));
    if desk' != desk {
      assert PreferenceOk(desk, p);
      forall q | q in desk'.gateway.payments ensures PaymentOk(desk', q) {
        if q in desk.gateway.payments && q != desk.gateway.nextPayment { assert PaymentOk(desk, q); }
      }
      PaymentsApart(desk, desk');
    }
  }

  /** Payments aside, the same desk. */
  lemma PaymentsApart(desk: Desk, desk': Desk)
    requires DeskOk(desk) && desk' == desk.(gateway := desk'.gateway)
    requires desk'.gateway == desk.gateway.(payments := desk'.gateway.payments, nextPayment := desk'.gateway.nextPayment)
    requires forall q <- desk'.gateway.payments :: PaymentOk(desk', q)
    ensures DeskOk(desk')
  {
    forall p | p in desk'.gateway.preferences ensures PreferenceOk(desk', p) && Known(desk', p) {
      assert PreferenceOk(desk, p) && Known(desk, p);
      assert HeldByCall(desk, p) ==> HeldByCall(desk', p);
    }
    forall k | 0 <= k < |desk'.sys.files| ensures OrderOkAtDesk(desk', k) {
      assert OrderOkAtDesk(desk, k);
      assert desk.current[k].Some? && ClosingCall(desk, desk.current[k].value) ==> ClosingCall(desk', desk.current[k].value);
    }
    forall i | 0 <= i < |desk'.calls| ensures CallOk(desk', desk'.calls[i]) { assert CallOk(desk, desk.calls[i]); }
  }

  lemma ActionKeepsDesk(desk: Desk, a: Action)
    requires DeskOk(desk)
    ensures DeskOk(DeskStep(desk, a))
  {
    match a
    case Tick(t) => if desk.now <= t { TickKeepsDesk(desk, t); }
    case Commit(e) => if !(e.OnOrder? && e.event.Compensate?) { CommitKeepsDesk(desk, AtNow(e, desk.now)); }
    case Pay(p, outcome) => PayKeepsDesk(desk, p, outcome);
    case _ => if a.call < |desk.calls| { ProgressKeepsDesk(desk, a.call, a); }
  }

  lemma {:induction false} DeskRunKeeps(desk: Desk, actions: seq<Action>)
    requires DeskOk(desk)
    ensures DeskOk(DeskRun(desk, actions))
    decreases |actions|
  {
    if actions != [] {
      DeskRunKeeps(desk, actions[..|actions| - 1]);
      ActionKeepsDesk(DeskRun(desk, actions[..|actions| - 1]), actions[|actions| - 1]);
    }
  }

  // ----- Results over every interleaving -----

  /** The state after some interleaving that started with nothing. */
  ghost predicate IsReachableDesk(desk: Desk) {
    exists actions :: desk == DeskRun(OPENING, actions)
  }

  lemma ReachableDeskIsOk(desk: Desk)
    requires IsReachableDesk(desk)
    ensures DeskOk(desk)
  {
    var actions :| desk == DeskRun(OPENING, actions);
    DeskRunKeeps(OPENING, actions);
  }

  /** A preference that still takes payments is the order's current one, or a request in progress will attach or close it. */
  lemma OpenPreferencesAreKnown(desk: Desk, p: PreferenceId)
    requires IsReachableDesk(desk) && IsOpen(desk.gateway, p, desk.now)
    ensures var k := desk.gateway.preferences[p].order;
            k < |desk.current| && (desk.current[k] == Some(p) || HeldByCall(desk, p))
  {
    ReachableDeskIsOk(desk);
    assert Known(desk, p) && PreferenceOk(desk, p);
  }

  /** An order called off while awaiting its payment takes no payment once no request is in progress. */
  lemma CalledOffOrdersAreClosed(desk: Desk, p: PreferenceId)
    requires IsReachableDesk(desk) && p in desk.gateway.preferences
    ensures var k := desk.gateway.preferences[p].order;
            k < |desk.sys.files|
            && (CalledOff(desk.sys.files[k].order) && (forall i :: 0 <= i < |desk.calls| ==> desk.calls[i] == Ended) ==>
                  !IsOpen(desk.gateway, p, desk.now))
  {
    ReachableDeskIsOk(desk);
    assert Known(desk, p) && PreferenceOk(desk, p);
    assert OrderOkAtDesk(desk, desk.gateway.preferences[p].order);
  }

  /** An order whose reservation ran out takes no payment, whatever is in progress. */
  lemma ExpiredOrdersAreClosed(desk: Desk, p: PreferenceId)
    requires IsReachableDesk(desk) && p in desk.gateway.preferences
    ensures var k := desk.gateway.preferences[p].order;
            k < |desk.sys.files| && (desk.sys.files[k].order.cause == Some(ReservaVencida) ==> !IsOpen(desk.gateway, p, desk.now))
  {
    ReachableDeskIsOk(desk);
    assert PreferenceOk(desk, p);
    assert OrderOkAtDesk(desk, desk.gateway.preferences[p].order);
  }

  /** Whatever is paid through a preference is its order's exact total. */
  lemma PaymentsAreForTheTotal(desk: Desk, payment: PaymentRef)
    requires IsReachableDesk(desk) && payment in desk.gateway.payments
    ensures var paid := desk.gateway.payments[payment];
            paid.order < |desk.sys.files| && paid.amount == desk.sys.files[paid.order].order.total
  {
    ReachableDeskIsOk(desk);
    assert PaymentOk(desk, payment);
  }

  lemma DeskRunStep(desk: Desk, actions: seq<Action>, a: Action)
    ensures DeskRun(desk, actions + [a]) == DeskStep(DeskRun(desk, actions), a)
  {
    assert (actions + [a])[..|actions|] == actions;
  }

  const SHOWN := Offer(true, true, true, 100)
  const SHOWN_ORDER := NewOrder(0, [Item(0, 1, 100, false)], 0, 10)
  const STOCKED := Desk(System([], map[0 := Level(1, 0)]), [], OPENING.gateway, [], 0)
  const CHECKOUT := Commit(PlaceOrder(0, [CartItem(0, 1, 100, SHOWN)], 0, 100, 10))
  const RETRY := Commit(OnOrder(0, RetryPay(0, [SHOWN]), 0))
  const PLACED := Desk(System([NewFile(SHOWN_ORDER)], map[0 := Level(1, 1)]), [None], OPENING.gateway, [Creating(0, None, true)], 0)

  lemma ShownCheckout()
    ensures DeskStep(STOCKED, CHECKOUT) == PLACED
  {
    var cart := [CartItem(0, 1, 100, SHOWN)];
    assert CartProblems(cart, 1) == CartProblems(cart, 0) == [];
    assert OrderItems(cart) == [Item(0, 1, 100, false)] + OrderItems(cart[1..]) == [Item(0, 1, 100, false)];
    var lines := Lines(OrderItems(cart));
    assert lines == [Line(0, 1)];
    assert Units(lines, 0) == 1;
    var stock: Levels := map[0 := Level(1, 0)];
    assert Reserved(stock, lines) == map[0 := Level(1, 1)];
    assert Subtotal(OrderItems(cart)) == 100;
  }

  lemma ShownRetry()
    ensures DeskStep(PLACED, RETRY) == PLACED.(calls := [Creating(0, None, true), Creating(0, None, false)])
  {
    assert OrderProblems(SHOWN_ORDER.items, [SHOWN], 1) == OrderProblems(SHOWN_ORDER.items, [SHOWN], 0) == [];
    assert RetryOpened(PLACED.sys.Rows(0), 0, [SHOWN], 0) == Opened(PLACED.sys.Rows(0));
    assert PLACED.sys.files[0 := PLACED.sys.files[0]] == PLACED.sys.files;
  }

  /**
   * The same does not hold of an order cancelled because its checkout could not create a preference:
   * a retry that attached one meanwhile leaves it open. `CompensatedOrders` says exactly when.
   */
  lemma CompensationCanLeaveOneOpen() returns (actions: seq<Action>)
    ensures var desk := DeskRun(OPENING, actions);
            && |desk.sys.files| == 1 && desk.sys.files[0].order.cause == Some(Pasarela)
            && (forall i :: 0 <= i < |desk.calls| ==> desk.calls[i] == Ended)
            && IsOpen(desk.gateway, 0, desk.now) && desk.gateway.preferences[0].order == 0
  {
    ShownCheckout();
    ShownRetry();
    actions := [];
    DeskRunStep(OPENING, actions, Commit(AddVariant(0, 1)));
    actions := actions + [Commit(AddVariant(0, 1))];
    DeskRunStep(OPENING, actions, CHECKOUT);
    actions := actions + [CHECKOUT];
    DeskRunStep(OPENING, actions, RETRY);
    actions := actions + [RETRY];
    assert DeskRun(OPENING, actions) == PLACED.(calls := [Creating(0, None, true), Creating(0, None, false)]);
    actions := CompensationAfterRetry(actions);
  }

  lemma CompensationAfterRetry(retried: seq<Action>) returns (actions: seq<Action>)
    requires DeskRun(OPENING, retried) == PLACED.(calls := [Creating(0, None, true), Creating(0, None, false)])
    ensures var desk := DeskRun(OPENING, actions);
            && |desk.sys.files| == 1 && desk.sys.files[0].order.cause == Some(Pasarela)
            && desk.calls == [Ended, Ended]
            && IsOpen(desk.gateway, 0, desk.now) && desk.gateway.preferences[0].order == 0
  {
    var attached := RetryAttaches(DeskRun(OPENING, retried));
    var failed := attached.(calls := [Compensating(0), Ended]);
    DeskRunStep(OPENING, retried, Create(1));
    DeskRunStep(OPENING, retried + [Create(1)], Attach(1));
    DeskRunStep(OPENING, retried + [Create(1)] + [Attach(1)], FailToCreate(0));
    assert DeskStep(attached, FailToCreate(0)).calls == failed.calls;
    actions := retried + [Create(1)] + [Attach(1)] + [FailToCreate(0)];
    DeskRunStep(OPENING, actions, Action.Compensate(0));
    actions := actions + [Action.Compensate(0)];
    assert DeskRun(OPENING, actions) == DeskStep(failed, Action.Compensate(0));
    ShownCompensation(failed);
  }

  lemma RetryAttaches(retried: Desk) returns (attached: Desk)
    requires retried == PLACED.(calls := [Creating(0, None, true), Creating(0, None, false)])
    ensures attached == DeskStep(DeskStep(retried, Create(1)), Attach(1))
    ensures attached.sys == PLACED.sys && attached.now == 0 && attached.calls == [Creating(0, None, true), Ended]
    ensures IsOpen(attached.gateway, 0, 0) && attached.gateway.preferences[0].order == 0
  {
    attached := DeskStep(DeskStep(retried, Create(1)), Attach(1));
  }

  lemma ShownCompensation(failed: Desk)
    requires failed.sys == PLACED.sys && failed.calls == [Compensating(0), Ended]
    ensures var desk := DeskStep(failed, Action.Compensate(0));
            && |desk.sys.files| == 1 && desk.sys.files[0].order.cause == Some(Pasarela)
            && desk.calls == [Ended, Ended] && desk.gateway == failed.gateway && desk.now == failed.now
  {}
}
