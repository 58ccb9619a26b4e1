/** An order cancelled because its preference could not be created: exactly when a retry leaves one open for it. */
module CompensatedOrders {
  import opened Wrappers
  import opened OrderStatus
  import opened Entities
  import opened Machine
  import opened History
  import opened FakeGateway
  import opened PreferenceProtocol

  // ----- Who holds a preference -----

  /** The preference column of an order names a preference created for that order. */
  ghost predicate OwnPreference(desk: Desk, k: nat)
    requires k < |desk.current|
  {
    desk.current[k].Some? ==>
      desk.current[k].value in desk.gateway.preferences && desk.gateway.preferences[desk.current[k].value].order == k
  }

  /**
   * A preference waiting to be attached is known to no one else; one waiting to be closed, if it was attached,
   * belongs to an order that awaits no payment.
   */
  ghost predicate HolderOk(desk: Desk, i: nat)
    requires i < |desk.calls|
  {
    match desk.calls[i]
    case Attaching(_, _, p) =>
      && (forall j :: 0 <= j < |desk.calls| && Holds(desk.calls[j], p) ==> j == i)
      && (forall k :: 0 <= k < |desk.current| ==> desk.current[k] != Some(p))
    case Closing(p) => forall k :: 0 <= k < |desk.current| && desk.current[k] == Some(p) ==> NotAwaiting(desk.sys, k)
    case _ => true
  }

  ghost predicate NotAwaiting(sys: System, k: nat) {
    k < |sys.files| && !Awaiting(sys.files[k].order.status)
  }

  ghost predicate HoldersOk(desk: Desk) {
    && (forall k :: 0 <= k < |desk.current| ==> OwnPreference(desk, k))
    && (forall i :: 0 <= i < |desk.calls| ==> HolderOk(desk, i))
  }

  // ----- Orders no longer awaiting a payment -----

  /** An order that stopped awaiting its payment never awaits it again; one cancelled by the gateway's failure stays so. */
  ghost predicate OrdersSettle(sys: System, sys': System) {
    && |sys.files| <= |sys'.files|
    && (forall k :: 0 <= k < |sys.files| ==> FileSettles(sys.files[k], sys'.files[k]))
  }

  predicate CancelledByGateway(order: Order) {
    order.status == OrderStatus.Cancelado && order.cause == Some(Pasarela)
  }

  ghost predicate FileSettles(f: File, f': File) {
    && (!Awaiting(f.order.status) ==> !Awaiting(f'.order.status))
    && (CancelledByGateway(f.order) ==> CancelledByGateway(f'.order))
  }

  lemma MoveSettles(l: Life, l': Life)
    requires LivesLegally(l, l')
    ensures !Awaiting(l.status) ==> !Awaiting(l'.status)
    ensures l.status == OrderStatus.Cancelado && l.cause == Some(Pasarela) ==> l' == l
  {
    if l' != l {
      var to, reason, at :| LegalMove(l, to, reason) && l' == Lived(l, to, reason, at);
      assert CanTransition(l.status, to);
    }
  }

  lemma EventSettles(r: Rows, e: Event, now: Time)
    ensures FileSettles(r.file, Step(r, e, now).file)
  {
    StepLivesLegally(r, e, now);
    MoveSettles(LifeOf(r.file), LifeOf(Step(r, e, now).file));
  }

  lemma TransactionSettles(sys: System, e: SystemEvent)
    ensures OrdersSettle(sys, SystemStep(sys, e))
  {
    if e.OnOrder? && e.order < |sys.files| {
      EventSettles(sys.Rows(e.order), e.event, e.now);
    }
  }

  // ----- Every action keeps the holders -----

  /** Preferences are never lost, nor change their order. */
  ghost predicate PreferencesStay(g: Gateway, g': Gateway) {
    forall p <- g.preferences :: p in g'.preferences && g'.preferences[p].order == g.preferences[p].order
  }

  /** Every preference a call or an order knows was created already. */
  lemma KnownPreferencesExist(desk: Desk)
    requires DeskOk(desk)
    ensures forall j: nat, p: PreferenceId :: j < |desk.calls| && Holds(desk.calls[j], p) ==> p < desk.gateway.nextPreference
    ensures forall k :: 0 <= k < |desk.current| && desk.current[k].Some? ==> desk.current[k].value < desk.gateway.nextPreference
  {
    forall j: nat, p: PreferenceId | j < |desk.calls| && Holds(desk.calls[j], p) ensures p < desk.gateway.nextPreference {
      assert CallOk(desk, desk.calls[j]);
    }
    forall k | 0 <= k < |desk.current| && desk.current[k].Some? ensures desk.current[k].value < desk.gateway.nextPreference {
      assert OrderOkAtDesk(desk, k);
    }
  }

  /** A transaction, and the calls it starts. */
  lemma TransactionKeepsHolders(desk: Desk, desk': Desk, more: seq<Call>)
    requires HoldersOk(desk) && |desk.current| == |desk.sys.files| && OrdersSettle(desk.sys, desk'.sys) && desk'.gateway == desk.gateway
    requires desk'.calls == desk.calls + more && (desk'.current == desk.current || desk'.current == desk.current + [None])
    requires forall c <- more :: !c.Attaching?
    requires forall c <- more :: c.Closing? ==> exists k :: Calling(desk, desk', k, c.preference)
    ensures HoldersOk(desk')
  {
    forall k | 0 <= k < |desk'.current| ensures OwnPreference(desk', k) {
      if k < |desk.current| {
        assert OwnPreference(desk, k);
      }
    }
    forall i | 0 <= i < |desk'.calls| ensures HolderOk(desk', i) {
      if i < |desk.calls| {
        assert HolderOk(desk, i);
        forall j, p | |desk.calls| <= j < |desk'.calls| && desk.calls[i].Attaching? && Holds(desk'.calls[j], p)
          ensures p != desk.calls[i].preference
        {
          assert desk'.calls[j] in more;
          var k :| Calling(desk, desk', k, p);
        }
      } else if desk'.calls[i].Closing? {
        assert desk'.calls[i] in more;
        var k :| Calling(desk, desk', k, desk'.calls[i].preference);
        forall other | 0 <= other < |desk'.current| && desk'.current[other] == Some(desk'.calls[i].preference) ensures NotAwaiting(desk'.sys, other) {
          assert OwnPreference(desk, k) && OwnPreference(desk, other);
        }
      }
    }
  }

  /** The preference of an order that no longer awaits its payment. */
  ghost predicate Calling(desk: Desk, desk': Desk, k: nat, p: PreferenceId) {
    k < |desk.current| && desk.current[k] == Some(p) && NotAwaiting(desk'.sys, k)
  }

  lemma CommitKeepsHolders(desk: Desk, e: SystemEvent)
    requires DeskOk(desk) && HoldersOk(desk)
    ensures HoldersOk(PreferenceProtocol.Committed(desk, e))
  {
    var desk' := PreferenceProtocol.Committed(desk, e);
    var more := Next(desk, e, desk'.sys);
    TransactionSettles(desk.sys, e);
    forall c | c in more && c.Closing? ensures exists k :: Calling(desk, desk', k, c.preference) {
      assert Calling(desk, desk', e.order, c.preference);
    }
    TransactionKeepsHolders(desk, desk', more);
  }

  /** Call `i` went on to something that holds no preference; no order changed its own. */
  lemma LettingGoKeepsHolders(desk: Desk, desk': Desk, i: nat)
    requires HoldersOk(desk) && i < |desk.calls| == |desk'.calls| && desk'.calls == desk.calls[i := desk'.calls[i]]
    requires !desk'.calls[i].Attaching? && !desk'.calls[i].Closing?
    requires desk'.current == desk.current && |desk.current| == |desk.sys.files|
    requires OrdersSettle(desk.sys, desk'.sys) && PreferencesStay(desk.gateway, desk'.gateway)
    ensures HoldersOk(desk')
  {
    forall k | 0 <= k < |desk'.current| ensures OwnPreference(desk', k) {
      assert OwnPreference(desk, k);
    }
    forall j | 0 <= j < |desk'.calls| ensures HolderOk(desk', j) {
      assert HolderOk(desk, j);
    }
  }

  lemma CreateKeepsHolders(desk: Desk, i: nat)
    requires DeskOk(desk) && HoldersOk(desk) && i < |desk.calls| && desk.calls[i].Creating?
    ensures HoldersOk(Progress(desk, i, Create(i)))
  {
    var desk' := Progress(desk, i, Create(i));
    KnownPreferencesExist(desk);
    if desk' != desk {
      var p := desk.gateway.nextPreference;
      forall k | 0 <= k < |desk'.current| ensures OwnPreference(desk', k) {
        assert OwnPreference(desk, k);
      }
      forall j | 0 <= j < |desk'.calls| ensures HolderOk(desk', j) {
        assert HolderOk(desk, j);
        assert !Holds(desk.calls[j], p);
      }
    }
  }

  lemma AttachedKeepsHolders(desk: Desk, i: nat)
    requires HoldersOk(desk) && i < |desk.calls| && desk.calls[i].Attaching? && CallOk(desk, desk.calls[i])
    requires desk.calls[i].order < |desk.current|
    ensures var Attaching(k, _, p) := desk.calls[i]; HoldersOk(desk.(current := desk.current[k := Some(p)], calls := desk.calls[i := Ended]))
  {
    var Attaching(k, _, p) := desk.calls[i];
    var desk' := desk.(current := desk.current[k := Some(p)], calls := desk.calls[i := Ended]);
    assert HolderOk(desk, i);
    forall other | 0 <= other < |desk'.current| ensures OwnPreference(desk', other) {
      assert OwnPreference(desk, other);
    }
    forall j | 0 <= j < |desk'.calls| ensures HolderOk(desk', j) {
      assert HolderOk(desk, j);
      assert j != i ==> !Holds(desk.calls[j], p);
    }
  }

  lemma OrphanKeepsHolders(desk: Desk, i: nat)
    requires HoldersOk(desk) && i < |desk.calls| && desk.calls[i].Attaching?
    ensures HoldersOk(desk.(calls := desk.calls[i := Closing(desk.calls[i].preference)]))
  {
    var desk' := desk.(calls := desk.calls[i := Closing(desk.calls[i].preference)]);
    assert HolderOk(desk, i);
    forall k | 0 <= k < |desk'.current| ensures OwnPreference(desk', k) {
      assert OwnPreference(desk, k);
    }
    forall j | 0 <= j < |desk'.calls| ensures HolderOk(desk', j) {
      assert HolderOk(desk, j);
      assert j != i ==> !Holds(desk.calls[j], desk.calls[i].preference);
    }
  }

  lemma AttachKeepsHolders(desk: Desk, i: nat)
    requires DeskOk(desk) && HoldersOk(desk) && i < |desk.calls| && desk.calls[i].Attaching?
    ensures HoldersOk(Progress(desk, i, Attach(i)))
  {
    assert CallOk(desk, desk.calls[i]);
    AttachedKeepsHolders(desk, i);
    OrphanKeepsHolders(desk, i);
  }

  lemma ProgressKeepsHolders(desk: Desk, i: nat, a: Action)
    requires DeskOk(desk) && HoldersOk(desk) && i < |desk.calls|
    ensures HoldersOk(Progress(desk, i, a))
  {
    var c, desk' := desk.calls[i], Progress(desk, i, a);
    if desk' != desk {
      if c.Creating? && a.Create? {
        CreateKeepsHolders(desk, i);
      } else if c.Attaching? {
        AttachKeepsHolders(desk, i);
      } else {
        if c.Compensating? {
          TransactionSettles(desk.sys, OnOrder(c.order, Event.Compensate, desk.now));
        }
        LettingGoKeepsHolders(desk, desk', i);
      }
    }
  }

  lemma StepKeepsHolders(desk: Desk, a: Action)
    requires DeskOk(desk) && HoldersOk(desk)
    ensures HoldersOk(DeskStep(desk, a))
  {
    match a
    case Tick(t) => SameCallsKeepHolders(desk, DeskStep(desk, a));
    case Commit(e) => if !(e.OnOrder? && e.event.Compensate?) { CommitKeepsHolders(desk, AtNow(e, desk.now)); }
    case Pay(_, _) => SameCallsKeepHolders(desk, DeskStep(desk, a));
    case _ => if a.call < |desk.calls| { ProgressKeepsHolders(desk, a.call, a); }
  }

  lemma SameCallsKeepHolders(desk: Desk, desk': Desk)
    requires HoldersOk(desk) && desk'.sys == desk.sys && desk'.current == desk.current && desk'.calls == desk.calls
    requires desk'.gateway.preferences == desk.gateway.preferences
    ensures HoldersOk(desk')
  {
    forall k | 0 <= k < |desk'.current| ensures OwnPreference(desk', k) { assert OwnPreference(desk, k); }
    forall i | 0 <= i < |desk'.calls| ensures HolderOk(desk', i) { assert HolderOk(desk, i); }
  }

  // ----- What becomes of the preference of an order cancelled by the gateway's failure -----

  predicate Closes(c: Call, p: PreferenceId) {
    c == Closing(p) || (c.Superseding? && c.previous == p)
  }

  /** Some request in progress will close the preference. */
  ghost predicate WillClose(desk: Desk, p: PreferenceId) {
    exists i :: 0 <= i < |desk.calls| && Closes(desk.calls[i], p)
  }

  /** The order is cancelled by the gateway's failure, with that preference in its column. */
  ghost predicate Stranded(desk: Desk, k: nat, p: PreferenceId) {
    && k < |desk.sys.files| && k < |desk.current| && p in desk.gateway.preferences
    && CancelledByGateway(desk.sys.files[k].order) && desk.current[k] == Some(p)
  }

  /** With nobody about to close it the preference stays as it is; otherwise it closes, or someone still will. */
  ghost predicate Fate(desk: Desk, desk': Desk, p: PreferenceId)
    requires p in desk.gateway.preferences
  {
    && p in desk'.gateway.preferences && desk.now <= desk'.now
    && (WillClose(desk, p) ==> WillClose(desk', p) || desk'.gateway.preferences[p].expiresAt <= desk'.now)
    && (!WillClose(desk, p) ==> !WillClose(desk', p) && desk'.gateway.preferences[p] == desk.gateway.preferences[p])
    && (desk'.gateway.preferences[p].expiresAt == desk.gateway.preferences[p].expiresAt || desk'.gateway.preferences[p].expiresAt <= desk'.now)
  }

  lemma FateComposes(a: Desk, b: Desk, c: Desk, p: PreferenceId)
    requires p in a.gateway.preferences && Fate(a, b, p) && Fate(b, c, p)
    ensures Fate(a, c, p)
  {}

  /** The calls that a transaction starts do not touch the preference of a stranded order. */
  lemma NextSpares(desk: Desk, e: SystemEvent, sys': System, k: nat, p: PreferenceId, c: Call)
    requires HoldersOk(desk) && Stranded(desk, k, p) && OrdersSettle(desk.sys, sys') && c in Next(desk, e, sys')
    ensures !Closes(c, p)
  {
    assert OwnPreference(desk, k);
    if e.OnOrder? && e.order < |desk.current| {
      assert OwnPreference(desk, e.order);
    }
  }

  lemma CommitSpares(desk: Desk, e: SystemEvent, k: nat, p: PreferenceId)
    requires DeskOk(desk) && HoldersOk(desk) && Stranded(desk, k, p)
    ensures var desk' := PreferenceProtocol.Committed(desk, e); Stranded(desk', k, p) && Fate(desk, desk', p)
  {
    var desk' := PreferenceProtocol.Committed(desk, e);
    TransactionSettles(desk.sys, e);
    forall c | c in Next(desk, e, desk'.sys) ensures !Closes(c, p) {
      NextSpares(desk, e, desk'.sys, k, p, c);
    }
    if WillClose(desk, p) {
      var i :| 0 <= i < |desk.calls| && Closes(desk.calls[i], p);
      assert Closes(desk'.calls[i], p);
    }
    forall i | |desk.calls| <= i < |desk'.calls| ensures !Closes(desk'.calls[i], p) {
      assert desk'.calls[i] in Next(desk, e, desk'.sys);
    }
    assert forall i :: 0 <= i < |desk.calls| ==> desk'.calls[i] == desk.calls[i];
  }

  /** Call `i` moved on: it closed the preference, or left it alone. */
  lemma MoveSpares(desk: Desk, desk': Desk, i: nat, p: PreferenceId)
    requires i < |desk.calls| == |desk'.calls| && desk'.calls == desk.calls[i := desk'.calls[i]] && desk'.now == desk.now
    requires p in desk.gateway.preferences && p in desk'.gateway.preferences && !Closes(desk'.calls[i], p)
    requires if Closes(desk.calls[i], p) then desk'.gateway.preferences[p].expiresAt == desk.now
             else desk'.gateway.preferences[p] == desk.gateway.preferences[p]
    ensures Fate(desk, desk', p)
  {
    if WillClose(desk, p) && !Closes(desk.calls[i], p) {
      var j :| 0 <= j < |desk.calls| && Closes(desk.calls[j], p);
      assert Closes(desk'.calls[j], p);
    }
    if WillClose(desk', p) {
      var j :| 0 <= j < |desk'.calls| && Closes(desk'.calls[j], p);
      assert j != i && Closes(desk.calls[j], p);
    }
  }

  lemma CompensationSpares(desk: Desk, i: nat, k: nat, p: PreferenceId)
    requires Stranded(desk, k, p) && i < |desk.calls| && desk.calls[i].Compensating?
    ensures Stranded(Progress(desk, i, Action.Compensate(i)), k, p) && Fate(desk, Progress(desk, i, Action.Compensate(i)), p)
  {
    TransactionSettles(desk.sys, OnOrder(desk.calls[i].order, Event.Compensate, desk.now));
    MoveSpares(desk, Progress(desk, i, Action.Compensate(i)), i, p);
  }

  lemma ProgressSpares(desk: Desk, i: nat, a: Action, k: nat, p: PreferenceId)
    requires DeskOk(desk) && HoldersOk(desk) && Stranded(desk, k, p) && i < |desk.calls|
    ensures Stranded(Progress(desk, i, a), k, p) && Fate(desk, Progress(desk, i, a), p)
  {
    var c, desk' := desk.calls[i], Progress(desk, i, a);
    assert HolderOk(desk, i) && CallOk(desk, c) && PreferenceOk(desk, p);
    if c.Compensating? && a.Compensate? {
      CompensationSpares(desk, i, k, p);
    } else if desk' != desk {
      MoveSpares(desk, desk', i, p);
    }
  }

  lemma StepSpares(desk: Desk, a: Action, k: nat, p: PreferenceId)
    requires DeskOk(desk) && HoldersOk(desk) && Stranded(desk, k, p)
    ensures Stranded(DeskStep(desk, a), k, p) && Fate(desk, DeskStep(desk, a), p)
  {
    match a
    case Tick(t) =>
    case Commit(e) => if !(e.OnOrder? && e.event.Compensate?) { CommitSpares(desk, AtNow(e, desk.now), k, p); }
    case Pay(_, _) =>
    case _ => if a.call < |desk.calls| { ProgressSpares(desk, a.call, a, k, p); }
  }

  // ----- Runs -----

  lemma {:induction false} RunSpares(desk: Desk, more: seq<Action>, k: nat, p: PreferenceId)
    requires DeskOk(desk) && HoldersOk(desk) && Stranded(desk, k, p)
    ensures Fate(desk, DeskRun(desk, more), p)
    ensures DeskOk(DeskRun(desk, more)) && HoldersOk(DeskRun(desk, more)) && Stranded(DeskRun(desk, more), k, p)
    decreases |more|
  {
    if more != [] {
      var before := DeskRun(desk, more[..|more| - 1]);
      RunSpares(desk, more[..|more| - 1], k, p);
      ActionKeepsDesk(before, more[|more| - 1]);
      StepKeepsHolders(before, more[|more| - 1]);
      StepSpares(before, more[|more| - 1], k, p);
      FateComposes(desk, before, DeskRun(desk, more), p);
    }
  }

  /** The order is cancelled by the gateway's failure, with no preference in its column. */
  ghost predicate Bare(desk: Desk, k: nat) {
    && k < |desk.sys.files| && k < |desk.current|
    && CancelledByGateway(desk.sys.files[k].order) && desk.current[k] == None
  }

  lemma StepKeepsBare(desk: Desk, a: Action, k: nat)
    requires DeskOk(desk) && Bare(desk, k)
    ensures Bare(DeskStep(desk, a), k)
  {
    if a.Commit? {
      TransactionSettles(desk.sys, AtNow(a.e, desk.now));
    } else if a.Compensate? && a.call < |desk.calls| && desk.calls[a.call].Compensating? {
      TransactionSettles(desk.sys, OnOrder(desk.calls[a.call].order, Event.Compensate, desk.now));
    }
  }

  lemma {:induction false} RunKeepsBare(desk: Desk, more: seq<Action>, k: nat)
    requires DeskOk(desk) && Bare(desk, k)
    ensures DeskOk(DeskRun(desk, more)) && Bare(DeskRun(desk, more), k)
    decreases |more|
  {
    if more != [] {
      RunKeepsBare(desk, more[..|more| - 1], k);
      ActionKeepsDesk(DeskRun(desk, more[..|more| - 1]), more[|more| - 1]);
      StepKeepsBare(DeskRun(desk, more[..|more| - 1]), more[|more| - 1], k);
    }
  }

  lemma {:induction false} RunKeepsHolders(actions: seq<Action>)
    ensures DeskOk(DeskRun(OPENING, actions)) && HoldersOk(DeskRun(OPENING, actions))
    decreases |actions|
  {
    if actions != [] {
      RunKeepsHolders(actions[..|actions| - 1]);
      ActionKeepsDesk(DeskRun(OPENING, actions[..|actions| - 1]), actions[|actions| - 1]);
      StepKeepsHolders(DeskRun(OPENING, actions[..|actions| - 1]), actions[|actions| - 1]);
    }
  }

  lemma ReachableHoldersAreOk(desk: Desk)
    requires IsReachableDesk(desk)
    ensures DeskOk(desk) && HoldersOk(desk)
  {
    var actions :| desk == DeskRun(OPENING, actions);
    RunKeepsHolders(actions);
  }

  // ----- Results over every interleaving -----

  /** Some preference of the order still takes payments. */
  ghost predicate HasOpen(desk: Desk, k: nat) {
    exists p :: IsOpen(desk.gateway, p, desk.now) && desk.gateway.preferences[p].order == k
  }

  ghost predicate Quiet(desk: Desk) {
    forall i :: 0 <= i < |desk.calls| ==> desk.calls[i] == Ended
  }

  /** With no request in progress, whatever is open is in its order's column. */
  lemma OpenIsCurrent(desk: Desk, k: nat, p: PreferenceId)
    requires DeskOk(desk) && Quiet(desk) && IsOpen(desk.gateway, p, desk.now) && desk.gateway.preferences[p].order == k
    ensures k < |desk.current| && desk.current[k] == Some(p)
  {
    assert Known(desk, p);
  }

  lemma StrandedOrderStaysOpen(cancelled: Desk, more: seq<Action>, k: nat, p: PreferenceId)
    requires DeskOk(cancelled) && HoldersOk(cancelled) && Stranded(cancelled, k, p)
    ensures var last := DeskRun(cancelled, more);
            && k < |last.sys.files| && CancelledByGateway(last.sys.files[k].order)
            && (Quiet(last) ==> (HasOpen(last, k) <==> IsOpen(cancelled.gateway, p, last.now) && !WillClose(cancelled, p)))
  {
    var last := DeskRun(cancelled, more);
    RunSpares(cancelled, more, k, p);
    assert OwnPreference(last, k);
    if Quiet(last) {
      assert !WillClose(last, p);
      if HasOpen(last, k) {
        var q :| IsOpen(last.gateway, q, last.now) && last.gateway.preferences[q].order == k;
        OpenIsCurrent(last, k, q);
      }
    }
  }

  lemma BareOrderIsClosed(cancelled: Desk, more: seq<Action>, k: nat)
    requires DeskOk(cancelled) && Bare(cancelled, k)
    ensures var last := DeskRun(cancelled, more);
            && k < |last.sys.files| && CancelledByGateway(last.sys.files[k].order)
            && (Quiet(last) ==> !HasOpen(last, k))
  {
    var last := DeskRun(cancelled, more);
    RunKeepsBare(cancelled, more, k);
    if Quiet(last) && HasOpen(last, k) {
      var q :| IsOpen(last.gateway, q, last.now) && last.gateway.preferences[q].order == k;
      OpenIsCurrent(last, k, q);
    }
  }

  /** A retry is about to replace the preference. */
  ghost predicate BeingReplaced(desk: Desk, p: PreferenceId) {
    exists i :: 0 <= i < |desk.calls| && desk.calls[i].Superseding? && desk.calls[i].previous == p
  }

  lemma CompensationCancels(desk: Desk, i: nat, k: nat)
    requires DeskOk(desk) && HoldersOk(desk) && i < |desk.calls| && desk.calls[i] == Compensating(k)
    requires k < |desk.sys.files| && desk.sys.files[k].order.status == PendientePago
    ensures var cancelled := DeskStep(desk, Action.Compensate(i));
            && cancelled.gateway == desk.gateway && cancelled.calls == desk.calls[i := Ended]
            && match desk.current[k] case None => Bare(cancelled, k) case Some(p) => Stranded(cancelled, k, p)
  {
    assert OwnPreference(desk, k);
  }

  /** No request is closing the preference of an order that awaits its payment; a retry may be replacing it. */
  lemma ReplacedOrClosed(desk: Desk, i: nat, k: nat, p: PreferenceId)
    requires HoldersOk(desk) && i < |desk.calls| && desk.calls[i] == Compensating(k)
    requires k < |desk.sys.files| && desk.sys.files[k].order.status == PendientePago && k < |desk.current| && desk.current[k] == Some(p)
    ensures WillClose(desk.(calls := desk.calls[i := Ended]), p) <==> BeingReplaced(desk, p)
  {
    var calls := desk.calls[i := Ended];
    if WillClose(desk.(calls := calls), p) {
      var j :| 0 <= j < |calls| && Closes(calls[j], p);
      assert HolderOk(desk, j) && calls[j] == desk.calls[j];
    }
    if BeingReplaced(desk, p) {
      var j :| 0 <= j < |desk.calls| && desk.calls[j].Superseding? && desk.calls[j].previous == p;
      assert Closes(calls[j], p);
    }
  }

  /**
   * The compensation of order `k` does not look at its preference column. Once no request is in progress, the order
   * it cancelled still takes payments if and only if a retry had attached a preference that no other retry was
   * replacing, and that has not run out since.
   */
  lemma CompensatedOrderStaysOpen(desk: Desk, i: nat, k: nat, more: seq<Action>)
    requires IsReachableDesk(desk) && i < |desk.calls| && desk.calls[i] == Compensating(k)
    requires k < |desk.sys.files| && desk.sys.files[k].order.status == PendientePago
    ensures var cancelled := DeskStep(desk, Action.Compensate(i));
            var last := DeskRun(cancelled, more);
            && |desk.current| == |desk.sys.files| && k < |last.sys.files| && CancelledByGateway(last.sys.files[k].order)
            && (Quiet(last) ==>
                  (HasOpen(last, k) <==>
                     && desk.current[k].Some?
                     && IsOpen(desk.gateway, desk.current[k].value, last.now)
                     && !BeingReplaced(desk, desk.current[k].value)))
  {
    ReachableHoldersAreOk(desk);
    var cancelled := DeskStep(desk, Action.Compensate(i));
    ActionKeepsDesk(desk, Action.Compensate(i));
    StepKeepsHolders(desk, Action.Compensate(i));
    CompensationCancels(desk, i, k);
    match desk.current[k]
    case None => BareOrderIsClosed(cancelled, more, k);
    case Some(p) =>
      StrandedOrderStaysOpen(cancelled, more, k, p);
      ReplacedOrClosed(desk, i, k, p);
      assert WillClose(cancelled, p) <==> WillClose(desk.(calls := desk.calls[i := Ended]), p);
  }
}
