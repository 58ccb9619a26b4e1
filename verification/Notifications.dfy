/** The delivery queue of emails: each row leased to one delivery at a time, with a bounded number of retries. */
module Notifications {
  import opened Wrappers

  type Time = nat

  datatype EmailStatus = Pendiente | Enviado | Fallido | Reintentando | Rebotado | OmitidoPorLimite

  /** `message`: the composed message, kept only while it still has to be delivered. */
  datatype EmailRow = EmailRow(status: EmailStatus, message: Option<string>, nextAttemptAt: Option<Time>, attempts: nat)

  const MINUTE_MS := 60 * 1000
  const DELIVERY_LEASE_MS := 10 * MINUTE_MS
  const RETRY_BACKOFF_MIN: seq<nat> := [5, 10, 20, 40, 80]

  predicate InQueue(s: EmailStatus) {
    s in {Pendiente, Reintentando}
  }

  /** How the mail service answered one delivery. */
  datatype Answer = Delivered | Bounced | Failed

  /** The columns that the outcome of a delivery writes; `attempts` is what the delivery had read. */
  function Recorded(row: EmailRow, attempts: nat, answer: Answer, now: Time): EmailRow {
    match answer
    case Delivered => row.(status := Enviado, message := None, nextAttemptAt := None)
    case Bounced => row.(status := Rebotado, message := None, nextAttemptAt := None)
    case Failed =>
      if attempts + 1 <= |RETRY_BACKOFF_MIN| then
        row.(status := Reintentando, attempts := attempts + 1, nextAttemptAt := Some(now + RETRY_BACKOFF_MIN[attempts] * MINUTE_MS))
      else
        row.(status := Fallido, attempts := attempts + 1, message := None, nextAttemptAt := None)
  }

  /** The row can be claimed by a run of the cron that started at `since`. */
  predicate IsDue(row: EmailRow, since: Time) {
    InQueue(row.status) && row.nextAttemptAt.Some? && row.nextAttemptAt.value <= since
  }

  function ClaimedRow(row: EmailRow, now: Time): EmailRow {
    row.(nextAttemptAt := Some(now + DELIVERY_LEASE_MS))
  }

  class EmailLog {
    var rows: seq<EmailRow>

    /** The row of a message accepted for sending, already leased to the delivery that starts right away. */
    method Accept(message: string, now: Time) returns (k: nat)
      modifies this
      ensures k == |old(rows)| && rows == old(rows) + [EmailRow(Pendiente, Some(message), Some(now + DELIVERY_LEASE_MS), 0)]
    {
      k := |rows|;
      rows := rows + [EmailRow(Pendiente, Some(message), Some(now + DELIVERY_LEASE_MS), 0)];
    }

    /** The conditional UPDATE that gives the row to one delivery. */
    method Claim(k: nat, since: Time, now: Time) returns (claimed: bool)
      modifies this
      ensures claimed <==> k < |old(rows)| && IsDue(old(rows)[k], since)
      ensures rows == if claimed then old(rows)[k := ClaimedRow(old(rows)[k], now)] else old(rows)
    {
      claimed := k < |rows| && InQueue(rows[k].status) && rows[k].nextAttemptAt.Some? && rows[k].nextAttemptAt.value <= since;
      if claimed {
        rows := rows[k := rows[k].(nextAttemptAt := Some(now + DELIVERY_LEASE_MS))];
      }
    }

    /** What a delivery that read `row` writes when it ends. */
    method Deliver(k: nat, row: EmailRow, answer: Answer, now: Time)
      requires k < |rows|
      modifies this
      ensures rows == old(rows)[k := if row.message == None then old(rows)[k].(status := Fallido, nextAttemptAt := None)
                                     else Recorded(old(rows)[k], row.attempts, answer, now)]
    {
      if row.message == None {
        rows := rows[k := rows[k].(status := Fallido, nextAttemptAt := None)];
        return;
      }
      match answer
      case Delivered => rows := rows[k := rows[k].(status := Enviado, message := None, nextAttemptAt := None)];
      case Bounced => rows := rows[k := rows[k].(status := Rebotado, message := None, nextAttemptAt := None)];
      case Failed => HandleTransientError(k, row.attempts, now);
    }

    method HandleTransientError(k: nat, read: nat, now: Time)
      requires k < |rows|
      modifies this
      ensures rows == old(rows)[k := Recorded(old(rows)[k], read, Failed, now)]
    {
      var attempts := read + 1;
      if attempts <= |RETRY_BACKOFF_MIN| {
        rows := rows[k := rows[k].(status := Reintentando, attempts := attempts,
                                   nextAttemptAt := Some(now + RETRY_BACKOFF_MIN[attempts - 1] * MINUTE_MS))];
      } else {
        rows := rows[k := rows[k].(status := Fallido, attempts := attempts, message := None, nextAttemptAt := None)];
      }
    }
  }

  // ----- Deliveries in progress -----

  /** A delivery that claimed the row until `until`; `read` once it has read it. */
  datatype Delivery = Delivery(row: nat, until: Time, read: Option<EmailRow>)

  /** `failures[k]`: transient failures of row `k` so far. */
  datatype Queue = Queue(rows: seq<EmailRow>, failures: seq<nat>, deliveries: seq<Delivery>, now: Time)

  datatype Action =
    | Tick(time: Time)
    | Accept(message: string)
    | Refuse(status: EmailStatus)
    | Claim(row: nat, since: Time)
    | Read(delivery: nat)
    | End(delivery: nat, answer: Answer)
    | Crash(delivery: nat)

  function Without(deliveries: seq<Delivery>, d: nat): seq<Delivery>
    requires d < |deliveries|
  {
    deliveries[..d] + deliveries[d + 1..]
  }

  function Ended(q: Queue, d: nat, answer: Answer): Queue
    requires d < |q.deliveries|
  {
    var delivery := q.deliveries[d];
    if delivery.read == None || delivery.row >= |q.rows| || delivery.row >= |q.failures| then q
    else
      var k, read := delivery.row, delivery.read.value;
      if read.message == None then
        q.(rows := q.rows[k := q.rows[k].(status := Fallido, nextAttemptAt := None)], deliveries := Without(q.deliveries, d))
      else
        Queue(q.rows[k := Recorded(q.rows[k], read.attempts, answer, q.now)],
              if answer == Failed then q.failures[k := q.failures[k] + 1] else q.failures,
              Without(q.deliveries, d), q.now)
  }

  function QueueStep(q: Queue, a: Action): Queue {
    match a
    case Tick(t) => if q.now <= t then q.(now := t) else q
    case Accept(message) =>
      var row := EmailRow(Pendiente, Some(message), Some(q.now + DELIVERY_LEASE_MS), 0);
      Queue(q.rows + [row], q.failures + [0], q.deliveries + [Delivery(|q.rows|, q.now + DELIVERY_LEASE_MS, Some(row))], q.now)
    case Refuse(status) =>
      if status in {Fallido, OmitidoPorLimite} then q.(rows := q.rows + [EmailRow(status, None, None, 0)], failures := q.failures + [0]) else q
    case Claim(k, since) =>
      if k < |q.rows| && since <= q.now && IsDue(q.rows[k], since) then
        q.(rows := q.rows[k := ClaimedRow(q.rows[k], q.now)],
           deliveries := q.deliveries + [Delivery(k, q.now + DELIVERY_LEASE_MS, None)])
      else q
    case Read(d) =>
      if d < |q.deliveries| && q.deliveries[d].read == None && q.deliveries[d].row < |q.rows| then
        q.(deliveries := q.deliveries[d := q.deliveries[d].(read := Some(q.rows[q.deliveries[d].row]))])
      else q
    case End(d, answer) => if d < |q.deliveries| then Ended(q, d, answer) else q
    case Crash(d) => if d < |q.deliveries| then q.(deliveries := Without(q.deliveries, d)) else q
  }

  function QueueRun(q: Queue, actions: seq<Action>): Queue
    decreases |actions|
  {
    if actions == [] then q else QueueStep(QueueRun(q, actions[..|actions| - 1]), actions[|actions| - 1])
  }

  const EMPTY := Queue([], [], [], 0)

  /** Every delivery in progress is inside its lease. */
  predicate InTime(q: Queue) {
    forall d :: 0 <= d < |q.deliveries| ==> q.now < q.deliveries[d].until
  }

  /** No delivery outlives its lease along the run. */
  predicate RunsInTime(q: Queue, actions: seq<Action>)
    decreases |actions|
  {
    InTime(QueueRun(q, actions)) && (actions != [] ==> RunsInTime(q, actions[..|actions| - 1]))
  }

  /** The queue after some run in which no delivery outlives its lease. */
  ghost predicate IsReachableInTime(q: Queue) {
    exists actions :: RunsInTime(EMPTY, actions) && q == QueueRun(EMPTY, actions)
  }

  // ----- The invariant -----

  /** Queued exactly while the message is there; the failures are counted, and at most six. */
  ghost predicate RowOk(row: EmailRow, failures: nat) {
    && (InQueue(row.status) <==> row.message.Some?)
    && (InQueue(row.status) ==> row.nextAttemptAt.Some? && row.attempts <= |RETRY_BACKOFF_MIN|)
    && row.attempts == failures <= |RETRY_BACKOFF_MIN| + 1
    && (row.status == Reintentando ==> row.attempts > 0) && (row.status == Pendiente ==> row.attempts == 0)
  }

  /** A delivery in progress is inside its lease, and what it read is what the row says. */
  ghost predicate DeliveryOk(q: Queue, d: Delivery) {
    && d.row < |q.rows| && InQueue(q.rows[d.row].status) && q.now < d.until
    && q.rows[d.row].nextAttemptAt == Some(d.until)
    && (d.read.Some? ==> d.read.value == q.rows[d.row])
  }

  ghost predicate QueueOk(q: Queue) {
    && |q.failures| == |q.rows|
    && (forall k :: 0 <= k < |q.rows| ==> RowOk(q.rows[k], q.failures[k]))
    && (forall d :: 0 <= d < |q.deliveries| ==> DeliveryOk(q, q.deliveries[d]))
    && (forall d, e :: 0 <= d < e < |q.deliveries| ==> q.deliveries[d].row != q.deliveries[e].row)
  }

  lemma ClaimKeepsQueue(q: Queue, k: nat, since: Time)
    requires QueueOk(q)
    ensures QueueOk(QueueStep(q, Claim(k, since)))
  {
    var q' := QueueStep(q, Claim(k, since));
    if q' != q {
      forall d | 0 <= d < |q.deliveries| ensures q.deliveries[d].row != k && DeliveryOk(q', q'.deliveries[d]) {
        assert DeliveryOk(q, q.deliveries[d]);
      }
    }
  }

  lemma EndKeepsQueue(q: Queue, d: nat, answer: Answer)
    requires QueueOk(q) && d < |q.deliveries|
    ensures QueueOk(Ended(q, d, answer))
  {
    var q' := Ended(q, d, answer);
    assert DeliveryOk(q, q.deliveries[d]);
    if q' != q {
      forall e | 0 <= e < |q'.deliveries| ensures DeliveryOk(q', q'.deliveries[e]) {
        var was := if e < d then e else e + 1;
        assert DeliveryOk(q, q.deliveries[was]) && q.deliveries[was].row != q.deliveries[d].row;
      }
    }
  }

  lemma ActionKeepsQueue(q: Queue, a: Action)
    requires QueueOk(q) && InTime(QueueStep(q, a))
    ensures QueueOk(QueueStep(q, a))
  {
    var q' := QueueStep(q, a);
    match a
    case Claim(k, since) => ClaimKeepsQueue(q, k, since);
    case End(d, answer) => if d < |q.deliveries| { EndKeepsQueue(q, d, answer); }
    case Accept(_) =>
      forall d | 0 <= d < |q.deliveries| ensures DeliveryOk(q', q'.deliveries[d]) { assert DeliveryOk(q, q.deliveries[d]); }
    case _ =>
      forall d | 0 <= d < |q.deliveries| ensures DeliveryOk(q, q.deliveries[d]) {}
  }

  lemma {:induction false} RunKeepsQueue(actions: seq<Action>)
    requires RunsInTime(EMPTY, actions)
    ensures QueueOk(QueueRun(EMPTY, actions))
    decreases |actions|
  {
    if actions != [] {
      RunKeepsQueue(actions[..|actions| - 1]);
      ActionKeepsQueue(QueueRun(EMPTY, actions[..|actions| - 1]), actions[|actions| - 1]);
    }
  }

  lemma ReachableQueueIsOk(q: Queue)
    requires IsReachableInTime(q)
    ensures QueueOk(q)
  {
    var actions :| RunsInTime(EMPTY, actions) && q == QueueRun(EMPTY, actions);
    RunKeepsQueue(actions);
  }

  // ----- Results over every run whose deliveries end within their lease -----

  /** A row is pending or retrying exactly while it holds its message; it is out of the queue after six transient failures. */
  lemma QueuedWhileHeld(q: Queue, k: nat)
    requires IsReachableInTime(q) && k < |q.rows|
    ensures |q.failures| == |q.rows|
    ensures InQueue(q.rows[k].status) <==> q.rows[k].message.Some?
    ensures q.failures[k] <= 6 && (q.failures[k] == 6 ==> !InQueue(q.rows[k].status))
  {
    ReachableQueueIsOk(q);
    assert RowOk(q.rows[k], q.failures[k]);
  }

  /** Two deliveries of the same row are never in progress at once. */
  lemma OneDeliveryPerRow(q: Queue, d: nat, e: nat)
    requires IsReachableInTime(q) && d < e < |q.deliveries|
    ensures q.deliveries[d].row != q.deliveries[e].row
  {
    ReachableQueueIsOk(q);
  }

  // ----- What each delivery leaves -----

  /** The wait before the next try: five minutes, and twice as long each time. */
  function Wait(failures: nat): nat {
    if failures == 0 then 5 * 60 * 1000 else 2 * Wait(failures - 1)
  }

  lemma {:induction false} WaitsDouble(n: nat)
    requires n < 5
    ensures Wait(n) == RETRY_BACKOFF_MIN[n] * MINUTE_MS
  {
    if n > 0 {
      WaitsDouble(n - 1);
    }
  }

  /** What the row says after the answer of the mail service: sent, bounced, to be tried again, or failed at the sixth time. */
  function Answered(row: EmailRow, failures: nat, answer: Answer, now: Time): EmailRow {
    match answer
    case Delivered => EmailRow(Enviado, None, None, failures)
    case Bounced => EmailRow(Rebotado, None, None, failures)
    case Failed =>
      if failures < 5 then EmailRow(Reintentando, row.message, Some(now + Wait(failures)), failures + 1)
      else EmailRow(Fallido, None, None, failures + 1)
  }

  /** In time, a delivery that read its row writes the answer it got, on that row and no other. */
  lemma AnswersAreWritten(q: Queue, d: nat, answer: Answer)
    requires IsReachableInTime(q) && d < |q.deliveries| && q.deliveries[d].read.Some?
    ensures var (k, q') := (q.deliveries[d].row, QueueStep(q, End(d, answer)));
            && k < |q.rows| == |q.failures| && q'.deliveries == q.deliveries[..d] + q.deliveries[d + 1..]
            && q'.rows == q.rows[k := Answered(q.rows[k], q.failures[k], answer, q.now)]
  {
    ReachableQueueIsOk(q);
    var k := q.deliveries[d].row;
    assert DeliveryOk(q, q.deliveries[d]) && RowOk(q.rows[k], q.failures[k]);
    if q.failures[k] < 5 {
      WaitsDouble(q.failures[k]);
    }
  }

  /** A claim leases a row for ten minutes, exactly when it is in the queue and was due when the cron run started. */
  lemma ClaimsExactly(q: Queue, k: nat, since: Time)
    ensures QueueStep(q, Claim(k, since))
            == if k < |q.rows| && since <= q.now && q.rows[k].status in {Pendiente, Reintentando}
                  && q.rows[k].nextAttemptAt.Some? && q.rows[k].nextAttemptAt.value <= since
               then q.(rows := q.rows[k := q.rows[k].(nextAttemptAt := Some(q.now + 10 * 60 * 1000))],
                       deliveries := q.deliveries + [Delivery(k, q.now + 10 * 60 * 1000, None)])
               else q
  {}

  /** In time, whatever left the queue stays as it ended. */
  lemma EndedStays(q: Queue, a: Action, k: nat)
    requires IsReachableInTime(q) && k < |q.rows| && q.rows[k].status !in {Pendiente, Reintentando}
    ensures k < |QueueStep(q, a).rows| && QueueStep(q, a).rows[k] == q.rows[k]
  {
    ReachableQueueIsOk(q);
    if a.End? && a.delivery < |q.deliveries| {
      assert DeliveryOk(q, q.deliveries[a.delivery]);
    }
  }

  // ----- What happens beyond the lease -----

  /** The queue at time `t`, after a run of the cron that started at `since` tried to claim row `k`. */
  function ClaimedAt(q: Queue, k: nat, since: Time, t: Time): Queue {
    QueueStep(QueueStep(q, Tick(t)), Claim(k, since))
  }

  /** A claim starts a second delivery of a row exactly when the one in progress has outlived its lease by then. */
  lemma SecondDeliveryIffLate(q: Queue, d: nat, since: Time, t: Time)
    requires IsReachableInTime(q) && d < |q.deliveries| && q.now <= t && since <= t
    ensures var k := q.deliveries[d].row;
            ClaimedAt(q, k, since, t).deliveries
            == q.deliveries + if q.deliveries[d].until <= since then [Delivery(k, t + DELIVERY_LEASE_MS, None)] else []
  {
    ReachableQueueIsOk(q);
    assert DeliveryOk(q, q.deliveries[d]);
  }

  /** The second delivery sends the message, and then the late one fails. */
  function Overlapped(q: Queue, d: nat, t: Time): Queue
    requires d < |q.deliveries|
  {
    var last := |q.deliveries|;
    QueueStep(QueueStep(QueueStep(ClaimedAt(q, q.deliveries[d].row, t, t), Read(last)), End(last, Delivered)), End(d, Failed))
  }

  /** A late failure puts a message already sent back in the queue, with nothing to send, exactly while it had retries left. */
  lemma LateFailureLosesMessage(q: Queue, d: nat, t: Time)
    requires IsReachableInTime(q) && d < |q.deliveries| && q.deliveries[d].read.Some? && q.deliveries[d].until <= t
    ensures var k, late := q.deliveries[d].row, Overlapped(q, d, t);
            && k < |late.rows| && k < |q.failures| && late.rows[k].message == None
            && (InQueue(late.rows[k].status) <==> q.failures[k] < |RETRY_BACKOFF_MIN|)
  {
    ReachableQueueIsOk(q);
    var k, last := q.deliveries[d].row, |q.deliveries|;
    assert DeliveryOk(q, q.deliveries[d]) && RowOk(q.rows[k], q.failures[k]);
    SecondDeliveryIffLate(q, d, t, t);
    var claimed := ClaimedAt(q, k, t, t);
    var read := QueueStep(claimed, Read(last));
    var sent := QueueStep(read, End(last, Delivered));
    assert read.deliveries[last].read == Some(claimed.rows[k]) && read.deliveries[d] == q.deliveries[d];
    assert sent.deliveries[d] == q.deliveries[d];
  }

  lemma RunGrows(actions: seq<Action>, a: Action)
    ensures QueueRun(EMPTY, actions + [a]) == QueueStep(QueueRun(EMPTY, actions), a)
    ensures RunsInTime(EMPTY, actions + [a]) <==> InTime(QueueRun(EMPTY, actions + [a])) && RunsInTime(EMPTY, actions)
  {
    assert (actions + [a])[..|actions|] == actions;
  }

  const ACCEPTED := EmailRow(Pendiente, Some("mail"), Some(DELIVERY_LEASE_MS), 0)
  const STARTED := Queue([ACCEPTED], [0], [Delivery(0, DELIVERY_LEASE_MS, Some(ACCEPTED))], 0)

  const LEASED := ACCEPTED.(nextAttemptAt := Some(2 * DELIVERY_LEASE_MS))
  const SENT := EmailRow(Enviado, None, None, 0)
  const LATE := Delivery(0, DELIVERY_LEASE_MS, Some(ACCEPTED))

  /** The second delivery starts when the first one outlives its lease, reads the row and sends the message; then the first one fails. */
  lemma LateSteps()
    ensures ClaimedAt(STARTED, 0, DELIVERY_LEASE_MS, DELIVERY_LEASE_MS)
            == Queue([LEASED], [0], [LATE, Delivery(0, 2 * DELIVERY_LEASE_MS, None)], DELIVERY_LEASE_MS)
    ensures QueueStep(Queue([LEASED], [0], [LATE, Delivery(0, 2 * DELIVERY_LEASE_MS, None)], DELIVERY_LEASE_MS), Read(1))
            == Queue([LEASED], [0], [LATE, Delivery(0, 2 * DELIVERY_LEASE_MS, Some(LEASED))], DELIVERY_LEASE_MS)
    ensures QueueStep(Queue([LEASED], [0], [LATE, Delivery(0, 2 * DELIVERY_LEASE_MS, Some(LEASED))], DELIVERY_LEASE_MS), End(1, Delivered))
            == Queue([SENT], [0], [LATE], DELIVERY_LEASE_MS)
    ensures QueueStep(Queue([SENT], [0], [LATE], DELIVERY_LEASE_MS), End(0, Failed))
            == Queue([EmailRow(Reintentando, None, Some(DELIVERY_LEASE_MS + 5 * MINUTE_MS), 1)], [1], [], DELIVERY_LEASE_MS)
  {}

  /** Such a run: a message accepted and sent that ends up retrying, with nothing to send. */
  lemma LateRunLosesMessage() returns (actions: seq<Action>)
    ensures var q := QueueRun(EMPTY, actions);
            |q.rows| == 1 && q.rows[0].status == Reintentando && q.rows[0].message == None && q.deliveries == []
    ensures !RunsInTime(EMPTY, actions)
  {
    LateSteps();
    actions := [Accept("mail")];
    RunGrows([], Accept("mail"));
    assert [] + [Accept("mail")] == actions;
    assert QueueRun(EMPTY, actions) == STARTED;
    RunGrows(actions, Tick(DELIVERY_LEASE_MS));
    actions := actions + [Tick(DELIVERY_LEASE_MS)];
    assert !InTime(QueueRun(EMPTY, actions)) by { assert QueueRun(EMPTY, actions).deliveries[0].until == DELIVERY_LEASE_MS; }
    RunGrows(actions, Claim(0, DELIVERY_LEASE_MS));
    actions := actions + [Claim(0, DELIVERY_LEASE_MS)];
    RunGrows(actions, Read(1));
    actions := actions + [Read(1)];
    RunGrows(actions, End(1, Delivered));
    actions := actions + [End(1, Delivered)];
    RunGrows(actions, End(0, Failed));
    actions := actions + [End(0, Failed)];
  }
}
