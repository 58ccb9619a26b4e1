/** What the store and the customer are answered about a change or a return: which requests are created, approved and rejected. */
module ReturnOutcomes {
  import opened Wrappers
  import opened OrderStatus
  import opened Entities
  import opened Returns
  import opened ReturnsInvariant
  import opened MoneyInvariant
  import opened Runs

  // ----- What is already requested -----

  /** Units of its item that a line keeps, by the status of its request: asked for, approved, received or, rejected, none. */
  function Keeps(status: RequestStatus, line: RequestItem): nat {
    match status
    case Solicitada => line.requested
    case Aprobada => if line.approved.Some? then line.approved.value else 0
    case Resuelta => if line.received.Some? then line.received.value else 0
    case RechazadaPorTienda => 0
  }

  lemma {:induction false} LinesBlock(status: RequestStatus, lines: seq<RequestItem>, n: nat, item: nat)
    requires n <= |lines| && forall i, j :: 0 <= i < j < |lines| ==> lines[i].item != lines[j].item
    ensures forall i :: 0 <= i < n && lines[i].item == item ==> BlockedByLines(status, lines, n, item) == Keeps(status, lines[i])
    ensures (forall i :: 0 <= i < n ==> lines[i].item != item) ==> BlockedByLines(status, lines, n, item) == 0
  {
    if n > 0 {
      LinesBlock(status, lines, n - 1, item);
    }
  }

  /** Units of the item kept by the first `n` requests. */
  function Kept(requests: seq<Request>, n: nat, item: nat): nat
    requires n <= |requests|
  {
    if n == 0 then 0 else Kept(requests, n - 1, item) + KeptBy(requests[n - 1].status, requests[n - 1].items, item)
  }

  function KeptBy(status: RequestStatus, lines: seq<RequestItem>, item: nat): nat {
    if lines == [] then 0 else if lines[0].item == item then Keeps(status, lines[0]) else KeptBy(status, lines[1..], item)
  }

  lemma {:induction false} KeptByOne(status: RequestStatus, lines: seq<RequestItem>, item: nat)
    requires forall i, j :: 0 <= i < j < |lines| ==> lines[i].item != lines[j].item
    ensures forall i :: 0 <= i < |lines| && lines[i].item == item ==> KeptBy(status, lines, item) == Keeps(status, lines[i])
    ensures (forall i :: 0 <= i < |lines| ==> lines[i].item != item) ==> KeptBy(status, lines, item) == 0
  {
    if lines != [] && lines[0].item != item {
      KeptByOne(status, lines[1..], item);
    }
  }

  /** No request has two lines of one item. */
  ghost predicate OneLinePerItem(requests: seq<Request>) {
    forall q <- requests :: DistinctLines(q.items)
  }

  lemma {:induction false} BlockedIsKept(requests: seq<Request>, n: nat, item: nat)
    requires n <= |requests| && OneLinePerItem(requests)
    ensures Blocked(requests, n, item) == Kept(requests, n, item)
  {
    if n > 0 {
      var q := requests[n - 1];
      assert q in requests;
      BlockedIsKept(requests, n - 1, item);
      LinesBlock(q.status, q.items, |q.items|, item);
      KeptByOne(q.status, q.items, item);
      if i :| 0 <= i < |q.items| && q.items[i].item == item {
        assert KeptBy(q.status, q.items, item) == Keeps(q.status, q.items[i]);
      }
    }
  }

  // ----- Creation -----

  /** Units of item `i` that can still be requested. */
  function Left(f: File, i: nat): int
    requires i < |f.order.items|
  {
    f.order.items[i].quantity - Kept(f.requests, |f.requests|, i)
  }

  /** Why one line cannot be requested. */
  function LineRefusal(f: File, l: RequestedLine): Option<string> {
    if l.item >= |f.order.items| then Some("ITEM_NOT_IN_ORDER")
    else if l.quantity > f.order.items[l.item].quantity then Some("MORE_THAN_PURCHASED")
    else if l.quantity > Left(f, l.item) then Some("RETURN_ALREADY_REQUESTED")
    else None
  }

  ghost predicate FirstLineRefused(f: File, lines: seq<RequestedLine>, i: nat, code: string) {
    i < |lines| && LineRefusal(f, lines[i]) == Some(code) && forall j :: 0 <= j < i ==> LineRefusal(f, lines[j]) == None
  }

  ghost predicate SomeLineRefused(f: File, lines: seq<RequestedLine>, code: string) {
    exists i :: FirstLineRefused(f, lines, i, code)
  }

  /** The request as the customer asked for it, in wait of the store. */
  predicate IsRequested(kind: RequestKind, lines: seq<RequestedLine>, q: Request) {
    && q == Request(kind, Solicitada, q.items, None) && |q.items| == |lines|
    && forall i :: 0 <= i < |lines| ==> q.items[i] == RequestItem(lines[i].item, lines[i].quantity, None, None, None, None)
  }

  /** The answer to the owner of a delivered order within ten days of its delivery, line by line; and to everyone else. */
  ghost predicate CreationAnswer(f: File, userId: nat, kind: RequestKind, lines: seq<RequestedLine>, now: Time, answer: Outcome<File>) {
    if lines == [] || exists i :: 0 <= i < |lines| && lines[i].quantity == 0 then answer == Refused("BAD_REQUEST")
    else if exists i, j :: 0 <= i < j < |lines| && lines[i].item == lines[j].item then answer == Refused("REPEATED_ITEM")
    else if userId != f.order.userId then answer == Refused("NOT_FOUND")
    else if f.order.status != Entregado || f.order.deliveredAt == None then answer == Refused("ORDER_NOT_DELIVERED")
    else if f.order.deliveredAt.value + 10 * 24 * 60 * 60 * 1000 <= now then answer == Refused("RETURN_WINDOW_EXPIRED")
    else if forall i :: 0 <= i < |f.order.items| ==> Left(f, i) <= 0 then answer == Refused("NO_ELIGIBLE_ITEMS")
    else match answer
      case Refused(code) => SomeLineRefused(f, lines, code)
      case Done(f') =>
        && (forall i :: 0 <= i < |lines| ==> LineRefusal(f, lines[i]) == None)
        && exists q :: IsRequested(kind, lines, q) && f' == f.(requests := f.requests + [q])
  }

  lemma RequestsAreApart(f: File)
    requires FileOk(f)
    ensures OneLinePerItem(f.requests)
  {
    var a := AfterSaleOf(f);
    forall q | q in f.requests ensures DistinctLines(q.items) {
      var k :| 0 <= k < |f.requests| && f.requests[k] == q;
      assert RequestOk(|a.bought|, a.requests[k]);
    }
  }

  lemma EligibleIsLeft(f: File, i: nat)
    requires OneLinePerItem(f.requests) && i < |f.order.items|
    ensures EligibleOf(f, i) == if Left(f, i) >= 0 then Left(f, i) else 0
  {
    BlockedIsKept(f.requests, |f.requests|, i);
  }

  lemma LineErrorIs(f: File, l: RequestedLine)
    requires OneLinePerItem(f.requests) && l.quantity > 0
    ensures LineError(f, l) == LineRefusal(f, l)
  {
    if l.item < |f.order.items| {
      EligibleIsLeft(f, l.item);
    }
  }

  lemma {:induction false} FirstLineErrorIs(f: File, lines: seq<RequestedLine>, n: nat)
    requires OneLinePerItem(f.requests) && n <= |lines| && forall l <- lines :: l.quantity > 0
    ensures match FirstLineError(f, lines, n)
            case Some(code) => SomeLineRefused(f, lines, code)
            case None => forall i :: 0 <= i < n ==> LineRefusal(f, lines[i]) == None
  {
    if n > 0 {
      FirstLineErrorIs(f, lines, n - 1);
      assert lines[n - 1] in lines;
      LineErrorIs(f, lines[n - 1]);
      if FirstLineError(f, lines, n - 1) == None && LineError(f, lines[n - 1]).Some? {
        assert FirstLineRefused(f, lines, n - 1, LineError(f, lines[n - 1]).value);
      }
    }
  }

  lemma {:induction false} WindowIsOpen(f: File, userId: nat, kind: RequestKind, lines: seq<RequestedLine>, now: Time)
    requires OneLinePerItem(f.requests) && ValidLines(lines) && Returns.DistinctItems(lines) && f.order.userId == userId
    requires ReturnWindowError(f.order, now) == None
    ensures CreationAnswer(f, userId, kind, lines, now, RequestCreated(f, userId, kind, lines, now))
  {
    forall i | 0 <= i < |f.order.items| ensures EligibleOf(f, i) == 0 <==> Left(f, i) <= 0 {
      EligibleIsLeft(f, i);
    }
    FirstLineErrorIs(f, lines, |lines|);
    assert forall i :: 0 <= i < |lines| ==> lines[i] in lines;
    assert IsRequested(kind, lines, Request(kind, Solicitada, NewLines(lines), None));
  }

  lemma {:induction false} CreationAnswers(f: File, userId: nat, kind: RequestKind, lines: seq<RequestedLine>, now: Time)
    requires OneLinePerItem(f.requests)
    ensures CreationAnswer(f, userId, kind, lines, now, RequestCreated(f, userId, kind, lines, now))
  {
    if !ValidLines(lines) {
      if lines != [] {
        var l :| l in lines && l.quantity == 0;
        var i :| 0 <= i < |lines| && lines[i] == l;
      }
    } else {
      assert forall i :: 0 <= i < |lines| ==> lines[i] in lines;
      if Returns.DistinctItems(lines) && f.order.userId == userId && ReturnWindowError(f.order, now) == None {
        WindowIsOpen(f, userId, kind, lines, now);
      }
    }
  }

  /** Over every reachable order. */
  lemma RequestsAreAnswered(sys: System, order: nat, userId: nat, kind: RequestKind, lines: seq<RequestedLine>, now: Time)
    requires IsReachable(sys) && order < |sys.files|
    ensures CreationAnswer(sys.files[order], userId, kind, lines, now, RequestCreated(sys.files[order], userId, kind, lines, now))
  {
    var f := Reachable(sys, order);
    RequestsAreApart(f);
    CreationAnswers(f, userId, kind, lines, now);
  }

  // ----- Approval and rejection -----

  predicate IsDecided(decisions: seq<Decision>, item: nat, approved: nat) {
    exists j :: 0 <= j < |decisions| && decisions[j] == Decision(item, approved)
  }

  /** One decision for each line, of the same items, and none twice. */
  ghost predicate DecidesEach(lines: seq<RequestItem>, decisions: seq<Decision>) {
    && |decisions| == |lines|
    && (forall i, j :: 0 <= i < j < |decisions| ==> decisions[i].item != decisions[j].item)
    && forall l <- lines :: IsAbout(decisions, l.item)
  }

  ghost predicate IsAbout(decisions: seq<Decision>, item: nat) {
    exists j :: 0 <= j < |decisions| && decisions[j].item == item
  }

  lemma {:induction false} DecidedIs(decisions: seq<Decision>, item: nat)
    requires forall i, j :: 0 <= i < j < |decisions| ==> decisions[i].item != decisions[j].item
    ensures match Decided(decisions, item)
            case Some(approved) => exists j :: 0 <= j < |decisions| && decisions[j] == Decision(item, approved)
            case None => forall j :: 0 <= j < |decisions| ==> decisions[j].item != item
    ensures forall j :: 0 <= j < |decisions| && decisions[j].item == item ==> Decided(decisions, item) == Some(decisions[j].approved)
  {
    if decisions != [] && decisions[|decisions| - 1].item != item {
      DecidedIs(decisions[..|decisions| - 1], item);
    }
  }

  /** Each line approved for what was decided of its item. */
  ghost predicate IsApproved(lines: seq<RequestItem>, decisions: seq<Decision>, approved: seq<RequestItem>) {
    && |approved| == |lines|
    && forall i :: 0 <= i < |lines| ==>
         approved[i].approved.Some? && IsDecided(decisions, lines[i].item, approved[i].approved.value)
         && approved[i] == lines[i].(approved := approved[i].approved)
  }

  /** The answer to an approval: every line decided, none for more than was asked, not all for nothing, and a reason for less. */
  ghost predicate ApprovalAnswer(f: File, k: nat, decisions: seq<Decision>, withReason: bool, answer: Outcome<File>) {
    if k >= |f.requests| then answer == Refused("NOT_FOUND")
    else if f.requests[k].status != Solicitada then answer == Refused("RETURN_STATUS_CHANGED")
    else if !DecidesEach(f.requests[k].items, decisions) then answer == Refused("DECIDE_EVERY_ITEM")
    else exists approved :: IsApproved(f.requests[k].items, decisions, approved) && ApprovalOf(f, k, approved, withReason, answer)
  }

  ghost predicate ApprovalOf(f: File, k: nat, approved: seq<RequestItem>, withReason: bool, answer: Outcome<File>)
    requires k < |f.requests|
  {
    if exists l <- approved :: l.approved.GetOr(0) > l.requested then answer == Refused("MORE_THAN_REQUESTED")
    else if forall l <- approved :: l.approved.GetOr(0) == 0 then answer == Refused("NOTHING_APPROVED")
    else if !withReason && exists l <- approved :: l.approved.GetOr(0) < l.requested then answer == Refused("REASON_REQUIRED")
    else answer == Done(f.(requests := f.requests[k := f.requests[k].(status := Aprobada, items := approved)]))
  }

  lemma {:induction false} LinesApproved(lines: seq<RequestItem>, decisions: seq<Decision>)
    requires DecidesEach(lines, decisions)
    ensures IsApproved(lines, decisions, ApprovedLines(lines, decisions, |lines|))
  {
    var approved := ApprovedLines(lines, decisions, |lines|);
    forall i | 0 <= i < |lines|
      ensures approved[i].approved.Some? && IsDecided(decisions, lines[i].item, approved[i].approved.value)
    {
      assert lines[i] in lines;
      DecidedIs(decisions, lines[i].item);
    }
  }

  lemma {:induction false} SameItemsIs(lines: seq<RequestItem>, decisions: seq<Decision>)
    ensures SameItems(lines, decisions) <==> DecidesEach(lines, decisions)
  {
    if forall i, j :: 0 <= i < j < |decisions| ==> decisions[i].item != decisions[j].item {
      forall l | l in lines ensures Decided(decisions, l.item).Some? <==> IsAbout(decisions, l.item) {
        DecidedIs(decisions, l.item);
      }
    }
  }

  lemma {:induction false} ApprovalAnswers(f: File, k: nat, decisions: seq<Decision>, withReason: bool)
    ensures ApprovalAnswer(f, k, decisions, withReason, RequestApproved(f, k, decisions, withReason))
  {
    if k < |f.requests| && f.requests[k].status == Solicitada {
      var lines := f.requests[k].items;
      SameItemsIs(lines, decisions);
      if DecidesEach(lines, decisions) {
        var approved := ApprovedLines(lines, decisions, |lines|);
        LinesApproved(lines, decisions);
        assert forall i :: 0 <= i < |approved| ==> approved[i] in approved;
        assert ApprovalOf(f, k, approved, withReason, RequestApproved(f, k, decisions, withReason));
      }
    }
  }

  /** A rejection leaves every line approved for nothing. */
  lemma {:induction false} RejectionAnswers(f: File, k: nat)
    ensures match RequestRejected(f, k)
            case Refused(code) =>
              if k >= |f.requests| then code == "NOT_FOUND" else f.requests[k].status != Solicitada && code == "RETURN_STATUS_CHANGED"
            case Done(f') =>
              && k < |f.requests| && f.requests[k].status == Solicitada && |f'.requests| == |f.requests|
              && f' == f.(requests := f.requests[k := f.requests[k].(status := RechazadaPorTienda, items := f'.requests[k].items)])
              && |f'.requests[k].items| == |f.requests[k].items|
              && forall i :: 0 <= i < |f.requests[k].items| ==> f'.requests[k].items[i] == f.requests[k].items[i].(approved := Some(0))
  {}
}
