/** Change and return requests: creation by the customer, approval, rejection and reception by the store. */
module Returns {
  import opened Wrappers
  import opened OrderStatus
  import opened Entities

  // ----- Eligibility -----

  /** Units of the item that one line of a request keeps from being requested again. */
  function BlockedLine(status: RequestStatus, line: RequestItem, item: nat): nat {
    if line.item != item then 0
    else match status
      case Solicitada => line.requested
      case Aprobada => line.approved.GetOr(0)
      case Resuelta => line.received.GetOr(0)
      case RechazadaPorTienda => 0
  }

  function BlockedByLines(status: RequestStatus, lines: seq<RequestItem>, n: nat, item: nat): nat
    requires n <= |lines|
  {
    if n == 0 then 0 else BlockedByLines(status, lines, n - 1, item) + BlockedLine(status, lines[n - 1], item)
  }

  function BlockedBy(q: Request, item: nat): nat {
    BlockedByLines(q.status, q.items, |q.items|, item)
  }

  /** Units of the item blocked by the first `n` requests. */
  function Blocked(requests: seq<Request>, n: nat, item: nat): nat
    requires n <= |requests|
  {
    if n == 0 then 0 else Blocked(requests, n - 1, item) + BlockedBy(requests[n - 1], item)
  }

  function Eligible(purchased: nat, blocked: nat): nat {
    if blocked <= purchased then purchased - blocked else 0
  }

  method EligibleUnits(item: nat, purchased: nat, requests: seq<Request>) returns (units: nat)
    ensures units == Eligible(purchased, Blocked(requests, |requests|, item))
  {
    var blocked := 0;
    for r := 0 to |requests|
      invariant blocked == Blocked(requests, r, item)
    {
      var request := requests[r];
      for l := 0 to |request.items|
        invariant blocked == Blocked(requests, r, item) + BlockedByLines(request.status, request.items, l, item)
      {
        var line := request.items[l];
        if line.item != item {
          continue;
        }
        if request.status == Solicitada {
          blocked := blocked + line.requested;
        } else if request.status == Aprobada {
          blocked := blocked + line.approved.GetOr(0);
        } else if request.status == Resuelta {
          blocked := blocked + line.received.GetOr(0);
        }
      }
    }
    units := if purchased - blocked > 0 then purchased - blocked else 0;
  }

  // ----- Creation -----

  datatype RequestedLine = RequestedLine(item: nat, quantity: nat)

  /** Is the order delivered and still inside the after-sale window? */
  function ReturnWindowError(order: Order, now: Time): Option<string> {
    if order.status != Entregado || order.deliveredAt == None then Some("ORDER_NOT_DELIVERED")
    else if order.deliveredAt.value + RETURN_WINDOW_MS <= now then Some("RETURN_WINDOW_EXPIRED")
    else None
  }

  predicate DistinctItems(lines: seq<RequestedLine>) {
    forall i, j :: 0 <= i < j < |lines| ==> lines[i].item != lines[j].item
  }

  /** What the request validator lets through: at least one line, each for one unit or more. */
  predicate ValidLines(lines: seq<RequestedLine>) {
    lines != [] && forall l <- lines :: l.quantity > 0
  }

  function EligibleOf(f: File, item: nat): nat
    requires item < |f.order.items|
  {
    Eligible(f.order.items[item].quantity, Blocked(f.requests, |f.requests|, item))
  }

  /** Why one line of the new request is refused. */
  function LineError(f: File, l: RequestedLine): Option<string> {
    if l.item >= |f.order.items| then Some("ITEM_NOT_IN_ORDER")
    else if l.quantity > f.order.items[l.item].quantity then Some("MORE_THAN_PURCHASED")
    else if l.quantity > EligibleOf(f, l.item) then Some("RETURN_ALREADY_REQUESTED")
    else None
  }

  function FirstLineError(f: File, lines: seq<RequestedLine>, n: nat): Option<string>
    requires n <= |lines|
  {
    if n == 0 then None
    else
      var before := FirstLineError(f, lines, n - 1);
      if before.Some? then before else LineError(f, lines[n - 1])
  }

  function CreationError(f: File, userId: nat, lines: seq<RequestedLine>, now: Time): Option<string> {
    if !ValidLines(lines) then Some("BAD_REQUEST")
    else if !DistinctItems(lines) then Some("REPEATED_ITEM")
    else if f.order.userId != userId then Some("NOT_FOUND")
    else
      var window := ReturnWindowError(f.order, now);
      if window.Some? then window
      else if forall i :: 0 <= i < |f.order.items| ==> EligibleOf(f, i) == 0 then Some("NO_ELIGIBLE_ITEMS")
      else FirstLineError(f, lines, |lines|)
  }

  function NewLines(lines: seq<RequestedLine>): seq<RequestItem> {
    seq(|lines|, i requires 0 <= i < |lines| => RequestItem(lines[i].item, lines[i].quantity, None, None, None, None))
  }

  function RequestCreated(f: File, userId: nat, kind: RequestKind, lines: seq<RequestedLine>, now: Time): Outcome<File> {
    match CreationError(f, userId, lines, now)
    case Some(code) => Refused(code)
    case None => Done(f.(requests := f.requests + [Request(kind, Solicitada, NewLines(lines), None)]))
  }

  method Validate(tx: Tables, userId: nat, lines: seq<RequestedLine>, now: Time) returns (error: Option<string>)
    ensures error == CreationError(tx.Contents(), userId, lines, now)
  {
    ghost var f := tx.Contents();
    if !ValidLines(lines) {
      return Some("BAD_REQUEST");
    }
    if !DistinctItems(lines) {
      return Some("REPEATED_ITEM");
    }
    if tx.order.userId != userId {
      return Some("NOT_FOUND");
    }
    error := ReturnWindowError(tx.order, now);
    if error.Some? {
      return;
    }
    var eligible: seq<nat> := [];
    for i := 0 to |tx.order.items|
      invariant |eligible| == i
      invariant forall j :: 0 <= j < i ==> eligible[j] == EligibleOf(f, j)
    {
      var units := EligibleUnits(i, tx.order.items[i].quantity, tx.requests);
      eligible := eligible + [units];
    }
    if forall i :: 0 <= i < |eligible| ==> eligible[i] == 0 {
      return Some("NO_ELIGIBLE_ITEMS");
    }
    for k := 0 to |lines|
      invariant FirstLineError(f, lines, k) == None
    {
      var requested := lines[k];
      FirstErrorStays(f, lines, k + 1);
      if requested.item >= |tx.order.items| {
        return Some("ITEM_NOT_IN_ORDER");
      }
      if requested.quantity > tx.order.items[requested.item].quantity {
        return Some("MORE_THAN_PURCHASED");
      }
      if requested.quantity > eligible[requested.item] {
        return Some("RETURN_ALREADY_REQUESTED");
      }
    }
    error := None;
  }

  lemma {:induction false} FirstErrorStays(f: File, lines: seq<RequestedLine>, n: nat)
    requires n <= |lines|
    ensures FirstLineError(f, lines, n).Some? ==> FirstLineError(f, lines, |lines|) == FirstLineError(f, lines, n)
    decreases |lines| - n
  {
    if n < |lines| {
      FirstErrorStays(f, lines, n + 1);
    }
  }

  method CreateRequest(tx: Tables, userId: nat, kind: RequestKind, lines: seq<RequestedLine>, now: Time) returns (error: Option<string>)
    modifies tx`requests
    ensures match RequestCreated(old(tx.Contents()), userId, kind, lines, now)
            case Done(f) => error == None && tx.Contents() == f
            case Refused(code) => error == Some(code) && tx.Contents() == old(tx.Contents())
  {
    error := Validate(tx, userId, lines, now);
    if error == None {
      tx.requests := tx.requests + [Request(kind, Solicitada, NewLines(lines), None)];
    }
  }

  // ----- Approval and rejection -----

  datatype Decision = Decision(item: nat, approved: nat)

  function Decided(decisions: seq<Decision>, item: nat): Option<nat> {
    if decisions == [] then None
    else if decisions[|decisions| - 1].item == item then Some(decisions[|decisions| - 1].approved)
    else Decided(decisions[..|decisions| - 1], item)
  }

  /** One decision per line of the request, for the same items. */
  predicate SameItems(items: seq<RequestItem>, decisions: seq<Decision>) {
    && |decisions| == |items|
    && (forall i, j :: 0 <= i < j < |decisions| ==> decisions[i].item != decisions[j].item)
    && (forall ri <- items :: Decided(decisions, ri.item).Some?)
  }

  /** The lines with what was approved of each, `n` of them already decided. */
  function ApprovedLines(items: seq<RequestItem>, decisions: seq<Decision>, n: nat): seq<RequestItem> {
    seq(|items|, i requires 0 <= i < |items| =>
      if i < n then items[i].(approved := Some(Decided(decisions, items[i].item).GetOr(0))) else items[i])
  }

  function ApprovalError(items: seq<RequestItem>, decisions: seq<Decision>, withReason: bool): Option<string> {
    if !SameItems(items, decisions) then Some("DECIDE_EVERY_ITEM")
    else
      var lines := ApprovedLines(items, decisions, |items|);
      if exists i :: 0 <= i < |lines| && lines[i].approved.value > lines[i].requested then Some("MORE_THAN_REQUESTED")
      else if forall i :: 0 <= i < |lines| ==> lines[i].approved.value == 0 then Some("NOTHING_APPROVED")
      else if (exists i :: 0 <= i < |lines| && lines[i].approved.value < lines[i].requested) && !withReason then Some("REASON_REQUIRED")
      else None
  }

  function RequestError(f: File, k: nat, expected: RequestStatus): Option<string> {
    if k >= |f.requests| then Some("NOT_FOUND")
    else if f.requests[k].status != expected then Some("RETURN_STATUS_CHANGED")
    else None
  }

  function RequestApproved(f: File, k: nat, decisions: seq<Decision>, withReason: bool): Outcome<File> {
    match RequestError(f, k, Solicitada)
    case Some(code) => Refused(code)
    case None =>
      var q := f.requests[k];
      match ApprovalError(q.items, decisions, withReason)
      case Some(code) => Refused(code)
      case None =>
        Done(f.(requests := f.requests[k := q.(status := Aprobada, items := ApprovedLines(q.items, decisions, |q.items|))]))
  }

  method Approve(tx: Tables, k: nat, decisions: seq<Decision>, withReason: bool) returns (error: Option<string>)
    modifies tx`requests
    ensures match RequestApproved(old(tx.Contents()), k, decisions, withReason)
            case Done(f) => error == None && tx.Contents() == f
            case Refused(code) => error == Some(code) && tx.Contents() == old(tx.Contents())
  {
    error := RequestError(tx.Contents(), k, Solicitada);
    if error.Some? {
      return;
    }
    var items := tx.requests[k].items;
    ghost var before := items;
    if !SameItems(items, decisions) {
      return Some("DECIDE_EVERY_ITEM");
    }
    var partial := false;
    for i := 0 to |items|
      invariant items == ApprovedLines(before, decisions, i)
      invariant forall j :: 0 <= j < i ==> items[j].approved.Some? && items[j].approved.value <= items[j].requested
      invariant partial ==> exists j :: 0 <= j < i && Decided(decisions, before[j].item).GetOr(0) < before[j].requested
      invariant !partial ==> forall j :: 0 <= j < i ==> Decided(decisions, before[j].item).GetOr(0) >= before[j].requested
    {
      assert before[i] in before;
      var approved := Decided(decisions, items[i].item).GetOr(0);
      if approved > items[i].requested {
        assert ApprovedLines(before, decisions, |before|)[i].approved.value > before[i].requested;
        return Some("MORE_THAN_REQUESTED");
      }
      if approved < items[i].requested {
        partial := true;
      }
      items := items[i := items[i].(approved := Some(approved))];
    }
    if forall i :: 0 <= i < |items| ==> items[i].approved.value == 0 {
      return Some("NOTHING_APPROVED");
    }
    assert partial <==> exists j :: 0 <= j < |items| && items[j].approved.value < items[j].requested by {
      if partial {
        var j :| 0 <= j < |before| && Decided(decisions, before[j].item).GetOr(0) < before[j].requested;
        assert items[j].approved.value < items[j].requested;
      }
    }
    if partial && !withReason {
      return Some("REASON_REQUIRED");
    }
    tx.requests := tx.requests[k := tx.requests[k].(status := Aprobada, items := items)];
    error := None;
  }

  function RejectedLines(items: seq<RequestItem>): seq<RequestItem> {
    seq(|items|, i requires 0 <= i < |items| => items[i].(approved := Some(0)))
  }

  function RequestRejected(f: File, k: nat): Outcome<File> {
    match RequestError(f, k, Solicitada)
    case Some(code) => Refused(code)
    case None =>
      var q := f.requests[k];
      Done(f.(requests := f.requests[k := q.(status := RechazadaPorTienda, items := RejectedLines(q.items))]))
  }

  method Reject(tx: Tables, k: nat) returns (error: Option<string>)
    modifies tx`requests
    ensures match RequestRejected(old(tx.Contents()), k)
            case Done(f) => error == None && tx.Contents() == f
            case Refused(code) => error == Some(code) && tx.Contents() == old(tx.Contents())
  {
    error := RequestError(tx.Contents(), k, Solicitada);
    if error.Some? {
      return;
    }
    tx.requests := tx.requests[k := tx.requests[k].(status := RechazadaPorTienda, items := RejectedLines(tx.requests[k].items))];
  }
}
