/** Reception of a returned product: stock back, refund or replacement, and the order marked as returned when all came back. */
module Reception {
  import opened Wrappers
  import opened OrderStatus
  import opened Stock
  import opened Entities
  import opened StockReservation
  import opened OrdersService
  import opened PaymentLedger
  import opened Returns

  /** What the administrator registers for one product of the request. */
  datatype Input = Input(item: nat, quantity: nat, condition: Condition, refund: bool, replacement: Option<VariantId>)

  /** The last input for the item, if any. */
  function InputFor(inputs: seq<Input>, item: nat): Option<Input> {
    if inputs == [] then None
    else if inputs[|inputs| - 1].item == item then Some(inputs[|inputs| - 1])
    else InputFor(inputs[..|inputs| - 1], item)
  }

  function QuantityFor(inputs: seq<Input>, item: nat): nat {
    match InputFor(inputs, item) case None => 0 case Some(i) => i.quantity
  }

  function ReceptionError(items: seq<RequestItem>, inputs: seq<Input>): Option<string> {
    if exists i :: 0 <= i < |items| && items[i].approved.GetOr(0) > 0 && InputFor(inputs, items[i].item) == None then Some("MISSING_ITEM")
    else if forall i :: 0 <= i < |items| ==> QuantityFor(inputs, items[i].item) == 0 then Some("NOTHING_RECEIVED")
    else if exists i :: 0 <= i < |items| && QuantityFor(inputs, items[i].item) > items[i].approved.GetOr(0) then Some("MORE_THAN_APPROVED")
    else None
  }

  /** A return in good condition is always refunded; a damaged one, if the administrator says so. */
  function ReceivedLine(kind: RequestKind, ri: RequestItem, input: Option<Input>): RequestItem {
    var quantity := if input.Some? then input.value.quantity else 0;
    var condition := if quantity > 0 then Some(input.value.condition) else None;
    ri.(received := Some(quantity),
        condition := condition,
        refundApproved := if kind == DevolucionProducto && quantity > 0 then Some(condition == Some(Ok) || input.value.refund) else None)
  }

  /** The lines of the request, the first `n` with what was received. */
  function ReceivedLines(q: Request, inputs: seq<Input>, n: nat): seq<RequestItem> {
    seq(|q.items|, i requires 0 <= i < |q.items| =>
      if i < n then ReceivedLine(q.kind, q.items[i], InputFor(inputs, q.items[i].item)) else q.items[i])
  }

  function ArrivalOf(order: Order, ri: RequestItem, inputs: seq<Input>): seq<Arrival> {
    match InputFor(inputs, ri.item)
    case Some(input) =>
      if input.quantity > 0 && ri.item < |order.items|
      then [Arrival(Line(order.items[ri.item].variant, input.quantity), input.condition == Danado)] else []
    case None => []
  }

  /** What goes back to the shelf, out of the first `n` lines. */
  function Arrivals(order: Order, items: seq<RequestItem>, inputs: seq<Input>, n: nat): seq<Arrival>
    requires n <= |items|
  {
    if n == 0 then [] else Arrivals(order, items, inputs, n - 1) + ArrivalOf(order, items[n - 1], inputs)
  }

  function PriceOf(items: seq<Item>, item: nat): Cents {
    if item < |items| then items[item].unitPrice else 0
  }

  /** Cents to give back for the first `n` lines: products only, at the price paid. */
  function RefundAmount(bought: seq<Item>, items: seq<RequestItem>, n: nat): Cents
    requires n <= |items|
  {
    if n == 0 then 0
    else RefundAmount(bought, items, n - 1)
         + if items[n - 1].refundApproved == Some(true) then PriceOf(bought, items[n - 1].item) * items[n - 1].received.GetOr(0) else 0
  }

  /** Units of the item received by one request. */
  function ReceivedUnits(items: seq<RequestItem>, n: nat, item: nat): nat
    requires n <= |items|
  {
    if n == 0 then 0
    else ReceivedUnits(items, n - 1, item) + if items[n - 1].item == item then items[n - 1].received.GetOr(0) else 0
  }

  /** Units of the item that came back in the first `n` requests, through resolved returns. */
  function ReturnedUnits(requests: seq<Request>, n: nat, item: nat): nat
    requires n <= |requests|
  {
    if n == 0 then 0
    else
      var q := requests[n - 1];
      ReturnedUnits(requests, n - 1, item)
      + if q.kind == DevolucionProducto && q.status == Resuelta then ReceivedUnits(q.items, |q.items|, item) else 0
  }

  /** Everything that was bought came back. */
  predicate AllReturned(order: Order, requests: seq<Request>) {
    forall i :: 0 <= i < |order.items| ==> ReturnedUnits(requests, |requests|, i) >= order.items[i].quantity
  }

  /** The replacements of an exchange, line by line: the stock left, and the first error. */
  datatype Replacing = Replacing(shelf: Shelf, error: Option<string>)

  function ReplaceOne(done: Replacing, ri: RequestItem, inputs: seq<Input>, options: map<nat, set<VariantId>>): Replacing {
    match InputFor(inputs, ri.item)
    case None => done
    case Some(input) =>
      if done.error.Some? || input.quantity == 0 then done
      else if input.replacement == None || ri.item !in options || input.replacement.value !in options[ri.item] then
        done.(error := Some("CHOOSE_REPLACEMENT"))
      else
        var line := Line(input.replacement.value, input.quantity);
        if Covers(done.shelf.levels, line, false) then Replacing(MoveTotal(done.shelf, Cambio, line, 0 - line.quantity), None)
        else done.(error := Some("REPLACEMENT_OUT_OF_STOCK"))
  }

  function Replaced(shelf: Shelf, items: seq<RequestItem>, inputs: seq<Input>, options: map<nat, set<VariantId>>, n: nat): Replacing
    requires n <= |items|
  {
    if n == 0 then Replacing(shelf, None) else ReplaceOne(Replaced(shelf, items, inputs, options, n - 1), items[n - 1], inputs, options)
  }

  /** The refund of what was received, or the note that it could not be registered. */
  function ReturnRefunded(f: File, amount: Cents): File {
    if amount == 0 then f
    else if ChosenPayment(f, amount, None) == None then Noted(f, RefundNotRegistered)
    else Requested(f, amount, CU22, None)
  }

  /** The request resolved with what was received, and its refund row, if one was registered. */
  function Resolved(f: File, k: nat, lines: seq<RequestItem>, refund: Option<nat>): File
    requires k < |f.requests|
  {
    f.(requests := f.requests[k := f.requests[k].(status := Resuelta, items := lines, refund := refund)])
  }

  /** A return: refund, and the order marked as returned if nothing is left with the customer. */
  function ReturnResolved(f: File, k: nat, lines: seq<RequestItem>, now: Time): File
    requires k < |f.requests|
  {
    var refunded := ReturnRefunded(f, RefundAmount(f.order.items, lines, |lines|));
    var refund := if |refunded.refunds| > |f.refunds| then Some(|f.refunds|) else None;
    var resolved := Resolved(refunded, k, lines, refund);
    if f.order.status == Entregado && AllReturned(f.order, resolved.requests) then Moved(resolved, Devuelto, FullReturn(k), now)
    else resolved
  }

  function RequestReceived(r: Rows, k: nat, inputs: seq<Input>, options: map<nat, set<VariantId>>, now: Time): Outcome<Rows> {
    match RequestError(r.file, k, Aprobada)
    case Some(code) => Refused(code)
    case None =>
      var q := r.file.requests[k];
      match ReceptionError(q.items, inputs)
      case Some(code) => Refused(code)
      case None =>
        var arrivals := Arrivals(r.file.order, q.items, inputs, |q.items|);
        var shelf := ReturnedToShelf(Shelf(r.stock, r.file.movements), arrivals, |arrivals|);
        if q.kind == DevolucionProducto then
          Done(OrderRows(ReturnResolved(r.file.(movements := shelf.movements), k, ReceivedLines(q, inputs, |q.items|), now), shelf.levels))
        else
          var replaced := Replaced(shelf, q.items, inputs, options, |q.items|);
          match replaced.error
          case Some(code) => Refused(code)
          case None =>
            var resolved := Resolved(r.file, k, ReceivedLines(q, inputs, |q.items|), None);
            Done(OrderRows(Noted(resolved.(movements := replaced.shelf.movements), ReplacementPending(k)), replaced.shelf.levels))
  }

  /** A reception writes the order only to mark it as returned. */
  lemma ReceptionWritesOrder(r: Rows, k: nat, inputs: seq<Input>, options: map<nat, set<VariantId>>, now: Time)
    requires RequestReceived(r, k, inputs, options, now).Done?
    ensures var f, f' := r.file, RequestReceived(r, k, inputs, options, now).value.file;
            || (f'.order == f.order && f'.history == f.history)
            || (f.order.status == Entregado && f'.order == f.order.(status := Devuelto, cause := None)
                && f'.history == f.history + [Entry(Some(Entregado), Devuelto, FullReturn(k))])
  {}

  /** "Returned" only if everything bought came back; `k` is the request being resolved. */
  method MarkReturnedIfComplete(tx: Tables, k: nat, current: Request, now: Time)
    requires k < |tx.requests| && tx.requests[k].status != Resuelta
    requires current.kind == DevolucionProducto && current.status == Resuelta
    modifies tx`order, tx`history
    ensures tx.Contents()
            == var f := old(tx.Contents());
               if f.order.status == Entregado && AllReturned(f.order, f.requests[k := current])
               then Moved(f, Devuelto, FullReturn(k), now) else f
  {
    if tx.order.status != Entregado {
      return;
    }
    var returnedByItem: map<nat, nat> := map[];
    ghost var requests := tx.requests[k := current];
    for r := 0 to |tx.requests|
      invariant requests == tx.requests[k := current]
      invariant forall item :: (if item in returnedByItem then returnedByItem[item] else 0) == ReturnedUnits(requests, r, item)
      invariant tx.View() == old(tx.View())
    {
      var request := if r == k then current else tx.requests[r];
      if request.kind == DevolucionProducto && request.status == Resuelta {
        returnedByItem := AddReceived(returnedByItem, request.items);
      }
    }
    if forall i :: 0 <= i < |tx.order.items| ==> (if i in returnedByItem then returnedByItem[i] else 0) >= tx.order.items[i].quantity {
      var ok := ChangeStatus(tx, Devuelto, FullReturn(k), now);
      assert ok;
    }
  }

  method AddReceived(returnedByItem: map<nat, nat>, items: seq<RequestItem>) returns (total: map<nat, nat>)
    ensures forall item :: (if item in total then total[item] else 0)
                           == (if item in returnedByItem then returnedByItem[item] else 0) + ReceivedUnits(items, |items|, item)
  {
    total := returnedByItem;
    for l := 0 to |items|
      invariant forall item :: (if item in total then total[item] else 0)
                               == (if item in returnedByItem then returnedByItem[item] else 0) + ReceivedUnits(items, l, item)
    {
      var sofar := if items[l].item in total then total[items[l].item] else 0;
      total := total[items[l].item := sofar + items[l].received.GetOr(0)];
    }
  }

  /** One replacement per line received; on an error the caller's transaction is dropped. */
  method CreateReplacements(tx: Tables, items: seq<RequestItem>, inputs: seq<Input>, options: map<nat, set<VariantId>>)
    returns (error: Option<string>)
    modifies tx`stock, tx`movements
    ensures var replaced := Replaced(Shelf(old(tx.stock), old(tx.movements)), items, inputs, options, |items|);
            error == replaced.error && Shelf(tx.stock, tx.movements) == replaced.shelf
  {
    ghost var before := Shelf(tx.stock, tx.movements);
    for l := 0 to |items|
      invariant Replaced(before, items, inputs, options, l) == Replacing(Shelf(tx.stock, tx.movements), None)
    {
      ReplacingStops(before, items, inputs, options, l + 1);
      var input := InputFor(inputs, items[l].item);
      if input == None || input.value.quantity == 0 {
        continue;
      }
      if input.value.replacement == None || items[l].item !in options || input.value.replacement.value !in options[items[l].item] {
        return Some("CHOOSE_REPLACEMENT");
      }
      var taken := TakeForReplacement(tx, Line(input.value.replacement.value, input.value.quantity));
      if !taken {
        return Some("REPLACEMENT_OUT_OF_STOCK");
      }
    }
    error := None;
  }

  lemma {:induction false} ReplacingStops(shelf: Shelf, items: seq<RequestItem>, inputs: seq<Input>, options: map<nat, set<VariantId>>, n: nat)
    requires n <= |items|
    ensures var sofar := Replaced(shelf, items, inputs, options, n);
            sofar.error.Some? ==> Replaced(shelf, items, inputs, options, |items|) == sofar
    decreases |items| - n
  {
    if n < |items| {
      ReplacingStops(shelf, items, inputs, options, n + 1);
    }
  }

  /** What was received, line by line: what goes back to the shelf, and the lines updated. */
  method RegisterReceived(order: Order, q: Request, inputs: seq<Input>) returns (arrivals: seq<Arrival>, lines: seq<RequestItem>)
    ensures arrivals == Arrivals(order, q.items, inputs, |q.items|)
    ensures lines == ReceivedLines(q, inputs, |q.items|)
  {
    arrivals, lines := [], q.items;
    for l := 0 to |q.items|
      invariant arrivals == Arrivals(order, q.items, inputs, l)
      invariant lines == ReceivedLines(q, inputs, l)
    {
      arrivals := arrivals + ArrivalOf(order, q.items[l], inputs);
      lines := lines[l := ReceivedLine(q.kind, q.items[l], InputFor(inputs, q.items[l].item))];
    }
  }

  method CentsToRefund(bought: seq<Item>, lines: seq<RequestItem>) returns (amount: Cents)
    ensures amount == RefundAmount(bought, lines, |lines|)
  {
    amount := 0;
    for l := 0 to |lines|
      invariant amount == RefundAmount(bought, lines, l)
    {
      if lines[l].refundApproved == Some(true) {
        amount := amount + PriceOf(bought, lines[l].item) * lines[l].received.GetOr(0);
      }
    }
  }

  method RefundReturn(tx: Tables, amount: Cents) returns (refund: Option<nat>)
    modifies tx`refunds, tx`notes
    ensures tx.Contents() == ReturnRefunded(old(tx.Contents()), amount)
    ensures refund == if |tx.refunds| > |old(tx.refunds)| then Some(|old(tx.refunds)|) else None
  {
    refund := None;
    if amount > 0 {
      refund := RequestRefund(tx, amount, CU22, None);
      if refund == None {
        AppendInternalNote(tx, RefundNotRegistered);
      }
    }
  }

  method ResolveReturn(tx: Tables, k: nat, lines: seq<RequestItem>, amount: Cents, now: Time)
    requires k < |tx.requests| && tx.requests[k].kind == DevolucionProducto && tx.requests[k].status == Aprobada
    requires amount == RefundAmount(tx.order.items, lines, |lines|)
    modifies tx`order, tx`history, tx`refunds, tx`notes, tx`requests
    ensures tx.Contents() == ReturnResolved(old(tx.Contents()), k, lines, now)
  {
    var refund := RefundReturn(tx, amount);
    var resolved := tx.requests[k].(status := Resuelta, items := lines, refund := refund);
    MarkReturnedIfComplete(tx, k, resolved, now);
    tx.requests := tx.requests[k := resolved];
  }

  /** The whole reception; when it is refused, `ReceiveReturn` drops the transaction. */
  method Receive(tx: Tables, k: nat, inputs: seq<Input>, options: map<nat, set<VariantId>>, now: Time) returns (error: Option<string>)
    modifies tx
    ensures match RequestReceived(old(tx.View()), k, inputs, options, now)
            case Done(rows) => error == None && tx.View() == rows
            case Refused(code) => error == Some(code)
  {
    error := RequestError(tx.Contents(), k, Aprobada);
    if error.Some? {
      return;
    }
    var q := tx.requests[k];
    error := ReceptionError(q.items, inputs);
    if error.Some? {
      return;
    }
    var arrivals, lines := RegisterReceived(tx.order, q, inputs);
    RestockReturn(tx, arrivals);
    if q.kind == DevolucionProducto {
      var amount := CentsToRefund(tx.order.items, lines);
      ResolveReturn(tx, k, lines, amount, now);
    } else {
      error := CreateReplacements(tx, q.items, inputs, options);
      if error.Some? {
        return;
      }
      AppendInternalNote(tx, ReplacementPending(k));
      tx.requests := tx.requests[k := q.(status := Resuelta, items := lines, refund := None)];
    }
  }

  /** A reception in its own transaction: committed whole, or refused with the database as it was. */
  method ReceiveReturn(store: Store, order: nat, k: nat, inputs: seq<Input>, options: map<nat, set<VariantId>>, now: Time)
    returns (error: Option<string>)
    modifies store
    ensures order >= |old(store.files)| ==> error == Some("NOT_FOUND") && store.View() == old(store.View())
    ensures order < |old(store.files)| ==>
              match RequestReceived(old(store.View()).Rows(order), k, inputs, options, now)
              case Done(rows) => error == None && store.View() == old(store.View()).Commit(order, rows)
              case Refused(code) => error == Some(code) && store.View() == old(store.View())
  {
    if order >= |store.files| {
      return Some("NOT_FOUND");
    }
    var tx := store.Begin(order);
    error := Receive(tx, k, inputs, options, now);
    if error == None {
      store.Commit(order, tx);
    }
  }
}
