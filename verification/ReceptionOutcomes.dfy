/** What a reception writes, said of the inputs: the lines, the refund, and the stock of every variant. */
module ReceptionOutcomes {
  import opened Wrappers
  import opened Stock
  import opened Entities
  import opened StockReservation
  import opened PaymentLedger
  import opened Reception
  import opened StockInvariant
  import opened ReturnsInvariant
  import opened MoneyInvariant
  import opened Runs
  import opened OrderOutcomes

  // ----- The input of each line -----

  /** The input is the last one for its item. */
  predicate IsLastFor(inputs: seq<Input>, item: nat, j: nat) {
    j < |inputs| && inputs[j].item == item && forall i :: j < i < |inputs| ==> inputs[i].item != item
  }

  lemma {:induction false} InputIsLast(inputs: seq<Input>, item: nat)
    ensures match InputFor(inputs, item)
            case Some(input) => exists j: nat :: IsLastFor(inputs, item, j) && inputs[j] == input
            case None => forall i :: 0 <= i < |inputs| ==> inputs[i].item != item
  {
    if inputs != [] {
      var init := inputs[..|inputs| - 1];
      InputIsLast(init, item);
      if inputs[|inputs| - 1].item == item {
        assert IsLastFor(inputs, item, |inputs| - 1);
      } else if InputFor(init, item).Some? {
        var j: nat :| IsLastFor(init, item, j) && init[j] == InputFor(init, item).value;
        assert IsLastFor(inputs, item, j);
      }
    }
  }

  /** Units that the inputs say came back of the item; and those to be given back: in good condition, or if so decided. */
  function Came(inputs: seq<Input>, item: nat): nat {
    match InputFor(inputs, item) case Some(input) => input.quantity case None => 0
  }

  function ToRefund(inputs: seq<Input>, item: nat): nat {
    match InputFor(inputs, item)
    case Some(input) => if input.condition == Ok || input.refund then input.quantity else 0
    case None => 0
  }

  // ----- The lines -----

  /** What is written of a line: what came, its condition and, in a return, whether it is given back. */
  predicate IsReceived(kind: RequestKind, inputs: seq<Input>, line: RequestItem, line': RequestItem) {
    var input := InputFor(inputs, line.item);
    && line'.item == line.item && line'.requested == line.requested && line'.approved == line.approved
    && line'.received == Some(Came(inputs, line.item))
    && (if input.Some? && input.value.quantity > 0 then
          && line'.condition == Some(input.value.condition)
          && line'.refundApproved == if kind == DevolucionProducto then Some(input.value.condition == Ok || input.value.refund) else None
        else line'.condition == None && line'.refundApproved == None)
  }

  lemma LinesReceived(q: Request, inputs: seq<Input>)
    ensures |ReceivedLines(q, inputs, |q.items|)| == |q.items|
    ensures forall i :: 0 <= i < |q.items| ==> IsReceived(q.kind, inputs, q.items[i], ReceivedLines(q, inputs, |q.items|)[i])
  {}

  // ----- The refund -----

  /** Price paid for the units of the first `n` lines that are to be given back. */
  function Owed(bought: seq<Item>, lines: seq<RequestItem>, inputs: seq<Input>, n: nat): Cents
    requires n <= |lines|
  {
    if n == 0 then 0
    else Owed(bought, lines, inputs, n - 1)
         + if lines[n - 1].item < |bought| then bought[lines[n - 1].item].unitPrice * ToRefund(inputs, lines[n - 1].item) else 0
  }

  /** Price paid for everything that came. */
  function ValueOfAll(bought: seq<Item>, lines: seq<RequestItem>, inputs: seq<Input>, n: nat): Cents
    requires n <= |lines|
  {
    if n == 0 then 0
    else ValueOfAll(bought, lines, inputs, n - 1)
         + if lines[n - 1].item < |bought| then bought[lines[n - 1].item].unitPrice * Came(inputs, lines[n - 1].item) else 0
  }

  /** In good condition everything is given back. */
  lemma {:induction false} GoodIsOwedWhole(bought: seq<Item>, lines: seq<RequestItem>, inputs: seq<Input>, n: nat)
    requires n <= |lines| && forall j :: 0 <= j < |inputs| ==> inputs[j].condition == Ok
    ensures Owed(bought, lines, inputs, n) == ValueOfAll(bought, lines, inputs, n)
  {
    if n > 0 {
      GoodIsOwedWhole(bought, lines, inputs, n - 1);
      InputIsLast(inputs, lines[n - 1].item);
      assert ToRefund(inputs, lines[n - 1].item) == Came(inputs, lines[n - 1].item);
    }
  }

  /** A damaged line that the administrator does not refund adds nothing. */
  lemma DamagedOwesNothing(bought: seq<Item>, lines: seq<RequestItem>, inputs: seq<Input>, n: nat, j: nat)
    requires 0 < n <= |lines| && IsLastFor(inputs, lines[n - 1].item, j) && inputs[j].condition == Danado && !inputs[j].refund
    ensures Owed(bought, lines, inputs, n) == Owed(bought, lines, inputs, n - 1)
  {
    InputIsLast(inputs, lines[n - 1].item);
  }

  lemma {:induction false} RefundIsOwed(bought: seq<Item>, q: Request, inputs: seq<Input>, n: nat)
    requires n <= |q.items| && q.kind == DevolucionProducto
    ensures RefundAmount(bought, ReceivedLines(q, inputs, |q.items|), n) == Owed(bought, q.items, inputs, n)
  {
    if n > 0 {
      RefundIsOwed(bought, q, inputs, n - 1);
      LinesReceived(q, inputs);
      assert IsReceived(q.kind, inputs, q.items[n - 1], ReceivedLines(q, inputs, |q.items|)[n - 1]);
    }
  }

  // ----- The whole reception -----

  /** A return resolved: its lines, one refund of what is owed for them, and nothing else of the money. */
  ghost predicate IsReturnResolved(f: File, f': File, k: nat, inputs: seq<Input>)
    requires k < |f.requests|
  {
    var q := f.requests[k];
    var owed := Owed(f.order.items, q.items, inputs, |q.items|);
    && f'.payments == f.payments && f'.notes == f.notes
    && (if owed == 0 then f'.refunds == f.refunds
        else exists p: nat :: HasBalance(f, p, owed) && f'.refunds == f.refunds + [Refund(p, owed, EnTramite, None, CU22, 1, false)])
    && IsRequestResolved(f, f', k, inputs, if owed == 0 then None else Some(|f.refunds|))
  }

  ghost predicate IsRequestResolved(f: File, f': File, k: nat, inputs: seq<Input>, refund: Option<nat>)
    requires k < |f.requests|
  {
    var q := f.requests[k];
    && |f'.requests| == |f.requests|
    && (forall j :: 0 <= j < |f.requests| && j != k ==> f'.requests[j] == f.requests[j])
    && f'.requests[k] == q.(status := Resuelta, items := f'.requests[k].items, refund := refund)
    && |f'.requests[k].items| == |q.items|
    && forall i :: 0 <= i < |q.items| ==> IsReceived(q.kind, inputs, q.items[i], f'.requests[k].items[i])
  }

  /** A change resolved: its lines, a note of the replacement pending, and no money. */
  ghost predicate IsChangeResolved(f: File, f': File, k: nat, inputs: seq<Input>)
    requires k < |f.requests|
  {
    && f'.payments == f.payments && f'.refunds == f.refunds && f'.notes == f.notes + [ReplacementPending(k)] && f'.order == f.order
    && f'.history == f.history && IsRequestResolved(f, f', k, inputs, None)
  }

  lemma ReturnResolves(r: Rows, k: nat, inputs: seq<Input>, options: map<nat, set<VariantId>>, now: Time)
    requires FileOk(r.file) && RequestReceived(r, k, inputs, options, now).Done? && k < |r.file.requests|
    requires r.file.requests[k].kind == DevolucionProducto
    ensures IsReturnResolved(r.file, RequestReceived(r, k, inputs, options, now).value.file, k, inputs)
  {
    var f, f', q := r.file, RequestReceived(r, k, inputs, options, now).value.file, r.file.requests[k];
    var owed := Owed(f.order.items, q.items, inputs, |q.items|);
    RefundIsOwed(f.order.items, q, inputs, |q.items|);
    assert ReceivedValue(f, k, inputs) == owed;
    ReceptionIsRefunded(r, k, inputs, options, now);
    ReceptionBooks(r, k, inputs, options, now);
    LinesReceived(q, inputs);
    if owed > 0 {
      var p: nat :| CanRefund(f, owed, None, p) && f'.refunds == f.refunds + [NewRefund(p, owed, CU22)];
      RefundedIsSum(f.refunds, p);
      assert HasBalance(f, p, owed);
    }
  }

  lemma ChangeResolves(r: Rows, k: nat, inputs: seq<Input>, options: map<nat, set<VariantId>>, now: Time)
    requires RequestReceived(r, k, inputs, options, now).Done? && k < |r.file.requests|
    requires r.file.requests[k].kind == CambioProducto
    ensures IsChangeResolved(r.file, RequestReceived(r, k, inputs, options, now).value.file, k, inputs)
  {
    LinesReceived(r.file.requests[k], inputs);
  }

  // ----- The stock -----

  /** Units of the variant that came back in that condition, over the first `n` lines. */
  function Arriving(bought: seq<Item>, lines: seq<RequestItem>, inputs: seq<Input>, n: nat, v: VariantId, condition: Condition): nat
    requires n <= |lines|
  {
    if n == 0 then 0
    else Arriving(bought, lines, inputs, n - 1, v, condition) + ArrivingOne(bought, lines[n - 1], inputs, v, condition)
  }

  function ArrivingOne(bought: seq<Item>, line: RequestItem, inputs: seq<Input>, v: VariantId, condition: Condition): nat {
    match InputFor(inputs, line.item)
    case Some(input) => if line.item < |bought| && bought[line.item].variant == v && input.condition == condition then input.quantity else 0
    case None => 0
  }

  /** A unit in good condition enters the stock; a damaged one enters and leaves, and both are in the history. */
  lemma ArrivalIs(shelf: Shelf, line: Line, damaged: bool)
    ensures ReturnOne(shelf, Arrival(line, damaged))
            == if line.variant !in shelf.levels then shelf
               else
                 var (v, q, level) := (line.variant, line.quantity, shelf.levels[line.variant]);
                 if damaged then
                   Shelf(shelf.levels, shelf.movements + [Movement(Devolucion, v, q, level.total + q), Movement(Merma, v, q, level.total)])
                 else
                   Shelf(shelf.levels[v := Level(level.total + q, level.reserved)], shelf.movements + [Movement(Devolucion, v, q, level.total + q)])
  {
    if line.variant in shelf.levels {
      var level := shelf.levels[line.variant];
      assert shelf.levels[line.variant := level] == shelf.levels;
    }
  }

  /** Two shelves with the same variants: so much more of `v` in total, in returns and in losses. */
  ghost predicate ShelfAdds(shelf: Shelf, after: Shelf, v: VariantId, good: nat, damaged: nat) {
    && after.levels.Keys == shelf.levels.Keys
    && (v in shelf.levels ==>
          && after.levels[v].total == shelf.levels[v].total + good && after.levels[v].reserved == shelf.levels[v].reserved
          && Put(after.movements, Devolucion, v) == Put(shelf.movements, Devolucion, v) + good + damaged
          && Put(after.movements, Merma, v) == Put(shelf.movements, Merma, v) + damaged)
  }

  lemma ArrivalAdds(shelf: Shelf, line: Line, damaged: bool, v: VariantId)
    ensures ShelfAdds(shelf, ReturnOne(shelf, Arrival(line, damaged)), v,
                      if line.variant == v && !damaged then line.quantity else 0, if line.variant == v && damaged then line.quantity else 0)
  {
    ArrivalIs(shelf, line, damaged);
    if line.variant in shelf.levels {
      var (w, q, total) := (line.variant, line.quantity, shelf.levels[line.variant].total);
      PutOneMore(shelf.movements, Movement(Devolucion, w, q, total + q), v);
      if damaged {
        PutOneMore(shelf.movements + [Movement(Devolucion, w, q, total + q)], Movement(Merma, w, q, total), v);
        assert shelf.movements + [Movement(Devolucion, w, q, total + q), Movement(Merma, w, q, total)]
               == (shelf.movements + [Movement(Devolucion, w, q, total + q)]) + [Movement(Merma, w, q, total)];
      }
    }
  }

  lemma PutOneMore(movements: seq<Movement>, m: Movement, v: VariantId)
    ensures forall kind :: Put(movements + [m], kind, v) == Put(movements, kind, v) + if m.kind == kind && m.variant == v then m.quantity else 0
  {
    assert (movements + [m])[..|movements|] == movements;
  }

  lemma {:induction false} ShelfPrefix(shelf: Shelf, a: seq<Arrival>, b: seq<Arrival>, n: nat)
    requires n <= |a|
    ensures ReturnedToShelf(shelf, a + b, n) == ReturnedToShelf(shelf, a, n)
  {
    if n > 0 {
      ShelfPrefix(shelf, a, b, n - 1);
    }
  }

  lemma ShelfAddsTwice(a: Shelf, b: Shelf, c: Shelf, v: VariantId, good: nat, damaged: nat, moreGood: nat, moreDamaged: nat)
    requires ShelfAdds(a, b, v, good, damaged) && ShelfAdds(b, c, v, moreGood, moreDamaged)
    ensures ShelfAdds(a, c, v, good + moreGood, damaged + moreDamaged)
  {}

  lemma OneArrives(shelf: Shelf, order: Order, line: RequestItem, inputs: seq<Input>, v: VariantId)
    ensures var one := ArrivalOf(order, line, inputs);
            ShelfAdds(shelf, if one == [] then shelf else ReturnOne(shelf, one[0]), v,
                      ArrivingOne(order.items, line, inputs, v, Ok), ArrivingOne(order.items, line, inputs, v, Danado))
  {
    var one := ArrivalOf(order, line, inputs);
    if one != [] {
      ArrivalAdds(shelf, one[0].line, one[0].damaged, v);
    }
  }

  /** What came back is on the shelf, unless it was damaged; reservations are not touched. */
  lemma {:induction false} ShelfGets(shelf: Shelf, order: Order, lines: seq<RequestItem>, inputs: seq<Input>, n: nat, v: VariantId)
    requires n <= |lines|
    ensures var arrivals := Arrivals(order, lines, inputs, n);
            ShelfAdds(shelf, ReturnedToShelf(shelf, arrivals, |arrivals|), v,
                      Arriving(order.items, lines, inputs, n, v, Ok), Arriving(order.items, lines, inputs, n, v, Danado))
  {
    if n > 0 {
      var before, one := Arrivals(order, lines, inputs, n - 1), ArrivalOf(order, lines[n - 1], inputs);
      var so := ReturnedToShelf(shelf, before, |before|);
      ShelfGets(shelf, order, lines, inputs, n - 1, v);
      OneArrives(so, order, lines[n - 1], inputs, v);
      ShelfPrefix(shelf, before, one, |before|);
      var after := if one == [] then so else ReturnOne(so, one[0]);
      assert one == [] ==> before + one == before;
      ShelfAddsTwice(shelf, so, after, v,
                     Arriving(order.items, lines, inputs, n - 1, v, Ok), Arriving(order.items, lines, inputs, n - 1, v, Danado),
                     ArrivingOne(order.items, lines[n - 1], inputs, v, Ok), ArrivingOne(order.items, lines[n - 1], inputs, v, Danado));
    }
  }

  // ----- Replacements -----

  /** Units of the variant that leave as replacements of the first `n` lines. */
  function Leaving(lines: seq<RequestItem>, inputs: seq<Input>, n: nat, v: VariantId): nat
    requires n <= |lines|
  {
    if n == 0 then 0 else Leaving(lines, inputs, n - 1, v) + LeavingOne(lines[n - 1], inputs, v)
  }

  function LeavingOne(line: RequestItem, inputs: seq<Input>, v: VariantId): nat {
    match InputFor(inputs, line.item)
    case Some(input) => if input.replacement == Some(v) then input.quantity else 0
    case None => 0
  }

  /** The replacement chosen is one of the options of the item. */
  predicate IsOption(line: RequestItem, inputs: seq<Input>, options: map<nat, set<VariantId>>) {
    match InputFor(inputs, line.item)
    case Some(input) => input.replacement.Some? && line.item in options && input.replacement.value in options[line.item]
    case None => false
  }

  /** Why line `i` cannot be replaced, given what the lines before it took: a choice is missing, or there is not enough left. */
  function ReplacementError(stock: Levels, lines: seq<RequestItem>, inputs: seq<Input>, options: map<nat, set<VariantId>>, i: nat): Option<string>
    requires i < |lines|
  {
    if Came(inputs, lines[i].item) == 0 then None
    else if !IsOption(lines[i], inputs, options) then Some("CHOOSE_REPLACEMENT")
    else
      var v := InputFor(inputs, lines[i].item).value.replacement.value;
      if v in stock && Came(inputs, lines[i].item) <= stock[v].total - stock[v].reserved - Leaving(lines, inputs, i, v) then None
      else Some("REPLACEMENT_OUT_OF_STOCK")
  }

  /** So much less of each variant, with its movements of change. */
  ghost predicate ShelfLoses(shelf: Shelf, after: Shelf, lines: seq<RequestItem>, inputs: seq<Input>, n: nat)
    requires n <= |lines|
  {
    && after.levels.Keys == shelf.levels.Keys
    && forall v <- shelf.levels ::
         && after.levels[v].total == shelf.levels[v].total - Leaving(lines, inputs, n, v)
         && after.levels[v].reserved == shelf.levels[v].reserved
         && Put(after.movements, Cambio, v) == Put(shelf.movements, Cambio, v) + Leaving(lines, inputs, n, v)
  }

  lemma OneLeaves(shelf: Shelf, done: Replacing, lines: seq<RequestItem>, inputs: seq<Input>, options: map<nat, set<VariantId>>, n: nat)
    requires 0 < n <= |lines| && done.error == None && ShelfLoses(shelf, done.shelf, lines, inputs, n - 1)
    ensures var next := ReplaceOne(done, lines[n - 1], inputs, options);
            && next.error == ReplacementError(shelf.levels, lines, inputs, options, n - 1)
            && (next.error == None ==> ShelfLoses(shelf, next.shelf, lines, inputs, n))
  {
    var next, line := ReplaceOne(done, lines[n - 1], inputs, options), lines[n - 1];
    if next.error == None && Came(inputs, line.item) > 0 {
      var v := InputFor(inputs, line.item).value.replacement.value;
      PutOneMore(done.shelf.movements, next.shelf.movements[|done.shelf.movements|], v);
      forall w | w in shelf.levels
        ensures Put(next.shelf.movements, Cambio, w) == Put(done.shelf.movements, Cambio, w) + LeavingOne(line, inputs, w)
      {
        PutOneMore(done.shelf.movements, next.shelf.movements[|done.shelf.movements|], w);
      }
    }
  }

  /** The replacements leave the stock, all of them or none: the first line that cannot be replaced refuses the reception. */
  lemma {:induction false} ReplacementsLeave(shelf: Shelf, lines: seq<RequestItem>, inputs: seq<Input>, options: map<nat, set<VariantId>>, n: nat)
    requires n <= |lines|
    ensures var replaced := Replaced(shelf, lines, inputs, options, n);
            match replaced.error
            case None => ShelfLoses(shelf, replaced.shelf, lines, inputs, n)
                         && forall i :: 0 <= i < n ==> ReplacementError(shelf.levels, lines, inputs, options, i) == None
            case Some(code) => exists i: nat :: i < n && FirstReplacementError(shelf.levels, lines, inputs, options, i, code)
  {
    if n > 0 {
      ReplacementsLeave(shelf, lines, inputs, options, n - 1);
      var done := Replaced(shelf, lines, inputs, options, n - 1);
      if done.error == None {
        OneLeaves(shelf, done, lines, inputs, options, n);
        if Replaced(shelf, lines, inputs, options, n).error.Some? {
          assert FirstReplacementError(shelf.levels, lines, inputs, options, n - 1, Replaced(shelf, lines, inputs, options, n).error.value);
        }
      }
    }
  }

  ghost predicate FirstReplacementError(stock: Levels, lines: seq<RequestItem>, inputs: seq<Input>, options: map<nat, set<VariantId>>, i: nat, code: string) {
    && i < |lines| && ReplacementError(stock, lines, inputs, options, i) == Some(code)
    && forall j :: 0 <= j < i ==> ReplacementError(stock, lines, inputs, options, j) == None
  }

  // ----- The answer to a reception -----

  /** The stock with what came back in good condition. */
  function Arrived(stock: Levels, bought: seq<Item>, lines: seq<RequestItem>, inputs: seq<Input>): Levels {
    map v | v in stock :: Level(stock[v].total + Arriving(bought, lines, inputs, |lines|, v, Ok), stock[v].reserved)
  }

  /** Why the inputs of an approved request are refused, before looking at replacements. */
  ghost predicate InputError(lines: seq<RequestItem>, inputs: seq<Input>, error: Option<string>) {
    if exists i :: 0 <= i < |lines| && lines[i].approved.GetOr(0) > 0 && IsUntold(inputs, lines[i].item) then error == Some("MISSING_ITEM")
    else if forall i :: 0 <= i < |lines| ==> Came(inputs, lines[i].item) == 0 then error == Some("NOTHING_RECEIVED")
    else if exists i :: 0 <= i < |lines| && Came(inputs, lines[i].item) > lines[i].approved.GetOr(0) then error == Some("MORE_THAN_APPROVED")
    else error == None
  }

  ghost predicate IsUntold(inputs: seq<Input>, item: nat) {
    forall j :: 0 <= j < |inputs| ==> inputs[j].item != item
  }

  lemma {:induction false} InputErrorIs(lines: seq<RequestItem>, inputs: seq<Input>)
    ensures InputError(lines, inputs, ReceptionError(lines, inputs))
  {
    forall i | 0 <= i < |lines|
      ensures InputFor(inputs, lines[i].item) == None <==> IsUntold(inputs, lines[i].item)
      ensures QuantityFor(inputs, lines[i].item) == Came(inputs, lines[i].item)
    {
      InputIsLast(inputs, lines[i].item);
    }
  }

  /** The stock and its history after the reception of a return. */
  ghost predicate IsReturnShelved(r: Rows, r': Rows, lines: seq<RequestItem>, inputs: seq<Input>) {
    forall v :: ShelfAdds(Shelf(r.stock, r.file.movements), Shelf(r'.stock, r'.file.movements), v,
                          Arriving(r.file.order.items, lines, inputs, |lines|, v, Ok), Arriving(r.file.order.items, lines, inputs, |lines|, v, Danado))
  }

  /** After the reception of a change: what came back in good condition, less the replacements. */
  ghost predicate IsChangeShelved(r: Rows, r': Rows, lines: seq<RequestItem>, inputs: seq<Input>) {
    && r'.stock.Keys == r.stock.Keys
    && forall v <- r.stock ::
         && r'.stock[v].reserved == r.stock[v].reserved
         && r'.stock[v].total == r.stock[v].total + Arriving(r.file.order.items, lines, inputs, |lines|, v, Ok) - Leaving(lines, inputs, |lines|, v)
  }

  /** The reason of the first line that cannot be replaced, if there is one. */
  ghost predicate NoReplacement(stock: Levels, lines: seq<RequestItem>, inputs: seq<Input>, options: map<nat, set<VariantId>>, code: string) {
    exists i :: FirstReplacementError(stock, lines, inputs, options, i, code)
  }

  ghost predicate ReceptionAnswer(r: Rows, k: nat, inputs: seq<Input>, options: map<nat, set<VariantId>>, answer: Outcome<Rows>) {
    if k >= |r.file.requests| then answer == Refused("NOT_FOUND")
    else if r.file.requests[k].status != Aprobada then answer == Refused("RETURN_STATUS_CHANGED")
    else
      var (q, lines) := (r.file.requests[k], r.file.requests[k].items);
      var stock := Arrived(r.stock, r.file.order.items, lines, inputs);
      match answer
      case Refused(code) =>
        || (InputError(lines, inputs, Some(code)))
        || (InputError(lines, inputs, None) && q.kind == CambioProducto && NoReplacement(stock, lines, inputs, options, code))
      case Done(r') =>
        && InputError(lines, inputs, None)
        && if q.kind == DevolucionProducto then IsReturnResolved(r.file, r'.file, k, inputs) && IsReturnShelved(r, r', lines, inputs)
           else
             && IsChangeResolved(r.file, r'.file, k, inputs) && IsChangeShelved(r, r', lines, inputs)
             && forall i :: 0 <= i < |lines| ==> ReplacementError(stock, lines, inputs, options, i) == None
  }

  lemma ArrivedIs(r: Rows, lines: seq<RequestItem>, inputs: seq<Input>)
    ensures var arrivals := Arrivals(r.file.order, lines, inputs, |lines|);
            ReturnedToShelf(Shelf(r.stock, r.file.movements), arrivals, |arrivals|).levels == Arrived(r.stock, r.file.order.items, lines, inputs)
  {
    var shelf, arrivals := Shelf(r.stock, r.file.movements), Arrivals(r.file.order, lines, inputs, |lines|);
    ShelfGets(shelf, r.file.order, lines, inputs, |lines|, 0);
    var after := ReturnedToShelf(shelf, arrivals, |arrivals|).levels;
    forall v | v in r.stock
      ensures after[v] == Level(r.stock[v].total + Arriving(r.file.order.items, lines, inputs, |lines|, v, Ok), r.stock[v].reserved)
    {
      ShelfGets(shelf, r.file.order, lines, inputs, |lines|, v);
    }
  }

  lemma ReturnIsShelved(r: Rows, k: nat, inputs: seq<Input>, options: map<nat, set<VariantId>>, now: Time)
    requires RequestReceived(r, k, inputs, options, now).Done? && k < |r.file.requests| && r.file.requests[k].kind == DevolucionProducto
    ensures IsReturnShelved(r, RequestReceived(r, k, inputs, options, now).value, r.file.requests[k].items, inputs)
  {
    var lines, shelf := r.file.requests[k].items, Shelf(r.stock, r.file.movements);
    var r', arrivals := RequestReceived(r, k, inputs, options, now).value, Arrivals(r.file.order, lines, inputs, |lines|);
    assert Shelf(r'.stock, r'.file.movements) == ReturnedToShelf(shelf, arrivals, |arrivals|);
    forall v ensures ShelfAdds(shelf, Shelf(r'.stock, r'.file.movements), v,
                               Arriving(r.file.order.items, lines, inputs, |lines|, v, Ok), Arriving(r.file.order.items, lines, inputs, |lines|, v, Danado)) {
      ShelfGets(shelf, r.file.order, lines, inputs, |lines|, v);
    }
  }

  lemma ChangeIsShelved(r: Rows, k: nat, inputs: seq<Input>, options: map<nat, set<VariantId>>, now: Time)
    requires RequestReceived(r, k, inputs, options, now).Done? && k < |r.file.requests| && r.file.requests[k].kind == CambioProducto
    ensures var lines := r.file.requests[k].items;
            && IsChangeShelved(r, RequestReceived(r, k, inputs, options, now).value, lines, inputs)
            && forall i :: 0 <= i < |lines| ==> ReplacementError(Arrived(r.stock, r.file.order.items, lines, inputs), lines, inputs, options, i) == None
  {
    var lines := r.file.requests[k].items;
    var arrivals := Arrivals(r.file.order, lines, inputs, |lines|);
    ArrivedIs(r, lines, inputs);
    ReplacementsLeave(ReturnedToShelf(Shelf(r.stock, r.file.movements), arrivals, |arrivals|), lines, inputs, options, |lines|);
  }

  lemma ReceptionRefused(r: Rows, k: nat, inputs: seq<Input>, options: map<nat, set<VariantId>>, now: Time)
    requires RequestReceived(r, k, inputs, options, now).Refused?
    ensures ReceptionAnswer(r, k, inputs, options, RequestReceived(r, k, inputs, options, now))
  {
    if k < |r.file.requests| && r.file.requests[k].status == Aprobada {
      var lines := r.file.requests[k].items;
      var arrivals := Arrivals(r.file.order, lines, inputs, |lines|);
      InputErrorIs(lines, inputs);
      ArrivedIs(r, lines, inputs);
      ReplacementsLeave(ReturnedToShelf(Shelf(r.stock, r.file.movements), arrivals, |arrivals|), lines, inputs, options, |lines|);
    }
  }

  lemma ReceptionDone(r: Rows, k: nat, inputs: seq<Input>, options: map<nat, set<VariantId>>, now: Time)
    requires FileOk(r.file) && RequestReceived(r, k, inputs, options, now).Done?
    ensures ReceptionAnswer(r, k, inputs, options, RequestReceived(r, k, inputs, options, now))
  {
    var _ := ReceptionResolves(r, k, inputs, options, now);
    InputErrorIs(r.file.requests[k].items, inputs);
    if r.file.requests[k].kind == DevolucionProducto {
      ReturnResolves(r, k, inputs, options, now);
      ReturnIsShelved(r, k, inputs, options, now);
    } else {
      ChangeResolves(r, k, inputs, options, now);
      ChangeIsShelved(r, k, inputs, options, now);
    }
  }

  /** Every reception: why it is refused, or the lines, the refund and the stock that it leaves. */
  lemma ReceptionAnswers(sys: System, order: nat, k: nat, inputs: seq<Input>, options: map<nat, set<VariantId>>, now: Time)
    requires IsReachable(sys) && order < |sys.files|
    ensures ReceptionAnswer(sys.Rows(order), k, inputs, options, RequestReceived(sys.Rows(order), k, inputs, options, now))
  {
    var _ := Reachable(sys, order);
    if RequestReceived(sys.Rows(order), k, inputs, options, now).Done? {
      ReceptionDone(sys.Rows(order), k, inputs, options, now);
    } else {
      ReceptionRefused(sys.Rows(order), k, inputs, options, now);
    }
  }
}
