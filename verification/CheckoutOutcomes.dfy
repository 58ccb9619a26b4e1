/** What the revalidation of a cart leaves, when a checkout or a retry of the payment is accepted, and the reason when it is not. */
module CheckoutOutcomes {
  import opened Wrappers
  import opened OrderStatus
  import opened Stock
  import opened Entities
  import opened Cart
  import opened Checkout
  import opened StockInvariant
  import opened Runs
  import opened StockOutcomes

  /** The difference between what was agreed and the catalogue, if there is one. */
  predicate Differs(v: VariantId, offer: Offer, price: Cents, problem: Problem) {
    if !offer.productActive || !offer.published || !offer.variantActive then problem == Unavailable(v)
    else offer.price != price && problem == PriceChanged(v, price, offer.price)
  }

  predicate IsCurrent(offer: Offer, price: Cents) {
    offer.productActive && offer.published && offer.variantActive && offer.price == price
  }

  lemma ProblemsAre(v: VariantId, offer: Offer, price: Cents)
    ensures forall x :: x in ProblemsOf(v, offer, price) <==> Differs(v, offer, price, x)
    ensures ProblemsOf(v, offer, price) == [] <==> IsCurrent(offer, price)
  {}

  // ----- Revalidation -----

  /** Units of the variant that nobody has reserved. */
  function Free(stock: Levels, v: VariantId): int {
    if v in stock then stock[v].total - stock[v].reserved else 0
  }

  /** What is left of an item: at most the units there are, at today's price; nothing of what cannot be bought or ran out. */
  predicate IsLeft(item: CartItem, stock: Levels, left: CartItem) {
    var free := Free(stock, item.variant);
    && item.offer.productActive && item.offer.published && item.offer.variantActive && free > 0
    && left.variant == item.variant && left.offer == item.offer && left.unitPriceSnapshot == item.offer.price
    && left.quantity == if item.quantity < free then item.quantity else free
  }

  /** What the customer is told of an item: everything that changed, and nothing else. */
  predicate IsTold(item: CartItem, stock: Levels, told: Adjustment) {
    var free := Free(stock, item.variant);
    if !item.offer.productActive || !item.offer.published || !item.offer.variantActive then told == Removed(item.variant, true)
    else if free <= 0 then told == Removed(item.variant, false)
    else
      || (free < item.quantity && told == QuantityReduced(item.variant, item.quantity, free))
      || (item.offer.price != item.unitPriceSnapshot && told == PriceUpdated(item.variant, item.unitPriceSnapshot, item.offer.price))
  }

  ghost predicate SomeLeft(rows: seq<CartItem>, n: nat, stock: Levels, left: CartItem)
    requires n <= |rows|
  {
    exists k :: 0 <= k < n && IsLeft(rows[k], stock, left)
  }

  ghost predicate SomeTold(rows: seq<CartItem>, n: nat, stock: Levels, told: Adjustment)
    requires n <= |rows|
  {
    exists k :: 0 <= k < n && IsTold(rows[k], stock, told)
  }

  lemma ItemRevised(item: CartItem, stock: Levels)
    ensures forall left :: Kept(item, AvailableOf(stock, item.variant)) == Some(left) <==> IsLeft(item, stock, left)
    ensures forall told :: told in Changes(item, AvailableOf(stock, item.variant)) <==> IsTold(item, stock, told)
  {}

  lemma OneMoreRevised(rows: seq<CartItem>, n: nat, stock: Levels, left: CartItem, told: Adjustment)
    requires n < |rows|
    ensures SomeLeft(rows, n + 1, stock, left) <==> SomeLeft(rows, n, stock, left) || IsLeft(rows[n], stock, left)
    ensures SomeTold(rows, n + 1, stock, told) <==> SomeTold(rows, n, stock, told) || IsTold(rows[n], stock, told)
  {}

  /** A cart revalidated has what is left of its items, in their order, and the customer is told exactly what changed. */
  lemma {:induction false} RevisionAnswers(rows: seq<CartItem>, n: nat, stock: Levels, left: CartItem, told: Adjustment)
    requires n <= |rows|
    ensures left in Revised(rows, n, stock).items <==> SomeLeft(rows, n, stock, left)
    ensures told in Revised(rows, n, stock).adjustments <==> SomeTold(rows, n, stock, told)
    ensures n > 0 ==> Revised(rows, n - 1, stock).items <= Revised(rows, n, stock).items
  {
    if n > 0 {
      RevisionAnswers(rows, n - 1, stock, left, told);
      ItemRevised(rows[n - 1], stock);
      OneMoreRevised(rows, n - 1, stock, left, told);
    }
  }

  // ----- Retry -----

  /** Some of the first `n` items has that difference with the catalogue. */
  ghost predicate OrderDiffers(items: seq<Item>, offers: seq<Offer>, n: nat, x: Problem)
    requires n <= |items| == |offers|
  {
    exists i :: 0 <= i < n && Differs(items[i].variant, offers[i], items[i].unitPrice, x)
  }

  lemma {:induction false} OrderProblemsAre(items: seq<Item>, offers: seq<Offer>, n: nat)
    requires n <= |items| == |offers|
    ensures forall x :: x in OrderProblems(items, offers, n) <==> OrderDiffers(items, offers, n, x)
  {
    if n > 0 {
      var last := items[n - 1];
      OrderProblemsAre(items, offers, n - 1);
      ProblemsAre(last.variant, offers[n - 1], last.unitPrice);
      forall x
        ensures OrderDiffers(items, offers, n, x)
                <==> OrderDiffers(items, offers, n - 1, x) || Differs(last.variant, offers[n - 1], last.unitPrice, x)
      {}
    }
  }

  lemma {:induction false} NoOrderProblems(items: seq<Item>, offers: seq<Offer>, n: nat)
    requires n <= |items| == |offers|
    ensures OrderProblems(items, offers, n) == [] <==> forall i :: 0 <= i < n ==> IsCurrent(offers[i], items[i].unitPrice)
  {
    if n > 0 {
      NoOrderProblems(items, offers, n - 1);
      ProblemsAre(items[n - 1].variant, offers[n - 1], items[n - 1].unitPrice);
    }
  }

  /** The order pending payment again, with every unit reserved. */
  ghost predicate IsReopened(r: Rows, r': Rows) {
    if r.file.order.status == PendientePago then r' == r
    else
      && r'.file == r.file.(
           order := r.file.order.(status := PendientePago, cause := None, reservationActive := true),
           history := r.file.history + [Entry(Some(r.file.order.status), PendientePago, PaymentRetry)])
      && ShiftsReserved(r.stock, Lines(r.file.order.items), 1, r'.stock)
  }

  /** The answer to a retry, reason by reason: only a pending or rejected order in time, unchanged and in stock is opened. */
  ghost predicate RetryAnswer(r: Rows, payer: nat, offers: seq<Offer>, now: Time, answer: Attempt)
    requires |offers| == |r.file.order.items|
  {
    var order := r.file.order;
    if order.userId != payer then answer == NotAllowed("NOT_FOUND")
    else if order.status !in {PendientePago, OrderStatus.PagoRechazado} then answer == NotAllowed("PAYMENT_RETRY_NOT_ALLOWED")
    else if order.reservationExpiresAt <= now then answer == NotAllowed("ORDER_EXPIRED")
    else if exists i :: 0 <= i < |offers| && !IsCurrent(offers[i], order.items[i].unitPrice) then
      answer.Stale? && forall x :: x in answer.problems <==> OrderDiffers(order.items, offers, |offers|, x)
    else if order.status == OrderStatus.PagoRechazado && exists l <- Lines(order.items) :: !HasUnits(r.stock, l, false) then
      answer == Stale([InsufficientStock])
    else answer.Opened? && IsReopened(r, answer.rows)
  }

  lemma RetryAnswers(r: Rows, payer: nat, offers: seq<Offer>, now: Time)
    requires OrderOk(GoodsOf(r)) && |offers| == |r.file.order.items|
    requires r.file.order.status == PendientePago ==> r.file.order.cause == None
    ensures RetryAnswer(r, payer, offers, now, RetryOpened(r, payer, offers, now))
  {
    var order := r.file.order;
    OrderProblemsAre(order.items, offers, |offers|);
    NoOrderProblems(order.items, offers, |offers|);
    OrderLinesDiffer(order);
    ReservedByLine(r.stock, Lines(order.items));
  }

  lemma RetryOpensExactly(sys: System, k: nat, payer: nat, offers: seq<Offer>, now: Time)
    requires IsReachable(sys) && k < |sys.files| && |offers| == |sys.files[k].order.items|
    ensures RetryAnswer(sys.Rows(k), payer, offers, now, RetryOpened(sys.Rows(k), payer, offers, now))
  {
    var _ := Reachable(sys, k);
    RetryAnswers(sys.Rows(k), payer, offers, now);
  }

  // ----- Confirmation -----

  ghost predicate CartDiffers(cart: seq<CartItem>, n: nat, x: Problem)
    requires n <= |cart|
  {
    exists i :: 0 <= i < n && Differs(cart[i].variant, cart[i].offer, cart[i].unitPriceSnapshot, x)
  }

  lemma {:induction false} CartProblemsAre(cart: seq<CartItem>, n: nat)
    requires n <= |cart|
    ensures forall x :: x in CartProblems(cart, n) <==> CartDiffers(cart, n, x)
  {
    if n > 0 {
      var last := cart[n - 1];
      CartProblemsAre(cart, n - 1);
      ProblemsAre(last.variant, last.offer, last.unitPriceSnapshot);
      forall x ensures CartDiffers(cart, n, x) <==> CartDiffers(cart, n - 1, x) || Differs(last.variant, last.offer, last.unitPriceSnapshot, x) {}
    }
  }

  lemma {:induction false} NoCartProblems(cart: seq<CartItem>, n: nat)
    requires n <= |cart|
    ensures CartProblems(cart, n) == [] <==> forall i :: 0 <= i < n ==> IsCurrent(cart[i].offer, cart[i].unitPriceSnapshot)
  {
    if n > 0 {
      NoCartProblems(cart, n - 1);
      ProblemsAre(cart[n - 1].variant, cart[n - 1].offer, cart[n - 1].unitPriceSnapshot);
    }
  }

  /** The stock has the units of an item, not reserved. */
  predicate InStock(stock: Levels, item: CartItem) {
    item.variant in stock && item.quantity <= stock[item.variant].total - stock[item.variant].reserved
  }

  /** A new order of the cart at its prices, pending payment, with every unit reserved. */
  ghost predicate IsPlaced(stock: Levels, userId: nat, cart: seq<CartItem>, shippingCost: Cents, expiresAt: Time, rows: Rows) {
    var items := rows.file.order.items;
    var subtotal := CartSubtotal(cart);
    && rows.file == OrderFile(
         Order(userId, PendientePago, None, items, subtotal, shippingCost, subtotal + shippingCost, true, expiresAt, None, None),
         [Entry(None, PendientePago, CheckoutConfirmed)], [], [], [], [], [])
    && |items| == |cart| && (forall i :: 0 <= i < |cart| ==> items[i] == Item(cart[i].variant, cart[i].quantity, cart[i].unitPriceSnapshot, false))
    && ShiftsReserved(stock, Lines(items), 1, rows.stock)
  }

  ghost predicate ConfirmAnswer(
    stock: Levels, userId: nat, cart: seq<CartItem>, shippingCost: Cents, expectedTotal: Cents, expiresAt: Time, answer: Attempt)
  {
    if cart == [] then answer == NotAllowed("EMPTY_CART")
    else if exists i :: 0 <= i < |cart| && !IsCurrent(cart[i].offer, cart[i].unitPriceSnapshot) then
      answer.Stale? && forall x :: x in answer.problems <==> CartDiffers(cart, |cart|, x)
    else if expectedTotal != CartSubtotal(cart) + shippingCost then answer == Stale([TotalChanged(expectedTotal, CartSubtotal(cart) + shippingCost)])
    else if exists i <- cart :: !InStock(stock, i) then answer == Stale([InsufficientStock])
    else answer.Opened? && IsPlaced(stock, userId, cart, shippingCost, expiresAt, answer.rows)
  }

  lemma {:induction false} CurrentTotal(cart: seq<CartItem>)
    requires forall i :: 0 <= i < |cart| ==> IsCurrent(cart[i].offer, cart[i].unitPriceSnapshot)
    ensures Subtotal(OrderItems(cart)) == CartSubtotal(cart)
  {
    if cart != [] {
      var init, last := cart[..|cart| - 1], cart[|cart| - 1];
      CurrentTotal(init);
      SubtotalAppends(init, last);
      assert cart == init + [last];
    }
  }

  lemma {:induction false} LinesInStock(stock: Levels, cart: seq<CartItem>)
    ensures var lines := Lines(OrderItems(cart));
            (forall l <- lines :: HasUnits(stock, l, false)) <==> forall i <- cart :: InStock(stock, i)
  {
    var lines := Lines(OrderItems(cart));
    NoneDeducted(cart);
    LinesAt(OrderItems(cart));
    assert forall k :: 0 <= k < |cart| ==> (HasUnits(stock, lines[k], false) <==> InStock(stock, cart[k]));
    forall i | i in cart && !InStock(stock, i) ensures exists l <- lines :: !HasUnits(stock, l, false) {
      var k :| 0 <= k < |cart| && cart[k] == i;
      assert lines[k] in lines;
    }
    forall l | l in lines && !HasUnits(stock, l, false) ensures exists i <- cart :: !InStock(stock, i) {
      var k :| 0 <= k < |lines| && lines[k] == l;
      assert cart[k] in cart;
    }
  }

  lemma {:induction false} CartLines(stock: Levels, cart: seq<CartItem>)
    requires DistinctVariants(cart)
    ensures var lines := Lines(OrderItems(cart));
            && ShiftsReserved(stock, lines, 1, Reserved(stock, lines))
            && (Fits(stock, lines) <==> forall i <- cart :: InStock(stock, i))
  {
    NoneDeducted(cart);
    LinesAt(OrderItems(cart));
    ReservedByLine(stock, Lines(OrderItems(cart)));
    LinesInStock(stock, cart);
  }

  lemma {:induction false} PlacedIs(stock: Levels, userId: nat, cart: seq<CartItem>, shippingCost: Cents, expiresAt: Time)
    requires DistinctVariants(cart) && forall i :: 0 <= i < |cart| ==> IsCurrent(cart[i].offer, cart[i].unitPriceSnapshot)
    ensures var items := OrderItems(cart);
            IsPlaced(stock, userId, cart, shippingCost, expiresAt,
                     OrderRows(NewFile(NewOrder(userId, items, shippingCost, expiresAt)), Reserved(stock, Lines(items))))
  {
    CartLines(stock, cart);
    NoneDeducted(cart);
    CurrentTotal(cart);
  }

  lemma {:induction false} StaleAnswers(stock: Levels, userId: nat, cart: seq<CartItem>, shippingCost: Cents, expectedTotal: Cents, expiresAt: Time)
    requires cart != [] && exists i :: 0 <= i < |cart| && !IsCurrent(cart[i].offer, cart[i].unitPriceSnapshot)
    ensures var answer := Confirmed(stock, userId, cart, shippingCost, expectedTotal, expiresAt);
            answer.Stale? && forall x :: x in answer.problems <==> CartDiffers(cart, |cart|, x)
  {
    CartProblemsAre(cart, |cart|);
    NoCartProblems(cart, |cart|);
  }

  lemma {:induction false} CurrentAnswers(stock: Levels, userId: nat, cart: seq<CartItem>, shippingCost: Cents, expectedTotal: Cents, expiresAt: Time)
    requires DistinctVariants(cart) && cart != [] && forall i :: 0 <= i < |cart| ==> IsCurrent(cart[i].offer, cart[i].unitPriceSnapshot)
    ensures var items := OrderItems(cart);
            var total := CartSubtotal(cart) + shippingCost;
            Confirmed(stock, userId, cart, shippingCost, expectedTotal, expiresAt)
            == if expectedTotal != total then Stale([TotalChanged(expectedTotal, total)])
               else if !(forall i <- cart :: InStock(stock, i)) then Stale([InsufficientStock])
               else Opened(OrderRows(NewFile(NewOrder(userId, items, shippingCost, expiresAt)), Reserved(stock, Lines(items))))
  {
    NoCartProblems(cart, |cart|);
    CurrentTotal(cart);
    CartLines(stock, cart);
  }

  /** A checkout is confirmed exactly when nothing differs from what the customer saw and the stock has every unit. */
  lemma {:induction false} ConfirmAnswers(stock: Levels, userId: nat, cart: seq<CartItem>, shippingCost: Cents, expectedTotal: Cents, expiresAt: Time)
    requires DistinctVariants(cart)
    ensures ConfirmAnswer(stock, userId, cart, shippingCost, expectedTotal, expiresAt,
                          Confirmed(stock, userId, cart, shippingCost, expectedTotal, expiresAt))
  {
    if cart == [] {
    } else if exists i :: 0 <= i < |cart| && !IsCurrent(cart[i].offer, cart[i].unitPriceSnapshot) {
      StaleAnswers(stock, userId, cart, shippingCost, expectedTotal, expiresAt);
    } else {
      CurrentAnswers(stock, userId, cart, shippingCost, expectedTotal, expiresAt);
      PlacedIs(stock, userId, cart, shippingCost, expiresAt);
    }
  }
}
