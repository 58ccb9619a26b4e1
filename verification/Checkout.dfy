/** Checkout: quote, confirmation, retry of the payment, and what the payment preference charges. */
module Checkout {
  import opened Wrappers
  import opened OrderStatus
  import opened Stock
  import opened Entities
  import opened StockReservation
  import opened OrdersService
  import opened Cart

  datatype Problem =
    | Unavailable(variant: VariantId)
    | PriceChanged(variant: VariantId, from: Cents, to: Cents)
    | InsufficientStock
    | TotalChanged(expected: Cents, actual: Cents)

  /** Why no order is created, or no payment retried. */
  datatype Attempt = Opened(rows: Rows) | NotAllowed(code: string) | Stale(problems: seq<Problem>)

  function ProblemsOf(v: VariantId, offer: Offer, snapshot: Cents): seq<Problem> {
    if !IsPurchasable(offer) then [Unavailable(v)]
    else if offer.price != snapshot then [PriceChanged(v, snapshot, offer.price)]
    else []
  }

  /** Differences between the first `n` items of the cart and the catalogue. */
  function CartProblems(cart: seq<CartItem>, n: nat): seq<Problem>
    requires n <= |cart|
  {
    if n == 0 then []
    else CartProblems(cart, n - 1) + ProblemsOf(cart[n - 1].variant, cart[n - 1].offer, cart[n - 1].unitPriceSnapshot)
  }

  /** The order items are a snapshot of the cart at catalogue prices. */
  function OrderItems(cart: seq<CartItem>): seq<Item> {
    if cart == [] then []
    else [Item(cart[0].variant, cart[0].quantity, cart[0].offer.price, false)] + OrderItems(cart[1..])
  }

  function NewOrder(userId: nat, items: seq<Item>, shippingCost: Cents, expiresAt: Time): Order {
    Order(userId, PendientePago, None, items, Subtotal(items), shippingCost, Subtotal(items) + shippingCost, true, expiresAt, None, None)
  }

  function NewFile(order: Order): File {
    OrderFile(order, [Entry(None, PendientePago, CheckoutConfirmed)], [], [], [], [], [])
  }

  /** The total shown to the customer before confirming. */
  function Quote(cart: seq<CartItem>, shippingCost: Cents): Option<Cents> {
    if cart == [] then None else Some(CartSubtotal(cart) + shippingCost)
  }

  ghost function Confirmed(stock: Levels, userId: nat, cart: seq<CartItem>, shippingCost: Cents, expectedTotal: Cents, expiresAt: Time)
    : Attempt
  {
    if cart == [] then NotAllowed("EMPTY_CART")
    else
      var problems := CartProblems(cart, |cart|);
      var items := OrderItems(cart);
      var total := Subtotal(items) + shippingCost;
      if problems != [] then Stale(problems)
      else if expectedTotal != total then Stale([TotalChanged(expectedTotal, total)])
      else if !Fits(stock, Lines(items)) then Stale([InsufficientStock])
      else Opened(OrderRows(NewFile(NewOrder(userId, items, shippingCost, expiresAt)), Reserved(stock, Lines(items))))
  }

  /** One transaction: revalidation, order with its snapshot, reservation. On any problem nothing is written. */
  method Confirm(store: Store, userId: nat, cart: seq<CartItem>, shippingCost: Cents, expectedTotal: Cents, expiresAt: Time)
    returns (error: Option<Attempt>)
    modifies store
    ensures match Confirmed(old(store.stock), userId, cart, shippingCost, expectedTotal, expiresAt)
            case Opened(rows) => error == None && store.View() == System(old(store.files) + [rows.file], rows.stock)
            case refused => error == Some(refused) && store.View() == old(store.View())
  {
    if |cart| == 0 {
      return Some(NotAllowed("EMPTY_CART"));
    }
    var problems := [];
    for k := 0 to |cart|
      invariant problems == CartProblems(cart, k)
    {
      var item := cart[k];
      if !IsPurchasable(item.offer) {
        problems := problems + [Unavailable(item.variant)];
      } else if item.offer.price != item.unitPriceSnapshot {
        problems := problems + [PriceChanged(item.variant, item.unitPriceSnapshot, item.offer.price)];
      }
    }
    if |problems| > 0 {
      return Some(Stale(problems));
    }
    var items := OrderItems(cart);
    var total := Subtotal(items) + shippingCost;
    if expectedTotal != total {
      return Some(Stale([TotalChanged(expectedTotal, total)]));
    }
    var tx := new Tables(OrderRows(NewFile(NewOrder(userId, items, shippingCost, expiresAt)), store.stock));
    var reserved := Reserve(tx, Lines(items));
    if !reserved {
      return Some(Stale([InsufficientStock]));
    }
    store.files := store.files + [tx.Contents()];
    store.stock := tx.stock;
    error := None;
  }

  /** May the customer try to pay again? */
  function PaymentRetryError(order: Order, now: Time): Option<string> {
    if !RetryablePayment(order.status) then Some("PAYMENT_RETRY_NOT_ALLOWED")
    else if order.reservationExpiresAt <= now then Some("ORDER_EXPIRED")
    else None
  }

  /** Differences between the first `n` items of the order and the catalogue (`offers`, item by item). */
  function OrderProblems(items: seq<Item>, offers: seq<Offer>, n: nat): seq<Problem>
    requires n <= |items| == |offers|
  {
    if n == 0 then []
    else OrderProblems(items, offers, n - 1) + ProblemsOf(items[n - 1].variant, offers[n - 1], items[n - 1].unitPrice)
  }

  /** The first transaction of a retry: the reservation is taken again if a rejection had released it. */
  ghost function RetryOpened(r: Rows, userId: nat, offers: seq<Offer>, now: Time): Attempt
    requires |offers| == |r.file.order.items|
  {
    var order := r.file.order;
    if order.userId != userId then NotAllowed("NOT_FOUND")
    else match PaymentRetryError(order, now)
      case Some(code) => NotAllowed(code)
      case None =>
        var problems := OrderProblems(order.items, offers, |offers|);
        if problems != [] then Stale(problems)
        else if !order.reservationActive && !Fits(r.stock, Lines(order.items)) then Stale([InsufficientStock])
        else
          var taken := if order.reservationActive then r
                       else OrderRows(r.file.(order := order.(reservationActive := true)), Reserved(r.stock, Lines(order.items)));
          Opened(if order.status == OrderStatus.PagoRechazado then taken.(file := Moved(taken.file, PendientePago, PaymentRetry, now)) else taken)
  }

  method RetryPayment(tx: Tables, userId: nat, offers: seq<Offer>, now: Time) returns (error: Option<Attempt>)
    requires |offers| == |tx.order.items|
    modifies tx
    ensures match RetryOpened(old(tx.View()), userId, offers, now)
            case Opened(rows) => error == None && tx.View() == rows
            case refused => error == Some(refused) && tx.View() == old(tx.View())
  {
    if tx.order.userId != userId {
      return Some(NotAllowed("NOT_FOUND"));
    }
    var retry := PaymentRetryError(tx.order, now);
    if retry.Some? {
      return Some(NotAllowed(retry.value));
    }
    var problems := [];
    for k := 0 to |offers|
      invariant problems == OrderProblems(tx.order.items, offers, k)
      invariant tx.View() == old(tx.View())
    {
      var item := tx.order.items[k];
      if !IsPurchasable(offers[k]) {
        problems := problems + [Unavailable(item.variant)];
      } else if offers[k].price != item.unitPrice {
        problems := problems + [PriceChanged(item.variant, item.unitPrice, offers[k].price)];
      }
    }
    if |problems| > 0 {
      return Some(Stale(problems));
    }
    if !tx.order.reservationActive {
      var reserved := Reserve(tx, Lines(tx.order.items));
      if !reserved {
        return Some(Stale([InsufficientStock]));
      }
      tx.order := tx.order.(reservationActive := true);
    }
    if tx.order.status == OrderStatus.PagoRechazado {
      var ok := ChangeStatus(tx, PendientePago, PaymentRetry, now);
      assert ok;
    }
    error := None;
  }

  /** The gateway could not create the preference: the order just created is cancelled and its stock released. */
  function Compensated(r: Rows, now: Time): Rows {
    if r.file.order.status != PendientePago then r
    else
      var released := ReservationReleased(r);
      released.(file := Moved(released.file, Cancelado, CancelledBy(Pasarela), now))
  }

  method CompensateFailedPreference(tx: Tables, now: Time)
    modifies tx
    ensures tx.View() == Compensated(old(tx.View()), now)
  {
    if tx.order.status != PendientePago {
      return;
    }
    ReleaseReservation(tx);
    var ok := ChangeStatus(tx, Cancelado, CancelledBy(Pasarela), now);
    assert ok;
  }

  datatype PreferenceItem = PreferenceItem(quantity: nat, unitPrice: Cents)

  function ItemsToCharge(items: seq<Item>): seq<PreferenceItem> {
    if items == [] then [] else [PreferenceItem(items[0].quantity, items[0].unitPrice)] + ItemsToCharge(items[1..])
  }

  /** The items sent to the gateway: one per order item, plus the shipping unless it is free. */
  function PreferenceItems(order: Order): seq<PreferenceItem> {
    ItemsToCharge(order.items) + if order.shippingCost > 0 then [PreferenceItem(1, order.shippingCost)] else []
  }

  /** What the gateway charges for a preference. */
  function PreferenceAmount(items: seq<PreferenceItem>): Cents {
    if items == [] then 0 else items[0].unitPrice * items[0].quantity + PreferenceAmount(items[1..])
  }

  lemma {:induction false} ChargeAppends(items: seq<Item>, extra: seq<PreferenceItem>)
    ensures PreferenceAmount(ItemsToCharge(items) + extra) == Subtotal(items) + PreferenceAmount(extra)
  {
    if items == [] {
      assert ItemsToCharge(items) + extra == extra;
    } else {
      assert (ItemsToCharge(items) + extra)[1..] == ItemsToCharge(items[1..]) + extra;
      ChargeAppends(items[1..], extra);
    }
  }

  /** The preference charges exactly the order's total, free shipping included. */
  lemma PreferenceChargesTotal(order: Order)
    requires OrderShape(order)
    ensures PreferenceAmount(PreferenceItems(order)) == order.total
  {
    ChargeAppends(order.items, PreferenceItems(order)[|ItemsToCharge(order.items)|..]);
    var extra: seq<PreferenceItem> := if order.shippingCost > 0 then [PreferenceItem(1, order.shippingCost)] else [];
    ChargeAppends(order.items, extra);
    if order.shippingCost > 0 {
      assert extra[1..] == [];
    }
  }

  predicate FreshItem(item: CartItem, stock: Levels) {
    && IsPurchasable(item.offer) && item.unitPriceSnapshot == item.offer.price
    && 0 < AvailableOf(stock, item.variant) && item.quantity <= AvailableOf(stock, item.variant)
  }

  /** Every item was left by revalidation as the catalogue and the stock allow. */
  ghost predicate Fresh(cart: seq<CartItem>, stock: Levels) {
    forall k :: 0 <= k < |cart| ==> FreshItem(cart[k], stock)
  }

  ghost predicate DistinctVariants(cart: seq<CartItem>) {
    forall i, j :: 0 <= i < j < |cart| ==> cart[i].variant != cart[j].variant
  }

  /** Revalidation leaves only items that need no further change; it drops some and keeps the variants of the rest. */
  lemma {:induction false} RevisedIsFresh(rows: seq<CartItem>, n: nat, stock: Levels)
    requires n <= |rows|
    ensures Fresh(Revised(rows, n, stock).items, stock)
    ensures DistinctVariants(rows) ==> DistinctVariants(Revised(rows, n, stock).items)
    ensures forall i <- Revised(rows, n, stock).items :: exists k :: 0 <= k < n && rows[k].variant == i.variant
    ensures (forall i <- rows :: i.quantity > 0) ==> forall i <- Revised(rows, n, stock).items :: i.quantity > 0
  {
    if n > 0 {
      RevisedIsFresh(rows, n - 1, stock);
    }
  }

  lemma FreshItemStays(done: Revision, item: CartItem, stock: Levels)
    requires FreshItem(item, stock)
    ensures ReviseOne(done, item, stock) == Revision(done.items + [item], done.adjustments)
  {
    assert done.adjustments + [] == done.adjustments;
  }

  lemma {:induction false} FreshStays(rows: seq<CartItem>, n: nat, stock: Levels)
    requires n <= |rows| && Fresh(rows, stock)
    ensures Revised(rows, n, stock) == Revision(rows[..n], [])
  {
    if n > 0 {
      FreshStays(rows, n - 1, stock);
      FreshItemStays(Revised(rows, n - 1, stock), rows[n - 1], stock);
      assert rows[..n] == rows[..n - 1] + [rows[n - 1]];
    }
  }

  /** Revalidating twice changes nothing the second time, and reports nothing. */
  lemma RevalidationIsIdempotent(rows: seq<CartItem>, stock: Levels)
    ensures var once := Revised(rows, |rows|, stock).items;
            Revised(once, |once|, stock) == Revision(once, [])
  {
    var once := Revised(rows, |rows|, stock).items;
    RevisedIsFresh(rows, |rows|, stock);
    FreshStays(once, |once|, stock);
    assert once[..|once|] == once;
  }

  lemma {:induction false} FreshHasNoProblems(cart: seq<CartItem>, n: nat, stock: Levels)
    requires n <= |cart| && Fresh(cart, stock)
    ensures CartProblems(cart, n) == []
  {
    if n > 0 {
      FreshHasNoProblems(cart, n - 1, stock);
      assert cart[n - 1] in cart;
    }
  }

  /** Units a cart asks of one variant: at most one item's quantity. */
  lemma {:induction false} UnitsOfItems(cart: seq<CartItem>, v: VariantId)
    requires DistinctVariants(cart)
    ensures forall i <- cart :: i.variant == v ==> Units(Lines(OrderItems(cart)), v) == i.quantity
    ensures (forall i <- cart :: i.variant != v) ==> Units(Lines(OrderItems(cart)), v) == 0
    ensures forall l <- Lines(OrderItems(cart)) :: exists k :: 0 <= k < |cart| && cart[k].variant == l.variant
  {
    if cart != [] {
      UnitsOfItems(cart[1..], v);
    }
  }

  lemma {:induction false} SubtotalsAgree(cart: seq<CartItem>, stock: Levels)
    requires Fresh(cart, stock)
    ensures Subtotal(OrderItems(cart)) == CartSubtotal(cart)
  {
    if cart != [] {
      var init, last := cart[..|cart| - 1], cart[|cart| - 1];
      SubtotalsAgree(init, stock);
      SubtotalAppends(init, last);
      assert cart == init + [last];
    }
  }

  lemma {:induction false} SubtotalAppends(cart: seq<CartItem>, last: CartItem)
    ensures Subtotal(OrderItems(cart + [last])) == Subtotal(OrderItems(cart)) + last.offer.price * last.quantity
  {
    if cart == [] {
      assert cart + [last] == [last];
    } else {
      assert (cart + [last])[1..] == cart[1..] + [last];
      SubtotalAppends(cart[1..], last);
    }
  }

  /**
   * With catalogue, stock and shipping unchanged, the total quoted for a revalidated cart is accepted:
   * the order is created, with its stock reserved and that total.
   */
  lemma QuotedTotalIsAccepted(rows: seq<CartItem>, stock: Levels, userId: nat, shippingCost: Cents, expiresAt: Time)
    requires DistinctVariants(rows)
    ensures var cart := Revised(rows, |rows|, stock).items;
            match Quote(cart, shippingCost)
            case None => cart == [] && Confirmed(stock, userId, cart, shippingCost, 0, expiresAt) == NotAllowed("EMPTY_CART")
            case Some(total) =>
              var attempt := Confirmed(stock, userId, cart, shippingCost, total, expiresAt);
              attempt.Opened? && attempt.rows.file.order.total == total && attempt.rows.file.order.reservationActive
  {
    var cart := Revised(rows, |rows|, stock).items;
    RevisedIsFresh(rows, |rows|, stock);
    if cart != [] {
      FreshHasNoProblems(cart, |cart|, stock);
      SubtotalsAgree(cart, stock);
      var lines := Lines(OrderItems(cart));
      forall l | l in lines ensures l.variant in stock && Units(lines, l.variant) <= stock[l.variant].Available() {
        UnitsOfItems(cart, l.variant);
        var k :| 0 <= k < |cart| && cart[k].variant == l.variant;
        assert cart[k] in cart;
      }
    }
  }
}
