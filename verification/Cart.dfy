/** The cart at checkout: revalidation against the catalogue and totals. */
module Cart {
  import opened Wrappers
  import opened Stock
  import opened Entities

  /** What the catalogue says today of the product and variant of an item. */
  datatype Offer = Offer(productActive: bool, published: bool, variantActive: bool, price: Cents)

  predicate IsPurchasable(o: Offer) {
    o.productActive && o.published && o.variantActive
  }

  datatype CartItem = CartItem(variant: VariantId, quantity: nat, unitPriceSnapshot: Cents, offer: Offer)

  datatype Adjustment =
    | Removed(variant: VariantId, unavailable: bool)
    | QuantityReduced(variant: VariantId, from: nat, to: nat)
    | PriceUpdated(variant: VariantId, from: Cents, to: Cents)

  function AvailableOf(stock: Levels, v: VariantId): int {
    if v in stock then stock[v].Available() else 0
  }

  /** The item after revalidation, unless it cannot be bought any more. */
  function Kept(item: CartItem, available: int): Option<CartItem> {
    if !IsPurchasable(item.offer) || available <= 0 then None
    else Some(item.(quantity := if item.quantity > available then available else item.quantity, unitPriceSnapshot := item.offer.price))
  }

  /** What is told to the customer about the item. */
  function Changes(item: CartItem, available: int): seq<Adjustment> {
    if !IsPurchasable(item.offer) then [Removed(item.variant, true)]
    else if available <= 0 then [Removed(item.variant, false)]
    else
      (if item.quantity > available then [QuantityReduced(item.variant, item.quantity, available)] else [])
      + if item.offer.price != item.unitPriceSnapshot then [PriceUpdated(item.variant, item.unitPriceSnapshot, item.offer.price)] else []
  }

  datatype Revision = Revision(items: seq<CartItem>, adjustments: seq<Adjustment>)

  function ReviseOne(done: Revision, item: CartItem, stock: Levels): Revision {
    var available := AvailableOf(stock, item.variant);
    Revision(done.items + (match Kept(item, available) case None => [] case Some(i) => [i]), done.adjustments + Changes(item, available))
  }

  /** The first `n` items of the cart after revalidation, and what changed in them. */
  function Revised(rows: seq<CartItem>, n: nat, stock: Levels): Revision
    requires n <= |rows|
  {
    if n == 0 then Revision([], []) else ReviseOne(Revised(rows, n - 1, stock), rows[n - 1], stock)
  }

  function CartSubtotal(items: seq<CartItem>): Cents {
    if items == [] then 0
    else CartSubtotal(items[..|items| - 1]) + items[|items| - 1].unitPriceSnapshot * items[|items| - 1].quantity
  }

  /** Dropping or replacing the item at the boundary moves it by one. */
  lemma RevisedOne(done: Revision, item: CartItem, rest: seq<CartItem>, stock: Levels)
    ensures var items, at, kept := done.items + ([item] + rest), |done.items|, Kept(item, AvailableOf(stock, item.variant));
            && items[at] == item
            && (if kept.Some? then items[at := kept.value] else items[..at] + items[at + 1..]) == ReviseOne(done, item, stock).items + rest
  {}

  lemma RevisedNext(rows: seq<CartItem>, k: nat, stock: Levels)
    requires k < |rows|
    ensures rows[k..] == [rows[k]] + rows[k + 1..]
    ensures Revised(rows, k + 1, stock) == ReviseOne(Revised(rows, k, stock), rows[k], stock)
  {}

  class CartRows {
    var items: seq<CartItem>

    /** One item: removed if it cannot be bought, else reduced to the stock and brought to the current price. */
    method RevalidateItem(k: nat, stock: Levels) returns (kept: bool, changes: seq<Adjustment>)
      requires k < |items|
      modifies this
      ensures var item := old(items)[k];
              var after := Kept(item, AvailableOf(stock, item.variant));
              && changes == Changes(item, AvailableOf(stock, item.variant))
              && kept == after.Some?
              && items == if kept then old(items)[k := after.value] else old(items)[..k] + old(items)[k + 1..]
    {
      var item := items[k];
      if !IsPurchasable(item.offer) {
        items := items[..k] + items[k + 1..];
        return false, [Removed(item.variant, true)];
      }
      var available := AvailableOf(stock, item.variant);
      if available <= 0 {
        items := items[..k] + items[k + 1..];
        return false, [Removed(item.variant, false)];
      }
      changes := [];
      if item.quantity > available {
        changes := changes + [QuantityReduced(item.variant, item.quantity, available)];
        item := item.(quantity := available);
      }
      if item.offer.price != item.unitPriceSnapshot {
        changes := changes + [PriceUpdated(item.variant, item.unitPriceSnapshot, item.offer.price)];
        item := item.(unitPriceSnapshot := item.offer.price);
      }
      items := items[k := item];
      kept := true;
    }

    /** The item after those already revalidated. */
    method RevalidateNext(k: nat, ghost done: Revision, item: CartItem, ghost rest: seq<CartItem>, stock: Levels)
      returns (kept: bool, changes: seq<Adjustment>)
      requires k == |done.items| && items == done.items + ([item] + rest)
      modifies this
      ensures items == ReviseOne(done, item, stock).items + rest
      ensures done.adjustments + changes == ReviseOne(done, item, stock).adjustments
      ensures |ReviseOne(done, item, stock).items| == k + if kept then 1 else 0
    {
      RevisedOne(done, item, rest, stock);
      kept, changes := RevalidateItem(k, stock);
    }

    /** Removes what cannot be bought, reduces what is short of stock, refreshes the prices. */
    method RevalidateForCheckout(stock: Levels) returns (adjustments: seq<Adjustment>)
      modifies this
      ensures Revision(items, adjustments) == Revised(old(items), |old(items)|, stock)
    {
      var rows := items;
      var done := 0;
      adjustments := [];
      ghost var revision := Revision([], []);
      assert revision.items + rows[0..] == rows;
      for k := 0 to |rows|
        invariant revision == Revised(rows, k, stock) && adjustments == revision.adjustments
        invariant done == |revision.items| && items == revision.items + rows[k..]
      {
        RevisedNext(rows, k, stock);
        var kept, changes := RevalidateNext(done, revision, rows[k], rows[k + 1..], stock);
        adjustments := adjustments + changes;
        done := done + if kept then 1 else 0;
        revision := Revised(rows, k + 1, stock);
      }
      assert revision.items + rows[|rows|..] == revision.items;
    }
  }
}
