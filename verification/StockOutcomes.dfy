/** What each stock operation leaves in every variant, said of the stock before it, line by line. */
module StockOutcomes {
  import opened Stock
  import opened Entities
  import opened OrdersService
  import opened StockInvariant

  /** No two lines are of the same variant, as in every order. */
  ghost predicate OnePerVariant(lines: seq<Line>) {
    forall i, j :: 0 <= i < j < |lines| ==> lines[i].variant != lines[j].variant
  }

  /** The stock has the units of the line: reserved for it, or not reserved at all. */
  predicate HasUnits(stock: Levels, l: Line, reserved: bool) {
    l.variant in stock && l.quantity <= if reserved then stock[l.variant].reserved else stock[l.variant].total - stock[l.variant].reserved
  }

  // ----- The firm deduction -----

  /** The sale deducts exactly the lines that the stock has units for, and leaves every other variant as it was. */
  ghost predicate DeductsByLine(stock: Levels, lines: seq<Line>, reserved: bool, stock': Levels) {
    && stock'.Keys == stock.Keys
    && (forall v <- stock :: (forall l <- lines :: l.variant != v) ==> stock'[v] == stock[v])
    && (forall l <- lines :: l.variant in stock ==>
          stock'[l.variant] == if HasUnits(stock, l, reserved)
                               then Level(stock[l.variant].total - l.quantity, stock[l.variant].reserved - if reserved then l.quantity else 0)
                               else stock[l.variant])
  }

  /** One more line: its variant is as it was before the sale. */
  lemma SellOneMore(stock: Levels, init: seq<Line>, last: Line, reserved: bool, before: Sale)
    requires OnePerVariant(init + [last]) && DeductsByLine(stock, init, reserved, before.levels)
    ensures DeductsByLine(stock, init + [last], reserved, SellLine(before, last, reserved).levels)
    ensures Covers(before.levels, last, reserved) <==> HasUnits(stock, last, reserved)
  {
    var lines := init + [last];
    LastIsAlone(init, last);
    forall l | l in lines ensures l in init || l == last {}
    assert last.variant in stock ==> before.levels[last.variant] == stock[last.variant];
    forall v | v in stock && (forall l <- lines :: l.variant != v) ensures SellLine(before, last, reserved).levels[v] == stock[v] {
      assert last in lines && forall l <- init :: l in lines;
    }
  }

  lemma {:induction false} SoldByLine(stock: Levels, lines: seq<Line>, reserved: bool)
    requires OnePerVariant(lines)
    ensures DeductsByLine(stock, lines, reserved, Sold(stock, lines, reserved).levels)
    ensures forall l :: l in Sold(stock, lines, reserved).shortages <==> l in lines && !HasUnits(stock, l, reserved)
  {
    if lines != [] {
      var init, last := lines[..|lines| - 1], lines[|lines| - 1];
      assert lines == init + [last];
      SoldByLine(stock, init, reserved);
      SellOneMore(stock, init, last, reserved, Sold(stock, init, reserved));
    }
  }

  /** The movement of a line sold on its own. */
  ghost predicate IsSaleOf(stock: Levels, lines: seq<Line>, reserved: bool, m: Movement) {
    exists l <- lines :: HasUnits(stock, l, reserved) && m == Movement(Venta, l.variant, l.quantity, stock[l.variant].total - l.quantity)
  }

  predicate HasSaleOf(movements: seq<Movement>, stock: Levels, l: Line)
    requires l.variant in stock
  {
    Movement(Venta, l.variant, l.quantity, stock[l.variant].total - l.quantity) in movements
  }

  /** No movement but those of the lines sold. */
  lemma {:induction false} SaleMovements(stock: Levels, lines: seq<Line>, reserved: bool)
    requires OnePerVariant(lines)
    ensures forall m <- Sold(stock, lines, reserved).movements :: IsSaleOf(stock, lines, reserved, m)
  {
    if lines != [] {
      var init, last := lines[..|lines| - 1], lines[|lines| - 1];
      assert lines == init + [last];
      SaleMovements(stock, init, reserved);
      SoldByLine(stock, init, reserved);
      SellOneMore(stock, init, last, reserved, Sold(stock, init, reserved));
      forall m | m in Sold(stock, init, reserved).movements ensures IsSaleOf(stock, lines, reserved, m) {
        var l :| l in init && HasUnits(stock, l, reserved) && m == Movement(Venta, l.variant, l.quantity, stock[l.variant].total - l.quantity);
        assert l in lines;
      }
      LastIsAlone(init, last);
      assert last in lines;
    }
  }

  /** One movement for each of them. */
  lemma {:induction false} SalesAreRecorded(stock: Levels, lines: seq<Line>, reserved: bool)
    requires OnePerVariant(lines)
    ensures forall l <- lines :: HasUnits(stock, l, reserved) ==> HasSaleOf(Sold(stock, lines, reserved).movements, stock, l)
  {
    if lines != [] {
      var init, last := lines[..|lines| - 1], lines[|lines| - 1];
      assert lines == init + [last];
      SalesAreRecorded(stock, init, reserved);
      SoldByLine(stock, init, reserved);
      LastSale(stock, init, last, reserved, Sold(stock, init, reserved));
      forall l | l in lines && HasUnits(stock, l, reserved) ensures HasSaleOf(Sold(stock, lines, reserved).movements, stock, l) {
        assert l in init || l == last;
      }
    }
  }

  lemma LastSale(stock: Levels, init: seq<Line>, last: Line, reserved: bool, before: Sale)
    requires OnePerVariant(init + [last]) && DeductsByLine(stock, init, reserved, before.levels)
    ensures before.movements <= SellLine(before, last, reserved).movements
    ensures HasUnits(stock, last, reserved) ==> HasSaleOf(SellLine(before, last, reserved).movements, stock, last)
  {
    SellOneMore(stock, init, last, reserved, before);
    LastIsAlone(init, last);
  }

  lemma LastIsAlone(init: seq<Line>, last: Line)
    requires OnePerVariant(init + [last])
    ensures forall l <- init :: l.variant != last.variant
  {
    forall l | l in init ensures l.variant != last.variant {
      var i :| 0 <= i < |init| && init[i] == l;
      assert (init + [last])[i] == l && (init + [last])[|init|] == last;
    }
  }

  lemma {:induction false} MarkedAt(items: seq<Item>, shortages: seq<Line>)
    ensures |MarkCommitted(items, shortages)| == |items|
    ensures forall i :: 0 <= i < |items| ==>
              MarkCommitted(items, shortages)[i]
              == if IsShort(shortages, items[i].variant) then items[i] else items[i].(stockCommitted := true)
  {
    if items != [] {
      MarkedAt(items[1..], shortages);
    }
  }

  // ----- Reservations -----

  /** Each line changes what is reserved of its own variant: `sign` is 1 to take, -1 to give back. */
  ghost predicate ShiftsReserved(stock: Levels, lines: seq<Line>, sign: int, stock': Levels) {
    && stock'.Keys == stock.Keys
    && (forall v <- stock :: (forall l <- lines :: l.variant != v) ==> stock'[v] == stock[v])
    && (forall l <- lines :: l.variant in stock ==>
          stock'[l.variant].total == stock[l.variant].total && stock'[l.variant].reserved == stock[l.variant].reserved + sign * l.quantity)
  }

  lemma ReservedByLine(stock: Levels, lines: seq<Line>)
    requires OnePerVariant(lines)
    ensures ShiftsReserved(stock, lines, 1, Reserved(stock, lines))
    ensures Fits(stock, lines) <==> forall l <- lines :: HasUnits(stock, l, false)
  {
    forall l | l in lines ensures Units(lines, l.variant) == l.quantity {
      UnitsOfDistinct(lines, l);
    }
    forall v | v in stock && (forall l <- lines :: l.variant != v) ensures Units(lines, v) == 0 {
      UnitsOfMember(lines, Line(v, 0));
    }
  }

  lemma ReleasedByLine(stock: Levels, lines: seq<Line>)
    requires OnePerVariant(lines) && forall l <- lines :: HasUnits(stock, l, true)
    ensures ShiftsReserved(stock, lines, -1, Released(stock, lines))
  {
    forall l | l in lines ensures Units(lines, l.variant) == l.quantity {
      UnitsOfDistinct(lines, l);
    }
    forall v | v in stock && (forall l <- lines :: l.variant != v) ensures Units(lines, v) == 0 {
      UnitsOfMember(lines, Line(v, 0));
    }
  }

  // ----- The lines of an order -----

  lemma OrderLinesDiffer(order: Order)
    requires OrderShape(order)
    ensures OnePerVariant(Lines(order.items))
  {
    LinesAt(order.items);
  }

  /** With the reservation on, the stock has every unit of the order. */
  lemma ReservedHasUnits(r: Rows)
    requires StockCovers(GoodsOf(r)) && r.file.order.reservationActive
    ensures forall i :: 0 <= i < |r.file.order.items| ==>
              HasUnits(r.stock, Line(r.file.order.items[i].variant, r.file.order.items[i].quantity), true)
  {
    var items := r.file.order.items;
    var lines := Lines(items);
    LinesAt(items);
    forall i | 0 <= i < |items| ensures HasUnits(r.stock, Line(items[i].variant, items[i].quantity), true) {
      assert lines[i] in lines;
      UnitsOfMember(lines, lines[i]);
    }
  }

  /** What an order gives back when its reservation is released: every line, nothing clamped. */
  lemma OrderReleases(r: Rows)
    requires OrderShape(r.file.order) && StockCovers(GoodsOf(r))
    ensures var r' := ReservationReleased(r);
            && r'.file == r.file.(order := r.file.order.(reservationActive := false))
            && if r.file.order.reservationActive then ShiftsReserved(r.stock, Lines(r.file.order.items), -1, r'.stock) else r'.stock == r.stock
  {
    if r.file.order.reservationActive {
      OrderLinesDiffer(r.file.order);
      LinesAt(r.file.order.items);
      ReservedHasUnits(r);
      ReleasedByLine(r.stock, Lines(r.file.order.items));
    }
  }
}
