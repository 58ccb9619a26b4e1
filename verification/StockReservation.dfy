/** The stock updates of orders, one conditional UPDATE per line, inside the caller's transaction. */
module StockReservation {
  import opened Stock
  import opened Entities

  /** All or nothing: on the first line that does not fit, the lines already reserved are given back. */
  method Reserve(tx: Tables, lines: seq<Line>) returns (ok: bool)
    modifies tx`stock
    ensures ok <==> Fits(old(tx.stock), lines)
    ensures tx.stock == if ok then Reserved(old(tx.stock), lines) else old(tx.stock)
  {
    ghost var before := tx.stock;
    for k := 0 to |lines|
      invariant Fits(before, lines[..k])
      invariant tx.stock == Reserved(before, lines[..k])
    {
      var line := lines[k];
      ReservedStep(before, lines, k);
      if line.variant !in tx.stock || tx.stock[line.variant].Available() < line.quantity {
        Release(tx, lines[..k]);
        ReleasedUndoesReserved(before, lines[..k]);
        return false;
      }
      var level := tx.stock[line.variant];
      tx.stock := tx.stock[line.variant := level.(reserved := level.reserved + line.quantity)];
    }
    assert lines[..|lines|] == lines;
    ok := true;
  }

  method Release(tx: Tables, lines: seq<Line>)
    modifies tx`stock
    ensures tx.stock == Released(old(tx.stock), lines)
  {
    ghost var before := tx.stock;
    assert Released(before, []) == before;
    for k := 0 to |lines|
      invariant tx.stock == Released(before, lines[..k])
    {
      var line := lines[k];
      ReleasedStep(before, lines, k);
      if line.variant in tx.stock {
        var level := tx.stock[line.variant];
        tx.stock := tx.stock[line.variant := level.(reserved := Max(level.reserved - line.quantity, 0))];
      }
    }
    assert lines[..|lines|] == lines;
  }

  method ConfirmSale(tx: Tables, lines: seq<Line>, reservationActive: bool) returns (shortages: seq<Line>)
    modifies tx`stock, tx`movements
    ensures var sale := Sold(old(tx.stock), lines, reservationActive);
            && tx.stock == sale.levels
            && shortages == sale.shortages
            && tx.movements == old(tx.movements) + sale.movements
  {
    shortages := [];
    ghost var before, movements := tx.stock, tx.movements;
    for k := 0 to |lines|
      invariant var sale := Sold(before, lines[..k], reservationActive);
                tx.stock == sale.levels && shortages == sale.shortages && tx.movements == movements + sale.movements
    {
      var line := lines[k];
      SoldStep(before, lines, k, reservationActive);
      if !Covers(tx.stock, line, reservationActive) {
        shortages := shortages + [line];
      } else {
        var level := tx.stock[line.variant];
        level := Level(level.total - line.quantity, if reservationActive then level.reserved - line.quantity else level.reserved);
        tx.stock := tx.stock[line.variant := level];
        tx.movements := tx.movements + [Movement(Venta, line.variant, line.quantity, level.total)];
      }
    }
    assert lines[..|lines|] == lines;
  }

  /** The movement rows of putting `lines` back, in order. */
  function RestockMovements(levels: Levels, lines: seq<Line>): seq<Movement> {
    if lines == [] then []
    else
      var last := lines[|lines| - 1];
      var before := RestockMovements(levels, lines[..|lines| - 1]);
      if last.variant !in levels then before
      else before + [Movement(Cancelacion, last.variant, last.quantity, levels[last.variant].total + Units(lines, last.variant))]
  }

  method RestockCancelledSale(tx: Tables, lines: seq<Line>)
    modifies tx`stock, tx`movements
    ensures tx.stock == Restocked(old(tx.stock), lines)
    ensures tx.movements == old(tx.movements) + RestockMovements(old(tx.stock), lines)
  {
    ghost var before, movements := tx.stock, tx.movements;
    assert Restocked(before, []) == before;
    for k := 0 to |lines|
      invariant tx.stock == Restocked(before, lines[..k])
      invariant tx.movements == movements + RestockMovements(before, lines[..k])
    {
      var line := lines[k];
      RestockedStep(before, lines, k);
      if line.variant in tx.stock {
        var level := tx.stock[line.variant];
        level := level.(total := level.total + line.quantity);
        tx.stock := tx.stock[line.variant := level];
        tx.movements := tx.movements + [Movement(Cancelacion, line.variant, line.quantity, level.total)];
      }
    }
    assert lines[..|lines|] == lines;
  }

  /** Units that come back from a customer; the damaged ones enter and leave at once. */
  datatype Arrival = Arrival(line: Line, damaged: bool)

  /** The stock and its history. */
  datatype Shelf = Shelf(levels: Levels, movements: seq<Movement>)

  function MoveTotal(shelf: Shelf, kind: MovementKind, line: Line, delta: int): Shelf {
    if line.variant !in shelf.levels then shelf
    else
      var level := shelf.levels[line.variant];
      Shelf(shelf.levels[line.variant := Level(level.total + delta, level.reserved)],
            shelf.movements + [Movement(kind, line.variant, line.quantity, level.total + delta)])
  }

  function ReturnOne(shelf: Shelf, a: Arrival): Shelf {
    var entered := MoveTotal(shelf, Devolucion, a.line, a.line.quantity);
    if a.damaged then MoveTotal(entered, Merma, a.line, 0 - a.line.quantity) else entered
  }

  /** The first `n` arrivals back on the shelf. */
  function ReturnedToShelf(shelf: Shelf, arrivals: seq<Arrival>, n: nat): Shelf
    requires n <= |arrivals|
  {
    if n == 0 then shelf else ReturnOne(ReturnedToShelf(shelf, arrivals, n - 1), arrivals[n - 1])
  }

  method RestockReturn(tx: Tables, arrivals: seq<Arrival>)
    modifies tx`stock, tx`movements
    ensures Shelf(tx.stock, tx.movements) == ReturnedToShelf(Shelf(old(tx.stock), old(tx.movements)), arrivals, |arrivals|)
  {
    ghost var before := Shelf(tx.stock, tx.movements);
    for k := 0 to |arrivals|
      invariant Shelf(tx.stock, tx.movements) == ReturnedToShelf(before, arrivals, k)
    {
      Move(tx, Devolucion, arrivals[k].line, arrivals[k].line.quantity);
      if arrivals[k].damaged {
        Move(tx, Merma, arrivals[k].line, 0 - arrivals[k].line.quantity);
      }
    }
  }

  method Move(tx: Tables, kind: MovementKind, line: Line, delta: int)
    modifies tx`stock, tx`movements
    ensures Shelf(tx.stock, tx.movements) == MoveTotal(Shelf(old(tx.stock), old(tx.movements)), kind, line, delta)
  {
    if line.variant in tx.stock {
      var level := tx.stock[line.variant];
      tx.stock := tx.stock[line.variant := level.(total := level.total + delta)];
      tx.movements := tx.movements + [Movement(kind, line.variant, line.quantity, level.total + delta)];
    }
  }

  /** Takes the replacement unit out, never below what is reserved. */
  method TakeForReplacement(tx: Tables, line: Line) returns (taken: bool)
    modifies tx`stock, tx`movements
    ensures taken <==> Covers(old(tx.stock), line, false)
    ensures Shelf(tx.stock, tx.movements)
            == if taken then MoveTotal(Shelf(old(tx.stock), old(tx.movements)), Cambio, line, 0 - line.quantity)
               else Shelf(old(tx.stock), old(tx.movements))
  {
    taken := line.variant in tx.stock && tx.stock[line.variant].Available() >= line.quantity;
    if taken {
      Move(tx, Cambio, line, 0 - line.quantity);
    }
  }

  /** One more line fits exactly when its variant still has those units left after the lines before it. */
  lemma FitsStep(levels: Levels, lines: seq<Line>, k: nat)
    requires k < |lines| && Fits(levels, lines[..k])
    ensures var line := lines[k];
            if line.variant in levels && Units(lines[..k], line.variant) + line.quantity <= levels[line.variant].Available()
            then Fits(levels, lines[..k + 1]) else !Fits(levels, lines)
  {
    var line, before, after := lines[k], lines[..k], lines[..k + 1];
    assert after == before + [line];
    UnitsAppend(before, line);
    assert line in lines;
    if line.variant in levels && Units(before, line.variant) + line.quantity <= levels[line.variant].Available() {
      forall l | l in after ensures l.variant in levels && Units(after, l.variant) <= levels[l.variant].Available() {
        assert l == line || l in before;
      }
    } else {
      PrefixUnits(lines, k + 1);
      assert Units(after, line.variant) <= Units(lines, line.variant);
    }
  }

  lemma ReservedStep(levels: Levels, lines: seq<Line>, k: nat)
    requires k < |lines| && Fits(levels, lines[..k])
    ensures Reserved(levels, []) == levels
    ensures var line := lines[k];
            var now := Reserved(levels, lines[..k]);
            if line.variant in now && line.quantity <= now[line.variant].Available()
            then
              && Fits(levels, lines[..k + 1])
              && Reserved(levels, lines[..k + 1])
                 == now[line.variant := Level(now[line.variant].total, now[line.variant].reserved + line.quantity)]
            else !Fits(levels, lines)
  {
    assert lines[..k + 1] == lines[..k] + [lines[k]];
    UnitsAppend(lines[..k], lines[k]);
    FitsStep(levels, lines, k);
  }

  /** Nothing is clamped: what is released is what had just been reserved. */
  lemma ReleasedUndoesReserved(levels: Levels, lines: seq<Line>)
    ensures Released(Reserved(levels, lines), lines) == levels
  {}

  lemma ReleasedStep(levels: Levels, lines: seq<Line>, k: nat)
    requires k < |lines|
    ensures var line := lines[k];
            var now := Released(levels, lines[..k]);
            Released(levels, lines[..k + 1])
            == if line.variant in now
               then now[line.variant := Level(now[line.variant].total, Max(now[line.variant].reserved - line.quantity, 0))]
               else now
  {
    assert lines[..k + 1] == lines[..k] + [lines[k]];
    UnitsAppend(lines[..k], lines[k]);
  }

  lemma RestockedStep(levels: Levels, lines: seq<Line>, k: nat)
    requires k < |lines|
    ensures var line := lines[k];
            var now := Restocked(levels, lines[..k]);
            var next := if line.variant in now
                        then now[line.variant := Level(now[line.variant].total + line.quantity, now[line.variant].reserved)]
                        else now;
            && Restocked(levels, lines[..k + 1]) == next
            && RestockMovements(levels, lines[..k + 1]) == RestockMovements(levels, lines[..k])
               + if line.variant in now
                 then [Movement(Cancelacion, line.variant, line.quantity, next[line.variant].total)]
                 else []
  {
    assert lines[..k + 1][..k] == lines[..k];
    assert lines[..k + 1] == lines[..k] + [lines[k]];
    UnitsAppend(lines[..k], lines[k]);
  }

  lemma SoldStep(levels: Levels, lines: seq<Line>, k: nat, active: bool)
    requires k < |lines|
    ensures Sold(levels, lines[..k + 1], active) == SellLine(Sold(levels, lines[..k], active), lines[k], active)
  {
    assert lines[..k + 1][..k] == lines[..k];
  }

  /** A prefix asks for no more units than the whole. */
  lemma PrefixUnits(lines: seq<Line>, k: nat)
    requires k <= |lines|
    ensures forall v :: Units(lines[..k], v) <= Units(lines, v)
    decreases |lines|
  {
    if k < |lines| {
      var init := lines[..|lines| - 1];
      assert lines == init + [lines[|lines| - 1]];
      UnitsAppend(init, lines[|lines| - 1]);
      PrefixUnits(init, k);
      assert init[..k] == lines[..k];
    } else {
      assert lines[..k] == lines;
    }
  }
}
