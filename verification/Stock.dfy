/** Reservation, release and firm deduction of stock, variant by variant. */
module Stock {

  type VariantId = nat

  datatype Line = Line(variant: VariantId, quantity: nat)

  /** The two stock columns of a variant; what can still be sold is the difference. */
  datatype Level = Level(total: int, reserved: nat) {
    function Available(): int { total - reserved }
  }

  type Levels = map<VariantId, Level>

  datatype MovementKind = Venta | Cancelacion | Devolucion | Merma | Cambio

  /** One row of the stock history. */
  datatype Movement = Movement(kind: MovementKind, variant: VariantId, quantity: nat, resultingTotal: int)

  /** Units of variant `v` over all lines. */
  function Units(lines: seq<Line>, v: VariantId): nat {
    if lines == [] then 0
    else (if lines[0].variant == v then lines[0].quantity else 0) + Units(lines[1..], v)
  }

  function Max(a: int, b: int): int { if a < b then b else a }

  /** Every variant of the lines exists and still has all the units asked for. */
  ghost predicate Fits(levels: Levels, lines: seq<Line>) {
    forall l <- lines :: l.variant in levels && Units(lines, l.variant) <= levels[l.variant].Available()
  }

  /** All the lines reserved. */
  function Reserved(levels: Levels, lines: seq<Line>): Levels {
    map v | v in levels :: Level(levels[v].total, levels[v].reserved + Units(lines, v))
  }

  /** All the lines given back to the available stock, never below zero. */
  function Released(levels: Levels, lines: seq<Line>): Levels {
    map v | v in levels :: Level(levels[v].total, Max(levels[v].reserved - Units(lines, v), 0))
  }

  /** All the lines put back into the total. */
  function Restocked(levels: Levels, lines: seq<Line>): Levels {
    map v | v in levels :: Level(levels[v].total + Units(lines, v), levels[v].reserved)
  }

  /** What a firm deduction does: the lines served, those that fell short, and the sale movements. */
  datatype Sale = Sale(levels: Levels, served: seq<Line>, shortages: seq<Line>, movements: seq<Movement>)

  predicate Covers(levels: Levels, line: Line, reservationActive: bool) {
    && line.variant in levels
    && line.quantity <= if reservationActive then levels[line.variant].reserved else levels[line.variant].Available()
  }

  /** A covered line leaves the total (and the reservation, when it was active); any other falls short. */
  function SellLine(sale: Sale, line: Line, reservationActive: bool): Sale {
    if Covers(sale.levels, line, reservationActive) then
      var level := sale.levels[line.variant];
      var after := Level(level.total - line.quantity, if reservationActive then level.reserved - line.quantity else level.reserved);
      Sale(sale.levels[line.variant := after], sale.served + [line], sale.shortages,
           sale.movements + [Movement(Venta, line.variant, line.quantity, after.total)])
    else
      sale.(shortages := sale.shortages + [line])
  }

  function Sold(levels: Levels, lines: seq<Line>, reservationActive: bool): Sale {
    if lines == [] then Sale(levels, [], [], [])
    else SellLine(Sold(levels, lines[..|lines| - 1], reservationActive), lines[|lines| - 1], reservationActive)
  }

  /** Every unit asked for is either deducted or reported short, and only the deducted ones leave the stock. */
  lemma {:induction false} SoldEffect(levels: Levels, lines: seq<Line>, reservationActive: bool)
    ensures var sale := Sold(levels, lines, reservationActive);
            && sale.levels.Keys == levels.Keys
            && (forall v <- levels ::
                  && sale.levels[v].total == levels[v].total - Units(sale.served, v)
                  && sale.levels[v].reserved == levels[v].reserved - if reservationActive then Units(sale.served, v) else 0)
            && (forall v :: Units(sale.served, v) + Units(sale.shortages, v) == Units(lines, v))
            && (forall l <- sale.shortages :: l in lines)
  {
    if lines != [] {
      var init, last := lines[..|lines| - 1], lines[|lines| - 1];
      SoldEffect(levels, init, reservationActive);
      assert lines == init + [last];
      var before := Sold(levels, init, reservationActive);
      UnitsAppend(init, last);
      UnitsAppend(before.served, last);
      UnitsAppend(before.shortages, last);
    }
  }

  lemma UnitsAppend(lines: seq<Line>, last: Line)
    ensures forall v :: Units(lines + [last], v) == Units(lines, v) + if last.variant == v then last.quantity else 0
  {
    forall v ensures Units(lines + [last], v) == Units(lines, v) + if last.variant == v then last.quantity else 0 {
      UnitsAppendAt(lines, last, v);
    }
  }

  lemma {:induction false} UnitsAppendAt(lines: seq<Line>, last: Line, v: VariantId)
    ensures Units(lines + [last], v) == Units(lines, v) + if last.variant == v then last.quantity else 0
  {
    if lines == [] {
      assert lines + [last] == [last];
    } else {
      assert (lines + [last])[1..] == lines[1..] + [last];
      UnitsAppendAt(lines[1..], last, v);
    }
  }
}
