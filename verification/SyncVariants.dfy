/** Editing the variants of a product: the list of the form becomes the active variants, with SKUs unique after every row written. */
module SyncVariants {
  import opened Wrappers

  datatype Variant = Variant(
    id: string,
    product: nat,
    sku: string,
    attributes: string,
    position: nat,
    isActive: bool,
    total: int,
    reserved: nat)

  /** A row of the form: with `id`, an existing variant; `original` is the total the form loaded. */
  datatype FormRow = FormRow(id: Option<string>, sku: string, attributes: string, total: nat, original: nat)

  datatype Adjustment = Adjustment(id: string, total: nat)

  /** Primary key and the UNIQUE on the SKU, over the variants of every product. */
  ghost predicate TableOk(rows: seq<Variant>) {
    && (forall i, j :: 0 <= i < j < |rows| ==> rows[i].id != rows[j].id)
    && (forall i, j :: 0 <= i < j < |rows| ==> rows[i].sku != rows[j].sku)
  }

  /** First of the first `n` rows that satisfies `p`. */
  function Search(rows: seq<Variant>, p: Variant -> bool, n: nat): (found: Option<nat>)
    requires n <= |rows|
    ensures found == None ==> forall k :: 0 <= k < n ==> !p(rows[k])
    ensures found.Some? ==> found.value < n && p(rows[found.value])
  {
    if n == 0 then None
    else match Search(rows, p, n - 1)
      case Some(k) => Some(k)
      case None => if p(rows[n - 1]) then Some(n - 1) else None
  }

  predicate IsKept(form: seq<FormRow>, id: string) {
    exists i :: 0 <= i < |form| && form[i].id == Some(id)
  }

  /** The existing variant of a form row: by id, or an active one that was dropped from the list with the same SKU. */
  function Target(rows: seq<Variant>, product: nat, form: seq<FormRow>, i: nat): Option<nat>
    requires i < |form|
  {
    match form[i].id
    case Some(id) => Search(rows, (v: Variant) => v.product == product && v.id == id, |rows|)
    case None => Search(rows, (v: Variant) => v.product == product && v.isActive && v.sku == form[i].sku && !IsKept(form, v.id), |rows|)
  }

  predicate IsTarget(rows: seq<Variant>, product: nat, form: seq<FormRow>, k: nat) {
    exists i :: 0 <= i < |form| && Target(rows, product, form, i) == Some(k)
  }

  /** The administrator changed the total in the form. */
  predicate Adjusts(row: FormRow) {
    row.id.Some? && row.total != row.original
  }

  function RowError(rows: seq<Variant>, product: nat, form: seq<FormRow>, i: nat): Option<string>
    requires i < |form|
  {
    match Target(rows, product, form, i)
    case None => None
    case Some(k) =>
      if k >= |rows| || !Adjusts(form[i]) then None
      else if rows[k].total != form[i].original then Some("STOCK_CHANGED")
      else if form[i].total < rows[k].reserved then Some("BELOW_RESERVED")
      else None
  }

  function FirstRowError(rows: seq<Variant>, product: nat, form: seq<FormRow>, n: nat): (error: Option<string>)
    requires n <= |form|
    ensures error == None <==> forall i :: 0 <= i < n ==> RowError(rows, product, form, i) == None
  {
    if n == 0 then None
    else match FirstRowError(rows, product, form, n - 1)
      case Some(code) => Some(code)
      case None => RowError(rows, product, form, n - 1)
  }

  /** What is checked before anything is changed. */
  function ListError(rows: seq<Variant>, product: nat, form: seq<FormRow>): Option<string> {
    if exists i, j :: 0 <= i < j < |form| && form[i].id.Some? && form[i].id == form[j].id then Some("REPEATED_VARIANT")
    else if exists i :: 0 <= i < |form| && form[i].id.Some? && Target(rows, product, form, i) == None then Some("VARIANT_GONE")
    else if exists i, j :: 0 <= i < j < |form| && form[i].sku == form[j].sku then Some("REPEATED_SKU")
    else if exists i, k :: 0 <= i < |form| && 0 <= k < |rows| && rows[k].product != product && rows[k].sku == form[i].sku then Some("SKU_IN_USE")
    else if exists i, k :: 0 <= i < |form| && 0 <= k < |rows| && rows[k].product == product
                           && !IsTarget(rows, product, form, k) && rows[k].sku == form[i].sku then Some("SKU_OF_REMOVED")
    else if exists k :: 0 <= k < |rows| && rows[k].product == product && rows[k].isActive
                        && !IsTarget(rows, product, form, k) && rows[k].reserved > 0 then Some("RESERVED_STOCK")
    else None
  }

  /** Active variants that are not in the list any more are deactivated. */
  function Removed(rows: seq<Variant>, product: nat, form: seq<FormRow>): seq<Variant> {
    seq(|rows|, k requires 0 <= k < |rows| =>
      if rows[k].product == product && rows[k].isActive && !IsTarget(rows, product, form, k) then rows[k].(isActive := false) else rows[k])
  }

  /** The table being edited; `placed[i]` is the variant of form row `i`. */
  datatype Draft = Draft(rows: seq<Variant>, placed: seq<nat>, adjustments: seq<Adjustment>)

  function Edited(v: Variant, row: FormRow, position: nat): Variant {
    v.(sku := row.sku, attributes := row.attributes, position := position, isActive := true,
       total := if Adjusts(row) then row.total else v.total)
  }

  function New(id: string, product: nat, row: FormRow, position: nat): Variant {
    Variant(id, product, row.sku, row.attributes, position, true, row.total, 0)
  }

  function PlaceOne(draft: Draft, target: Option<nat>, id: string, product: nat, row: FormRow, position: nat): Draft {
    match target
    case Some(k) =>
      if k >= |draft.rows| then draft
      else Draft(draft.rows[k := Edited(draft.rows[k], row, position)], draft.placed + [k],
                 draft.adjustments + if Adjusts(row) then [Adjustment(draft.rows[k].id, row.total)] else [])
    case None => Draft(draft.rows + [New(id, product, row, position)], draft.placed + [|draft.rows|], draft.adjustments)
  }

  /** The first `n` rows of the form applied, each at its index. */
  function Placed(rows: seq<Variant>, product: nat, form: seq<FormRow>, newIds: seq<string>, n: nat): Draft
    requires n <= |form| == |newIds|
  {
    if n == 0 then Draft(Removed(rows, product, form), [], [])
    else PlaceOne(Placed(rows, product, form, newIds, n - 1), Target(rows, product, form, n - 1), newIds[n - 1], product, form[n - 1], n - 1)
  }

  function Synced(rows: seq<Variant>, product: nat, form: seq<FormRow>, newIds: seq<string>): Outcome<Draft>
    requires |newIds| == |form|
  {
    match ListError(rows, product, form)
    case Some(code) => Refused(code)
    case None =>
      match FirstRowError(rows, product, form, |form|)
      case Some(code) => Refused(code)
      case None => Done(Placed(rows, product, form, newIds, |form|))
  }

  method DeactivateRemoved(rows: seq<Variant>, product: nat, form: seq<FormRow>) returns (edited: seq<Variant>)
    ensures edited == Removed(rows, product, form)
  {
    edited := rows;
    for k := 0 to |rows|
      invariant |edited| == |rows|
      invariant forall j :: 0 <= j < |rows| ==> edited[j] == if j < k then Removed(rows, product, form)[j] else rows[j]
    {
      if rows[k].product == product && rows[k].isActive && !IsTarget(rows, product, form, k) {
        edited := edited[k := edited[k].(isActive := false)];
      }
    }
  }

  /** Row by row of the form: the existing variant edited, or a new one added. */
  method ApplyForm(rows: seq<Variant>, product: nat, form: seq<FormRow>, newIds: seq<string>, removed: seq<Variant>)
    returns (error: Option<string>, draft: Draft)
    requires |newIds| == |form| && removed == Removed(rows, product, form)
    ensures error == FirstRowError(rows, product, form, |form|)
    ensures error == None ==> draft == Placed(rows, product, form, newIds, |form|)
  {
    draft := Draft(removed, [], []);
    for position := 0 to |form|
      invariant FirstRowError(rows, product, form, position) == None
      invariant draft == Placed(rows, product, form, newIds, position) && |draft.rows| >= |rows|
    {
      var row, target := form[position], Target(rows, product, form, position);
      RowErrorStays(rows, product, form, position + 1);
      if target.Some? && Adjusts(row) {
        if rows[target.value].total != row.original {
          error := Some("STOCK_CHANGED");
          return;
        }
        if row.total < rows[target.value].reserved {
          error := Some("BELOW_RESERVED");
          return;
        }
      }
      draft := PlaceOne(draft, target, newIds[position], product, row, position);
    }
    error := None;
  }

  class Variants {
    var rows: seq<Variant>
    var adjustments: seq<Adjustment>

    /** `newIds` are the random ids of the variants to create. */
    method Sync(product: nat, form: seq<FormRow>, newIds: seq<string>) returns (error: Option<string>)
      requires |newIds| == |form|
      modifies this
      ensures match Synced(old(rows), product, form, newIds)
              case Done(draft) => error == None && rows == draft.rows && adjustments == old(adjustments) + draft.adjustments
              case Refused(code) => error == Some(code) && rows == old(rows) && adjustments == old(adjustments)
    {
      error := ListError(rows, product, form);
      if error.Some? {
        return;
      }
      var removed := DeactivateRemoved(rows, product, form);
      var draft;
      error, draft := ApplyForm(rows, product, form, newIds, removed);
      if error == None {
        rows := draft.rows;
        adjustments := adjustments + draft.adjustments;
      }
    }
  }

  lemma {:induction false} RowErrorStays(rows: seq<Variant>, product: nat, form: seq<FormRow>, n: nat)
    requires n <= |form|
    ensures FirstRowError(rows, product, form, n).Some? ==>
              FirstRowError(rows, product, form, |form|) == FirstRowError(rows, product, form, n)
    decreases |form| - n
  {
    if n < |form| {
      RowErrorStays(rows, product, form, n + 1);
    }
  }

  // ----- Where each row of the form ends -----

  /** No two rows of the form are for the same variant. */
  lemma TargetsDiffer(rows: seq<Variant>, product: nat, form: seq<FormRow>, i: nat, j: nat)
    requires TableOk(rows) && ListError(rows, product, form) == None && i < j < |form|
    ensures Target(rows, product, form, i).Some? ==> Target(rows, product, form, i) != Target(rows, product, form, j)
  {
    var a, b := Target(rows, product, form, i), Target(rows, product, form, j);
    if a.Some? && a == b {
      if form[i].id.Some? && form[j].id == None {
        assert IsKept(form, rows[a.value].id);
      }
    }
  }

  /** What form row `i` asks for: the variant edited, with the stock the database has unless it was adjusted, or a new one. */
  function Wanted(rows: seq<Variant>, product: nat, form: seq<FormRow>, newIds: seq<string>, i: nat): Variant
    requires i < |form| == |newIds|
  {
    match Target(rows, product, form, i)
    case Some(k) => if k < |rows| then Edited(rows[k], form[i], i) else New(newIds[i], product, form[i], i)
    case None => New(newIds[i], product, form[i], i)
  }

  /** The targets and the rows wanted, for the whole form. */
  function Targets(rows: seq<Variant>, product: nat, form: seq<FormRow>): seq<Option<nat>> {
    seq(|form|, i requires 0 <= i < |form| => Target(rows, product, form, i))
  }

  function AllWanted(rows: seq<Variant>, product: nat, form: seq<FormRow>, newIds: seq<string>): seq<Variant>
    requires |form| == |newIds|
  {
    seq(|form|, i requires 0 <= i < |form| => Wanted(rows, product, form, newIds, i))
  }

  /** Each of the first `n` rows of the form is in its own place; every other row is as `removed` left it. */
  ghost predicate WellPlaced(removed: seq<Variant>, targets: seq<Option<nat>>, wanted: seq<Variant>, n: nat, d: Draft)
    requires n <= |targets| == |wanted|
  {
    && |d.placed| == n && |removed| <= |d.rows|
    && (forall i :: 0 <= i < n ==> d.placed[i] < |d.rows| && d.rows[d.placed[i]] == wanted[i])
    && (forall i :: 0 <= i < n ==> if targets[i].Some? then d.placed[i] == targets[i].value else d.placed[i] >= |removed|)
    && (forall i, j :: 0 <= i < j < n ==> d.placed[i] != d.placed[j])
    && (forall k :: 0 <= k < |removed| && k !in d.placed ==> d.rows[k] == removed[k])
    && (forall k :: |removed| <= k < |d.rows| ==> k in d.placed)
  }

  lemma PlaceExistingWell(removed: seq<Variant>, targets: seq<Option<nat>>, wanted: seq<Variant>, n: nat, d: Draft, d': Draft, k: nat)
    requires n < |targets| == |wanted| && WellPlaced(removed, targets, wanted, n, d)
    requires targets[n] == Some(k) && k < |removed| && forall i :: 0 <= i < n ==> targets[i] != Some(k)
    requires d'.rows == d.rows[k := wanted[n]] && d'.placed == d.placed + [k]
    ensures k !in d.placed && WellPlaced(removed, targets, wanted, n + 1, d')
  {
    forall j | |removed| <= j < |d'.rows| ensures j in d'.placed {
      assert j in d.placed;
    }
    assert d'.placed[n] == k;
  }

  lemma PlaceNewWell(removed: seq<Variant>, targets: seq<Option<nat>>, wanted: seq<Variant>, n: nat, d: Draft, d': Draft)
    requires n < |targets| == |wanted| && WellPlaced(removed, targets, wanted, n, d)
    requires targets[n] == None
    requires d'.rows == d.rows + [wanted[n]] && d'.placed == d.placed + [|d.rows|]
    ensures WellPlaced(removed, targets, wanted, n + 1, d')
  {
    forall j | |removed| <= j < |d'.rows| ensures j in d'.placed {
      assert j == |d.rows| || j in d.placed;
      assert d'.placed[n] == |d.rows|;
    }
  }

  lemma NotYetPlaced(removed: seq<Variant>, targets: seq<Option<nat>>, wanted: seq<Variant>, n: nat, d: Draft, k: nat)
    requires n <= |targets| == |wanted| && WellPlaced(removed, targets, wanted, n, d)
    requires k < |removed| && forall i :: 0 <= i < n ==> targets[i] != Some(k)
    ensures d.rows[k] == removed[k]
  {
    assert forall i :: 0 <= i < n ==> d.placed[i] != k;
  }

  lemma PlacedOneWell(rows: seq<Variant>, product: nat, form: seq<FormRow>, newIds: seq<string>, n: nat, d: Draft)
    requires TableOk(rows) && ListError(rows, product, form) == None && n < |form| == |newIds|
    requires WellPlaced(Removed(rows, product, form), Targets(rows, product, form), AllWanted(rows, product, form, newIds), n, d)
    ensures WellPlaced(Removed(rows, product, form), Targets(rows, product, form), AllWanted(rows, product, form, newIds), n + 1,
                       PlaceOne(d, Target(rows, product, form, n), newIds[n], product, form[n], n))
  {
    var removed, targets, wanted := Removed(rows, product, form), Targets(rows, product, form), AllWanted(rows, product, form, newIds);
    var d' := PlaceOne(d, Target(rows, product, form, n), newIds[n], product, form[n], n);
    match targets[n]
    case None => PlaceNewWell(removed, targets, wanted, n, d, d');
    case Some(k) =>
      TargetUntouched(rows, product, form, k, n);
      forall i | 0 <= i < n ensures targets[i] != Some(k) {
        TargetsDiffer(rows, product, form, i, n);
      }
      NotYetPlaced(removed, targets, wanted, n, d, k);
      PlaceExistingWell(removed, targets, wanted, n, d, d', k);
  }

  lemma {:induction false} PlacedWell(rows: seq<Variant>, product: nat, form: seq<FormRow>, newIds: seq<string>, n: nat)
    requires TableOk(rows) && ListError(rows, product, form) == None && n <= |form| == |newIds|
    ensures WellPlaced(Removed(rows, product, form), Targets(rows, product, form), AllWanted(rows, product, form, newIds), n,
                       Placed(rows, product, form, newIds, n))
  {
    if n > 0 {
      PlacedWell(rows, product, form, newIds, n - 1);
      PlacedOneWell(rows, product, form, newIds, n - 1, Placed(rows, product, form, newIds, n - 1));
    }
  }

  lemma TargetUntouched(rows: seq<Variant>, product: nat, form: seq<FormRow>, k: nat, i: nat)
    requires i < |form| && Target(rows, product, form, i) == Some(k)
    ensures k < |rows| && Removed(rows, product, form)[k] == rows[k]
  {
    assert IsTarget(rows, product, form, k);
  }

  // ----- What an edition keeps -----

  /** The random ids of the new variants are new. */
  ghost predicate NewIdsOk(rows: seq<Variant>, newIds: seq<string>) {
    && (forall i, j :: 0 <= i < j < |newIds| ==> newIds[i] != newIds[j])
    && (forall k, i :: 0 <= k < |rows| && 0 <= i < |newIds| ==> rows[k].id != newIds[i])
  }

  lemma PlacedAreTargets(removed: seq<Variant>, targets: seq<Option<nat>>, wanted: seq<Variant>, d: Draft, k: nat)
    requires |targets| == |wanted| && WellPlaced(removed, targets, wanted, |wanted|, d) && k < |removed|
    ensures k in d.placed <==> Some(k) in targets
    ensures forall i :: 0 <= i < |targets| && targets[i] == Some(k) ==> d.rows[k] == wanted[i]
  {
    if k in d.placed {
      var i :| 0 <= i < |wanted| && d.placed[i] == k;
      assert targets[i] == Some(k);
    }
    forall i | 0 <= i < |targets| && targets[i] == Some(k) ensures d.rows[k] == wanted[i] && k in d.placed {
      assert d.placed[i] == k;
    }
  }

  /** Row by row of the table that was there: placed by the form, or as removal left it. */
  lemma OldRow(rows: seq<Variant>, product: nat, form: seq<FormRow>, newIds: seq<string>, k: nat)
    requires TableOk(rows) && |newIds| == |form| && Synced(rows, product, form, newIds).Done? && k < |rows|
    ensures var d := Synced(rows, product, form, newIds).value;
            && k < |d.rows|
            && (IsTarget(rows, product, form, k) <==> k in d.placed)
            && (k !in d.placed ==> d.rows[k] == Removed(rows, product, form)[k])
            && (forall i :: 0 <= i < |form| && Target(rows, product, form, i) == Some(k) ==>
                  rows[k].product == product && d.rows[k] == Edited(rows[k], form[i], i))
  {
    var d := Synced(rows, product, form, newIds).value;
    var targets, wanted := Targets(rows, product, form), AllWanted(rows, product, form, newIds);
    PlacedWell(rows, product, form, newIds, |form|);
    PlacedAreTargets(Removed(rows, product, form), targets, wanted, d, k);
    assert forall i :: 0 <= i < |form| ==> targets[i] == Target(rows, product, form, i);
    forall i | 0 <= i < |form| && Target(rows, product, form, i) == Some(k)
      ensures rows[k].product == product && d.rows[k] == Edited(rows[k], form[i], i)
    {
      assert targets[i] == Some(k) && wanted[i] == Edited(rows[k], form[i], i);
    }
  }

  /** What an accepted edition does to one variant that was there. */
  lemma OldRowKept(rows: seq<Variant>, product: nat, form: seq<FormRow>, newIds: seq<string>, k: nat)
    requires TableOk(rows) && |newIds| == |form| && Synced(rows, product, form, newIds).Done? && k < |rows|
    ensures var rows' := Synced(rows, product, form, newIds).value.rows;
            && k < |rows'|
            && rows'[k].id == rows[k].id && rows'[k].product == rows[k].product && rows'[k].reserved == rows[k].reserved
            && (rows[k].product != product ==> rows'[k] == rows[k])
            && (rows[k].isActive && !rows'[k].isActive ==> rows[k].reserved == 0)
            && (rows[k].reserved <= rows[k].total ==> rows'[k].reserved <= rows'[k].total)
  {
    OldRow(rows, product, form, newIds, k);
    if IsTarget(rows, product, form, k) {
      var i :| 0 <= i < |form| && Target(rows, product, form, i) == Some(k);
      assert RowError(rows, product, form, i) == None;
    }
  }

  /** No variant is lost, other products are untouched, and none with reserved stock is deactivated. */
  lemma SyncLosesNothing(rows: seq<Variant>, product: nat, form: seq<FormRow>, newIds: seq<string>)
    requires TableOk(rows) && |newIds| == |form| && Synced(rows, product, form, newIds).Done?
    ensures var rows' := Synced(rows, product, form, newIds).value.rows;
            && |rows| <= |rows'|
            && forall k :: 0 <= k < |rows| ==>
                 && rows'[k].id == rows[k].id && rows'[k].product == rows[k].product && rows'[k].reserved == rows[k].reserved
                 && (rows[k].product != product ==> rows'[k] == rows[k])
                 && (rows[k].isActive && !rows'[k].isActive ==> rows[k].reserved == 0)
                 && (rows[k].reserved <= rows[k].total ==> rows'[k].reserved <= rows'[k].total)
  {
    PlacedWell(rows, product, form, newIds, |form|);
    var rows' := Synced(rows, product, form, newIds).value.rows;
    forall k | 0 <= k < |rows|
      ensures rows'[k].id == rows[k].id && rows'[k].product == rows[k].product && rows'[k].reserved == rows[k].reserved
      ensures rows[k].product != product ==> rows'[k] == rows[k]
      ensures rows[k].isActive && !rows'[k].isActive ==> rows[k].reserved == 0
      ensures rows[k].reserved <= rows[k].total ==> rows'[k].reserved <= rows'[k].total
    {
      OldRowKept(rows, product, form, newIds, k);
    }
  }

  /** An accepted edition: form rows in their places, everything else inactive or of other products, with SKUs of its own. */
  ghost predicate Edition(rows: seq<Variant>, product: nat, form: seq<FormRow>, wanted: seq<Variant>, d: Draft) {
    && |d.placed| == |wanted| == |form| && |rows| <= |d.rows|
    && (forall i :: 0 <= i < |form| ==>
          && d.placed[i] < |d.rows| && d.rows[d.placed[i]] == wanted[i]
          && IsShown(wanted[i], product) && wanted[i].position == i && wanted[i].sku == form[i].sku)
    && (forall i, j :: 0 <= i < j < |form| ==> form[i].sku != form[j].sku)
    && (forall k :: 0 <= k < |rows| && k !in d.placed ==>
          && d.rows[k] == rows[k].(isActive := d.rows[k].isActive) && !IsShown(d.rows[k], product)
          && forall i :: 0 <= i < |form| ==> form[i].sku != rows[k].sku)
    && (forall k :: |rows| <= k < |d.rows| ==> k in d.placed)
  }

  lemma WantedIsShown(rows: seq<Variant>, product: nat, form: seq<FormRow>, newIds: seq<string>, i: nat)
    requires i < |form| == |newIds|
    ensures var v := Wanted(rows, product, form, newIds, i); IsShown(v, product) && v.position == i && v.sku == form[i].sku
  {}

  /** A variant that the form does not place is inactive or of another product, and no row takes its SKU. */
  lemma OutsiderRow(rows: seq<Variant>, product: nat, form: seq<FormRow>, k: nat)
    requires ListError(rows, product, form) == None && k < |rows| && !IsTarget(rows, product, form, k)
    ensures var v := Removed(rows, product, form)[k]; v == rows[k].(isActive := v.isActive) && !IsShown(v, product)
    ensures forall i :: 0 <= i < |form| ==> form[i].sku != rows[k].sku
  {}

  lemma EditionFromPlaces(
    rows: seq<Variant>, product: nat, form: seq<FormRow>, removed: seq<Variant>, targets: seq<Option<nat>>, wanted: seq<Variant>, d: Draft)
    requires |targets| == |wanted| == |form| && |removed| == |rows| && WellPlaced(removed, targets, wanted, |form|, d)
    requires forall i :: 0 <= i < |form| ==> IsShown(wanted[i], product) && wanted[i].position == i && wanted[i].sku == form[i].sku
    requires forall i, j :: 0 <= i < j < |form| ==> form[i].sku != form[j].sku
    requires forall k :: 0 <= k < |rows| && k !in d.placed ==>
               && removed[k] == rows[k].(isActive := removed[k].isActive) && !IsShown(removed[k], product)
               && forall i :: 0 <= i < |form| ==> form[i].sku != rows[k].sku
    ensures Edition(rows, product, form, wanted, d)
  {}

  lemma AcceptedEdition(rows: seq<Variant>, product: nat, form: seq<FormRow>, newIds: seq<string>)
    requires TableOk(rows) && |newIds| == |form| && Synced(rows, product, form, newIds).Done?
    ensures Edition(rows, product, form, AllWanted(rows, product, form, newIds), Synced(rows, product, form, newIds).value)
  {
    var d, wanted := Synced(rows, product, form, newIds).value, AllWanted(rows, product, form, newIds);
    var removed := Removed(rows, product, form);
    PlacedWell(rows, product, form, newIds, |form|);
    forall i | 0 <= i < |form| ensures IsShown(wanted[i], product) && wanted[i].position == i && wanted[i].sku == form[i].sku {
      WantedIsShown(rows, product, form, newIds, i);
    }
    forall k | 0 <= k < |rows| && k !in d.placed
      ensures removed[k] == rows[k].(isActive := removed[k].isActive) && !IsShown(removed[k], product)
      ensures forall i :: 0 <= i < |form| ==> form[i].sku != rows[k].sku
    {
      OldRow(rows, product, form, newIds, k);
      OutsiderRow(rows, product, form, k);
    }
    EditionFromPlaces(rows, product, form, removed, Targets(rows, product, form), wanted, d);
  }

  lemma EditionSkus(rows: seq<Variant>, product: nat, form: seq<FormRow>, wanted: seq<Variant>, d: Draft, a: nat, b: nat)
    requires TableOk(rows) && Edition(rows, product, form, wanted, d) && a < b < |d.rows|
    ensures d.rows[a].sku != d.rows[b].sku
  {
    if a in d.placed {
      var i :| 0 <= i < |form| && d.placed[i] == a;
      if b in d.placed {
        var j :| 0 <= j < |form| && d.placed[j] == b;
        assert wanted[i].sku != wanted[j].sku by { assert form[i].sku == wanted[i].sku && form[j].sku == wanted[j].sku; }
      }
    } else if b in d.placed {
      var j :| 0 <= j < |form| && d.placed[j] == b;
      assert d.rows[b].sku == form[j].sku;
    }
  }

  /** The table stays right: ids and SKUs unique. */
  lemma SyncKeepsTable(rows: seq<Variant>, product: nat, form: seq<FormRow>, newIds: seq<string>)
    requires TableOk(rows) && |newIds| == |form| && Synced(rows, product, form, newIds).Done? && NewIdsOk(rows, newIds)
    ensures TableOk(Synced(rows, product, form, newIds).value.rows)
  {
    var d := Synced(rows, product, form, newIds).value;
    PlacedWell(rows, product, form, newIds, |form|);
    AcceptedEdition(rows, product, form, newIds);
    SyncLosesNothing(rows, product, form, newIds);
    forall a, b | 0 <= a < b < |d.rows|
      ensures d.rows[a].sku != d.rows[b].sku
    {
      EditionSkus(rows, product, form, AllWanted(rows, product, form, newIds), d, a, b);
    }
    IdsStayUnique(rows, Removed(rows, product, form), Targets(rows, product, form), AllWanted(rows, product, form, newIds), newIds, d);
  }

  lemma IdsStayUnique(rows: seq<Variant>, removed: seq<Variant>, targets: seq<Option<nat>>, wanted: seq<Variant>, newIds: seq<string>, d: Draft)
    requires TableOk(rows) && NewIdsOk(rows, newIds) && |rows| == |removed|
    requires |targets| == |wanted| == |newIds| && WellPlaced(removed, targets, wanted, |wanted|, d)
    requires forall i :: 0 <= i < |wanted| ==> if targets[i] == None then wanted[i].id == newIds[i] else targets[i].value < |rows|
    requires forall k :: 0 <= k < |rows| ==> d.rows[k].id == rows[k].id
    ensures forall a, b :: 0 <= a < b < |d.rows| ==> d.rows[a].id != d.rows[b].id
  {
    forall a, b | 0 <= a < b < |d.rows| ensures d.rows[a].id != d.rows[b].id {
      if b >= |rows| {
        assert b in d.placed;
        var j :| 0 <= j < |wanted| && d.placed[j] == b;
        assert targets[j] == None && d.rows[b].id == newIds[j];
        if a >= |rows| {
          assert a in d.placed;
          var i :| 0 <= i < |wanted| && d.placed[i] == a;
          assert targets[i] == None && d.rows[a].id == newIds[i];
        }
      }
    }
  }

  // ----- What the customer sees -----

  function Insert(sorted: seq<Variant>, v: Variant): seq<Variant> {
    if sorted == [] || sorted[|sorted| - 1].position <= v.position then sorted + [v]
    else Insert(sorted[..|sorted| - 1], v) + [sorted[|sorted| - 1]]
  }

  predicate IsShown(v: Variant, product: nat) {
    v.product == product && v.isActive
  }

  /** The active variants of the product among the first `n` rows, by position. */
  function ActiveInOrder(rows: seq<Variant>, product: nat, n: nat): seq<Variant>
    requires n <= |rows|
  {
    if n == 0 then []
    else
      var before := ActiveInOrder(rows, product, n - 1);
      if IsShown(rows[n - 1], product) then Insert(before, rows[n - 1]) else before
  }

  ghost predicate Increasing(s: seq<Variant>) {
    forall i, j :: 0 <= i < j < |s| ==> s[i].position < s[j].position
  }

  lemma {:induction false} InsertKeepsOrder(s: seq<Variant>, v: Variant)
    requires Increasing(s) && forall w <- s :: w.position != v.position
    ensures Increasing(Insert(s, v)) && forall w :: w in Insert(s, v) <==> w in s || w == v
  {
    if s != [] && s[|s| - 1].position > v.position {
      var init, last := s[..|s| - 1], s[|s| - 1];
      InsertKeepsOrder(init, v);
      assert s == init + [last];
      var t := Insert(init, v);
      forall i | 0 <= i < |t| ensures t[i].position < last.position {
        assert t[i] in t;
      }
    }
  }

  /** Active variants with different positions are listed all, once, in that order. */
  lemma {:induction false} ShownInOrder(rows: seq<Variant>, product: nat, n: nat)
    requires n <= |rows|
    requires forall a, b :: 0 <= a < b < |rows| && IsShown(rows[a], product) && IsShown(rows[b], product) ==> rows[a].position != rows[b].position
    ensures Increasing(ActiveInOrder(rows, product, n))
    ensures forall w :: w in ActiveInOrder(rows, product, n) <==> exists k :: 0 <= k < n && rows[k] == w && IsShown(w, product)
  {
    if n > 0 {
      ShownInOrder(rows, product, n - 1);
      var before := ActiveInOrder(rows, product, n - 1);
      if IsShown(rows[n - 1], product) {
        InsertKeepsOrder(before, rows[n - 1]);
      }
    }
  }

  /** Two increasing lists of the same variants are the same list. */
  lemma {:induction false} SameOrder(s: seq<Variant>, t: seq<Variant>)
    requires Increasing(s) && Increasing(t) && forall w :: w in s <==> w in t
    ensures s == t
  {
    if s != [] {
      assert s[0] in t;
    }
    if t != [] {
      assert t[0] in s;
      var s0, t0, a, b := s[..|s| - 1], t[..|t| - 1], s[|s| - 1], t[|t| - 1];
      assert a in t && b in s;
      assert a == b;
      WithoutLast(s);
      WithoutLast(t);
      forall w | w in s0 ensures w in t0 { assert w in t; }
      forall w | w in t0 ensures w in s0 { assert w in s; }
      SameOrder(s0, t0);
      assert s == s0 + [a] && t == t0 + [b];
    }
  }

  lemma WithoutLast(s: seq<Variant>)
    requires Increasing(s) && s != []
    ensures forall w :: w in s[..|s| - 1] <==> w in s && w != s[|s| - 1]
  {
    forall i | 0 <= i < |s| - 1 ensures s[i] in s[..|s| - 1] {
      assert s[..|s| - 1][i] == s[i];
    }
  }

  lemma EditionIsShown(rows: seq<Variant>, product: nat, form: seq<FormRow>, wanted: seq<Variant>, d: Draft)
    requires Edition(rows, product, form, wanted, d)
    ensures ActiveInOrder(d.rows, product, |d.rows|) == wanted
  {
    forall k | 0 <= k < |d.rows| && IsShown(d.rows[k], product) ensures d.rows[k] in wanted && wanted[d.rows[k].position] == d.rows[k] && k == d.placed[d.rows[k].position] {
      assert k in d.placed;
      var i :| 0 <= i < |form| && d.placed[i] == k;
      assert wanted[i] == d.rows[k];
    }
    ShownInOrder(d.rows, product, |d.rows|);
    var shown := ActiveInOrder(d.rows, product, |d.rows|);
    forall i | 0 <= i < |wanted| ensures wanted[i] in shown {
      assert d.rows[d.placed[i]] == wanted[i];
    }
    SameOrder(shown, wanted);
  }

  /**
   * After an edition, the active variants of the product in position order are exactly the rows of the form:
   * SKU, attributes and position of the row; stock of the database unless adjusted, or the one given to a new variant.
   */
  lemma FormIsShown(rows: seq<Variant>, product: nat, form: seq<FormRow>, newIds: seq<string>)
    requires TableOk(rows) && |newIds| == |form| && Synced(rows, product, form, newIds).Done?
    ensures var rows' := Synced(rows, product, form, newIds).value.rows;
            var shown := ActiveInOrder(rows', product, |rows'|);
            && |shown| == |form|
            && forall i :: 0 <= i < |form| ==>
                 && shown[i].sku == form[i].sku && shown[i].attributes == form[i].attributes && shown[i].position == i
                 && (form[i].id.Some? ==> shown[i].id == form[i].id.value)
                 && shown[i].total == match Target(rows, product, form, i)
                                      case None => form[i].total
                                      case Some(k) =>
                                        if (form[i].id.Some? && form[i].total != form[i].original) || k >= |rows|
                                        then form[i].total else rows[k].total
  {
    AcceptedEdition(rows, product, form, newIds);
    EditionIsShown(rows, product, form, AllWanted(rows, product, form, newIds), Synced(rows, product, form, newIds).value);
    forall i | 0 <= i < |form|
      ensures form[i].id.Some? ==> Wanted(rows, product, form, newIds, i).id == form[i].id.value
    {}
  }
}
