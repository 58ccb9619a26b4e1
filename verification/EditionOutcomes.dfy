/** What an edition of the variants of a product answers, said of the form and the table alone: refusals, totals and adjustments. */
module EditionOutcomes {
  import opened Wrappers
  import opened SyncVariants

  // ----- Which variant a row of the form is for -----

  /** Some row of the form names the variant. */
  predicate IsNamed(form: seq<FormRow>, id: string) {
    exists i :: 0 <= i < |form| && form[i].id == Some(id)
  }

  /** By its id; or, without one, an active variant with the same SKU that the form does not name. */
  predicate IsFor(form: seq<FormRow>, i: nat, product: nat, v: Variant)
    requires i < |form|
  {
    && v.product == product
    && match form[i].id
       case Some(id) => v.id == id
       case None => v.isActive && v.sku == form[i].sku && !IsNamed(form, v.id)
  }

  predicate IsWanted(form: seq<FormRow>, product: nat, v: Variant) {
    exists i :: 0 <= i < |form| && IsFor(form, i, product, v)
  }

  lemma {:induction false} TargetIs(rows: seq<Variant>, product: nat, form: seq<FormRow>, i: nat)
    requires TableOk(rows) && i < |form|
    ensures match Target(rows, product, form, i)
            case Some(k) =>
              k < |rows| && IsFor(form, i, product, rows[k])
              && forall j :: 0 <= j < |rows| && IsFor(form, i, product, rows[j]) ==> j == k
            case None => forall k :: 0 <= k < |rows| ==> !IsFor(form, i, product, rows[k])
  {
    forall id ensures IsKept(form, id) <==> IsNamed(form, id) {}
  }

  lemma TargetIsFor(rows: seq<Variant>, product: nat, form: seq<FormRow>, k: nat)
    requires TableOk(rows) && k < |rows|
    ensures IsTarget(rows, product, form, k) <==> IsWanted(form, product, rows[k])
  {
    forall i | 0 <= i < |form| ensures Target(rows, product, form, i) == Some(k) <==> IsFor(form, i, product, rows[k]) {
      TargetIs(rows, product, form, i);
    }
  }

  // ----- Totals and adjustments -----

  /** The administrator set another total than the one the form had loaded. */
  predicate IsAdjusted(row: FormRow) {
    row.id.Some? && row.total != row.original
  }

  /** The adjustments asked for by the first `n` rows, in order. */
  function Adjusted(form: seq<FormRow>, n: nat): seq<Adjustment>
    requires n <= |form|
  {
    if n == 0 then []
    else Adjusted(form, n - 1) + match form[n - 1].id
         case Some(id) => if form[n - 1].total != form[n - 1].original then [Adjustment(id, form[n - 1].total)] else []
         case None => []
  }

  /** What form row `i` becomes: the variant it is for, with the database's stock unless adjusted, or a new one with its own. */
  ghost predicate IsMade(rows: seq<Variant>, product: nat, form: seq<FormRow>, newIds: seq<string>, i: nat, v: Variant)
    requires i < |form| == |newIds|
  {
    var row := form[i];
    if exists k :: 0 <= k < |rows| && IsFor(form, i, product, rows[k]) then
      exists k :: 0 <= k < |rows| && IsFor(form, i, product, rows[k])
        && v == rows[k].(sku := row.sku, attributes := row.attributes, position := i, isActive := true,
                         total := if IsAdjusted(row) then row.total else rows[k].total)
    else v == Variant(newIds[i], product, row.sku, row.attributes, i, true, row.total, 0)
  }

  lemma WantedIsMade(rows: seq<Variant>, product: nat, form: seq<FormRow>, newIds: seq<string>, i: nat)
    requires TableOk(rows) && i < |form| == |newIds|
    ensures IsMade(rows, product, form, newIds, i, Wanted(rows, product, form, newIds, i))
  {
    TargetIs(rows, product, form, i);
  }

  /** The active variants, in order, are what the rows of the form make; a row with an id is of that variant. */
  lemma {:induction false} FormIsMade(rows: seq<Variant>, product: nat, form: seq<FormRow>, newIds: seq<string>)
    requires TableOk(rows) && |newIds| == |form| && Synced(rows, product, form, newIds).Done?
    ensures var rows' := Synced(rows, product, form, newIds).value.rows;
            var shown := ActiveInOrder(rows', product, |rows'|);
            |shown| == |form| && forall i :: 0 <= i < |form| ==> IsMade(rows, product, form, newIds, i, shown[i])
  {
    AcceptedEdition(rows, product, form, newIds);
    EditionIsShown(rows, product, form, AllWanted(rows, product, form, newIds), Synced(rows, product, form, newIds).value);
    forall i | 0 <= i < |form| ensures IsMade(rows, product, form, newIds, i, AllWanted(rows, product, form, newIds)[i]) {
      WantedIsMade(rows, product, form, newIds, i);
    }
  }

  /** A variant that no row is for is deactivated if it is of the product; those of other products stay as they are. */
  lemma {:induction false} OthersAreDropped(rows: seq<Variant>, product: nat, form: seq<FormRow>, newIds: seq<string>, k: nat)
    requires TableOk(rows) && |newIds| == |form| && Synced(rows, product, form, newIds).Done? && k < |rows|
    ensures var rows' := Synced(rows, product, form, newIds).value.rows;
            k < |rows'|
            && (!IsWanted(form, product, rows[k]) ==> rows'[k] == if rows[k].product == product then rows[k].(isActive := false) else rows[k])
            && (IsWanted(form, product, rows[k]) ==>
                  exists i :: 0 <= i < |form| && IsFor(form, i, product, rows[k]) && rows'[k].position == i && rows'[k].isActive)
  {
    OldRow(rows, product, form, newIds, k);
    TargetIsFor(rows, product, form, k);
    if IsWanted(form, product, rows[k]) {
      var i :| 0 <= i < |form| && Target(rows, product, form, i) == Some(k);
      TargetIs(rows, product, form, i);
    }
  }

  lemma PlacedKeepsIds(rows: seq<Variant>, product: nat, form: seq<FormRow>, newIds: seq<string>, n: nat, k: nat)
    requires TableOk(rows) && ListError(rows, product, form) == None && n < |form| == |newIds|
    requires Target(rows, product, form, n) == Some(k)
    ensures k < |rows| && k < |Placed(rows, product, form, newIds, n).rows| && Placed(rows, product, form, newIds, n).rows[k].id == rows[k].id
  {
    var targets := Targets(rows, product, form);
    PlacedWell(rows, product, form, newIds, n);
    TargetUntouched(rows, product, form, k, n);
    forall i | 0 <= i < n ensures targets[i] != Some(k) {
      TargetsDiffer(rows, product, form, i, n);
    }
    NotYetPlaced(Removed(rows, product, form), targets, AllWanted(rows, product, form, newIds), n, Placed(rows, product, form, newIds, n), k);
  }

  lemma {:induction false} AdjustmentsAre(rows: seq<Variant>, product: nat, form: seq<FormRow>, newIds: seq<string>, n: nat)
    requires TableOk(rows) && ListError(rows, product, form) == None && n <= |form| == |newIds|
    ensures Placed(rows, product, form, newIds, n).adjustments == Adjusted(form, n)
  {
    if n > 0 {
      var before := Placed(rows, product, form, newIds, n - 1);
      AdjustmentsAre(rows, product, form, newIds, n - 1);
      match Target(rows, product, form, n - 1)
      case Some(k) =>
        PlacedKeepsIds(rows, product, form, newIds, n - 1, k);
        TargetIs(rows, product, form, n - 1);
        assert before.adjustments + [] == before.adjustments;
      case None =>
        assert form[n - 1].id == None;
        assert before.adjustments + [] == before.adjustments;
    }
  }

  // ----- Refusals -----

  /** Why row `i` cannot be adjusted: the stock moved since the form was opened, or it would leave less than is reserved. */
  ghost predicate RowRefused(rows: seq<Variant>, product: nat, form: seq<FormRow>, i: nat, code: string) {
    && i < |form| && IsAdjusted(form[i])
    && exists k :: 0 <= k < |rows| && IsFor(form, i, product, rows[k])
         && if rows[k].total != form[i].original then code == "STOCK_CHANGED"
            else form[i].total < rows[k].reserved && code == "BELOW_RESERVED"
  }

  ghost predicate FirstRefused(rows: seq<Variant>, product: nat, form: seq<FormRow>, i: nat, code: string) {
    RowRefused(rows, product, form, i, code) && forall j :: 0 <= j < i ==> !IsRefusedRow(rows, product, form, j)
  }

  ghost predicate IsRefusedRow(rows: seq<Variant>, product: nat, form: seq<FormRow>, i: nat) {
    exists code :: RowRefused(rows, product, form, i, code)
  }

  /** Why the list itself is refused, in the order it is checked. */
  ghost predicate ListRefused(rows: seq<Variant>, product: nat, form: seq<FormRow>, error: Option<string>) {
    if exists i, j :: 0 <= i < j < |form| && form[i].id.Some? && form[i].id == form[j].id then error == Some("REPEATED_VARIANT")
    else if exists i :: 0 <= i < |form| && form[i].id.Some? && IsGone(rows, product, form[i].id.value) then error == Some("VARIANT_GONE")
    else if exists i, j :: 0 <= i < j < |form| && form[i].sku == form[j].sku then error == Some("REPEATED_SKU")
    else if exists k :: 0 <= k < |rows| && rows[k].product != product && TakesSku(form, rows[k].sku) then error == Some("SKU_IN_USE")
    else if exists k :: 0 <= k < |rows| && IsLeftOut(form, product, rows[k]) && TakesSku(form, rows[k].sku) then error == Some("SKU_OF_REMOVED")
    else if exists k :: 0 <= k < |rows| && IsLeftOut(form, product, rows[k]) && rows[k].isActive && rows[k].reserved > 0
    then error == Some("RESERVED_STOCK")
    else error == None
  }

  ghost predicate IsGone(rows: seq<Variant>, product: nat, id: string) {
    forall k :: 0 <= k < |rows| ==> rows[k].product != product || rows[k].id != id
  }

  ghost predicate TakesSku(form: seq<FormRow>, sku: string) {
    exists i :: 0 <= i < |form| && form[i].sku == sku
  }

  predicate IsLeftOut(form: seq<FormRow>, product: nat, v: Variant) {
    v.product == product && !IsWanted(form, product, v)
  }

  lemma {:induction false} ListErrorIs(rows: seq<Variant>, product: nat, form: seq<FormRow>)
    requires TableOk(rows)
    ensures ListRefused(rows, product, form, ListError(rows, product, form))
  {
    forall k | 0 <= k < |rows| ensures IsTarget(rows, product, form, k) <==> IsWanted(form, product, rows[k]) {
      TargetIsFor(rows, product, form, k);
    }
    forall i | 0 <= i < |form| && form[i].id.Some? ensures Target(rows, product, form, i) == None <==> IsGone(rows, product, form[i].id.value) {
      TargetIs(rows, product, form, i);
    }
  }

  lemma {:induction false} RowErrorIs(rows: seq<Variant>, product: nat, form: seq<FormRow>, i: nat)
    requires TableOk(rows) && i < |form|
    ensures var error := RowError(rows, product, form, i);
            if error.Some? then RowRefused(rows, product, form, i, error.value) else !IsRefusedRow(rows, product, form, i)
  {
    TargetIs(rows, product, form, i);
  }

  /** One of the first `n` rows is the first to be refused. */
  ghost predicate IsFirstAmong(rows: seq<Variant>, product: nat, form: seq<FormRow>, n: nat, code: string) {
    exists i: nat :: i < n && FirstRefused(rows, product, form, i, code)
  }

  lemma {:induction false} FirstRowErrorIs(rows: seq<Variant>, product: nat, form: seq<FormRow>, n: nat)
    requires TableOk(rows) && n <= |form|
    ensures var error := FirstRowError(rows, product, form, n);
            if error.Some? then IsFirstAmong(rows, product, form, n, error.value)
            else forall i :: 0 <= i < n ==> !IsRefusedRow(rows, product, form, i)
  {
    if n > 0 {
      var before, last := FirstRowError(rows, product, form, n - 1), RowError(rows, product, form, n - 1);
      FirstRowErrorIs(rows, product, form, n - 1);
      RowErrorIs(rows, product, form, n - 1);
      if before.Some? {
        var i: nat :| i < n - 1 && FirstRefused(rows, product, form, i, before.value);
        assert IsFirstAmong(rows, product, form, n, before.value);
      } else if last.Some? {
        assert FirstRefused(rows, product, form, n - 1, last.value);
        assert IsFirstAmong(rows, product, form, n, last.value);
      }
    }
  }

  /** An edition is refused for the list or for the first row that cannot be adjusted, and for nothing else; its adjustments are those of the form. */
  lemma {:induction false} EditionAnswers(rows: seq<Variant>, product: nat, form: seq<FormRow>, newIds: seq<string>)
    requires TableOk(rows) && |newIds| == |form|
    ensures var answer := Synced(rows, product, form, newIds);
            if answer.Done? then
              && ListRefused(rows, product, form, None) && (forall i :: 0 <= i < |form| ==> !IsRefusedRow(rows, product, form, i))
              && answer.value.adjustments == Adjusted(form, |form|)
            else
              || ListRefused(rows, product, form, Some(answer.code))
              || (ListRefused(rows, product, form, None) && IsFirstAmong(rows, product, form, |form|, answer.code))
  {
    ListErrorIs(rows, product, form);
    FirstRowErrorIs(rows, product, form, |form|);
    if ListError(rows, product, form) == None {
      AdjustmentsAre(rows, product, form, newIds, |form|);
    }
  }
}
