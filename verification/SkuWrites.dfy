/** The UNIQUE on the SKU is checked row by row: renamed variants go first through a temporary SKU, so that any order of writes is safe. */
module SkuWrites {
  import opened Wrappers
  import opened SyncVariants

  /** Row index to SKU, for the rows stored so far. */
  type Column = map<nat, string>

  ghost predicate Unique(column: Column) {
    forall a, b :: a in column && b in column && a != b ==> column[a] != column[b]
  }

  function Temporary(v: Variant): string {
    "tmp-" + v.id
  }

  predicate IsRenamed(rows: seq<Variant>, rows': seq<Variant>, k: nat) {
    k < |rows| && k < |rows'| && rows'[k].sku != rows[k].sku
  }

  predicate Below(order: seq<nat>, n: nat) {
    forall i :: 0 <= i < |order| ==> order[i] < n
  }

  /** Every renamed row once, in any order. */
  ghost predicate RenameOrder(rows: seq<Variant>, rows': seq<Variant>, order: seq<nat>) {
    && (forall i, j :: 0 <= i < j < |order| ==> order[i] != order[j])
    && Below(order, |rows|) && (forall k: nat :: k in order <==> IsRenamed(rows, rows', k))
  }

  /** Every renamed or new row once, and any other rows, in any order. */
  ghost predicate SaveOrder(rows: seq<Variant>, rows': seq<Variant>, order: seq<nat>) {
    && (forall i, j :: 0 <= i < j < |order| ==> order[i] != order[j])
    && Below(order, |rows'|)
    && (forall k: nat :: IsRenamed(rows, rows', k) || |rows| <= k < |rows'| ==> k in order)
  }

  /** The column after the temporary SKUs of `done` are written. */
  ghost function Renaming(rows: seq<Variant>, done: seq<nat>): Column
    requires Below(done, |rows|)
  {
    if done == [] then map k | 0 <= k < |rows| :: rows[k].sku
    else
      Renaming(rows, done[..|done| - 1])[done[|done| - 1] := Temporary(rows[done[|done| - 1]])]
  }

  /** The column after that, and after the rows of `done` are saved. */
  ghost function Saving(rows: seq<Variant>, rows': seq<Variant>, renames: seq<nat>, done: seq<nat>): Column
    requires Below(renames, |rows|) && Below(done, |rows'|)
  {
    if done == [] then Renaming(rows, renames)
    else
      Saving(rows, rows', renames, done[..|done| - 1])[done[|done| - 1] := rows'[done[|done| - 1]].sku]
  }

  /** No write of the two phases ever repeats a SKU. */
  ghost predicate SafeWrites(rows: seq<Variant>, rows': seq<Variant>, renames: seq<nat>, saves: seq<nat>)
    requires Below(renames, |rows|) && Below(saves, |rows'|)
  {
    && (forall n :: 0 <= n <= |renames| ==> UniqueAfterRenames(rows, renames, n))
    && (forall n :: 0 <= n <= |saves| ==> UniqueAfterSaves(rows, rows', renames, saves, n))
  }

  ghost predicate UniqueAfterRenames(rows: seq<Variant>, renames: seq<nat>, n: nat)
    requires Below(renames, |rows|) && n <= |renames|
  {
    Unique(Renaming(rows, renames[..n]))
  }

  ghost predicate UniqueAfterSaves(rows: seq<Variant>, rows': seq<Variant>, renames: seq<nat>, saves: seq<nat>, n: nat)
    requires Below(renames, |rows|) && Below(saves, |rows'|) && n <= |saves|
  {
    Unique(Saving(rows, rows', renames, saves[..n]))
  }

  /** No other row has, or is given, the temporary SKU of a renamed row. */
  ghost predicate TemporariesAreFree(rows: seq<Variant>, rows': seq<Variant>) {
    forall r: nat, x: nat :: IsRenamed(rows, rows', r) && x < |rows'| && x != r ==>
      rows'[x].sku != Temporary(rows[r]) && (x < |rows| ==> rows[x].sku != Temporary(rows[r]))
  }

  lemma {:induction false} RenamingHas(rows: seq<Variant>, done: seq<nat>)
    requires Below(done, |rows|)
    ensures forall k :: k in Renaming(rows, done) <==> 0 <= k < |rows|
    ensures forall k :: 0 <= k < |rows| ==> Renaming(rows, done)[k] == if k in done then Temporary(rows[k]) else rows[k].sku
  {
    if done != [] {
      var init, last := done[..|done| - 1], done[|done| - 1];
      assert done == init + [last];
      RenamingHas(rows, init);
      assert last in done;
    }
  }

  lemma {:induction false} SavingHas(rows: seq<Variant>, rows': seq<Variant>, renames: seq<nat>, done: seq<nat>)
    requires Below(renames, |rows|) && Below(done, |rows'|)
    ensures forall k :: k in Saving(rows, rows', renames, done) <==> 0 <= k < |rows| || k in done
    ensures forall k <- Saving(rows, rows', renames, done) ::
              Saving(rows, rows', renames, done)[k]
              == if k in done then rows'[k].sku else if k in renames then Temporary(rows[k]) else rows[k].sku
  {
    if done == [] {
      RenamingHas(rows, renames);
    } else {
      var init, last := done[..|done| - 1], done[|done| - 1];
      assert done == init + [last];
      SavingHas(rows, rows', renames, init);
      assert last in done;
    }
  }

  lemma RenamesAreSafe(rows: seq<Variant>, rows': seq<Variant>, renames: seq<nat>, n: nat)
    requires TableOk(rows) && |rows| <= |rows'| && TemporariesAreFree(rows, rows') && RenameOrder(rows, rows', renames) && n <= |renames|
    ensures UniqueAfterRenames(rows, renames, n)
  {
    var done := renames[..n];
    RenamingHas(rows, done);
    forall a, b | 0 <= a < |rows| && 0 <= b < |rows| && a != b ensures Renaming(rows, done)[a] != Renaming(rows, done)[b] {
      DifferentTemporaries(rows, a, b);
    }
  }

  lemma DifferentTemporaries(rows: seq<Variant>, a: nat, b: nat)
    requires TableOk(rows) && a < |rows| && b < |rows| && a != b
    ensures Temporary(rows[a]) != Temporary(rows[b])
  {
    assert Temporary(rows[a])[4..] == rows[a].id && Temporary(rows[b])[4..] == rows[b].id;
  }

  /** While it is being saved, a row has its new SKU or, if it was renamed, its temporary one. */
  lemma NewOrTemporary(rows: seq<Variant>, rows': seq<Variant>, renames: seq<nat>, done: seq<nat>, k: nat)
    requires |rows| <= |rows'| && RenameOrder(rows, rows', renames) && Below(done, |rows'|)
    requires k in Saving(rows, rows', renames, done)
    ensures k < |rows'|
    ensures || Saving(rows, rows', renames, done)[k] == rows'[k].sku
            || (IsRenamed(rows, rows', k) && Saving(rows, rows', renames, done)[k] == Temporary(rows[k]))
  {
    SavingHas(rows, rows', renames, done);
    assert k in done ==> k < |rows'|;
    assert k in renames <==> IsRenamed(rows, rows', k);
  }

  lemma SavesAreSafe(rows: seq<Variant>, rows': seq<Variant>, renames: seq<nat>, saves: seq<nat>, n: nat)
    requires TableOk(rows) && TableOk(rows') && |rows| <= |rows'| && TemporariesAreFree(rows, rows')
    requires RenameOrder(rows, rows', renames) && SaveOrder(rows, rows', saves) && n <= |saves|
    ensures UniqueAfterSaves(rows, rows', renames, saves, n)
  {
    var done := saves[..n];
    var column := Saving(rows, rows', renames, done);
    forall a, b | a in column && b in column && a != b ensures column[a] != column[b] {
      NewOrTemporary(rows, rows', renames, done, a);
      NewOrTemporary(rows, rows', renames, done, b);
      if a < |rows| && b < |rows| {
        DifferentTemporaries(rows, a, b);
      }
    }
  }

  lemma {:induction false} OrderOf(s: set<nat>) returns (order: seq<nat>)
    ensures (forall i, j :: 0 <= i < j < |order| ==> order[i] != order[j]) && forall k :: k in order <==> k in s
    decreases s
  {
    if s == {} {
      order := [];
    } else {
      var k :| k in s;
      var rest := OrderOf(s - {k});
      order := [k] + rest;
    }
  }

  /** An order of the set that starts where asked. */
  lemma OrderFrom(s: set<nat>, first: nat) returns (order: seq<nat>)
    requires first in s
    ensures (forall i, j :: 0 <= i < j < |order| ==> order[i] != order[j]) && forall k :: k in order <==> k in s
    ensures order != [] && order[0] == first && forall i :: 0 <= i < |order| ==> order[i] in s
  {
    var rest := OrderOf(s - {first});
    order := [first] + rest;
    forall k | k in s && k != first ensures k in order {
      assert k in rest;
    }
  }

  function Indices(n: nat): (s: set<nat>)
    ensures forall k: nat :: k in s <==> k < n
  {
    if n == 0 then {} else Indices(n - 1) + {n - 1}
  }

  /** A clash with a temporary SKU shows up in some order of the writes. */
  lemma ClashShows(rows: seq<Variant>, rows': seq<Variant>, r: nat, x: nat) returns (renames: seq<nat>, saves: seq<nat>)
    requires |rows| <= |rows'| && IsRenamed(rows, rows', r) && x < |rows'| && x != r
    requires rows'[x].sku == Temporary(rows[r]) || (x < |rows| && rows[x].sku == Temporary(rows[r]))
    ensures RenameOrder(rows, rows', renames) && SaveOrder(rows, rows', saves) && !SafeWrites(rows, rows', renames, saves)
  {
    renames := OrderFrom((set k: nat | k < |rows| && IsRenamed(rows, rows', k)), r);
    saves := OrderFrom(Indices(|rows'|), x);
    assert RenameOrder(rows, rows', renames) && SaveOrder(rows, rows', saves);
    if x < |rows| && rows[x].sku == Temporary(rows[r]) {
      assert renames[..1] == [r] && r in renames;
      RenamingHas(rows, [r]);
      assert !UniqueAfterRenames(rows, renames, 1);
    } else {
      assert saves[..1] == [x];
      SavingHas(rows, rows', renames, [x]);
      assert r in renames;
      assert !UniqueAfterSaves(rows, rows', renames, saves, 1);
    }
  }

  /**
   * Swaps and cycles of SKUs included, every order of the single-row writes keeps the SKUs unique after each of them
   * exactly when no other row has, or is given, the temporary SKU of a renamed row; the code does not check the second.
   */
  lemma AnyOrderIsSafe(rows: seq<Variant>, rows': seq<Variant>)
    requires TableOk(rows) && TableOk(rows') && |rows| <= |rows'|
    ensures TemporariesAreFree(rows, rows')
            <==> forall renames, saves :: RenameOrder(rows, rows', renames) && SaveOrder(rows, rows', saves) ==> SafeWrites(rows, rows', renames, saves)
  {
    if TemporariesAreFree(rows, rows') {
      forall renames, saves | RenameOrder(rows, rows', renames) && SaveOrder(rows, rows', saves)
        ensures SafeWrites(rows, rows', renames, saves)
      {
        forall n | 0 <= n <= |renames| ensures UniqueAfterRenames(rows, renames, n) {
          RenamesAreSafe(rows, rows', renames, n);
        }
        forall n | 0 <= n <= |saves| ensures UniqueAfterSaves(rows, rows', renames, saves, n) {
          SavesAreSafe(rows, rows', renames, saves, n);
        }
      }
    } else {
      var r: nat, x: nat :| IsRenamed(rows, rows', r) && x < |rows'| && x != r
                  && !(rows'[x].sku != Temporary(rows[r]) && (x < |rows| ==> rows[x].sku != Temporary(rows[r])));
      var renames, saves := ClashShows(rows, rows', r, x);
    }
  }

  /** So it is for every edition that is accepted. */
  lemma AcceptedEditionIsSafe(rows: seq<Variant>, product: nat, form: seq<FormRow>, newIds: seq<string>)
    requires TableOk(rows) && |newIds| == |form| && NewIdsOk(rows, newIds) && Synced(rows, product, form, newIds).Done?
    ensures var rows' := Synced(rows, product, form, newIds).value.rows;
            TemporariesAreFree(rows, rows')
            <==> forall renames, saves :: RenameOrder(rows, rows', renames) && SaveOrder(rows, rows', saves) ==> SafeWrites(rows, rows', renames, saves)
  {
    SyncKeepsTable(rows, product, form, newIds);
    SyncLosesNothing(rows, product, form, newIds);
    AnyOrderIsSafe(rows, Synced(rows, product, form, newIds).value.rows);
  }

  const SHELF := [Variant("0", 0, "a", "", 0, true, 1, 0), Variant("1", 0, "b", "", 1, true, 1, 0)]
  const FORM := [FormRow(Some("0"), "c", "", 1, 1), FormRow(Some("1"), "tmp-0", "", 1, 1)]
  const EDITED := [Variant("0", 0, "c", "", 0, true, 1, 0), Variant("1", 0, "tmp-0", "", 1, true, 1, 0)]

  lemma TargetsShown()
    ensures Target(SHELF, 0, FORM, 0) == Some(0) && Target(SHELF, 0, FORM, 1) == Some(1)
  {
    var first := (v: Variant) => v.product == 0 && v.id == "0";
    var second := (v: Variant) => v.product == 0 && v.id == "1";
    assert Search(SHELF, first, 1) == Some(0);
    assert Search(SHELF, second, 1) == None;
  }

  lemma NothingRefused()
    ensures ListError(SHELF, 0, FORM) == None && FirstRowError(SHELF, 0, FORM, 2) == None
  {
    TargetsShown();
    assert IsTarget(SHELF, 0, FORM, 0) && IsTarget(SHELF, 0, FORM, 1);
  }

  /** The form renames the first variant, and gives the second the temporary SKU of the first: nothing refuses it. */
  lemma EditionIsAccepted()
    ensures TableOk(SHELF) && NewIdsOk(SHELF, ["2", "3"])
    ensures Synced(SHELF, 0, FORM, ["2", "3"]).Done? && Synced(SHELF, 0, FORM, ["2", "3"]).value.rows == EDITED
  {
    TargetsShown();
    NothingRefused();
    assert IsTarget(SHELF, 0, FORM, 0) && IsTarget(SHELF, 0, FORM, 1);
    assert Removed(SHELF, 0, FORM) == SHELF;
    assert Placed(SHELF, 0, FORM, ["2", "3"], 1).rows == SHELF[0 := EDITED[0]];
    assert Placed(SHELF, 0, FORM, ["2", "3"], 2).rows == EDITED;
  }

  /** An accepted edition whose writes are not safe in every order: the temporary SKU does clash with something. */
  lemma EditionCanTakeATemporary() returns (renames: seq<nat>, saves: seq<nat>)
    ensures TableOk(SHELF) && NewIdsOk(SHELF, ["2", "3"]) && Synced(SHELF, 0, FORM, ["2", "3"]).Done?
    ensures var rows' := Synced(SHELF, 0, FORM, ["2", "3"]).value.rows;
            && !TemporariesAreFree(SHELF, rows')
            && RenameOrder(SHELF, rows', renames) && SaveOrder(SHELF, rows', saves) && !SafeWrites(SHELF, rows', renames, saves)
  {
    EditionIsAccepted();
    assert Temporary(SHELF[0]) == "tmp-0";
    assert IsRenamed(SHELF, EDITED, 0) && EDITED[1].sku == Temporary(SHELF[0]);
    renames, saves := ClashShows(SHELF, EDITED, 0, 1);
  }

  /** Without the temporary SKUs, swapping two would be refused at its first write. */
  lemma SwapNeedsTemporaries(rows: seq<Variant>, rows': seq<Variant>, first: nat)
    requires |rows| == |rows'| == 2 && first < 2 && rows[0].sku != rows[1].sku
    requires rows'[0].sku == rows[1].sku && rows'[1].sku == rows[0].sku
    ensures !Unique((map k | 0 <= k < |rows| :: rows[k].sku)[first := rows'[first].sku])
  {
    var column := (map k | 0 <= k < |rows| :: rows[k].sku)[first := rows'[first].sku];
    assert column[0] == column[1];
  }
}
