/** What a synchronization of the SKU catalogue achieves, and the snapshot request built on it. */
module SkuSnapshot {
  import opened Prelude
  import opened SkuCatalogue
  import Text

  // ---------------------------------------------------------------- the rows that are added

  lemma {:induction false} NewRowsAreDistinct(c: Channel, rows: seq<Sku>, items: seq<SkuItem>, now: int)
    requires DistinctItems(c, items)
    ensures forall e :: e in NewRows(c, rows, items, now) ==>
      !Known(c, rows, c.fold(e.sku)) && Wanted(c, items, c.fold(e.sku)) == e.isActive
        && e == NewRow(c, SkuItem(e.sku, Active(e)), now)
    ensures Distinct(Folds(c, NewRows(c, rows, items, now)))
  {
    if items != [] {
      var n := |items| - 1;
      var was, f := NewRows(c, rows, items[..n], now), c.fold(items[n].sku);
      NewRowsAreDistinct(c, rows, items[..n], now);
      assert Wanted(c, items[..n], f).None?;
      forall e | e in was ensures c.fold(e.sku) != f && Wanted(c, items, c.fold(e.sku)) == e.isActive {
      }
      FoldsSnoc(c, was, NewRow(c, items[n], now));
    }
  }

  lemma {:induction false} NewRowsAreAll(c: Channel, rows: seq<Sku>, items: seq<SkuItem>, now: int)
    ensures forall k :: 0 <= k < |items| && !Known(c, rows, c.fold(items[k].sku)) ==>
      NewRow(c, items[k], now) in NewRows(c, rows, items, now)
  {
    if items != [] {
      var n := |items| - 1;
      NewRowsAreAll(c, rows, items[..n], now);
      forall k | 0 <= k < n && !Known(c, rows, c.fold(items[k].sku))
        ensures NewRow(c, items[k], now) in NewRows(c, rows, items[..n], now)
      {
        assert items[..n][k] == items[k];
      }
    }
  }

  /** The added rows are exactly those of the unknown items, in their order, one row a key. */
  lemma NewRowsAreUnknownItems(c: Channel, rows: seq<Sku>, items: seq<SkuItem>, now: int)
    requires DistinctItems(c, items)
    ensures forall e :: e in NewRows(c, rows, items, now) ==>
      !Known(c, rows, c.fold(e.sku)) && Wanted(c, items, c.fold(e.sku)) == e.isActive
        && e == NewRow(c, SkuItem(e.sku, Active(e)), now)
    ensures forall k :: 0 <= k < |items| && !Known(c, rows, c.fold(items[k].sku)) ==>
      NewRow(c, items[k], now) in NewRows(c, rows, items, now)
    ensures Distinct(Folds(c, NewRows(c, rows, items, now)))
  {
    NewRowsAreDistinct(c, rows, items, now);
    NewRowsAreAll(c, rows, items, now);
  }

  /** Existing rows stay in place with their SKU; the added ones follow them. */
  lemma SyncedShape(c: Channel, rows: seq<Sku>, q: SyncRequest, now: int)
    ensures |Synced(c, rows, q, now)| == |rows| + |Additions(c, rows, q, now)|
    ensures forall i :: 0 <= i < |rows| ==>
      Synced(c, rows, q, now)[i]
      == SyncedRow(c, rows, i, Wanted(c, q.items, c.fold(rows[i].sku)), q.deactivateMissing, now)
    ensures forall i :: 0 <= i < |rows| ==> Synced(c, rows, q, now)[i].sku == rows[i].sku
    ensures Synced(c, rows, q, now)[|rows|..] == Additions(c, rows, q, now)
  {
    forall i | 0 <= i < |rows| ensures c.fold(rows[i].sku) in SweepKeys(c, rows, q) <==> q.deactivateMissing {
      assert Folds(c, rows)[i] == c.fold(rows[i].sku);
    }
  }

  // ---------------------------------------------------------------- the active set

  ghost predicate ActiveKey(c: Channel, rows: seq<Sku>, f: string) {
    exists i :: 0 <= i < |rows| && Active(rows[i]) && c.fold(rows[i].sku) == f
  }

  /** Set specification: whether the request means the key `f` to be active. */
  ghost predicate Target(c: Channel, rows: seq<Sku>, q: SyncRequest, f: string) {
    match Wanted(c, q.items, f)
    case Some(active) => active && (q.createMissing || Known(c, rows, f))
    case None => !q.deactivateMissing && ActiveKey(c, rows, f)
  }

  /** An active row that a later row with the same key hides from the service although its key should not be active. */
  ghost predicate Leftover(c: Channel, rows: seq<Sku>, q: SyncRequest, i: nat)
    requires i < |rows|
  {
    !Kept(c, rows, i) && Active(rows[i]) && !Target(c, rows, q, c.fold(rows[i].sku))
  }

  lemma CreatedKeyActive(c: Channel, rows: seq<Sku>, q: SyncRequest, now: int, f: string)
    requires DistinctItems(c, q.items) && Wanted(c, q.items, f) == Some(true) && !Known(c, rows, f) && q.createMissing
    ensures ActiveKey(c, Synced(c, rows, q, now), f)
  {
    var after := Synced(c, rows, q, now);
    NewRowsAreUnknownItems(c, rows, q.items, now);
    var k :| 0 <= k < |q.items| && c.fold(q.items[k].sku) == f;
    WantedAt(c, q.items, k);
    var j :| 0 <= j < |NewRows(c, rows, q.items, now)|
      && NewRows(c, rows, q.items, now)[j] == NewRow(c, q.items[k], now);
    assert after[|rows| + j] == NewRow(c, q.items[k], now);
    assert Active(after[|rows| + j]) && c.fold(after[|rows| + j].sku) == f;
  }

  /** The row `i` is active afterwards: it is kept and wanted, or was active and no item names it. */
  lemma ExistingKeyActive(c: Channel, rows: seq<Sku>, q: SyncRequest, now: int, i: nat)
    requires i < |rows|
    requires match Wanted(c, q.items, c.fold(rows[i].sku)) {
      case Some(active) => active && Kept(c, rows, i)
      case None => Active(rows[i]) && !q.deactivateMissing
    }
    ensures ActiveKey(c, Synced(c, rows, q, now), c.fold(rows[i].sku))
  {
    var after := Synced(c, rows, q, now);
    SyncedShape(c, rows, q, now);
    assert Active(after[i]) && c.fold(after[i].sku) == c.fold(rows[i].sku);
  }

  /** Every key that should be active is. */
  lemma TargetReached(c: Channel, rows: seq<Sku>, q: SyncRequest, now: int, f: string)
    requires DistinctItems(c, q.items) && Target(c, rows, q, f)
    ensures ActiveKey(c, Synced(c, rows, q, now), f)
  {
    if Wanted(c, q.items, f).None? {
      var i :| 0 <= i < |rows| && Active(rows[i]) && c.fold(rows[i].sku) == f;
      ExistingKeyActive(c, rows, q, now, i);
    } else if Known(c, rows, f) {
      ExistingKeyActive(c, rows, q, now, LastIndex(c, rows, f));
    } else {
      CreatedKeyActive(c, rows, q, now, f);
    }
  }

  /** A row that is active afterwards was meant to be, or is left over. */
  lemma ActiveAfterwards(c: Channel, rows: seq<Sku>, q: SyncRequest, now: int, i: nat)
    requires DistinctItems(c, q.items) && i < |Synced(c, rows, q, now)| && Active(Synced(c, rows, q, now)[i])
    ensures Target(c, rows, q, c.fold(Synced(c, rows, q, now)[i].sku)) || (i < |rows| && Leftover(c, rows, q, i))
  {
    var after := Synced(c, rows, q, now);
    SyncedShape(c, rows, q, now);
    if i < |rows| {
      assert Folds(c, rows)[i] == c.fold(rows[i].sku);
      if Kept(c, rows, i) && Wanted(c, q.items, c.fold(rows[i].sku)).None? { assert Active(rows[i]); }
    } else {
      NewRowsAreUnknownItems(c, rows, q.items, now);
      assert after[i] == after[|rows|..][i - |rows|];
      assert after[i] in NewRows(c, rows, q.items, now);
    }
  }

  /** The active keys afterwards are exactly the specified ones if and only if no hidden row is left over. */
  lemma ActiveSetExactly(c: Channel, rows: seq<Sku>, q: SyncRequest, now: int)
    requires DistinctItems(c, q.items)
    ensures (forall f :: ActiveKey(c, Synced(c, rows, q, now), f) <==> Target(c, rows, q, f))
      <==> (forall i :: 0 <= i < |rows| ==> !Leftover(c, rows, q, i))
  {
    var after := Synced(c, rows, q, now);
    SyncedShape(c, rows, q, now);
    forall f | Target(c, rows, q, f) ensures ActiveKey(c, after, f) { TargetReached(c, rows, q, now, f); }
    forall i | 0 <= i < |after| && Active(after[i])
      ensures Target(c, rows, q, c.fold(after[i].sku)) || (i < |rows| && Leftover(c, rows, q, i))
    {
      ActiveAfterwards(c, rows, q, now, i);
    }
    forall i | 0 <= i < |rows| && Leftover(c, rows, q, i)
      ensures ActiveKey(c, after, c.fold(rows[i].sku)) && !Target(c, rows, q, c.fold(rows[i].sku))
    {
      assert after[i] == rows[i];
    }
  }

  /** With one row a key nothing is left over, and there is one row a key afterwards. */
  lemma OneRowPerKey(c: Channel, rows: seq<Sku>, q: SyncRequest, now: int)
    requires DistinctItems(c, q.items) && Distinct(Folds(c, rows))
    ensures forall f :: ActiveKey(c, Synced(c, rows, q, now), f) <==> Target(c, rows, q, f)
    ensures Distinct(Folds(c, Synced(c, rows, q, now)))
  {
    forall i | 0 <= i < |rows| ensures !Leftover(c, rows, q, i) {
      assert forall j :: 0 <= j < |rows| ==> Folds(c, rows)[j] == c.fold(rows[j].sku);
      assert Kept(c, rows, i);
    }
    ActiveSetExactly(c, rows, q, now);
    KeysStayDistinct(c, rows, q, now);
  }

  lemma KeysStayDistinct(c: Channel, rows: seq<Sku>, q: SyncRequest, now: int)
    requires DistinctItems(c, q.items) && Distinct(Folds(c, rows))
    ensures Distinct(Folds(c, Synced(c, rows, q, now)))
  {
    var more := Additions(c, rows, q, now);
    SyncedShape(c, rows, q, now);
    NewRowsAreUnknownItems(c, rows, q.items, now);
    forall j | 0 <= j < |more| ensures Folds(c, more)[j] !in Folds(c, rows) {
      assert more[j] in NewRows(c, rows, q.items, now);
    }
    DistinctAppend(Folds(c, rows), Folds(c, more));
    SyncedFolds(c, rows, q, now);
  }

  lemma SyncedFolds(c: Channel, rows: seq<Sku>, q: SyncRequest, now: int)
    ensures Folds(c, Synced(c, rows, q, now)) == Folds(c, rows) + Folds(c, Additions(c, rows, q, now))
  {
    SyncedShape(c, rows, q, now);
  }

  lemma DistinctAppend(a: seq<string>, b: seq<string>)
    requires Distinct(a) && Distinct(b) && forall j :: 0 <= j < |b| ==> b[j] !in a
    ensures Distinct(a + b)
  {
  }

  /** A row that the request does not name is not written, when missing rows are not deactivated. */
  lemma OthersStay(c: Channel, rows: seq<Sku>, q: SyncRequest, now: int, i: nat)
    requires i < |rows| && Wanted(c, q.items, c.fold(rows[i].sku)).None?
    ensures Synced(c, rows, q, now)[i] == rows[i] <==> !(q.deactivateMissing && Kept(c, rows, i) && Active(rows[i]))
  {
    SyncedShape(c, rows, q, now);
  }

  /** An item of an existing row is listed by what happens to the row: switched on, switched off, or neither. */
  lemma KindsAreMoves(c: Channel, rows: seq<Sku>, q: SyncRequest, now: int, k: nat)
    requires DistinctItems(c, q.items) && k < |q.items| && Known(c, rows, c.fold(q.items[k].sku))
    ensures var l := LastIndex(c, rows, c.fold(q.items[k].sku));
      && |rows| <= |Synced(c, rows, q, now)|
      && var before, after := rows[l].isActive == Some(true), Synced(c, rows, q, now)[l].isActive == Some(true);
      && after == q.items[k].active
      && (KindOf(c, rows, q.items[k]) == Activate <==> !before && after)
      && (KindOf(c, rows, q.items[k]) == Deactivate <==> before && !after)
  {
    SyncedShape(c, rows, q, now);
    WantedAt(c, q.items, k);
  }

  /**
   Every write is stamped, and a channel that ties external ids to SKUs has them tied on all requested and added rows.
   */
  lemma WritesAreStamped(c: Channel, rows: seq<Sku>, q: SyncRequest, now: int, i: nat)
    requires DistinctItems(c, q.items) && i < |Synced(c, rows, q, now)|
    ensures var e := Synced(c, rows, q, now)[i];
      && (i >= |rows| || e != rows[i] ==> e.updatedAt == Some(now))
      && (c.matchesSku && (i >= |rows| || (Kept(c, rows, i) && Wanted(c, q.items, c.fold(e.sku)).Some?)) ==>
            e.externalId == Some(Text.Strip(e.sku)))
      && (i < |rows| && (!c.matchesSku || Wanted(c, q.items, c.fold(e.sku)).None?) ==>
            e.externalId == rows[i].externalId)
  {
    SyncedShape(c, rows, q, now);
    if i >= |rows| {
      var more := Additions(c, rows, q, now);
      NewRowsAreDistinct(c, rows, q.items, now);
      assert Synced(c, rows, q, now)[i] == more[i - |rows|] && more[i - |rows|] in more;
    }
  }

  // ---------------------------------------------------------------- the counters

  /** Every item is counted in exactly one list. */
  lemma {:induction false} KindsPartition(c: Channel, rows: seq<Sku>, items: seq<SkuItem>)
    ensures |items| == |SkusOf(c, rows, items, Unknown)| + |SkusOf(c, rows, items, Same)|
      + |SkusOf(c, rows, items, Activate)| + |SkusOf(c, rows, items, Deactivate)|
    ensures (forall k :: 0 <= k < |items| ==> items[k].active) ==> SkusOf(c, rows, items, Deactivate) == []
  {
    if items != [] { KindsPartition(c, rows, items[..|items| - 1]); }
  }

  ghost predicate AllActive(items: seq<SkuItem>) {
    forall k :: 0 <= k < |items| ==> items[k].active
  }

  /** received = created + activated + unchanged + missing for a request of active items only. */
  lemma SnapshotBalance(c: Channel, rows: seq<Sku>, q: SyncRequest)
    requires AllActive(q.items)
    ensures var r := ResultOf(c, rows, q);
      r.received == r.created + r.activated + r.same + |r.missing|
      && r.created == |r.createdSkus| && r.activated == |r.activatedSkus| && r.deactivated == |r.deactivatedSkus|
  {
    KindsPartition(c, rows, q.items);
  }

  function ActiveCount(rows: seq<Sku>): nat {
    if rows == [] then 0 else ActiveCount(rows[..|rows| - 1]) + if Active(rows[|rows| - 1]) then 1 else 0
  }

  lemma {:induction false} ActiveCountUpdate(rows: seq<Sku>, i: nat, e: Sku)
    requires i < |rows|
    ensures ActiveCount(rows[i := e]) - (if Active(e) then 1 else 0)
      == ActiveCount(rows) - (if Active(rows[i]) then 1 else 0)
  {
    var n := |rows| - 1;
    if i < n {
      ActiveCountUpdate(rows[..n], i, e);
      assert rows[i := e][..n] == rows[..n][i := e];
    } else {
      assert rows[i := e][..n] == rows[..n];
    }
  }

  lemma {:induction false} ActiveCountAppend(a: seq<Sku>, b: seq<Sku>)
    ensures ActiveCount(a + b) == ActiveCount(a) + ActiveCount(b)
  {
    if b == [] {
      assert a + b == a;
    } else {
      ActiveCountAppend(a, b[..|b| - 1]);
      assert (a + b)[..|a + b| - 1] == a + b[..|b| - 1];
    }
  }

  /** One item moves the count of active rows and the two lists together. */
  lemma ItemMovesCount(c: Channel, rows: seq<Sku>, items: seq<SkuItem>, n: nat, now: int)
    requires DistinctItems(c, items) && n < |items|
    ensures var kind := KindOf(c, rows, items[n]);
      ActiveCount(SyncedOld(c, rows, items[..n + 1], [], now)) + (if kind == Deactivate then 1 else 0)
      == ActiveCount(SyncedOld(c, rows, items[..n], [], now)) + (if kind == Activate then 1 else 0)
  {
    ItemStep(c, rows, items, n, now);
    if Known(c, rows, c.fold(items[n].sku)) {
      var l := LastIndex(c, rows, c.fold(items[n].sku));
      ActiveCountUpdate(SyncedOld(c, rows, items[..n], [], now), l,
        SetActive(SyncExternalId(c, rows[l], now), items[n].active, now));
    }
  }

  lemma SkusOfSnoc(c: Channel, rows: seq<Sku>, items: seq<SkuItem>, n: nat, kind: Kind)
    requires n < |items|
    ensures |SkusOf(c, rows, items[..n + 1], kind)|
      == |SkusOf(c, rows, items[..n], kind)| + if KindOf(c, rows, items[n]) == kind then 1 else 0
  {
    assert items[..n + 1][..n] == items[..n];
  }

  lemma {:induction false} ItemsMoveCount(c: Channel, rows: seq<Sku>, items: seq<SkuItem>, n: nat, now: int)
    requires DistinctItems(c, items) && n <= |items|
    ensures ActiveCount(SyncedOld(c, rows, items[..n], [], now)) + |SkusOf(c, rows, items[..n], Deactivate)|
      == ActiveCount(rows) + |SkusOf(c, rows, items[..n], Activate)|
  {
    if n == 0 {
      assert items[..0] == [];
      NothingSynced(c, rows, now);
    } else {
      ItemsMoveCount(c, rows, items, n - 1, now);
      ItemMovesCount(c, rows, items, n - 1, now);
      SkusOfSnoc(c, rows, items, n - 1, Activate);
      SkusOfSnoc(c, rows, items, n - 1, Deactivate);
    }
  }

  lemma {:induction false} SweepMovesCount(c: Channel, rows: seq<Sku>, items: seq<SkuItem>, keys: seq<string>, now: int)
    requires Distinct(keys)
    ensures ActiveCount(SyncedOld(c, rows, items, keys, now)) + |Swept(c, rows, items, keys)|
      == ActiveCount(SyncedOld(c, rows, items, [], now))
  {
    if keys != [] {
      var n := |keys| - 1;
      var f := keys[n];
      SweepMovesCount(c, rows, items, keys[..n], now);
      assert keys == keys[..n] + [f] && f !in keys[..n];
      SweepStep(c, rows, items, keys[..n], f, now);
      if Sweeps(c, rows, items, f) {
        var l := LastIndex(c, rows, f);
        ActiveCountUpdate(SyncedOld(c, rows, items, keys[..n], now), l, SetActive(rows[l], false, now));
      }
    }
  }

  lemma {:induction false} NewRowsCount(c: Channel, rows: seq<Sku>, items: seq<SkuItem>, now: int)
    ensures |NewRows(c, rows, items, now)| == |SkusOf(c, rows, items, Unknown)|
  {
    if items != [] { NewRowsCount(c, rows, items[..|items| - 1], now); }
  }

  lemma {:induction false} AllOfThemActive(rows: seq<Sku>)
    requires forall e :: e in rows ==> Active(e)
    ensures ActiveCount(rows) == |rows|
  {
    if rows != [] { AllOfThemActive(rows[..|rows| - 1]); }
  }

  lemma NewRowsAreActive(c: Channel, rows: seq<Sku>, items: seq<SkuItem>, now: int)
    requires DistinctItems(c, items) && AllActive(items)
    ensures forall e :: e in NewRows(c, rows, items, now) ==> Active(e)
  {
    NewRowsAreUnknownItems(c, rows, items, now);
    forall e | e in NewRows(c, rows, items, now) ensures Active(e) {
      var k :| 0 <= k < |items| && c.fold(items[k].sku) == c.fold(e.sku);
      WantedAt(c, items, k);
    }
  }

  /** The counters are what happened: active rows are conserved up to the reported moves, and `created` rows appear. */
  lemma CountersConserveRows(c: Channel, rows: seq<Sku>, q: SyncRequest, now: int)
    requires DistinctItems(c, q.items)
    ensures var r, after := ResultOf(c, rows, q), Synced(c, rows, q, now);
      && |after| == |rows| + r.created
      && ActiveCount(after) + r.deactivated == ActiveCount(rows) + r.activated + ActiveCount(Additions(c, rows, q, now))
      && (AllActive(q.items) ==> ActiveCount(Additions(c, rows, q, now)) == r.created)
  {
    var keys := SweepKeys(c, rows, q);
    DedupeIsDistinct(Folds(c, rows));
    ActiveCountAppend(SyncedOld(c, rows, q.items, keys, now), Additions(c, rows, q, now));
    SweepMovesCount(c, rows, q.items, keys, now);
    ItemsMoveCount(c, rows, q.items, |q.items|, now);
    assert q.items[..|q.items|] == q.items;
    NewRowsCount(c, rows, q.items, now);
    if AllActive(q.items) {
      NewRowsAreActive(c, rows, q.items, now);
      AllOfThemActive(Additions(c, rows, q, now));
    }
  }

  // ---------------------------------------------------------------- applying it twice

  lemma KnownAfterwards(c: Channel, rows: seq<Sku>, q: SyncRequest, now: int, f: string)
    requires DistinctItems(c, q.items)
    ensures var after := Synced(c, rows, q, now);
      && (Known(c, after, f) <==> Known(c, rows, f) || (q.createMissing && Wanted(c, q.items, f).Some?))
      && (Known(c, rows, f) ==> LastIndex(c, after, f) == LastIndex(c, rows, f))
  {
    SyncedFolds(c, rows, q, now);
    AddedKeys(c, rows, q, now, f);
    if Known(c, rows, f) { KeptAfterwards(c, rows, q, now, f); }
  }

  lemma AddedKeys(c: Channel, rows: seq<Sku>, q: SyncRequest, now: int, f: string)
    requires DistinctItems(c, q.items)
    ensures f in Folds(c, Additions(c, rows, q, now))
      <==> q.createMissing && !Known(c, rows, f) && Wanted(c, q.items, f).Some?
  {
    var more := Additions(c, rows, q, now);
    NewRowsAreUnknownItems(c, rows, q.items, now);
    if f in Folds(c, more) {
      var j :| 0 <= j < |more| && Folds(c, more)[j] == f;
      assert more[j] in more;
    }
  }

  lemma KeptAfterwards(c: Channel, rows: seq<Sku>, q: SyncRequest, now: int, f: string)
    requires DistinctItems(c, q.items) && Known(c, rows, f)
    ensures Known(c, Synced(c, rows, q, now), f) && LastIndex(c, Synced(c, rows, q, now), f) == LastIndex(c, rows, f)
  {
    SyncedFolds(c, rows, q, now);
    AddedKeys(c, rows, q, now, f);
    LastByKeys(c, rows, Synced(c, rows, q, now), Folds(c, Additions(c, rows, q, now)), f);
  }

  /** Rows that follow without the key leave the last row of the key where it is. */
  lemma LastByKeys(c: Channel, rows: seq<Sku>, after: seq<Sku>, more: seq<string>, f: string)
    requires Known(c, rows, f) && Folds(c, after) == Folds(c, rows) + more && f !in more
    ensures Known(c, after, f) && LastIndex(c, after, f) == LastIndex(c, rows, f)
  {
    var keys, l := Folds(c, after), LastIndex(c, rows, f);
    assert keys[l] == f && forall j :: l < j < |rows| ==> keys[j] == c.fold(rows[j].sku);
    forall j | l < j < |after| ensures c.fold(after[j].sku) != f {
      assert c.fold(after[j].sku) == keys[j];
    }
    KeptIsLast(c, after, l);
  }

  /** Every row the request would write already is as it should be. */
  lemma SettledRow(c: Channel, rows: seq<Sku>, q: SyncRequest, now: int, later: int, i: nat)
    requires DistinctItems(c, q.items) && i < |Synced(c, rows, q, now)|
    ensures var after := Synced(c, rows, q, now);
      SyncedRow(c, after, i, Wanted(c, q.items, c.fold(after[i].sku)), q.deactivateMissing, later) == after[i]
  {
    SyncedShape(c, rows, q, now);
    if i < |rows| { SettledOldRow(c, rows, q, now, later, i); } else { SettledNewRow(c, rows, q, now, later, i); }
  }

  lemma SettledNewRow(c: Channel, rows: seq<Sku>, q: SyncRequest, now: int, later: int, i: nat)
    requires DistinctItems(c, q.items) && |rows| <= i < |Synced(c, rows, q, now)|
    ensures var after := Synced(c, rows, q, now);
      SyncedRow(c, after, i, Wanted(c, q.items, c.fold(after[i].sku)), q.deactivateMissing, later) == after[i]
  {
    var more := Additions(c, rows, q, now);
    SyncedShape(c, rows, q, now);
    NewRowsAreDistinct(c, rows, q.items, now);
    assert Synced(c, rows, q, now)[i] == more[i - |rows|] && more[i - |rows|] in more;
  }

  lemma SettledOldRow(c: Channel, rows: seq<Sku>, q: SyncRequest, now: int, later: int, i: nat)
    requires i < |rows| <= |Synced(c, rows, q, now)|
    ensures var after := Synced(c, rows, q, now);
      SyncedRow(c, after, i, Wanted(c, q.items, c.fold(after[i].sku)), q.deactivateMissing, later) == after[i]
  {
    var after := Synced(c, rows, q, now);
    SyncedShape(c, rows, q, now);
    if Kept(c, after, i) {
      forall j | i < j < |rows| ensures c.fold(rows[j].sku) != c.fold(rows[i].sku) {
        assert after[j].sku == rows[j].sku;
      }
      assert Kept(c, rows, i);
    }
  }

  lemma {:induction false} NoNewRows(c: Channel, rows: seq<Sku>, items: seq<SkuItem>, now: int)
    requires forall k :: 0 <= k < |items| ==> Known(c, rows, c.fold(items[k].sku))
    ensures NewRows(c, rows, items, now) == []
  {
    if items != [] { NoNewRows(c, rows, items[..|items| - 1], now); }
  }

  /** Repeating a request, at any later time, writes no row. */
  lemma SecondTimeChangesNothing(c: Channel, rows: seq<Sku>, q: SyncRequest, now: int, later: int)
    requires DistinctItems(c, q.items)
    ensures var after := Synced(c, rows, q, now); Synced(c, after, q, later) == after
  {
    var after := Synced(c, rows, q, now);
    SyncedShape(c, after, q, later);
    forall i | 0 <= i < |after| ensures Synced(c, after, q, later)[i] == after[i] {
      SettledRow(c, rows, q, now, later, i);
    }
    if q.createMissing {
      forall k | 0 <= k < |q.items| ensures Known(c, after, c.fold(q.items[k].sku)) {
        KnownAfterwards(c, rows, q, now, c.fold(q.items[k].sku));
      }
      NoNewRows(c, after, q.items, later);
    }
    assert Synced(c, after, q, later)[|after|..] == [];
  }

  lemma KindAfterwards(c: Channel, rows: seq<Sku>, q: SyncRequest, now: int, k: nat)
    requires DistinctItems(c, q.items) && k < |q.items|
    ensures var after := Synced(c, rows, q, now);
      KindOf(c, after, q.items[k])
      == if !q.createMissing && KindOf(c, rows, q.items[k]) == Unknown then Unknown else Same
  {
    var after := Synced(c, rows, q, now);
    var f := c.fold(q.items[k].sku);
    KnownAfterwards(c, rows, q, now, f);
    WantedAt(c, q.items, k);
    if Known(c, after, f) {
      var l := LastIndex(c, after, f);
      SettledRow(c, rows, q, now, now, l);
    }
  }

  lemma {:induction false} NoMovesAfterwards(c: Channel, rows: seq<Sku>, q: SyncRequest, now: int, n: nat, kind: Kind)
    requires DistinctItems(c, q.items) && n <= |q.items| && kind in {Activate, Deactivate}
    ensures SkusOf(c, Synced(c, rows, q, now), q.items[..n], kind) == []
  {
    if n > 0 {
      NoMovesAfterwards(c, rows, q, now, n - 1, kind);
      KindAfterwards(c, rows, q, now, n - 1);
      assert q.items[..n][..n - 1] == q.items[..n - 1];
    }
  }

  lemma {:induction false} MissingAfterwards(c: Channel, rows: seq<Sku>, q: SyncRequest, now: int, n: nat)
    requires DistinctItems(c, q.items) && n <= |q.items|
    ensures SkusOf(c, Synced(c, rows, q, now), q.items[..n], Unknown)
      == if q.createMissing then [] else SkusOf(c, rows, q.items[..n], Unknown)
  {
    if n > 0 {
      MissingAfterwards(c, rows, q, now, n - 1);
      KindAfterwards(c, rows, q, now, n - 1);
      assert q.items[..n][..n - 1] == q.items[..n - 1];
    }
  }

  lemma {:induction false} NothingToSweep(c: Channel, rows: seq<Sku>, q: SyncRequest, now: int, keys: seq<string>)
    requires DistinctItems(c, q.items) && q.deactivateMissing
    ensures Swept(c, Synced(c, rows, q, now), q.items, keys) == []
  {
    if keys != [] {
      var n, after := |keys| - 1, Synced(c, rows, q, now);
      NothingToSweep(c, rows, q, now, keys[..n]);
      if Known(c, after, keys[n]) { SettledRow(c, rows, q, now, now, LastIndex(c, after, keys[n])); }
    }
  }

  /** The second answer reports no move: every item is unchanged, except the ones that are still missing. */
  lemma SecondAnswer(c: Channel, rows: seq<Sku>, q: SyncRequest, now: int)
    requires DistinctItems(c, q.items)
    ensures var first, second := ResultOf(c, rows, q), ResultOf(c, Synced(c, rows, q, now), q);
      && second.created == 0 && second.activated == 0 && second.deactivated == 0
      && second.missing == first.missing
      && second.same == |q.items| - |first.missing|
  {
    var after := Synced(c, rows, q, now);
    NoMovesAfterwards(c, rows, q, now, |q.items|, Activate);
    NoMovesAfterwards(c, rows, q, now, |q.items|, Deactivate);
    MissingAfterwards(c, rows, q, now, |q.items|);
    assert q.items[..|q.items|] == q.items;
    KindsPartition(c, after, q.items);
    if q.deactivateMissing { NothingToSweep(c, rows, q, now, SweepKeys(c, after, q)); }
  }

  // ---------------------------------------------------------------- the request schemas

  const MaxItems: nat := 20000
  const MaxLength: nat := 255

  function Stripped(skus: seq<string>): (r: seq<string>)
    ensures |r| == |skus| && forall i :: 0 <= i < |skus| ==> r[i] == Text.Strip(skus[i])
  {
    seq(|skus|, i requires 0 <= i < |skus| => Text.Strip(skus[i]))
  }

  predicate LengthsOk(skus: seq<string>) {
    forall i :: 0 <= i < |skus| ==> 1 <= |skus[i]| <= MaxLength
  }

  function SkuNames(items: seq<SkuItem>): (r: seq<string>)
    ensures |r| == |items| && forall i :: 0 <= i < |items| ==> r[i] == items[i].sku
  {
    seq(|items|, i requires 0 <= i < |items| => items[i].sku)
  }

  /** The size of the set of the keys. */
  function KeyCount(keys: seq<string>): nat {
    |set f | f in keys|
  }

  datatype SchemaError = WrongSize | WrongLength | DuplicateSkus

  /** `ActiveSkuSnapshotRequest`: lengths are checked after stripping. */
  function SnapshotSkus(c: Channel, raw: seq<string>): Result<seq<string>, SchemaError> {
    var skus := Stripped(raw);
    if !(1 <= |raw| <= MaxItems) then Err(WrongSize)
    else if !LengthsOk(skus) then Err(WrongLength)
    else if KeyCount(Text.Folded(c.fold, skus)) != |raw| then Err(DuplicateSkus)
    else Ok(skus)
  }

  function StrippedItems(raw: seq<SkuItem>): (r: seq<SkuItem>)
    ensures |r| == |raw| && forall i :: 0 <= i < |raw| ==> r[i] == SkuItem(Text.Strip(raw[i].sku), raw[i].active)
  {
    seq(|raw|, i requires 0 <= i < |raw| => SkuItem(Text.Strip(raw[i].sku), raw[i].active))
  }

  function ItemKeys(c: Channel, items: seq<SkuItem>): (r: seq<string>)
    ensures |r| == |items| && forall i :: 0 <= i < |items| ==> r[i] == c.fold(items[i].sku)
  {
    seq(|items|, i requires 0 <= i < |items| => c.fold(items[i].sku))
  }

  /** `BulkSkuSyncRequest`: lengths are checked before stripping. */
  function BulkItems(c: Channel, raw: seq<SkuItem>): Result<seq<SkuItem>, SchemaError> {
    var items := StrippedItems(raw);
    if !LengthsOk(SkuNames(raw)) then Err(WrongLength)
    else if !(1 <= |raw| <= MaxItems) then Err(WrongSize)
    else if KeyCount(ItemKeys(c, items)) != |raw| then Err(DuplicateSkus)
    else Ok(items)
  }

  /** Comparing a list with the set of its elements decides whether an element is repeated. */
  lemma {:induction false} SetSizeDecides(s: seq<string>)
    ensures KeyCount(s) <= |s|
    ensures KeyCount(s) == |s| <==> Distinct(s)
  {
    if s != [] {
      var n := |s| - 1;
      SetSizeDecides(s[..n]);
      assert s == s[..n] + [s[n]];
      assert (set f | f in s) == (set f | f in s[..n]) + {s[n]};
    }
  }

  /** The bulk schema gives `bulk_sync` what it relies on. */
  lemma BulkItemsAreDistinct(c: Channel, raw: seq<SkuItem>)
    ensures var r := BulkItems(c, raw); r.Ok? ==> DistinctItems(c, r.value) && 1 <= |r.value| <= MaxItems
  {
    var items := StrippedItems(raw);
    SetSizeDecides(ItemKeys(c, items));
    DistinctKeys(c, items);
  }

  lemma DistinctKeys(c: Channel, items: seq<SkuItem>)
    ensures DistinctItems(c, items) <==> Distinct(ItemKeys(c, items))
  {
    assert forall i :: 0 <= i < |items| ==> ItemKeys(c, items)[i] == c.fold(items[i].sku);
    if Distinct(ItemKeys(c, items)) {
      forall i, j | 0 <= i < j < |items| ensures c.fold(items[i].sku) != c.fold(items[j].sku) {
        assert ItemKeys(c, items)[i] != ItemKeys(c, items)[j];
      }
    }
  }

  function ActiveItems(skus: seq<string>): (r: seq<SkuItem>)
    ensures |r| == |skus| && forall i :: 0 <= i < |skus| ==> r[i] == SkuItem(skus[i], true)
  {
    seq(|skus|, i requires 0 <= i < |skus| => SkuItem(skus[i], true))
  }

  ghost predicate WellFormed(skus: seq<string>) {
    1 <= |skus| <= MaxItems && LengthsOk(skus) && forall i :: 0 <= i < |skus| ==> Text.Trimmed(skus[i])
  }

  lemma StrippedTwice(skus: seq<string>)
    requires forall i :: 0 <= i < |skus| ==> Text.Trimmed(skus[i])
    ensures Stripped(skus) == skus
  {
    forall i | 0 <= i < |skus| ensures Text.Strip(skus[i]) == skus[i] { Text.StripTrimmed(skus[i]); }
  }

  lemma StrippedItemsTwice(items: seq<SkuItem>)
    requires forall i :: 0 <= i < |items| ==> Text.Trimmed(items[i].sku)
    ensures StrippedItems(items) == items
  {
    forall i | 0 <= i < |items| ensures Text.Strip(items[i].sku) == items[i].sku { Text.StripTrimmed(items[i].sku); }
  }

  /** Stripped SKUs of the right lengths with different keys pass the snapshot schema as they are. */
  lemma SnapshotPasses(c: Channel, skus: seq<string>)
    requires WellFormed(skus) && Distinct(Text.Folded(c.fold, skus))
    ensures SnapshotSkus(c, skus) == Ok(skus)
  {
    StrippedTwice(skus);
    SetSizeDecides(Text.Folded(c.fold, skus));
  }

  /** Stripped SKUs of the right lengths with different keys pass the bulk schema as they are. */
  lemma BulkPasses(c: Channel, skus: seq<string>, items: seq<SkuItem>)
    requires WellFormed(skus) && Distinct(Text.Folded(c.fold, skus)) && SkuNames(items) == skus
    ensures BulkItems(c, items) == Ok(items) && DistinctItems(c, items)
  {
    KeysOfNames(c, items);
    StrippedItemsTwice(items);
    BulkAccepts(c, items);
  }

  lemma BulkAccepts(c: Channel, items: seq<SkuItem>)
    requires StrippedItems(items) == items && LengthsOk(SkuNames(items)) && 1 <= |items| <= MaxItems
    requires Distinct(ItemKeys(c, items))
    ensures BulkItems(c, items) == Ok(items) && DistinctItems(c, items)
  {
    SetSizeDecides(ItemKeys(c, items));
    DistinctKeys(c, items);
  }

  lemma KeysOfNames(c: Channel, items: seq<SkuItem>)
    ensures ItemKeys(c, items) == Text.Folded(c.fold, SkuNames(items))
    ensures |SkuNames(items)| == |items| && forall i :: 0 <= i < |items| ==> SkuNames(items)[i] == items[i].sku
  {
  }

  lemma SnapshotGives(c: Channel, raw: seq<string>)
    ensures var r := SnapshotSkus(c, raw); r.Ok? ==> WellFormed(r.value) && Distinct(Text.Folded(c.fold, r.value))
  {
    SetSizeDecides(Text.Folded(c.fold, Stripped(raw)));
  }

  ghost predicate DifferentNames(c: Channel, names: seq<string>) {
    forall i, j :: 0 <= i < j < |names| ==> c.fold(names[i]) != c.fold(names[j])
  }

  /** The snapshot schema accepts `skus` for `raw`: the texts between the blanks, 1 to 255 long, with different keys. */
  lemma SnapshotAcceptsExactly(c: Channel, raw: seq<string>, skus: seq<string>)
    ensures SnapshotSkus(c, raw) == Ok(skus)
      <==> (1 <= |raw| <= 20000 && |skus| == |raw| && DifferentNames(c, skus)
            && forall i :: 0 <= i < |raw| ==> 1 <= |skus[i]| <= 255 && Text.Padded(raw[i], skus[i]))
  {
    SetSizeDecides(Text.Folded(c.fold, Stripped(raw)));
    NamesByKeys(c, Stripped(raw));
    forall i | 0 <= i < |raw| && |skus| == |raw| ensures Text.Padded(raw[i], skus[i]) <==> Stripped(raw)[i] == skus[i] {
      Text.StripExactly(raw[i], skus[i]);
    }
    assert |skus| == |raw| && (forall i :: 0 <= i < |raw| ==> Text.Padded(raw[i], skus[i])) ==> skus == Stripped(raw);
  }

  lemma NamesByKeys(c: Channel, names: seq<string>)
    ensures DifferentNames(c, names) <==> Distinct(Text.Folded(c.fold, names))
  {
    var keys := Text.Folded(c.fold, names);
    assert forall i :: 0 <= i < |names| ==> keys[i] == c.fold(names[i]);
    if Distinct(keys) {
      forall i, j | 0 <= i < j < |names| ensures c.fold(names[i]) != c.fold(names[j]) { assert keys[i] != keys[j]; }
    }
  }

  /** `items` are the items of `raw` without the blanks around their SKUs. */
  ghost predicate Cleaned(raw: seq<SkuItem>, items: seq<SkuItem>) {
    && |items| == |raw|
    && forall i :: 0 <= i < |raw| ==> Text.Padded(raw[i].sku, items[i].sku) && items[i].active == raw[i].active
  }

  lemma CleanedExactly(raw: seq<SkuItem>, items: seq<SkuItem>)
    ensures Cleaned(raw, items) <==> items == StrippedItems(raw)
  {
    var stripped := StrippedItems(raw);
    forall i | 0 <= i < |raw| && |items| == |raw|
      ensures Text.Padded(raw[i].sku, items[i].sku) && items[i].active == raw[i].active <==> stripped[i] == items[i]
    {
      Text.StripExactly(raw[i].sku, items[i].sku);
      assert stripped[i] == SkuItem(Text.Strip(raw[i].sku), raw[i].active);
    }
  }

  /** The bulk schema accepts `items` for `raw`: lengths 1 to 255 before the blanks go, different keys after. */
  lemma BulkAcceptsExactly(c: Channel, raw: seq<SkuItem>, items: seq<SkuItem>)
    ensures BulkItems(c, raw) == Ok(items)
      <==> (1 <= |raw| <= 20000 && Cleaned(raw, items) && DistinctItems(c, items)
            && forall i :: 0 <= i < |raw| ==> 1 <= |raw[i].sku| <= 255)
  {
    CleanedExactly(raw, items);
    LengthsOfNames(raw);
    KeysDecide(c, raw);
  }

  lemma KeysDecide(c: Channel, raw: seq<SkuItem>)
    ensures KeyCount(ItemKeys(c, StrippedItems(raw))) == |raw| <==> DistinctItems(c, StrippedItems(raw))
  {
    SetSizeDecides(ItemKeys(c, StrippedItems(raw)));
    DistinctKeys(c, StrippedItems(raw));
  }

  lemma LengthsOfNames(raw: seq<SkuItem>)
    ensures LengthsOk(SkuNames(raw)) <==> forall i :: 0 <= i < |raw| ==> 1 <= |raw[i].sku| <= 255
  {
    var names := SkuNames(raw);
    if LengthsOk(names) {
      forall i | 0 <= i < |raw| ensures 1 <= |raw[i].sku| <= 255 { assert 1 <= |names[i]| <= 255; }
    }
  }

  /** The items an accepted snapshot is turned into are always accepted by the bulk schema, unchanged. */
  lemma SnapshotIsBulk(c: Channel, raw: seq<string>)
    ensures var r := SnapshotSkus(c, raw);
      r.Ok? ==> BulkItems(c, ActiveItems(r.value)) == Ok(ActiveItems(r.value)) && DistinctItems(c, ActiveItems(r.value))
  {
    SnapshotGives(c, raw);
    if SnapshotSkus(c, raw).Ok? { BulkPasses(c, SnapshotSkus(c, raw).value, ActiveItems(SnapshotSkus(c, raw).value)); }
  }

  datatype SnapshotError = BadRequest(schema: SchemaError) | Rejected(sync: SyncError)

  function SnapshotRequest(skus: seq<string>, createMissing: bool): SyncRequest {
    SyncRequest(ActiveItems(skus), true, createMissing)
  }

  /** A snapshot as a client sends it: the request schema, then `apply_active_snapshot`. */
  method ApplyActiveSnapshot(service: ManagedSkuService, raw: seq<string>, createMissing: bool, dryRun: bool,
      commitOk: bool, now: int)
    returns (r: Result<SyncResult, SnapshotError>)
    modifies service`committed
    ensures SnapshotSkus(service.channel, raw).Err? ==>
      r == Err(BadRequest(SnapshotSkus(service.channel, raw).error)) && service.committed == old(service.committed)
    ensures SnapshotSkus(service.channel, raw).Ok? ==>
      var q := SnapshotRequest(SnapshotSkus(service.channel, raw).value, createMissing);
      && r == (if dryRun || commitOk
           then Ok(ResultOf(service.channel, old(service.committed), q)) else Err(Rejected(ConflictError)))
      && service.committed == if dryRun || !commitOk
           then old(service.committed) else Synced(service.channel, old(service.committed), q, now)
  {
    var skus := SnapshotSkus(service.channel, raw);
    SnapshotIsBulk(service.channel, raw);
    if skus.Err? { return Err(BadRequest(skus.error)); }
    var items := BulkItems(service.channel, ActiveItems(skus.value));
    var answer := service.BulkSync(SyncRequest(items.value, true, createMissing), dryRun, commitOk, now);
    match answer {
      case Ok(result) => r := Ok(result);
      case Err(error) => r := Err(Rejected(error));
    }
  }

  /** For a snapshot the specified active keys are the requested ones, only the known ones if nothing is created. */
  lemma SnapshotTarget(c: Channel, rows: seq<Sku>, skus: seq<string>, createMissing: bool, f: string)
    requires DistinctItems(c, ActiveItems(skus))
    ensures Target(c, rows, SnapshotRequest(skus, createMissing), f)
      <==> f in Text.Folded(c.fold, skus) && (createMissing || Known(c, rows, f))
    ensures AllActive(SnapshotRequest(skus, createMissing).items)
  {
    var items := ActiveItems(skus);
    forall k | 0 <= k < |skus| ensures Wanted(c, items, Text.Folded(c.fold, skus)[k]) == Some(true) {
      WantedAt(c, items, k);
    }
    assert Wanted(c, items, f).Some? ==> exists k :: 0 <= k < |items| && c.fold(items[k].sku) == f;
    assert forall k :: 0 <= k < |items| ==> c.fold(items[k].sku) == Text.Folded(c.fold, skus)[k];
  }

  /**
   * After a snapshot the active keys are exactly the requested ones if and only if every active row that
   * a later row with its key hides has a requested key.
   */
  lemma SnapshotExactly(c: Channel, rows: seq<Sku>, skus: seq<string>, createMissing: bool, now: int)
    requires DistinctItems(c, ActiveItems(skus))
    ensures var after := Synced(c, rows, SnapshotRequest(skus, createMissing), now);
      (forall f :: ActiveKey(c, after, f) <==> (f in Text.Folded(c.fold, skus) && (createMissing || Known(c, rows, f))))
      <==> (forall i ::
        0 <= i < |rows| && !Kept(c, rows, i) && Active(rows[i]) ==> c.fold(rows[i].sku) in Text.Folded(c.fold, skus))
  {
    var q := SnapshotRequest(skus, createMissing);
    forall f ensures Target(c, rows, q, f) <==> f in Text.Folded(c.fold, skus) && (createMissing || Known(c, rows, f)) {
      SnapshotTarget(c, rows, skus, createMissing, f);
    }
    ActiveSetExactly(c, rows, q, now);
    forall i | 0 <= i < |rows| ensures Known(c, rows, c.fold(rows[i].sku)) {
      assert Folds(c, rows)[i] == c.fold(rows[i].sku);
    }
    forall i | 0 <= i < |rows|
      ensures Leftover(c, rows, q, i)
        <==> !Kept(c, rows, i) && Active(rows[i]) && c.fold(rows[i].sku) !in Text.Folded(c.fold, skus)
    {
      SnapshotTarget(c, rows, skus, createMissing, c.fold(rows[i].sku));
    }
  }
}
