/** `bulk_sync` and `apply_active_snapshot` of the managed SKU service. */
module SkuCatalogue {
  import opened Prelude
  import Text

  /** `isActive` is None when the column is null; `updatedAt` is the time of the last write of the service. */
  datatype Sku = Sku(sku: string, externalId: Option<string>, isActive: Option<bool>, updatedAt: Option<int>)

  datatype SkuItem = SkuItem(sku: string, active: bool)

  datatype SyncRequest = SyncRequest(items: seq<SkuItem>, deactivateMissing: bool, createMissing: bool)

  /** `same` is the counter `unchanged`. */
  datatype SyncResult = SyncResult(
    received: nat,
    created: nat,
    activated: nat,
    deactivated: nat,
    same: nat,
    missing: seq<string>,
    createdSkus: seq<string>,
    activatedSkus: seq<string>,
    deactivatedSkus: seq<string>)

  datatype SyncError = ConflictError

  /** The comparison of SKUs (casefold) and whether the external id has to equal the SKU. */
  datatype Channel = Channel(fold: string -> string, matchesSku: bool)

  predicate Active(e: Sku) { e.isActive == Some(true) }

  // ---------------------------------------------------------------- one row

  /** `_resolve_external_id` without a requested id. */
  function OwnExternalId(c: Channel, sku: string): Option<string> {
    if c.matchesSku then Some(Text.Strip(sku)) else None
  }

  /** `_sync_external_id`. */
  function SyncExternalId(c: Channel, e: Sku, now: int): Sku {
    if c.matchesSku && e.externalId != OwnExternalId(c, e.sku)
    then e.(externalId := OwnExternalId(c, e.sku), updatedAt := Some(now))
    else e
  }

  function SetActive(e: Sku, active: bool, now: int): Sku {
    if Active(e) == active then e else e.(isActive := Some(active), updatedAt := Some(now))
  }

  function NewRow(c: Channel, item: SkuItem, now: int): Sku {
    Sku(item.sku, OwnExternalId(c, item.sku), Some(item.active), Some(now))
  }

  // ---------------------------------------------------------------- keys

  function Folds(c: Channel, rows: seq<Sku>): (r: seq<string>)
    ensures |r| == |rows| && forall i :: 0 <= i < |rows| ==> r[i] == c.fold(rows[i].sku)
  {
    seq(|rows|, i requires 0 <= i < |rows| => c.fold(rows[i].sku))
  }

  predicate Known(c: Channel, rows: seq<Sku>, f: string) {
    f in Folds(c, rows)
  }

  /** Row `i` is the one the dictionary of the code keeps: no later row folds to the same key. */
  predicate Kept(c: Channel, rows: seq<Sku>, i: nat)
    requires i < |rows|
  {
    forall j :: i < j < |rows| ==> c.fold(rows[j].sku) != c.fold(rows[i].sku)
  }

  ghost predicate DistinctItems(c: Channel, items: seq<SkuItem>) {
    forall i, j :: 0 <= i < j < |items| ==> c.fold(items[i].sku) != c.fold(items[j].sku)
  }

  /** The position of the row the dictionary keeps for the key `f`. */
  function LastIndex(c: Channel, rows: seq<Sku>, f: string): (i: nat)
    requires Known(c, rows, f)
    ensures i < |rows| && c.fold(rows[i].sku) == f && Kept(c, rows, i)
  {
    var n := |rows| - 1;
    if c.fold(rows[n].sku) == f then n
    else
      assert Folds(c, rows) == Folds(c, rows[..n]) + [c.fold(rows[n].sku)];
      var i := LastIndex(c, rows[..n], f);
      assert forall j :: i < j < n ==> rows[..n][j] == rows[j];
      i
  }

  lemma KeptIsLast(c: Channel, rows: seq<Sku>, i: nat)
    requires i < |rows| && Kept(c, rows, i)
    ensures Known(c, rows, c.fold(rows[i].sku)) && LastIndex(c, rows, c.fold(rows[i].sku)) == i
  {
    assert Folds(c, rows)[i] == c.fold(rows[i].sku);
    var l := LastIndex(c, rows, c.fold(rows[i].sku));
  }

  lemma FoldsSnoc(c: Channel, rows: seq<Sku>, e: Sku)
    ensures Folds(c, rows + [e]) == Folds(c, rows) + [c.fold(e.sku)]
  {
  }

  /** One more row takes its key over. */
  lemma LastIndexSnoc(c: Channel, rows: seq<Sku>, e: Sku, g: string)
    requires Known(c, rows + [e], g)
    ensures g == c.fold(e.sku) ==> LastIndex(c, rows + [e], g) == |rows|
    ensures g != c.fold(e.sku) ==> Known(c, rows, g) && LastIndex(c, rows + [e], g) == LastIndex(c, rows, g)
  {
    FoldsSnoc(c, rows, e);
    assert (rows + [e])[..|rows|] == rows;
  }

  // ---------------------------------------------------------------- what the catalogue becomes

  /** What the items say about the key `f`. */
  function Wanted(c: Channel, items: seq<SkuItem>, f: string): (r: Option<bool>)
    ensures r.Some? <==> exists k :: 0 <= k < |items| && c.fold(items[k].sku) == f
  {
    if items == [] then None
    else
      var n := |items| - 1;
      assert items == items[..n] + [items[n]];
      if c.fold(items[n].sku) == f then Some(items[n].active) else Wanted(c, items[..n], f)
  }

  lemma {:induction false} WantedAt(c: Channel, items: seq<SkuItem>, k: nat)
    requires DistinctItems(c, items) && k < |items|
    ensures Wanted(c, items, c.fold(items[k].sku)) == Some(items[k].active)
    decreases |items|
  {
    var n := |items| - 1;
    if k < n {
      assert c.fold(items[k].sku) != c.fold(items[n].sku);
      WantedAt(c, items[..n], k);
    }
  }

  /** What one row becomes; `swept` when the last loop has visited its key. */
  function SyncedRow(c: Channel, rows: seq<Sku>, i: nat, want: Option<bool>, swept: bool, now: int): Sku
    requires i < |rows|
  {
    if !Kept(c, rows, i) then rows[i]
    else if want.Some? then SetActive(SyncExternalId(c, rows[i], now), want.value, now)
    else if swept then SetActive(rows[i], false, now)
    else rows[i]
  }

  /** The existing rows after the items `items` and after the last loop visited `keys`. */
  function SyncedOld(c: Channel, rows: seq<Sku>, items: seq<SkuItem>, keys: seq<string>, now: int): (r: seq<Sku>)
    ensures |r| == |rows|
  {
    seq(|rows|, i requires 0 <= i < |rows| =>
      SyncedRow(c, rows, i, Wanted(c, items, c.fold(rows[i].sku)), c.fold(rows[i].sku) in keys, now))
  }

  lemma NothingSynced(c: Channel, rows: seq<Sku>, now: int)
    ensures SyncedOld(c, rows, [], [], now) == rows
  {
    forall i | 0 <= i < |rows| ensures SyncedOld(c, rows, [], [], now)[i] == rows[i] {
      assert Wanted(c, [], c.fold(rows[i].sku)).None?;
    }
  }

  /** The rows added for the items that no row knows, in the order of the request. */
  function NewRows(c: Channel, rows: seq<Sku>, items: seq<SkuItem>, now: int): seq<Sku> {
    if items == [] then []
    else
      var n := |items| - 1;
      NewRows(c, rows, items[..n], now)
        + if Known(c, rows, c.fold(items[n].sku)) then [] else [NewRow(c, items[n], now)]
  }

  function SweepKeys(c: Channel, rows: seq<Sku>, q: SyncRequest): seq<string> {
    if q.deactivateMissing then Dedupe(Folds(c, rows)) else []
  }

  function Additions(c: Channel, rows: seq<Sku>, q: SyncRequest, now: int): seq<Sku> {
    if q.createMissing then NewRows(c, rows, q.items, now) else []
  }

  /** The catalogue after the request. */
  function Synced(c: Channel, rows: seq<Sku>, q: SyncRequest, now: int): seq<Sku> {
    SyncedOld(c, rows, q.items, SweepKeys(c, rows, q), now) + Additions(c, rows, q, now)
  }

  // ---------------------------------------------------------------- counters and lists

  datatype Kind = Unknown | Same | Activate | Deactivate

  function KindOf(c: Channel, rows: seq<Sku>, item: SkuItem): Kind {
    if !Known(c, rows, c.fold(item.sku)) then Unknown
    else if Active(rows[LastIndex(c, rows, c.fold(item.sku))]) == item.active then Same
    else if item.active then Activate
    else Deactivate
  }

  /** The SKU that is reported for an item: that of the request for unknown items, else that of the row. */
  function Reported(c: Channel, rows: seq<Sku>, item: SkuItem): string {
    if Known(c, rows, c.fold(item.sku)) then rows[LastIndex(c, rows, c.fold(item.sku))].sku else item.sku
  }

  function SkusOf(c: Channel, rows: seq<Sku>, items: seq<SkuItem>, kind: Kind): seq<string> {
    if items == [] then []
    else
      var n := |items| - 1;
      SkusOf(c, rows, items[..n], kind)
        + if KindOf(c, rows, items[n]) == kind then [Reported(c, rows, items[n])] else []
  }

  predicate Sweeps(c: Channel, rows: seq<Sku>, items: seq<SkuItem>, f: string) {
    Wanted(c, items, f).None? && Known(c, rows, f) && Active(rows[LastIndex(c, rows, f)])
  }

  /** The SKUs the last loop deactivates while it visits `keys`. */
  function Swept(c: Channel, rows: seq<Sku>, items: seq<SkuItem>, keys: seq<string>): seq<string> {
    if keys == [] then []
    else
      var n := |keys| - 1;
      Swept(c, rows, items, keys[..n])
      + if Sweeps(c, rows, items, keys[n]) then [rows[LastIndex(c, rows, keys[n])].sku] else []
  }

  /** The answer after `items` and after the last loop visited `keys`. */
  function Answer(c: Channel, rows: seq<Sku>, items: seq<SkuItem>, keys: seq<string>, received: nat,
      create: bool): SyncResult {
    var unknown := SkusOf(c, rows, items, Unknown);
    var activated := SkusOf(c, rows, items, Activate);
    var deactivated := SkusOf(c, rows, items, Deactivate) + Swept(c, rows, items, keys);
    SyncResult(
      received,
      if create then |unknown| else 0,
      |activated|,
      |deactivated|,
      |SkusOf(c, rows, items, Same)|,
      if create then [] else unknown,
      if create then unknown else [],
      activated,
      deactivated)
  }

  function ResultOf(c: Channel, rows: seq<Sku>, q: SyncRequest): SyncResult {
    Answer(c, rows, q.items, SweepKeys(c, rows, q), |q.items|, q.createMissing)
  }

  // ---------------------------------------------------------------- one step of each loop

  function Counted(out: SyncResult, kind: Kind, sku: string, create: bool): SyncResult {
    match kind
    case Unknown =>
      if create then out.(created := out.created + 1, createdSkus := out.createdSkus + [sku])
      else out.(missing := out.missing + [sku])
    case Same => out.(same := out.same + 1)
    case Activate => out.(activated := out.activated + 1, activatedSkus := out.activatedSkus + [sku])
    case Deactivate => out.(deactivated := out.deactivated + 1, deactivatedSkus := out.deactivatedSkus + [sku])
  }

  /** An item changes the one row its key is kept for. */
  lemma ItemStep(c: Channel, rows: seq<Sku>, items: seq<SkuItem>, n: nat, now: int)
    requires DistinctItems(c, items) && n < |items|
    ensures var f := c.fold(items[n].sku);
      var was := SyncedOld(c, rows, items[..n], [], now);
      var next := SyncedOld(c, rows, items[..n + 1], [], now);
      if Known(c, rows, f) then
        (var l := LastIndex(c, rows, f);
         was[l] == rows[l] && next == was[l := SetActive(SyncExternalId(c, rows[l], now), items[n].active, now)])
      else next == was
    ensures NewRows(c, rows, items[..n + 1], now)
      == NewRows(c, rows, items[..n], now)
        + if Known(c, rows, c.fold(items[n].sku)) then [] else [NewRow(c, items[n], now)]
  {
    var f := c.fold(items[n].sku);
    var a, b := items[..n], items[..n + 1];
    assert b[..n] == a;
    assert Wanted(c, a, f).None?;
    assert Wanted(c, b, f) == Some(items[n].active);
    var was, next := SyncedOld(c, rows, a, [], now), SyncedOld(c, rows, b, [], now);
    forall i | 0 <= i < |rows| && !(c.fold(rows[i].sku) == f && Kept(c, rows, i)) ensures next[i] == was[i] {
      assert c.fold(rows[i].sku) != f ==> Wanted(c, b, c.fold(rows[i].sku)) == Wanted(c, a, c.fold(rows[i].sku));
    }
    forall i | 0 <= i < |rows| && c.fold(rows[i].sku) == f && Kept(c, rows, i)
      ensures Known(c, rows, f) && i == LastIndex(c, rows, f)
    {
      KeptIsLast(c, rows, i);
    }
  }

  /** A key changes the one row it is kept for, when no item asked for it and the row is active. */
  lemma SweepStep(c: Channel, rows: seq<Sku>, items: seq<SkuItem>, keys: seq<string>, f: string, now: int)
    ensures var was := SyncedOld(c, rows, items, keys, now);
      var next := SyncedOld(c, rows, items, keys + [f], now);
      if Sweeps(c, rows, items, f) && f !in keys then
        (var l := LastIndex(c, rows, f); was[l] == rows[l] && next == was[l := SetActive(rows[l], false, now)])
      else next == was
    ensures Wanted(c, items, f).None? && Known(c, rows, f) && f !in keys ==>
      SyncedOld(c, rows, items, keys, now)[LastIndex(c, rows, f)] == rows[LastIndex(c, rows, f)]
  {
    var was, next := SyncedOld(c, rows, items, keys, now), SyncedOld(c, rows, items, keys + [f], now);
    forall i | 0 <= i < |rows| && !(c.fold(rows[i].sku) == f && Kept(c, rows, i)) ensures next[i] == was[i] {
      assert c.fold(rows[i].sku) != f ==> (c.fold(rows[i].sku) in keys + [f] <==> c.fold(rows[i].sku) in keys);
    }
    forall i | 0 <= i < |rows| && c.fold(rows[i].sku) == f && Kept(c, rows, i)
      ensures Known(c, rows, f) && i == LastIndex(c, rows, f)
    {
      KeptIsLast(c, rows, i);
    }
  }

  /** The counters and lists move with the kind of each item. */
  lemma AnswerStep(c: Channel, rows: seq<Sku>, items: seq<SkuItem>, n: nat, received: nat, create: bool)
    requires n < |items|
    ensures Answer(c, rows, items[..n + 1], [], received, create)
      == Counted(Answer(c, rows, items[..n], [], received, create), KindOf(c, rows, items[n]),
        Reported(c, rows, items[n]), create)
  {
    ListStep(c, rows, items, n, Unknown);
    ListStep(c, rows, items, n, Same);
    ListStep(c, rows, items, n, Activate);
    ListStep(c, rows, items, n, Deactivate);
    assert Swept(c, rows, items[..n], []) == [] && Swept(c, rows, items[..n + 1], []) == [];
  }

  lemma ListStep(c: Channel, rows: seq<Sku>, items: seq<SkuItem>, n: nat, kind: Kind)
    requires n < |items|
    ensures SkusOf(c, rows, items[..n + 1], kind)
      == if KindOf(c, rows, items[n]) == kind then SkusOf(c, rows, items[..n], kind) + [Reported(c, rows, items[n])]
         else SkusOf(c, rows, items[..n], kind)
  {
    assert items[..n + 1][..n] == items[..n];
  }

  lemma SweepAnswerStep(c: Channel, rows: seq<Sku>, items: seq<SkuItem>, keys: seq<string>, f: string, received: nat,
      create: bool)
    ensures Answer(c, rows, items, keys + [f], received, create)
      == if Sweeps(c, rows, items, f) then
        Counted(Answer(c, rows, items, keys, received, create), Deactivate, rows[LastIndex(c, rows, f)].sku, create)
      else Answer(c, rows, items, keys, received, create)
  {
    assert (keys + [f])[..|keys|] == keys;
    if Sweeps(c, rows, items, f) {
      var front, more := SkusOf(c, rows, items, Deactivate), [rows[LastIndex(c, rows, f)].sku];
      assert (front + Swept(c, rows, items, keys)) + more == front + (Swept(c, rows, items, keys) + more);
    }
  }

  /** The keys of the rows that the request created are never swept. */
  lemma CreatedKeysStay(c: Channel, rows: seq<Sku>, items: seq<SkuItem>, keys: seq<string>, more: seq<string>, now: int)
    requires forall f :: f in more ==> Wanted(c, items, f).Some?
    ensures SyncedOld(c, rows, items, keys + more, now) == SyncedOld(c, rows, items, keys, now)
  {
    var a, b := SyncedOld(c, rows, items, keys + more, now), SyncedOld(c, rows, items, keys, now);
    forall i | 0 <= i < |rows| ensures a[i] == b[i] {
      var f := c.fold(rows[i].sku);
      assert f in keys + more <==> f in keys || f in more;
    }
  }

  lemma {:induction false} CreatedKeysSilent(c: Channel, rows: seq<Sku>, items: seq<SkuItem>, keys: seq<string>,
      more: seq<string>)
    requires forall f :: f in more ==> Wanted(c, items, f).Some?
    ensures Swept(c, rows, items, keys + more) == Swept(c, rows, items, keys)
    decreases |more|
  {
    if more == [] {
      assert keys + more == keys;
    } else {
      var n := |more| - 1;
      CreatedKeysSilent(c, rows, items, keys, more[..n]);
      assert (keys + more)[..|keys| + n] == keys + more[..n];
    }
  }

  lemma UpdateFront(a: seq<Sku>, b: seq<Sku>, l: nat, e: Sku)
    requires l < |a|
    ensures (a + b)[l] == a[l] && (a + b)[l := e] == a[l := e] + b
  {
  }

  // ---------------------------------------------------------------- the service

  /** `index` holds the kept row of every key, `keys` the keys in the order of their first rows. */
  ghost predicate IndexOf(c: Channel, rows: seq<Sku>, index: map<string, nat>, keys: seq<string>) {
    && (forall f :: f in index <==> Known(c, rows, f))
    && (forall f :: f in index ==> index[f] == LastIndex(c, rows, f))
    && keys == Dedupe(Folds(c, rows))
  }

  lemma IndexStep(c: Channel, rows: seq<Sku>, e: Sku, index: map<string, nat>, keys: seq<string>,
                  next: map<string, nat>, more: seq<string>)
    requires IndexOf(c, rows, index, keys)
    requires next == index[c.fold(e.sku) := |rows|]
    requires more == if c.fold(e.sku) in index then keys else keys + [c.fold(e.sku)]
    ensures IndexOf(c, rows + [e], next, more)
  {
    FoldsSnoc(c, rows, e);
    DedupeSnoc(Folds(c, rows), c.fold(e.sku));
    forall g | Known(c, rows + [e], g) ensures next[g] == LastIndex(c, rows + [e], g) {
      LastIndexSnoc(c, rows, e, g);
    }
  }

  class ManagedSkuService {
    const channel: Channel
    var committed: seq<Sku>

    constructor (channel: Channel, rows: seq<Sku>)
      ensures this.channel == channel && committed == rows
    {
      this.channel := channel;
      this.committed := rows;
    }

    /**
     The dictionary comprehension over the rows: of two rows with one key the later one stays, in the place of the
     first.
     */
    method IndexBySku() returns (index: map<string, nat>, keys: seq<string>)
      ensures IndexOf(channel, committed, index, keys)
    {
      index, keys := map[], [];
      var i := 0;
      while i < |committed|
        invariant i <= |committed| && IndexOf(channel, committed[..i], index, keys)
      {
        var f := channel.fold(committed[i].sku);
        assert committed[..i + 1] == committed[..i] + [committed[i]];
        IndexStep(channel, committed[..i], committed[i], index, keys, index[f := i],
          if f in index then keys else keys + [f]);
        if f !in index { keys := keys + [f]; }
        index := index[f := i];
        i := i + 1;
      }
      assert committed[..i] == committed;
    }

    /**
     * `bulk_sync`: the rows change in the session, and reach the table when the commit does.
     * A commit that breaks a constraint of the table is rolled back.
     */
    method BulkSync(q: SyncRequest, dryRun: bool, commitOk: bool, now: int) returns (r: Result<SyncResult, SyncError>)
      requires DistinctItems(channel, q.items)
      modifies this`committed
      ensures committed == if dryRun || !commitOk then old(committed) else Synced(channel, old(committed), q, now)
      ensures r == if dryRun || commitOk then Ok(ResultOf(channel, old(committed), q)) else Err(ConflictError)
    {
      var done, out := Synchronize(q, now);
      if dryRun { return Ok(out); }
      if !commitOk { return Err(ConflictError); }
      committed := done;
      return Ok(out);
    }

    /** The loops of `bulk_sync`. */
    method Synchronize(q: SyncRequest, now: int) returns (session: seq<Sku>, out: SyncResult)
      requires DistinctItems(channel, q.items)
      ensures session == Synced(channel, committed, q, now) && out == ResultOf(channel, committed, q)
    {
      var index, keys := IndexBySku();
      var w := Work(committed, index, keys, SyncResult(|q.items|, 0, 0, 0, 0, [], [], [], []));
      ghost var rows := committed;
      NothingDone(channel, rows, q, index, now);
      var k := 0;
      while k < |q.items|
        invariant k <= |q.items| && ItemsDone(channel, rows, q, k, w, now)
      {
        w := SyncItem(channel, rows, q, k, w, now);
        k := k + 1;
      }
      if q.deactivateMissing {
        w := SweepAll(channel, rows, q, w, now);
      } else {
        AllItemsDone(channel, rows, q, w, now);
      }
      return w.session, w.out;
    }

    /** The body of the loop over the items. */
    static method SyncItem(channel: Channel, ghost rows: seq<Sku>, q: SyncRequest, k: nat, before: Work, now: int)
      returns (w: Work)
      requires DistinctItems(channel, q.items) && k < |q.items|
      requires ItemsDone(channel, rows, q, k, before, now)
      ensures ItemsDone(channel, rows, q, k + 1, w, now)
    {
      var item := q.items[k];
      var f := channel.fold(item.sku);
      var out := before.out;
      if f !in before.index {
        UnknownItem(channel, rows, q, k, before, now);
        if q.createMissing {
          w := Work(
            before.session + [NewRow(channel, item, now)], before.index[f := |before.session|], before.keys + [f],
            out.(created := out.created + 1, createdSkus := out.createdSkus + [item.sku]));
        } else {
          w := before.(out := out.(missing := out.missing + [item.sku]));
        }
      } else {
        KnownItemIndex(channel, rows, q, k, before, now);
        KnownItem(channel, rows, q, k, before, now);
        var l := before.index[f];
        var e := SyncExternalId(channel, before.session[l], now);
        if Active(e) == item.active {
          out := out.(same := out.same + 1);
        } else {
          e := e.(isActive := Some(item.active), updatedAt := Some(now));
          if item.active {
            out := out.(activated := out.activated + 1, activatedSkus := out.activatedSkus + [e.sku]);
          } else {
            out := out.(deactivated := out.deactivated + 1, deactivatedSkus := out.deactivatedSkus + [e.sku]);
          }
        }
        w := before.(session := before.session[l := e], out := out);
      }
    }

    /** The body of the last loop. */
    static method SweepKey(channel: Channel, ghost rows: seq<Sku>, q: SyncRequest, before: Work, received: set<string>,
        m: nat, now: int)
      returns (w: Work)
      requires m < |before.keys| && SweepDone(channel, rows, q, before, m, now)
      requires IndexDone(channel, rows, q.items, before.index, before.keys)
      requires before.keys[m] in received <==> Wanted(channel, q.items, before.keys[m]).Some?
      ensures w.keys == before.keys && w.index == before.index && SweepDone(channel, rows, q, w, m + 1, now)
    {
      w := before;
      var f := before.keys[m];
      if f in received {
        SweepReceived(channel, rows, q, before, m, now);
      } else {
        SweepIndex(channel, rows, q, before, m, now);
        w := SwitchOff(before, before.index[f], now);
        SweepMissing(channel, rows, q, before, m, now, w);
      }
    }

    static method SwitchOff(before: Work, l: nat, now: int) returns (w: Work)
      requires l < |before.session|
      ensures w.keys == before.keys && w.index == before.index
      ensures if Active(before.session[l]) then
          w.session == before.session[l := SetActive(before.session[l], false, now)]
          && w.out == Counted(before.out, Deactivate, before.session[l].sku, false)
        else w == before
    {
      w := before;
      if Active(before.session[l]) {
        var e, out := before.session[l].(isActive := Some(false), updatedAt := Some(now)), before.out;
        out := out.(deactivated := out.deactivated + 1, deactivatedSkus := out.deactivatedSkus + [e.sku]);
        w := before.(session := before.session[l := e], out := out);
      }
    }

    /** The last loop: deactivates the rows whose key was not received. */
    static method SweepAll(channel: Channel, ghost rows: seq<Sku>, q: SyncRequest, before: Work, now: int)
      returns (w: Work)
      requires DistinctItems(channel, q.items) && q.deactivateMissing
      requires ItemsDone(channel, rows, q, |q.items|, before, now)
      ensures w.session == Synced(channel, rows, q, now) && w.out == ResultOf(channel, rows, q)
    {
      w := before;
      var received := set k | 0 <= k < |q.items| :: channel.fold(q.items[k].sku);
      SweepStart(channel, rows, q, w, now);
      var m := 0;
      while m < |w.keys|
        invariant m <= |w.keys| && SweepDone(channel, rows, q, w, m, now)
        invariant w.keys == before.keys && w.index == before.index
      {
        w := SweepKey(channel, rows, q, w, received, m, now);
        m := m + 1;
      }
      SweepEnd(channel, rows, q, w, now);
    }
  }

  // ---------------------------------------------------------------- invariants of the loops

  /** The locals of `bulk_sync`: the rows of the session, the dictionary with its key order, the result. */
  datatype Work = Work(session: seq<Sku>, index: map<string, nat>, keys: seq<string>, out: SyncResult)

  function NewSoFar(c: Channel, rows: seq<Sku>, q: SyncRequest, k: nat, now: int): seq<Sku>
    requires k <= |q.items|
  {
    if q.createMissing then NewRows(c, rows, q.items[..k], now) else []
  }

  /** The dictionary holds the rows and the created keys `extra`. */
  ghost predicate Indexed(c: Channel, rows: seq<Sku>, items: seq<SkuItem>, index: map<string, nat>, keys: seq<string>,
      extra: seq<string>) {
    && (forall f :: Known(c, rows, f) ==> f in index && index[f] == LastIndex(c, rows, f))
    && (forall f :: f in index && !Known(c, rows, f) ==> f in extra)
    && (forall f :: f in extra ==> Wanted(c, items, f).Some?)
    && keys == Dedupe(Folds(c, rows)) + extra
    && Distinct(keys)
    && (forall f :: f in keys <==> f in index)
  }

  ghost predicate IndexDone(c: Channel, rows: seq<Sku>, items: seq<SkuItem>, index: map<string, nat>,
      keys: seq<string>) {
    exists extra :: Indexed(c, rows, items, index, keys, extra)
  }

  ghost predicate ItemsDone(c: Channel, rows: seq<Sku>, q: SyncRequest, k: nat, w: Work, now: int)
    requires k <= |q.items|
  {
    && w.session == SyncedOld(c, rows, q.items[..k], [], now) + NewSoFar(c, rows, q, k, now)
    && w.out == Answer(c, rows, q.items[..k], [], |q.items|, q.createMissing)
    && IndexDone(c, rows, q.items[..k], w.index, w.keys)
  }

  function SweptRows(c: Channel, rows: seq<Sku>, q: SyncRequest, keys: seq<string>, now: int): seq<Sku> {
    SyncedOld(c, rows, q.items, keys, now) + Additions(c, rows, q, now)
  }

  /** One more key changes at most the row it is kept for. */
  lemma SweptRowsStep(c: Channel, rows: seq<Sku>, q: SyncRequest, keys: seq<string>, f: string, now: int)
    ensures |rows| <= |SweptRows(c, rows, q, keys, now)|
    ensures SweptRows(c, rows, q, keys + [f], now)
      == if Sweeps(c, rows, q.items, f) && f !in keys then
        SweptRows(c, rows, q, keys, now)[LastIndex(c, rows, f) := SetActive(rows[LastIndex(c, rows, f)], false, now)]
      else SweptRows(c, rows, q, keys, now)
    ensures Wanted(c, q.items, f).None? && Known(c, rows, f) && f !in keys ==>
      SweptRows(c, rows, q, keys, now)[LastIndex(c, rows, f)] == rows[LastIndex(c, rows, f)]
  {
    SweepStep(c, rows, q.items, keys, f, now);
    if Known(c, rows, f) {
      var l := LastIndex(c, rows, f);
      UpdateFront(SyncedOld(c, rows, q.items, keys, now), Additions(c, rows, q, now), l,
        SetActive(rows[l], false, now));
    }
  }

  ghost predicate SweepDone(c: Channel, rows: seq<Sku>, q: SyncRequest, w: Work, m: nat, now: int)
    requires m <= |w.keys|
  {
    && w.session == SweptRows(c, rows, q, w.keys[..m], now)
    && w.out == Answer(c, rows, q.items, w.keys[..m], |q.items|, q.createMissing)
  }

  lemma NothingDone(c: Channel, rows: seq<Sku>, q: SyncRequest, index: map<string, nat>, now: int)
    requires IndexOf(c, rows, index, Dedupe(Folds(c, rows)))
    ensures ItemsDone(c, rows, q, 0,
      Work(rows, index, Dedupe(Folds(c, rows)), SyncResult(|q.items|, 0, 0, 0, 0, [], [], [], [])), now)
  {
    assert q.items[..0] == [];
    NothingIndexed(c, rows, index);
    NothingSynced(c, rows, now);
    assert NewSoFar(c, rows, q, 0, now) == [];
  }

  lemma NothingIndexed(c: Channel, rows: seq<Sku>, index: map<string, nat>)
    requires IndexOf(c, rows, index, Dedupe(Folds(c, rows)))
    ensures Indexed(c, rows, [], index, Dedupe(Folds(c, rows)), [])
  {
    DedupeIsDistinct(Folds(c, rows));
    assert Dedupe(Folds(c, rows)) + [] == Dedupe(Folds(c, rows));
  }

  /** An item that creates no row leaves the dictionary as it is. */
  lemma IndexKeeps(c: Channel, rows: seq<Sku>, items: seq<SkuItem>, k: nat, index: map<string, nat>, keys: seq<string>)
    requires k < |items| && IndexDone(c, rows, items[..k], index, keys)
    ensures IndexDone(c, rows, items[..k + 1], index, keys)
  {
    var extra :| Indexed(c, rows, items[..k], index, keys, extra);
    WantedGrows(c, items, k);
    assert Indexed(c, rows, items[..k + 1], index, keys, extra);
  }

  lemma WantedGrows(c: Channel, items: seq<SkuItem>, k: nat)
    requires k < |items|
    ensures forall f :: Wanted(c, items[..k], f).Some? ==> Wanted(c, items[..k + 1], f).Some?
    ensures Wanted(c, items[..k + 1], c.fold(items[k].sku)).Some?
  {
    assert items[..k + 1][..k] == items[..k];
  }

  /** An item that creates a row adds its key. */
  lemma IndexGrows(c: Channel, rows: seq<Sku>, items: seq<SkuItem>, k: nat, index: map<string, nat>, keys: seq<string>,
      at: nat)
    requires k < |items| && IndexDone(c, rows, items[..k], index, keys)
    requires c.fold(items[k].sku) !in index
    ensures IndexDone(c, rows, items[..k + 1], index[c.fold(items[k].sku) := at], keys + [c.fold(items[k].sku)])
  {
    var f := c.fold(items[k].sku);
    var extra :| Indexed(c, rows, items[..k], index, keys, extra);
    WantedGrows(c, items, k);
    assert Indexed(c, rows, items[..k + 1], index[f := at], keys + [f], extra + [f]);
  }

  /** An item whose key is not in the dictionary. */
  lemma UnknownItem(c: Channel, rows: seq<Sku>, q: SyncRequest, k: nat, w: Work, now: int)
    requires DistinctItems(c, q.items) && k < |q.items| && ItemsDone(c, rows, q, k, w, now)
    requires c.fold(q.items[k].sku) !in w.index
    ensures var f := c.fold(q.items[k].sku);
      var next := if q.createMissing then
        Work(w.session + [NewRow(c, q.items[k], now)], w.index[f := |w.session|], w.keys + [f],
          Counted(w.out, Unknown, q.items[k].sku, true))
      else w.(out := Counted(w.out, Unknown, q.items[k].sku, false));
      ItemsDone(c, rows, q, k + 1, next, now)
  {
    ItemStep(c, rows, q.items, k, now);
    AnswerStep(c, rows, q.items, k, |q.items|, q.createMissing);
    if q.createMissing {
      IndexGrows(c, rows, q.items, k, w.index, w.keys, |w.session|);
    } else {
      IndexKeeps(c, rows, q.items, k, w.index, w.keys);
    }
  }

  /** An item whose key is in the dictionary finds an existing row that nothing has changed yet. */
  lemma KnownItemIndex(c: Channel, rows: seq<Sku>, q: SyncRequest, k: nat, w: Work, now: int)
    requires DistinctItems(c, q.items) && k < |q.items| && ItemsDone(c, rows, q, k, w, now)
    requires c.fold(q.items[k].sku) in w.index
    ensures var f := c.fold(q.items[k].sku);
      && Known(c, rows, f)
      && w.index[f] == LastIndex(c, rows, f)
      && |rows| <= |w.session|
      && w.session[w.index[f]] == rows[w.index[f]]
  {
    assert Wanted(c, q.items[..k], c.fold(q.items[k].sku)).None?;
    ItemStep(c, rows, q.items, k, now);
  }

  lemma KnownItem(c: Channel, rows: seq<Sku>, q: SyncRequest, k: nat, w: Work, now: int)
    requires DistinctItems(c, q.items) && k < |q.items| && ItemsDone(c, rows, q, k, w, now)
    requires Known(c, rows, c.fold(q.items[k].sku)) && |rows| <= |w.session|
    ensures var l := LastIndex(c, rows, c.fold(q.items[k].sku));
      var e := SetActive(SyncExternalId(c, rows[l], now), q.items[k].active, now);
      ItemsDone(c, rows, q, k + 1,
        w.(session := w.session[l := e],
          out := Counted(w.out, KindOf(c, rows, q.items[k]), rows[l].sku, q.createMissing)), now)
  {
    IndexKeeps(c, rows, q.items, k, w.index, w.keys);
    ItemStep(c, rows, q.items, k, now);
    AnswerStep(c, rows, q.items, k, |q.items|, q.createMissing);
    var l := LastIndex(c, rows, c.fold(q.items[k].sku));
    UpdateFront(SyncedOld(c, rows, q.items[..k], [], now), NewSoFar(c, rows, q, k, now), l,
      SetActive(SyncExternalId(c, rows[l], now), q.items[k].active, now));
  }

  lemma AllItemsDone(c: Channel, rows: seq<Sku>, q: SyncRequest, w: Work, now: int)
    requires ItemsDone(c, rows, q, |q.items|, w, now) && !q.deactivateMissing
    ensures w.session == Synced(c, rows, q, now) && w.out == ResultOf(c, rows, q)
  {
    assert q.items[..|q.items|] == q.items;
  }

  lemma SweepStart(c: Channel, rows: seq<Sku>, q: SyncRequest, w: Work, now: int)
    requires ItemsDone(c, rows, q, |q.items|, w, now)
    ensures SweepDone(c, rows, q, w, 0, now) && IndexDone(c, rows, q.items, w.index, w.keys)
  {
    assert q.items[..|q.items|] == q.items;
    assert w.keys[..0] == [];
  }

  lemma SweepReceived(c: Channel, rows: seq<Sku>, q: SyncRequest, w: Work, m: nat, now: int)
    requires m < |w.keys| && SweepDone(c, rows, q, w, m, now) && Wanted(c, q.items, w.keys[m]).Some?
    ensures SweepDone(c, rows, q, w, m + 1, now)
  {
    var f, keys := w.keys[m], w.keys[..m];
    assert w.keys[..m + 1] == keys + [f];
    SweptRowsStep(c, rows, q, keys, f, now);
    SweepAnswerStep(c, rows, q.items, keys, f, |q.items|, q.createMissing);
  }

  lemma UnreceivedKey(c: Channel, rows: seq<Sku>, items: seq<SkuItem>, index: map<string, nat>, keys: seq<string>,
      m: nat)
    requires m < |keys| && IndexDone(c, rows, items, index, keys) && Wanted(c, items, keys[m]).None?
    ensures Known(c, rows, keys[m]) && keys[m] in index && index[keys[m]] == LastIndex(c, rows, keys[m])
    ensures keys[m] !in keys[..m]
  {
    var extra :| Indexed(c, rows, items, index, keys, extra);
    assert keys[m] in keys;
  }

  /** A key that was not received belongs to an existing row that nothing has changed yet. */
  lemma SweepIndex(c: Channel, rows: seq<Sku>, q: SyncRequest, w: Work, m: nat, now: int)
    requires m < |w.keys| && SweepDone(c, rows, q, w, m, now) && Wanted(c, q.items, w.keys[m]).None?
    requires IndexDone(c, rows, q.items, w.index, w.keys)
    ensures var f := w.keys[m];
      && Known(c, rows, f)
      && f in w.index
      && w.index[f] == LastIndex(c, rows, f)
      && |rows| <= |w.session|
      && w.session[w.index[f]] == rows[w.index[f]]
      && f !in w.keys[..m]
  {
    UnreceivedKey(c, rows, q.items, w.index, w.keys, m);
    SweptRowsStep(c, rows, q, w.keys[..m], w.keys[m], now);
  }

  lemma SweepMissing(c: Channel, rows: seq<Sku>, q: SyncRequest, w: Work, m: nat, now: int, next: Work)
    requires m < |w.keys| && SweepDone(c, rows, q, w, m, now) && Wanted(c, q.items, w.keys[m]).None?
    requires Known(c, rows, w.keys[m]) && |rows| <= |w.session| && w.keys[m] !in w.keys[..m]
    requires next.keys == w.keys
    requires var l := LastIndex(c, rows, w.keys[m]);
      if Active(rows[l]) then
        next.session == w.session[l := SetActive(rows[l], false, now)]
          && next.out == Counted(w.out, Deactivate, rows[l].sku, q.createMissing)
      else next == w
    ensures SweepDone(c, rows, q, next, m + 1, now)
  {
    var f, keys := w.keys[m], w.keys[..m];
    assert next.keys[..m + 1] == keys + [f];
    SweptRowsStep(c, rows, q, keys, f, now);
    SweepAnswerStep(c, rows, q.items, keys, f, |q.items|, q.createMissing);
  }

  lemma SweepEnd(c: Channel, rows: seq<Sku>, q: SyncRequest, w: Work, now: int)
    requires q.deactivateMissing && SweepDone(c, rows, q, w, |w.keys|, now)
    requires IndexDone(c, rows, q.items, w.index, w.keys)
    ensures w.session == Synced(c, rows, q, now) && w.out == ResultOf(c, rows, q)
  {
    assert w.keys[..|w.keys|] == w.keys;
    var extra :| Indexed(c, rows, q.items, w.index, w.keys, extra);
    CreatedKeysStay(c, rows, q.items, Dedupe(Folds(c, rows)), extra, now);
    CreatedKeysSilent(c, rows, q.items, Dedupe(Folds(c, rows)), extra);
  }
}
