/** `_process_managed` and `_process_promotions`: a sheet is read and, without errors, applied. */
module SkuImport {
  import opened Prelude
  import opened ExcelReader
  import SkuCatalogue
  import SkuSnapshot
  import Promotions
  import Text

  datatype Response<R> =
    | WrongMode
    | BadFile
    | FileChanged(received: nat)
    | Issues(received: nat, errors: seq<Issue>)
    | Conflict
    | Applied(received: nat, result: R)

  /** The request a clean sheet stands for. */
  function RequestOf(rows: seq<ImportRow>, mode: Mode, createMissing: bool): SkuCatalogue.SyncRequest {
    if mode == ActiveSnapshot then SkuSnapshot.SnapshotRequest(SkusOf(rows), createMissing)
    else SkuCatalogue.SyncRequest(ItemsOf(rows), false, createMissing)
  }

  /** What stops an import before the catalogue is read. */
  function Obstacle<R>(fold: Fold, sheet: seq<Line>, mode: Mode, sameFile: bool): Option<Response<R>> {
    match Sheet(fold, sheet, mode)
    case Err(_) => Some(BadFile)
    case Ok(p) =>
      if !sameFile then Some(FileChanged(p.received))
      else if p.errors != [] then Some(Issues(p.received, p.errors))
      else None
  }

  function CleanRowsOf(fold: Fold, sheet: seq<Line>, mode: Mode): seq<ImportRow> {
    match Sheet(fold, sheet, mode)
    case Err(_) => []
    case Ok(p) => p.rows
  }

  /** A sheet that nothing stops was read without errors and its rows are the received lines. */
  lemma NoObstacle<R(!new)>(c: SkuCatalogue.Channel, sheet: seq<Line>, mode: Mode, sameFile: bool)
    requires Obstacle<R>(c.fold, sheet, mode, sameFile).None?
    ensures sheet != [] && Sheet(c.fold, sheet, mode) == Ok(Read(FormatOf(c.fold, sheet[0], mode), sheet[1..]))
    ensures var p := Sheet(c.fold, sheet, mode).value;
      && p.errors == []
      && p.received == |p.rows|
      && SkuSnapshot.SnapshotSkus(c, SkusOf(p.rows)) == Ok(SkusOf(p.rows))
      && SkuSnapshot.BulkItems(c, ItemsOf(p.rows)) == Ok(ItemsOf(p.rows))
      && SkuCatalogue.DistinctItems(c, ItemsOf(p.rows))
  {
    CleanRows(FormatOf(c.fold, sheet[0], mode), sheet[1..]);
    CleanSheetIsAccepted(c, FormatOf(c.fold, sheet[0], mode), sheet[1..]);
  }

  /**
   * Preview (`dryRun`) and import of a managed catalogue. The schemas never refuse what the reader accepts:
   * there is no answer for that case.
   */
  method ProcessManaged(
    service: SkuCatalogue.ManagedSkuService, sheet: seq<Line>, mode: Mode, sameFile: bool,
    createMissing: bool, dryRun: bool, commitOk: bool, now: int) returns (r: Response<SkuCatalogue.SyncResult>)
    modifies service`committed
    ensures mode == PromotionSnapshot ==> r == WrongMode && service.committed == old(service.committed)
    ensures mode != PromotionSnapshot ==>
      var stop := Obstacle(service.channel.fold, sheet, mode, sameFile);
      var rows := CleanRowsOf(service.channel.fold, sheet, mode);
      var q := RequestOf(rows, mode, createMissing);
      if stop.Some? then r == stop.value && service.committed == old(service.committed)
      else
        && r == (if dryRun || commitOk
             then Applied(|rows|, SkuCatalogue.ResultOf(service.channel, old(service.committed), q)) else Conflict)
        && service.committed == if dryRun || !commitOk
             then old(service.committed) else SkuCatalogue.Synced(service.channel, old(service.committed), q, now)
  {
    if mode == PromotionSnapshot { return WrongMode; }
    var file := ParseSkuWorkbook(service.channel.fold, sheet, mode);
    if file.Err? { return BadFile; }
    var parsed := file.value;
    if !sameFile { return FileChanged(parsed.received); }
    if |parsed.errors| > 0 { return Issues(parsed.received, parsed.errors); }
    NoObstacle<SkuCatalogue.SyncResult>(service.channel, sheet, mode, sameFile);
    if mode == ActiveSnapshot {
      var answer := SkuSnapshot.ApplyActiveSnapshot(service, SkusOf(parsed.rows), createMissing, dryRun, commitOk, now);
      match answer {
        case Ok(result) => r := Applied(parsed.received, result);
        case Err(_) => r := Conflict;
      }
    } else {
      var items := SkuSnapshot.BulkItems(service.channel, ItemsOf(parsed.rows));
      var answer := service.BulkSync(SkuCatalogue.SyncRequest(items.value, false, createMissing), dryRun, commitOk,
        now);
      match answer {
        case Ok(result) => r := Applied(parsed.received, result);
        case Err(_) => r := Conflict;
      }
    }
  }

  /** Preview and import of the promotion table. */
  method ProcessPromotions(service: Promotions.PromoSkuService, sheet: seq<Line>, sameFile: bool, dryRun: bool,
      commitOk: bool)
    returns (r: Response<Promotions.PromoResult>)
    modifies service`rows
    ensures var stop := Obstacle(service.fold, sheet, PromotionSnapshot, sameFile);
      var skus := SkusOf(CleanRowsOf(service.fold, sheet, PromotionSnapshot));
      var kept := dryRun || Promotions.Missing(service.fold, skus, service.parents) != [];
      if stop.Some? then r == stop.value && service.rows == old(service.rows)
      else
        && r == (if kept || commitOk
             then Applied(|skus|, Promotions.Outcome(service.fold, old(service.rows), skus, service.parents))
             else Conflict)
        && service.rows == if kept || !commitOk
             then old(service.rows) else Promotions.Applied(service.fold, old(service.rows), skus, service.parents)
  {
    var file := ParseSkuWorkbook(service.fold, sheet, PromotionSnapshot);
    if file.Err? { return BadFile; }
    var parsed := file.value;
    if !sameFile { return FileChanged(parsed.received); }
    if |parsed.errors| > 0 { return Issues(parsed.received, parsed.errors); }
    NoObstacle<Promotions.PromoResult>(SkuCatalogue.Channel(service.fold, false), sheet, PromotionSnapshot, sameFile);
    var answer := service.SyncSnapshot(SkusOf(parsed.rows), dryRun, commitOk);
    match answer {
      case Ok(result) => r := Applied(parsed.received, result);
      case Err(_) => r := Conflict;
    }
  }

  // ---------------------------------------------------------------- what a sheet does to the catalogue

  /** The line has data and its SKU has the key. */
  ghost predicate Names(f: Format, line: Line, key: string) {
    HasData(line) && f.sku < |line| && exists sku :: Gives(line[f.sku], sku) && f.fold(sku) == key
  }

  /** Line `line` asks for an active SKU: always in a snapshot, in a status update when its status cell says so. */
  ghost predicate AsksActive(f: Format, line: Line) {
    f.mode == StatusUpdate ==> f.active < |line| && SaysOn(f.fold, line[f.active])
  }

  lemma GivesOne(v: Cell, sku: string, other: string)
    requires Gives(v, sku) && Gives(v, other)
    ensures sku == other
  {
    NormalizeGives(v, sku);
    NormalizeGives(v, other);
  }

  lemma RowAsks(f: Format, line: Line, row: ImportRow)
    requires RowSays(f, line, row)
    ensures row.active == Some(true) <==> f.mode == StatusUpdate && AsksActive(f, line)
  {
    if f.active < |line| { ActiveReads(f.fold, line[f.active]); }
  }

  ghost predicate Imports(c: SkuCatalogue.Channel, sheet: seq<Line>, mode: Mode) {
    && mode != PromotionSnapshot
    && Obstacle<SkuCatalogue.SyncResult>(c.fold, sheet, mode, true).None?
  }

  /** What an imported sheet holds: rows read without error, whose items have different keys. */
  lemma ImportedRows(c: SkuCatalogue.Channel, sheet: seq<Line>, mode: Mode, create: bool)
    requires Imports(c, sheet, mode)
    ensures sheet != [] && Read(FormatOf(c.fold, sheet[0], mode), sheet[1..]).errors == []
    ensures CleanRowsOf(c.fold, sheet, mode) == Read(FormatOf(c.fold, sheet[0], mode), sheet[1..]).rows
    ensures SkuCatalogue.DistinctItems(c, RequestOf(CleanRowsOf(c.fold, sheet, mode), mode, create).items)
  {
    NoObstacle<SkuCatalogue.SyncResult>(c, sheet, mode, true);
    SkuSnapshot.SnapshotIsBulk(c, SkusOf(CleanRowsOf(c.fold, sheet, mode)));
  }

  lemma ItemAt(rows: seq<ImportRow>, mode: Mode, create: bool, k: nat)
    requires k < |rows|
    ensures var items := RequestOf(rows, mode, create).items;
      |items| == |rows|
      && items[k] == SkuCatalogue.SkuItem(rows[k].sku, mode == ActiveSnapshot || rows[k].active == Some(true))
  {
  }

  lemma RowIsItem(c: SkuCatalogue.Channel, f: Format, line: Line, rows: seq<ImportRow>, create: bool, k: nat,
      key: string)
    requires f.fold == c.fold && f.mode != PromotionSnapshot && k < |rows| && RowSays(f, line, rows[k])
    requires Names(f, line, key) && SkuCatalogue.DistinctItems(c, RequestOf(rows, f.mode, create).items)
    ensures SkuCatalogue.Wanted(c, RequestOf(rows, f.mode, create).items, key) == Some(AsksActive(f, line))
  {
    var sku :| Gives(line[f.sku], sku) && f.fold(sku) == key;
    GivesOne(line[f.sku], sku, rows[k].sku);
    RowAsks(f, line, rows[k]);
    ItemAt(rows, f.mode, create, k);
    SkuCatalogue.WantedAt(c, RequestOf(rows, f.mode, create).items, k);
  }

  lemma LineWanted(c: SkuCatalogue.Channel, f: Format, data: seq<Line>, create: bool, i: nat, key: string)
    requires f.fold == c.fold && f.mode != PromotionSnapshot && i < |data| && Names(f, data[i], key)
    requires Read(f, data).errors == []
    requires SkuCatalogue.DistinctItems(c, RequestOf(Read(f, data).rows, f.mode, create).items)
    ensures SkuCatalogue.Wanted(c, RequestOf(Read(f, data).rows, f.mode, create).items, key)
      == Some(AsksActive(f, data[i]))
  {
    LineGivesRow(f, data, i);
    RowIsItem(c, f, data[i], Read(f, data).rows, create, Count(data, i), key);
  }

  lemma SheetLineWanted(c: SkuCatalogue.Channel, f: Format, sheet: seq<Line>, rows: seq<ImportRow>, create: bool,
      i: nat, key: string)
    requires f.fold == c.fold && f.mode != PromotionSnapshot && 1 <= i < |sheet| && Names(f, sheet[i], key)
    requires Read(f, sheet[1..]).errors == [] && rows == Read(f, sheet[1..]).rows
    requires SkuCatalogue.DistinctItems(c, RequestOf(rows, f.mode, create).items)
    ensures SkuCatalogue.Wanted(c, RequestOf(rows, f.mode, create).items, key) == Some(AsksActive(f, sheet[i]))
  {
    assert sheet[1..][i - 1] == sheet[i];
    LineWanted(c, f, sheet[1..], create, i - 1, key);
  }

  /** What the request wants for a key that a line names is what the line asks for. */
  lemma LineIsItem(c: SkuCatalogue.Channel, sheet: seq<Line>, mode: Mode, create: bool, i: nat, key: string)
    requires Imports(c, sheet, mode) && 1 <= i < |sheet| && Names(FormatOf(c.fold, sheet[0], mode), sheet[i], key)
    ensures SkuCatalogue.DistinctItems(c, RequestOf(CleanRowsOf(c.fold, sheet, mode), mode, create).items)
    ensures SkuCatalogue.Wanted(c, RequestOf(CleanRowsOf(c.fold, sheet, mode), mode, create).items, key)
      == Some(AsksActive(FormatOf(c.fold, sheet[0], mode), sheet[i]))
  {
    ImportedRows(c, sheet, mode, create);
    SheetLineWanted(c, FormatOf(c.fold, sheet[0], mode), sheet, CleanRowsOf(c.fold, sheet, mode), create, i, key);
  }

  lemma ItemIsRow(c: SkuCatalogue.Channel, rows: seq<ImportRow>, mode: Mode, create: bool, key: string)
    requires SkuCatalogue.Wanted(c, RequestOf(rows, mode, create).items, key).Some?
    ensures exists k :: 0 <= k < |rows| && c.fold(rows[k].sku) == key
  {
    var items := RequestOf(rows, mode, create).items;
    var k :| 0 <= k < |items| && c.fold(items[k].sku) == key;
    ItemAt(rows, mode, create, k);
  }

  lemma RowNames(f: Format, data: seq<Line>, k: nat, key: string)
    requires k < |RowsOf(f, data, |data|)| && f.fold(RowsOf(f, data, |data|)[k].sku) == key
    ensures exists i :: 0 <= i < |data| && Names(f, data[i], key)
  {
    LineOfRow(f, data, |data|, k);
    var row := RowsOf(f, data, |data|)[k];
    var i :| 0 <= i < |data| && HasData(data[i]) && RowSays(f, data[i], row);
    assert Gives(data[i][f.sku], row.sku);
    assert Names(f, data[i], key);
  }

  lemma ItemIsLine(c: SkuCatalogue.Channel, sheet: seq<Line>, mode: Mode, create: bool, key: string)
    requires Imports(c, sheet, mode)
    requires SkuCatalogue.Wanted(c, RequestOf(CleanRowsOf(c.fold, sheet, mode), mode, create).items, key).Some?
    ensures exists i :: 1 <= i < |sheet| && Names(FormatOf(c.fold, sheet[0], mode), sheet[i], key)
  {
    var f, data := FormatOf(c.fold, sheet[0], mode), sheet[1..];
    ImportedRows(c, sheet, mode, create);
    var rows := Read(f, data).rows;
    ItemIsRow(c, rows, mode, create, key);
    var k :| 0 <= k < |rows| && c.fold(rows[k].sku) == key;
    RowNames(f, data, k, key);
    var i :| 0 <= i < |data| && Names(f, data[i], key);
    assert data[i] == sheet[i + 1];
  }

  /** A row whose key a line of the imported sheet names is switched to what the line asks for. */
  lemma SheetSwitches(c: SkuCatalogue.Channel, rows: seq<SkuCatalogue.Sku>, sheet: seq<Line>, mode: Mode, create: bool,
      now: int, i: nat, l: nat)
    requires Imports(c, sheet, mode) && 1 <= i < |sheet| && l < |rows| && SkuCatalogue.Kept(c, rows, l)
    requires Names(FormatOf(c.fold, sheet[0], mode), sheet[i], c.fold(rows[l].sku))
    ensures var after := SkuCatalogue.Synced(c, rows, RequestOf(CleanRowsOf(c.fold, sheet, mode), mode, create), now);
      && |rows| <= |after|
      && (SkuCatalogue.Active(after[l]) <==> AsksActive(FormatOf(c.fold, sheet[0], mode), sheet[i]))
  {
    LineIsItem(c, sheet, mode, create, i, c.fold(rows[l].sku));
    SkuSnapshot.SyncedShape(c, rows, RequestOf(CleanRowsOf(c.fold, sheet, mode), mode, create), now);
  }

  /** A row that no line names is left alone by a status update and switched off by a snapshot. */
  lemma SheetLeaves(c: SkuCatalogue.Channel, rows: seq<SkuCatalogue.Sku>, sheet: seq<Line>, mode: Mode, create: bool,
      now: int, l: nat)
    requires Imports(c, sheet, mode) && l < |rows|
    requires forall i :: 1 <= i < |sheet| ==> !Names(FormatOf(c.fold, sheet[0], mode), sheet[i], c.fold(rows[l].sku))
    ensures var after := SkuCatalogue.Synced(c, rows, RequestOf(CleanRowsOf(c.fold, sheet, mode), mode, create), now);
      && |rows| <= |after|
      && (mode == StatusUpdate ==> after[l] == rows[l])
      && (mode == ActiveSnapshot && SkuCatalogue.Kept(c, rows, l) ==> !SkuCatalogue.Active(after[l]))
  {
    var q := RequestOf(CleanRowsOf(c.fold, sheet, mode), mode, create);
    if SkuCatalogue.Wanted(c, q.items, c.fold(rows[l].sku)).Some? {
      ItemIsLine(c, sheet, mode, create, c.fold(rows[l].sku));
    }
    SkuSnapshot.SyncedShape(c, rows, q, now);
  }

  /** A SKU that no row knows is added, switched as its line asks, when creating is allowed, and else is not. */
  lemma SheetAdds(c: SkuCatalogue.Channel, rows: seq<SkuCatalogue.Sku>, sheet: seq<Line>, mode: Mode, create: bool,
      now: int, i: nat, key: string)
    requires Imports(c, sheet, mode) && 1 <= i < |sheet| && !SkuCatalogue.Known(c, rows, key)
    requires Names(FormatOf(c.fold, sheet[0], mode), sheet[i], key)
    ensures var after := SkuCatalogue.Synced(c, rows, RequestOf(CleanRowsOf(c.fold, sheet, mode), mode, create), now);
      if create then exists l ::
        && |rows| <= l < |after|
        && c.fold(after[l].sku) == key
        && after[l].isActive == Some(AsksActive(FormatOf(c.fold, sheet[0], mode), sheet[i]))
      else |after| == |rows|
  {
    var q := RequestOf(CleanRowsOf(c.fold, sheet, mode), mode, create);
    LineIsItem(c, sheet, mode, create, i, key);
    SkuSnapshot.SyncedShape(c, rows, q, now);
    if create {
      SkuSnapshot.AddedKeys(c, rows, q, now, key);
      var more := SkuCatalogue.Additions(c, rows, q, now);
      var j :| 0 <= j < |more| && SkuCatalogue.Folds(c, more)[j] == key;
      SkuSnapshot.NewRowsAreUnknownItems(c, rows, q.items, now);
      assert more[j] in more;
      assert SkuCatalogue.Synced(c, rows, q, now)[|rows| + j] == more[j];
    }
  }

  /** The keys an imported promotion sheet asks for are those its lines name. */
  lemma PromotionKeys(fold: Fold, sheet: seq<Line>, key: string)
    requires Obstacle<Promotions.PromoResult>(fold, sheet, PromotionSnapshot, true).None?
    ensures key in Promotions.KeySet(fold, SkusOf(CleanRowsOf(fold, sheet, PromotionSnapshot)))
      <==> exists i :: 1 <= i < |sheet| && Names(FormatOf(fold, sheet[0], PromotionSnapshot), sheet[i], key)
  {
    NoObstacle<Promotions.PromoResult>(SkuCatalogue.Channel(fold, false), sheet, PromotionSnapshot, true);
    PromotionKeysOf(FormatOf(fold, sheet[0], PromotionSnapshot), sheet[1..], key);
    DataLines(FormatOf(fold, sheet[0], PromotionSnapshot), sheet, key);
  }

  lemma DataLines(f: Format, sheet: seq<Line>, key: string)
    requires sheet != []
    ensures (exists i :: 0 <= i < |sheet[1..]| && Names(f, sheet[1..][i], key))
      <==> exists i :: 1 <= i < |sheet| && Names(f, sheet[i], key)
  {
    if i :| 1 <= i < |sheet| && Names(f, sheet[i], key) { assert sheet[1..][i - 1] == sheet[i]; }
    if i :| 0 <= i < |sheet[1..]| && Names(f, sheet[1..][i], key) { assert sheet[1..][i] == sheet[i + 1]; }
  }

  lemma PromotionKeysOf(f: Format, data: seq<Line>, key: string)
    requires Read(f, data).errors == []
    ensures key in Promotions.KeySet(f.fold, SkusOf(Read(f, data).rows))
      <==> exists i :: 0 <= i < |data| && Names(f, data[i], key)
  {
    var skus := SkusOf(Read(f, data).rows);
    if i :| 0 <= i < |data| && Names(f, data[i], key) {
      LineHasKey(f, data, i, key);
      assert skus[Count(data, i)] in skus;
    }
    if key in Promotions.KeySet(f.fold, skus) {
      var k :| 0 <= k < |skus| && f.fold(skus[k]) == key;
      RowNames(f, data, k, key);
    }
  }

  lemma LineHasKey(f: Format, data: seq<Line>, i: nat, key: string)
    requires Read(f, data).errors == [] && i < |data| && Names(f, data[i], key)
    ensures Count(data, i) < |Read(f, data).rows| && f.fold(Read(f, data).rows[Count(data, i)].sku) == key
  {
    LineGivesRow(f, data, i);
    var sku :| Gives(data[i][f.sku], sku) && f.fold(sku) == key;
    GivesOne(data[i][f.sku], sku, Read(f, data).rows[Count(data, i)].sku);
  }

  /** For an imported promotion sheet `unchanged` is the number of asked keys that are stored and in the catalogue. */
  lemma ImportedUnchanged(fold: Fold, rows: seq<string>, parents: seq<string>, sheet: seq<Line>)
    requires Obstacle<Promotions.PromoResult>(fold, sheet, PromotionSnapshot, true).None?
    ensures var skus := SkusOf(CleanRowsOf(fold, sheet, PromotionSnapshot));
      Promotions.Outcome(fold, rows, skus, parents).same
      == |Promotions.KeySet(fold, skus) * Promotions.KeySet(fold, parents) * Promotions.KeySet(fold, rows)|
  {
    ImportedKeys(fold, sheet);
    Promotions.UnchangedExactly(fold, rows, SkusOf(CleanRowsOf(fold, sheet, PromotionSnapshot)), parents);
  }

  lemma ImportedKeys(fold: Fold, sheet: seq<Line>)
    requires Obstacle<Promotions.PromoResult>(fold, sheet, PromotionSnapshot, true).None?
    ensures Distinct(Text.Folded(fold, SkusOf(CleanRowsOf(fold, sheet, PromotionSnapshot))))
  {
    CleanRows(FormatOf(fold, sheet[0], PromotionSnapshot), sheet[1..]);
    DifferentKeys(fold, CleanRowsOf(fold, sheet, PromotionSnapshot));
  }

  lemma DifferentKeys(fold: Fold, rows: seq<ImportRow>)
    requires forall j, k :: 0 <= j < k < |rows| ==> fold(rows[j].sku) != fold(rows[k].sku)
    ensures Distinct(Text.Folded(fold, SkusOf(rows)))
  {
    assert forall k :: 0 <= k < |rows| ==> Text.Folded(fold, SkusOf(rows))[k] == fold(rows[k].sku);
  }
}
