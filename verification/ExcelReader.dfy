/** The reader of SKU workbooks: the row loop of `parse_sku_workbook` and the request it leads to. */
module ExcelReader {
  import opened Prelude
  import Text
  import SkuCatalogue
  import SkuSnapshot

  type Fold = string -> string

  /** A cell value; `Other` is any other value, given by its text (a fractional number, a date, …). */
  datatype Cell =
    | Blank
    | Flag(flag: bool)
    | Whole(n: int)
    | IntegralFloat(n: int)
    | Other(text: string)
    | Str(s: string)

  type Line = seq<Cell>

  datatype Mode = ActiveSnapshot | StatusUpdate | PromotionSnapshot

  datatype Kind =
    | MissingSkuColumn
    | MissingActiveColumn
    | TooManyRows
    | BadLength
    | Duplicate(first: nat)
    | BadStatus
    | NoDataRows

  datatype Issue = Issue(row: Option<nat>, kind: Kind)

  datatype ImportRow = ImportRow(sku: string, active: Option<bool>)

  datatype Parsed = Parsed(received: nat, rows: seq<ImportRow>, errors: seq<Issue>)

  const MaxRows: nat := 20000
  const MaxLength: nat := 255

  // ---------------------------------------------------------------- cells

  /** `_normalize_sku`. */
  function NormalizeSku(v: Cell): (r: Option<string>)
    ensures r.Some? ==> r.value != "" && Text.Trimmed(r.value)
  {
    match v
    case Blank => None
    case Flag(_) => None
    case IntegralFloat(n) => Some(Text.IntText(n))
    case Whole(n) => NonEmpty(Text.IntText(n))
    case Other(text) => NonEmpty(text)
    case Str(s) => NonEmpty(s)
  }

  function NonEmpty(s: string): Option<string> {
    var stripped := Text.Strip(s);
    if stripped == "" then None else Some(stripped)
  }

  const On: set<string> := {"1", "true", "on", "yes", "si", "activo"}
  const Off: set<string> := {"0", "false", "off", "no", "inactivo"}

  /** `_parse_active`. */
  function ParseActive(fold: Fold, v: Cell): Option<bool> {
    match v
    case Flag(b) => Some(b)
    case Whole(n) => if n == 0 || n == 1 then Some(n == 1) else None
    case IntegralFloat(n) => if n == 0 || n == 1 then Some(n == 1) else None
    case Str(s) => var t := fold(Text.Strip(s)); if t in On then Some(true) else if t in Off then Some(false) else None
    case _ => None
  }

  function Underscored(s: string): string {
    seq(|s|, i requires 0 <= i < |s| => if s[i] == ' ' then '_' else s[i])
  }

  /** `_normalize_header`; a false value counts as an empty text. */
  function NormalizeHeader(fold: Fold, v: Cell): string {
    var text :=
      match v
      case Blank => ""
      case Flag(b) => if b then "True" else ""
      case Whole(n) => if n == 0 then "" else Text.IntText(n)
      case IntegralFloat(n) => if n == 0 then "" else Text.IntText(n) + ".0"
      case Other(t) => t
      case Str(s) => s;
    Underscored(fold(Text.Strip(text)))
  }

  const SkuHeaders: set<string> := {"sku"}
  const ActiveHeaders: set<string> := {"active", "is_active", "on", "on_off", "on/off"}

  /** The first of the first `n` cells that has the title. */
  function ColumnIn(titled: Cell -> bool, header: Line, n: nat): (r: Option<nat>)
    requires n <= |header|
    ensures r.Some? ==> r.value < n && titled(header[r.value])
    ensures forall i :: 0 <= i < n && (r.None? || i < r.value) ==> !titled(header[i])
  {
    if n == 0 then None
    else
      var r := ColumnIn(titled, header, n - 1);
      if r.Some? then r else if titled(header[n - 1]) then Some(n - 1) else None
  }

  /** The first column whose header is one of `names`. */
  function Column(fold: Fold, header: Line, names: set<string>): Option<nat> {
    ColumnIn((v: Cell) => NormalizeHeader(fold, v) in names, header, |header|)
  }

  predicate IsBlankLine(line: Line) {
    forall i :: 0 <= i < |line| ==> line[i] == Blank || line[i] == Str("")
  }

  function CellAt(line: Line, column: nat): Cell {
    if column < |line| then line[column] else Blank
  }

  // ---------------------------------------------------------------- the verdict on one line

  /** What the reader needs to know: comparison of SKUs, mode, columns. */
  datatype Format = Format(fold: Fold, mode: Mode, sku: nat, active: nat)

  /** The SKU of a line, if it has an acceptable one. */
  function SkuOf(f: Format, line: Line): (r: Option<string>)
    ensures r.Some? ==> 1 <= |r.value| <= MaxLength && Text.Trimmed(r.value)
  {
    var sku := NormalizeSku(CellAt(line, f.sku));
    if sku.None? || |sku.value| > MaxLength then None else sku
  }

  function StatusOf(f: Format, line: Line): Option<bool> {
    ParseActive(f.fold, CellAt(line, f.active))
  }

  /** Number of data lines among the first `n`. */
  function Count(data: seq<Line>, n: nat): (r: nat)
    requires n <= |data|
    ensures r <= n
  {
    if n == 0 then 0 else Count(data, n - 1) + if IsBlankLine(data[n - 1]) then 0 else 1
  }

  predicate HasKey(f: Format, line: Line, key: string) {
    var sku := SkuOf(f, line);
    sku.Some? && f.fold(sku.value) == key
  }

  /** The first of the first `n` lines with the key. */
  function FirstWith(f: Format, data: seq<Line>, n: nat, key: string): (r: Option<nat>)
    requires n <= |data|
    ensures r.Some? ==> r.value < n && HasKey(f, data[r.value], key)
    ensures forall j :: 0 <= j < n && (r.None? || j < r.value) ==> !HasKey(f, data[j], key)
  {
    if n == 0 then None
    else
      var r := FirstWith(f, data, n - 1, key);
      if r.Some? then r else if HasKey(f, data[n - 1], key) then Some(n - 1) else None
  }

  datatype Verdict = Ignored | Rejected(kind: Kind) | Accepted(row: ImportRow)

  /** Line `i` judged on its own content, the count of data lines before it and the earlier lines with its key. */
  function Judge(f: Format, data: seq<Line>, i: nat): Verdict
    requires i < |data|
  {
    var sku := SkuOf(f, data[i]);
    if IsBlankLine(data[i]) || Count(data, i) > MaxRows then Ignored
    else if Count(data, i) == MaxRows then Rejected(TooManyRows)
    else if sku.None? then Rejected(BadLength)
    else if FirstWith(f, data, i, f.fold(sku.value)).Some? then
      Rejected(Duplicate(FirstWith(f, data, i, f.fold(sku.value)).value + 2))
    else if f.mode != StatusUpdate then Accepted(ImportRow(sku.value, None))
    else if StatusOf(f, data[i]).None? then Rejected(BadStatus)
    else Accepted(ImportRow(sku.value, StatusOf(f, data[i])))
  }

  function RowsOf(f: Format, data: seq<Line>, n: nat): seq<ImportRow>
    requires n <= |data|
  {
    if n == 0 then []
    else RowsOf(f, data, n - 1) + var v := Judge(f, data, n - 1); if v.Accepted? then [v.row] else []
  }

  function ErrorsOf(f: Format, data: seq<Line>, n: nat): seq<Issue>
    requires n <= |data|
  {
    if n == 0 then []
    else
      ErrorsOf(f, data, n - 1)
      + var v := Judge(f, data, n - 1); if v.Rejected? then [Issue(Some(n + 1), v.kind)] else []
  }

  function Min(a: nat, b: nat): nat { if a <= b then a else b }

  /** What the reader answers about the data lines. */
  function Read(f: Format, data: seq<Line>): Parsed {
    var count := Count(data, |data|);
    Parsed(Min(count, MaxRows + 1), RowsOf(f, data, |data|),
      ErrorsOf(f, data, |data|) + if count == 0 then [Issue(None, NoDataRows)] else [])
  }

  // ---------------------------------------------------------------- the loop

  lemma {:induction false} CountMonotone(data: seq<Line>, m: nat, n: nat)
    requires m <= n <= |data|
    ensures Count(data, m) <= Count(data, n)
    decreases n
  {
    if m < n { CountMonotone(data, m, n - 1); }
  }

  /** Nothing after the line that is one too many is looked at. */
  lemma {:induction false} NothingAfter(f: Format, data: seq<Line>, m: nat, n: nat)
    requires m <= n <= |data| && Count(data, m) > MaxRows
    ensures RowsOf(f, data, n) == RowsOf(f, data, m) && ErrorsOf(f, data, n) == ErrorsOf(f, data, m)
    decreases n
  {
    if m < n {
      NothingAfter(f, data, m, n - 1);
      CountMonotone(data, m, n - 1);
    }
  }

  /** The dictionary of the SKUs seen so far, each with the number of its first line. */
  ghost predicate Seen(f: Format, data: seq<Line>, n: nat, seen: map<string, nat>)
    requires n <= |data|
  {
    && (forall key :: key in seen <==> FirstWith(f, data, n, key).Some?)
    && (forall key :: key in seen ==> seen[key] == FirstWith(f, data, n, key).value + 2)
  }

  lemma BlankLineHasNoSku(f: Format, line: Line)
    requires IsBlankLine(line)
    ensures SkuOf(f, line).None?
  {
  }

  lemma SeenStep(f: Format, data: seq<Line>, i: nat, seen: map<string, nat>)
    requires i < |data| && Seen(f, data, i, seen)
    ensures var sku := SkuOf(f, data[i]);
      Seen(f, data, i + 1,
        if sku.None? || f.fold(sku.value) in seen then seen else seen[f.fold(sku.value) := i + 2])
  {
  }

  /** The body of the row loop from the SKU check on, for a data line within the limit. */
  method ReadLine(f: Format, ghost data: seq<Line>, ghost i: nat, number: nat, line: Line, seen: map<string, nat>)
    returns (v: Verdict, now: map<string, nat>)
    requires i < |data| && line == data[i] && number == i + 2 && !IsBlankLine(line) && Count(data, i) < MaxRows
    requires Seen(f, data, i, seen)
    ensures v == Judge(f, data, i) && v != Ignored
    ensures Seen(f, data, i + 1, now)
  {
    now := seen;
    SeenStep(f, data, i, seen);
    var sku := NormalizeSku(CellAt(line, f.sku));
    if sku.None? || |sku.value| > MaxLength { return Rejected(BadLength), now; }
    var key := f.fold(sku.value);
    if key in seen { return Rejected(Duplicate(seen[key])), now; }
    now := seen[key := number];
    var active := None;
    if f.mode == StatusUpdate {
      active := ParseActive(f.fold, CellAt(line, f.active));
      if active.None? { return Rejected(BadStatus), now; }
    }
    v := Accepted(ImportRow(sku.value, active));
  }

  /** The three counters of the loop before line `n`. */
  function SoFar(f: Format, data: seq<Line>, n: nat): Parsed
    requires n <= |data|
  {
    Parsed(Min(Count(data, n), MaxRows + 1), RowsOf(f, data, n), ErrorsOf(f, data, n))
  }

  lemma SoFarStep(f: Format, data: seq<Line>, n: nat)
    requires n < |data| && Count(data, n) <= MaxRows
    ensures var p := SoFar(f, data, n);
      SoFar(f, data, n + 1) == match Judge(f, data, n) {
        case Ignored => p
        case Rejected(kind) => Parsed(p.received + 1, p.rows, p.errors + [Issue(Some(n + 2), kind)])
        case Accepted(row) => Parsed(p.received + 1, p.rows + [row], p.errors)
      }
    ensures Judge(f, data, n) == Ignored <==> IsBlankLine(data[n])
  {
  }

  lemma SoFarEnds(f: Format, data: seq<Line>, n: nat)
    requires n <= |data| && Count(data, n) > MaxRows
    ensures SoFar(f, data, |data|) == SoFar(f, data, n)
  {
    NothingAfter(f, data, n, |data|);
    CountMonotone(data, n, |data|);
  }

  /** The row loop of `parse_sku_workbook`. */
  method ReadLines(f: Format, data: seq<Line>) returns (p: Parsed)
    ensures p == Read(f, data)
  {
    p := Parsed(0, [], []);
    var seen: map<string, nat>, i := map[], 0;
    while i < |data|
      invariant i <= |data| && Count(data, i) <= MaxRows
      invariant p == SoFar(f, data, i) && Seen(f, data, i, seen)
    {
      SoFarStep(f, data, i);
      if IsBlankLine(data[i]) {
        SeenStep(f, data, i, seen);
        BlankLineHasNoSku(f, data[i]);
        i := i + 1;
        continue;
      }
      p := p.(received := p.received + 1);
      if p.received > MaxRows {
        p := p.(errors := p.errors + [Issue(Some(i + 2), TooManyRows)]);
        SoFarEnds(f, data, i + 1);
        break;
      }
      var verdict;
      verdict, seen := ReadLine(f, data, i, i + 2, data[i], seen);
      if verdict.Accepted? {
        p := p.(rows := p.rows + [verdict.row]);
      } else {
        p := p.(errors := p.errors + [Issue(Some(i + 2), verdict.kind)]);
      }
      i := i + 1;
    }
    assert p == SoFar(f, data, |data|);
    if p.received == 0 { p := p.(errors := p.errors + [Issue(None, NoDataRows)]); }
  }

  datatype FileError = NoHeaders

  function HeaderIssues(sku: Option<nat>, active: Option<nat>, mode: Mode): seq<Issue> {
    (if sku.None? then [Issue(Some(1), MissingSkuColumn)] else [])
    + (if mode == StatusUpdate && active.None? then [Issue(Some(1), MissingActiveColumn)] else [])
  }

  function FormatOf(fold: Fold, header: Line, mode: Mode): Format {
    var sku, active := Column(fold, header, SkuHeaders), Column(fold, header, ActiveHeaders);
    Format(fold, mode, if sku.Some? then sku.value else 0, if active.Some? then active.value else 0)
  }

  /** The reader's answer for a sheet. */
  function Sheet(fold: Fold, sheet: seq<Line>, mode: Mode): Result<Parsed, FileError> {
    if sheet == [] then Err(NoHeaders)
    else
      var issues := HeaderIssues(Column(fold, sheet[0], SkuHeaders), Column(fold, sheet[0], ActiveHeaders), mode);
      Ok(if issues != [] then Parsed(0, [], issues) else Read(FormatOf(fold, sheet[0], mode), sheet[1..]))
  }

  /** `parse_sku_workbook` once the file is open. */
  method ParseSkuWorkbook(fold: Fold, sheet: seq<Line>, mode: Mode) returns (r: Result<Parsed, FileError>)
    ensures r == Sheet(fold, sheet, mode)
  {
    if sheet == [] { return Err(NoHeaders); }
    var sku, active := Column(fold, sheet[0], SkuHeaders), Column(fold, sheet[0], ActiveHeaders);
    var errors: seq<Issue> := [];
    if sku.None? { errors := errors + [Issue(Some(1), MissingSkuColumn)]; }
    if mode == StatusUpdate && active.None? { errors := errors + [Issue(Some(1), MissingActiveColumn)]; }
    assert errors == HeaderIssues(sku, active, mode);
    if |errors| > 0 { return Ok(Parsed(0, [], errors)); }
    var p := ReadLines(FormatOf(fold, sheet[0], mode), sheet[1..]);
    return Ok(p);
  }

  // ---------------------------------------------------------------- what the answer guarantees

  lemma {:induction false} EveryLineCounted(f: Format, data: seq<Line>, n: nat)
    requires n <= |data|
    ensures |RowsOf(f, data, n)| + |ErrorsOf(f, data, n)| == Min(Count(data, n), MaxRows + 1)
  {
    if n > 0 { EveryLineCounted(f, data, n - 1); }
  }

  /** A line that holds anything but empty cells. */
  ghost predicate HasData(line: Line) {
    exists i :: 0 <= i < |line| && line[i] != Blank && line[i] != Str("")
  }

  /** Every received line gives a row or an error. */
  lemma ReceivedIsRowsAndErrors(f: Format, data: seq<Line>)
    ensures var p := Read(f, data); p.received > 0 ==> p.received == |p.rows| + |p.errors|
    ensures var p := Read(f, data); p.received == 0 ==> p.rows == [] && p.errors == [Issue(None, NoDataRows)]
    ensures Read(f, data).received > 0 <==> exists i :: 0 <= i < |data| && HasData(data[i])
  {
    assert forall i :: 0 <= i < |data| ==> (HasData(data[i]) <==> !IsBlankLine(data[i]));
    EveryLineCounted(f, data, |data|);
    CountZero(data, |data|);
  }

  lemma {:induction false} CountZero(data: seq<Line>, n: nat)
    requires n <= |data|
    ensures Count(data, n) > 0 <==> exists i :: 0 <= i < n && !IsBlankLine(data[i])
  {
    if n > 0 { CountZero(data, n - 1); }
  }

  /** Each row comes from a line, has an acceptable SKU, and no other row has its key. */
  lemma {:induction false} RowsAreClean(f: Format, data: seq<Line>, n: nat)
    requires n <= |data|
    ensures forall k :: 0 <= k < |RowsOf(f, data, n)| ==> RowIsClean(f, data, n, RowsOf(f, data, n)[k])
    ensures forall j, k :: 0 <= j < k < |RowsOf(f, data, n)| ==>
      f.fold(RowsOf(f, data, n)[j].sku) != f.fold(RowsOf(f, data, n)[k].sku)
  {
    if n > 0 {
      RowsAreClean(f, data, n - 1);
      var rows := RowsOf(f, data, n - 1);
      forall k | 0 <= k < |rows| ensures RowIsClean(f, data, n, rows[k]) {
        assert RowIsClean(f, data, n - 1, rows[k]);
      }
    }
  }

  ghost predicate RowIsClean(f: Format, data: seq<Line>, n: nat, row: ImportRow)
    requires n <= |data|
  {
    && 1 <= |row.sku| <= MaxLength
    && Text.Trimmed(row.sku)
    && (row.active.Some? <==> f.mode == StatusUpdate)
    && FirstWith(f, data, n, f.fold(row.sku)).Some?
  }

  ghost predicate LineIsGood(f: Format, data: seq<Line>, i: nat)
    requires i < |data|
  {
    var sku := SkuOf(f, data[i]);
    && sku.Some?
    && (forall j :: 0 <= j < i ==> !HasKey(f, data[j], f.fold(sku.value)))
    && (f.mode == StatusUpdate ==> StatusOf(f, data[i]).Some?)
  }

  /** A data line within the limit gives an error exactly when it is one too many or not good. */
  lemma RejectedExactly(f: Format, data: seq<Line>, i: nat)
    requires i < |data|
    ensures Judge(f, data, i).Rejected?
      <==> !IsBlankLine(data[i]) && Count(data, i) <= MaxRows && (Count(data, i) == MaxRows || !LineIsGood(f, data, i))
  {
    var sku := SkuOf(f, data[i]);
    if sku.Some? {
      assert FirstWith(f, data, i, f.fold(sku.value)).None?
        <==> forall j :: 0 <= j < i ==> !HasKey(f, data[j], f.fold(sku.value));
    }
  }

  ghost predicate AllGood(f: Format, data: seq<Line>, n: nat)
    requires n <= |data|
  {
    forall i :: 0 <= i < n ==> IsBlankLine(data[i]) || LineIsGood(f, data, i)
  }

  lemma {:induction false} NoIssueExactly(f: Format, data: seq<Line>, n: nat)
    requires n <= |data|
    ensures ErrorsOf(f, data, n) == [] <==> Count(data, n) <= MaxRows && AllGood(f, data, n)
  {
    if n > 0 {
      NoIssueExactly(f, data, n - 1);
      RejectedExactly(f, data, n - 1);
      AllGoodSnoc(f, data, n - 1);
    }
  }

  lemma AllGoodSnoc(f: Format, data: seq<Line>, n: nat)
    requires n < |data|
    ensures AllGood(f, data, n + 1) <==> AllGood(f, data, n) && (IsBlankLine(data[n]) || LineIsGood(f, data, n))
  {
  }

  /**
   * A sheet is read without error if and only if it holds between 1 and 20000 data lines and each of them has
   * an acceptable SKU that no earlier line has, and a readable status where one is needed.
   */
  lemma NoErrorsExactly(f: Format, data: seq<Line>)
    ensures Read(f, data).errors == []
      <==> 1 <= Count(data, |data|) <= 20000 && AllGood(f, data, |data|)
  {
    NoIssueExactly(f, data, |data|);
  }

  // ---------------------------------------------------------------- what the cells of a sheet say

  ghost predicate Titled(fold: Fold, v: Cell, names: seq<string>) {
    v.Str? && exists t :: Text.Padded(v.s, t) && fold(t) in names
  }

  const OnTitles: seq<string> := ["1", "true", "on", "yes", "si", "activo"]
  const OffTitles: seq<string> := ["0", "false", "off", "no", "inactivo"]

  ghost predicate SaysOn(fold: Fold, v: Cell) {
    v == Flag(true) || v == Whole(1) || v == IntegralFloat(1) || Titled(fold, v, OnTitles)
  }

  ghost predicate SaysOff(fold: Fold, v: Cell) {
    v == Flag(false) || v == Whole(0) || v == IntegralFloat(0) || Titled(fold, v, OffTitles)
  }

  lemma TextReads(fold: Fold, s: string, names: seq<string>)
    ensures Titled(fold, Str(s), names) <==> fold(Text.Strip(s)) in names
  {
    Text.StripPads(s);
    if Titled(fold, Str(s), names) {
      var t :| Text.Padded(s, t) && fold(t) in names;
      Text.PaddedGives(s, t);
    }
  }

  /** A status cell is read as active, as inactive or not at all. */
  lemma ActiveReads(fold: Fold, v: Cell)
    ensures ParseActive(fold, v) == Some(true) <==> SaysOn(fold, v)
    ensures ParseActive(fold, v) == Some(false) <==> SaysOff(fold, v)
  {
    match v
    case Str(s) =>
      TextReads(fold, s, OnTitles);
      TextReads(fold, s, OffTitles);
      WordsRead(fold(Text.Strip(s)));
    case _ =>
  }

  lemma WordsRead(t: string)
    ensures t in On <==> t in OnTitles
    ensures t in Off <==> t in OffTitles
    ensures !(t in On && t in Off)
  {
  }

  /** The cell gives the SKU: a whole number its numeral, a text the text between its blanks. */
  ghost predicate Gives(v: Cell, sku: string) {
    match v
    case Whole(n) => sku == Text.IntText(n)
    case IntegralFloat(n) => sku == Text.IntText(n)
    case Other(s) => sku != "" && Text.Padded(s, sku)
    case Str(s) => sku != "" && Text.Padded(s, sku)
    case _ => false
  }

  lemma TextGives(s: string, sku: string)
    ensures NonEmpty(s) == Some(sku) <==> sku != "" && Text.Padded(s, sku)
  {
    Text.StripExactly(s, sku);
  }

  lemma NumberGives(s: string)
    requires s != "" && Text.Trimmed(s)
    ensures NonEmpty(s) == Some(s)
  {
    Text.StripTrimmed(s);
  }

  lemma NormalizeGives(v: Cell, sku: string)
    ensures NormalizeSku(v) == Some(sku) <==> Gives(v, sku)
  {
    match v
    case Whole(n) => NumberGives(Text.IntText(n));
    case IntegralFloat(n) =>
    case Other(s) => TextGives(s, sku);
    case Str(s) => TextGives(s, sku);
    case _ =>
  }

  /** The row says what the cells of the line say. */
  ghost predicate RowSays(f: Format, line: Line, row: ImportRow) {
    && 1 <= |row.sku| <= 255
    && f.sku < |line|
    && Gives(line[f.sku], row.sku)
    && match row.active
       case None => f.mode != StatusUpdate
       case Some(active) =>
         f.mode == StatusUpdate && f.active < |line|
           && if active then SaysOn(f.fold, line[f.active]) else SaysOff(f.fold, line[f.active])
  }

  lemma AcceptedSays(f: Format, data: seq<Line>, i: nat)
    requires i < |data| && Judge(f, data, i).Accepted?
    ensures RowSays(f, data[i], Judge(f, data, i).row)
  {
    var row := Judge(f, data, i).row;
    NormalizeGives(CellAt(data[i], f.sku), row.sku);
    ActiveReads(f.fold, CellAt(data[i], f.active));
  }

  lemma WithinLimit(f: Format, data: seq<Line>, n: nat)
    requires n <= |data| && ErrorsOf(f, data, n) == []
    ensures Count(data, n) <= MaxRows && |RowsOf(f, data, n)| == Count(data, n)
  {
    NoIssueExactly(f, data, n);
    EveryLineCounted(f, data, n);
  }

  /** In a sheet without errors the k-th row comes from the k-th line with data. */
  lemma {:induction false} RowsFollow(f: Format, data: seq<Line>, n: nat, i: nat)
    requires i < n <= |data| && ErrorsOf(f, data, n) == [] && !IsBlankLine(data[i])
    ensures Count(data, i) < |RowsOf(f, data, n)| && Judge(f, data, i) == Accepted(RowsOf(f, data, n)[Count(data, i)])
  {
    WithinLimit(f, data, n - 1);
    if i < n - 1 { RowsFollow(f, data, n - 1, i); }
  }

  /** In a sheet without errors every line with data gives the row that says what its cells say. */
  lemma LineGivesRow(f: Format, data: seq<Line>, i: nat)
    requires i < |data| && Read(f, data).errors == [] && HasData(data[i])
    ensures Count(data, i) < |Read(f, data).rows| && RowSays(f, data[i], Read(f, data).rows[Count(data, i)])
  {
    RowsFollow(f, data, |data|, i);
    AcceptedSays(f, data, i);
  }

  lemma {:induction false} LineOfRow(f: Format, data: seq<Line>, n: nat, k: nat)
    requires n <= |data| && k < |RowsOf(f, data, n)|
    ensures exists i :: 0 <= i < n && HasData(data[i]) && RowSays(f, data[i], RowsOf(f, data, n)[k])
  {
    if k < |RowsOf(f, data, n - 1)| {
      LineOfRow(f, data, n - 1, k);
      var i :| 0 <= i < n - 1 && HasData(data[i]) && RowSays(f, data[i], RowsOf(f, data, n - 1)[k]);
      assert RowsOf(f, data, n)[k] == RowsOf(f, data, n - 1)[k];
    } else {
      AcceptedSays(f, data, n - 1);
      assert RowsOf(f, data, n)[k] == Judge(f, data, n - 1).row;
      assert HasData(data[n - 1]);
    }
  }

  lemma NoUnderscore(t: string, name: string)
    requires forall i :: 0 <= i < |name| ==> name[i] != '_' && name[i] != ' '
    ensures Underscored(t) == name <==> t == name
  {
    if Underscored(t) == name {
      forall i | 0 <= i < |t| ensures t[i] == name[i] { assert Underscored(t)[i] == name[i]; }
    }
  }

  lemma OneUnderscore(t: string, name: string, k: nat)
    requires k < |name| && name[k] == '_'
    requires forall i :: 0 <= i < |name| && i != k ==> name[i] != '_' && name[i] != ' '
    ensures Underscored(t) == name <==> t == name || t == name[k := ' ']
  {
    if Underscored(t) == name {
      forall i | 0 <= i < |t| ensures t[i] == name[i] || (i == k && t[i] == ' ') {
        assert Underscored(t)[i] == name[i];
      }
      assert t == if t[k] == ' ' then name[k := ' '] else name;
    }
  }

  const SkuTitles: seq<string> := ["sku"]
  const ActiveTitles: seq<string> := ["active", "is_active", "is active", "on", "on_off", "on off", "on/off"]

  lemma TitleNames(t: string)
    ensures Underscored(t) in SkuHeaders <==> t in SkuTitles
    ensures Underscored(t) in ActiveHeaders <==> t in ActiveTitles
  {
    NoUnderscore(t, "sku");
    NoUnderscore(t, "active");
    NoUnderscore(t, "on");
    NoUnderscore(t, "on/off");
    OneUnderscore(t, "is_active", 2);
    OneUnderscore(t, "on_off", 2);
    assert "is_active"[2 := ' '] == "is active" && "on_off"[2 := ' '] == "on off";
  }

  /** The titles a text can have to be the SKU column or the status column. */
  lemma HeaderReads(fold: Fold, s: string)
    ensures NormalizeHeader(fold, Str(s)) in SkuHeaders <==> Titled(fold, Str(s), SkuTitles)
    ensures NormalizeHeader(fold, Str(s)) in ActiveHeaders <==> Titled(fold, Str(s), ActiveTitles)
  {
    TextReads(fold, s, SkuTitles);
    TextReads(fold, s, ActiveTitles);
    TitleNames(fold(Text.Strip(s)));
  }

  /** The columns of a header row of texts are the first with a SKU title and the first with a status title. */
  lemma ColumnsExactly(fold: Fold, header: Line, i: nat)
    requires i < |header| && forall j :: 0 <= j < |header| ==> header[j].Str?
    ensures Column(fold, header, SkuHeaders) == Some(i) <==> FirstTitled(fold, header, SkuTitles, i)
    ensures Column(fold, header, ActiveHeaders) == Some(i) <==> FirstTitled(fold, header, ActiveTitles, i)
  {
    forall j | 0 <= j < |header|
      ensures NormalizeHeader(fold, header[j]) in SkuHeaders <==> Titled(fold, header[j], SkuTitles)
      ensures NormalizeHeader(fold, header[j]) in ActiveHeaders <==> Titled(fold, header[j], ActiveTitles)
    {
      HeaderReads(fold, header[j].s);
    }
    FirstColumn(fold, header, i, SkuHeaders, SkuTitles);
    FirstColumn(fold, header, i, ActiveHeaders, ActiveTitles);
  }

  /** The reader looks for the SKU and the status in these columns. */
  lemma FormatExactly(fold: Fold, header: Line, mode: Mode, i: nat, j: nat)
    requires i < |header| && j < |header| && forall k :: 0 <= k < |header| ==> header[k].Str?
    ensures FormatOf(fold, header, mode).fold == fold && FormatOf(fold, header, mode).mode == mode
    ensures FirstTitled(fold, header, SkuTitles, i) ==> FormatOf(fold, header, mode).sku == i
    ensures FirstTitled(fold, header, ActiveTitles, j) ==> FormatOf(fold, header, mode).active == j
  {
    ColumnsExactly(fold, header, i);
    ColumnsExactly(fold, header, j);
  }

  ghost predicate FirstTitled(fold: Fold, header: Line, titles: seq<string>, i: nat)
    requires i < |header|
  {
    Titled(fold, header[i], titles) && forall j :: 0 <= j < i ==> !Titled(fold, header[j], titles)
  }

  lemma FirstColumn(fold: Fold, header: Line, i: nat, names: set<string>, titles: seq<string>)
    requires i < |header|
    requires forall j :: 0 <= j < |header| ==>
      (NormalizeHeader(fold, header[j]) in names <==> Titled(fold, header[j], titles))
    ensures Column(fold, header, names) == Some(i) <==> FirstTitled(fold, header, titles, i)
  {
    FirstIn((v: Cell) => NormalizeHeader(fold, v) in names, header, i);
  }

  lemma FirstIn(titled: Cell -> bool, header: Line, i: nat)
    requires i < |header|
    ensures ColumnIn(titled, header, |header|) == Some(i)
      <==> titled(header[i]) && forall j :: 0 <= j < i ==> !titled(header[j])
  {
  }

  // ---------------------------------------------------------------- the requests built from it

  function SkusOf(rows: seq<ImportRow>): (r: seq<string>)
    ensures |r| == |rows| && forall i :: 0 <= i < |rows| ==> r[i] == rows[i].sku
  {
    seq(|rows|, i requires 0 <= i < |rows| => rows[i].sku)
  }

  function ItemsOf(rows: seq<ImportRow>): (r: seq<SkuCatalogue.SkuItem>)
    ensures |r| == |rows|
    ensures forall i :: 0 <= i < |rows| ==> r[i] == SkuCatalogue.SkuItem(rows[i].sku, rows[i].active == Some(true))
  {
    seq(|rows|, i requires 0 <= i < |rows| => SkuCatalogue.SkuItem(rows[i].sku, rows[i].active == Some(true)))
  }

  /** A sheet without errors gives 1 to 20000 rows with stripped SKUs of length 1 to 255 and different keys. */
  lemma CleanRows(f: Format, data: seq<Line>)
    requires Read(f, data).errors == []
    ensures var rows := Read(f, data).rows;
      && 1 <= |rows| <= MaxRows
      && |rows| == Read(f, data).received
      && (forall k :: 0 <= k < |rows| ==> 1 <= |rows[k].sku| <= MaxLength && Text.Trimmed(rows[k].sku))
      && (forall j, k :: 0 <= j < k < |rows| ==> f.fold(rows[j].sku) != f.fold(rows[k].sku))
      && (f.mode == StatusUpdate ==> forall k :: 0 <= k < |rows| ==> rows[k].active.Some?)
  {
    RowsAreClean(f, data, |data|);
    EveryLineCounted(f, data, |data|);
    NoIssueExactly(f, data, |data|);
    var rows := Read(f, data).rows;
    forall k | 0 <= k < |rows| ensures RowIsClean(f, data, |data|, rows[k]) {
      assert rows[k] == RowsOf(f, data, |data|)[k];
    }
  }

  lemma CleanSkus(c: SkuCatalogue.Channel, rows: seq<ImportRow>)
    requires 1 <= |rows| <= MaxRows
    requires forall k :: 0 <= k < |rows| ==> 1 <= |rows[k].sku| <= MaxLength && Text.Trimmed(rows[k].sku)
    requires forall j, k :: 0 <= j < k < |rows| ==> c.fold(rows[j].sku) != c.fold(rows[k].sku)
    ensures SkuSnapshot.WellFormed(SkusOf(rows)) && Distinct(Text.Folded(c.fold, SkusOf(rows)))
    ensures SkuSnapshot.SkuNames(ItemsOf(rows)) == SkusOf(rows)
  {
    assert forall k :: 0 <= k < |rows| ==> Text.Folded(c.fold, SkusOf(rows))[k] == c.fold(rows[k].sku);
  }

  /** A sheet without errors is always accepted by the snapshot schema and by the bulk schema, unchanged. */
  lemma CleanSheetIsAccepted(c: SkuCatalogue.Channel, f: Format, data: seq<Line>)
    requires f.fold == c.fold && Read(f, data).errors == []
    ensures var rows := Read(f, data).rows;
      && SkuSnapshot.SnapshotSkus(c, SkusOf(rows)) == Ok(SkusOf(rows))
      && SkuSnapshot.BulkItems(c, ItemsOf(rows)) == Ok(ItemsOf(rows))
      && SkuCatalogue.DistinctItems(c, ItemsOf(rows))
  {
    CleanRows(f, data);
    var rows := Read(f, data).rows;
    CleanSkus(c, rows);
    SkuSnapshot.SnapshotPasses(c, SkusOf(rows));
    SkuSnapshot.BulkPasses(c, SkusOf(rows), ItemsOf(rows));
  }
}
