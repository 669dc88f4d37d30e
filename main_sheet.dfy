/** The per-worksheet half of main.py's ExcelProcessor: find the row that
    holds the marker, take it as the header, clean the data below it, tag it
    with where it came from, and classify the sheet. */
module MainSheet {
  import opened Wrappers
  import opened Strings
  import opened Frames

  /** The label a missing header cell gets. */
  const Unnamed: string := "未命名列"

  /** main.py's third provenance column. */
  const FolderNameCol: string := "文件夹名"

  const EmptyReason: string := "工作表为空"
  const NoIdReason: string := "未找到身份证号列"
  const CleanedEmptyReason: string := "清洗后数据为空"

  /** The reason recorded for a sheet that gave n data rows. */
  function SuccessReason(n: nat): string
  {
    "包含身份证号列，处理" + NatStr(n) + "行数据"
  }

  // ---------------------------------------------------------------------
  // find_id_column_row
  // ---------------------------------------------------------------------

  /** The scan over the first ten rows and, within a row, over its cells,
      returning at the first non-null cell whose text holds the marker. It
      picks the same row as excel.py's row scan. */
  method FindIdColumnRow(g: Grid) returns (r: Option<nat>)
    ensures r.Some? ==> r.value < Min(SearchRows, |g|) && MarkerInNonNullCell(g[r.value])
    ensures r.Some? ==> forall k :: 0 <= k < r.value ==> !MarkerInNonNullCell(g[k])
    ensures r.None? <==> forall k :: 0 <= k < Min(SearchRows, |g|) ==> !MarkerInNonNullCell(g[k])
    ensures r == MarkerRow(g)
  {
    var searchRows := Min(SearchRows, |g|);
    for i := 0 to searchRows
      invariant forall k :: 0 <= k < i ==> !MarkerInNonNullCell(g[k])
    {
      var row := g[i];
      for j := 0 to |row|
        invariant forall c :: 0 <= c < j ==> !(row[c] != Null && Contains(CellStr(row[c]), Marker))
      {
        if row[j] != Null && Contains(CellStr(row[j]), Marker) {
          FirstMarkerRow(g, i);
          return Some(i);
        }
      }
    }
    NoMarkerRow(g);
    return None;
  }

  /** A row that holds the marker with none before it is excel.py's marker
      row too. */
  lemma FirstMarkerRow(g: Grid, i: nat)
    requires i < Min(SearchRows, |g|) && MarkerInNonNullCell(g[i])
    requires forall k :: 0 <= k < i ==> !MarkerInNonNullCell(g[k])
    ensures MarkerRow(g) == Some(i)
  {
    forall k | 0 <= k <= i ensures MarkerInRow(g[k]) <==> MarkerInNonNullCell(g[k]) {
      MarkerTestsAgree(g[k]);
    }
  }

  lemma NoMarkerRow(g: Grid)
    requires forall k :: 0 <= k < Min(SearchRows, |g|) ==> !MarkerInNonNullCell(g[k])
    ensures MarkerRow(g).None?
  {
    forall k | 0 <= k < Min(SearchRows, |g|) ensures !MarkerInRow(g[k]) {
      MarkerTestsAgree(g[k]);
    }
  }

  // ---------------------------------------------------------------------
  // The header
  // ---------------------------------------------------------------------

  /** `fillna('未命名列').astype(str)` on one cell. */
  function HeaderName(c: Cell): string
  {
    if c.Null? then Unnamed else CellStr(c)
  }

  /** The marker row as the header: one label per cell, in order. */
  function HeaderRow(r: Row): (h: seq<string>)
    ensures |h| == |r| && forall j :: 0 <= j < |h| ==> h[j] == HeaderName(r[j])
  {
    seq(|r|, j requires 0 <= j < |r| => HeaderName(r[j]))
  }

  /** Missing header cells become the same label and are not told apart, so
      labels can repeat. */
  lemma HeaderMayRepeat()
    ensures !Distinct(HeaderRow([Null, Null]))
  {
    var h := HeaderRow([Null, Null]);
    assert h[0] == Unnamed == h[1];
  }

  /** The data region: the rows strictly below the header row, under the
      header's labels. */
  function DataRegion(g: Grid, m: nat): (t: Table)
    requires Rectangular(g) && m < |g|
    ensures WellFormed(t) && |t.rows| == |g| - m - 1 && |t.columns| == |g[m]|
    ensures forall k :: 0 <= k < |t.rows| ==> t.rows[k] == g[m + 1 + k]
  {
    Table(HeaderRow(g[m]), g[m + 1..])
  }

  // ---------------------------------------------------------------------
  // clean_dataframe
  // ---------------------------------------------------------------------

  /** `dropna(how='all')`, then `dropna(axis=1, how='all')`, then
      `reset_index(drop=True)`. */
  function CleanDataframe(t: Table): (r: Table)
    requires WellFormed(t)
    ensures SubTable(r, t, ValueRows(t), ValueColumns(t))
  {
    Select(t, ValueRows(t), ValueColumns(t))
  }

  /** Exactly the rows that are not entirely null survive. */
  lemma CleanDataframeRowsIff(t: Table, k: nat)
    requires WellFormed(t)
    ensures k in ValueRows(t) <==> k < |t.rows| && !AllNull(t.rows[k])
  {
    if k in ValueRows(t) {
      var p :| 0 <= p < |ValueRows(t)| && ValueRows(t)[p] == k;
    }
  }

  /** Exactly the columns with a non-null cell in a surviving row survive. */
  lemma CleanDataframeColumnsIff(t: Table, j: nat)
    requires WellFormed(t)
    ensures j in ValueColumns(t) <==> j < |t.columns| && HasValue(t, j)
  {
    if j in ValueColumns(t) {
      var q :| 0 <= q < |ValueColumns(t)| && ValueColumns(t)[q] == j;
    }
  }

  /** No row of the result is entirely null. */
  lemma CleanDataframeRowHasValue(t: Table, p: nat)
    requires WellFormed(t) && p < |CleanDataframe(t).rows|
    ensures !AllNull(CleanDataframe(t).rows[p])
  {
    var r := CleanDataframe(t);
    var kr, kc := ValueRows(t), ValueColumns(t);
    var k := kr[p];
    var j :| 0 <= j < |t.rows[k]| && !t.rows[k][j].Null?;
    assert HasValue(t, j) && j < |t.columns|;
    assert j in kc;
    var q :| 0 <= q < |kc| && kc[q] == j;
    assert r.rows[p][q] == t.rows[k][j];
  }

  /** Every column of the result has a non-null cell in a row that is not
      entirely null. */
  lemma CleanDataframeColumnHasValue(t: Table, q: nat)
    requires WellFormed(t) && q < |CleanDataframe(t).columns|
    ensures HasValue(CleanDataframe(t), q)
  {
    var r := CleanDataframe(t);
    var kr, kc := ValueRows(t), ValueColumns(t);
    var j := kc[q];
    var k :| 0 <= k < |t.rows| && !AllNull(t.rows[k]) && j < |t.rows[k]| && !t.rows[k][j].Null?;
    assert RowHasValue(t, k);
    assert k in kr;
    var p :| 0 <= p < |kr| && kr[p] == k;
    assert r.rows[p][q] == t.rows[k][j];
    CleanDataframeRowHasValue(t, p);
  }

  /** Cleaning a cleaned table changes nothing. */
  lemma CleanDataframeIdempotent(t: Table)
    requires WellFormed(t)
    ensures CleanDataframe(CleanDataframe(t)) == CleanDataframe(t)
  {
    var r := CleanDataframe(t);
    forall p | 0 <= p < |r.rows| ensures RowHasValue(r, p) {
      CleanDataframeRowHasValue(t, p);
    }
    forall q | 0 <= q < |r.columns| ensures HasValue(r, q) {
      CleanDataframeColumnHasValue(t, q);
    }
    WhereAll(|r.rows|, (k: nat) => RowHasValue(r, k));
    WhereAll(|r.columns|, (j: nat) => HasValue(r, j));
    SelectEverything(r, ValueRows(r), ValueColumns(r));
  }

  // ---------------------------------------------------------------------
  // One sheet of process_excel_file
  // ---------------------------------------------------------------------

  /** The status labels a sheet record can carry. */
  datatype Status = Succeeded | Skipped | Failed

  function StatusLabel(s: Status): string
  {
    match s
      case Succeeded => "成功处理"
      case Skipped => "跳过"
      case Failed => "错误"
  }

  /** Which list of `processing_details` a sheet record is appended to. */
  datatype Category = ProcessedSheet | SkippedSheet | EmptySheet | ErrorSheet

  /** One `sheet_info` record. */
  datatype SheetInfo = SheetInfo(
    folderName: string,
    fileName: string,
    sheetName: string,
    status: Status,
    reason: string,
    originalRows: nat,
    processedRows: nat,
    columnsCount: nat)

  /** One entry of `file_data`: the tagged table and where it came from. */
  datatype Extract = Extract(
    data: Table,
    fileName: string,
    sheetName: string,
    folderName: string,
    originalRows: nat,
    processedRows: nat,
    columns: seq<string>)

  /** Everything one sheet contributes: its record, the list it joins,
      whether it had the marker row, and its table if it gave one. */
  datatype SheetOutcome = SheetOutcome(info: SheetInfo, category: Category, idColumn: bool, extract: Option<Extract>)

  /** The three provenance assignments, in main.py's order. */
  function Tag(t: Table, file: string, sheet: string, folder: string): Table
    requires WellFormed(t)
  {
    Assign(Assign(Assign(t, FileNameCol, Text(file)), SheetNameCol, Text(sheet)), FolderNameCol, Text(folder))
  }

  /** What one iteration of process_excel_file's sheet loop records. An
      unreadable sheet is the exception branch, with the error text as its
      reason. */
  function SheetStep(folder: string, file: string, s: Sheet): (o: SheetOutcome)
    requires ValidSheet(s)
  {
    var info := SheetInfo(folder, file, s.name, Skipped, "", 0, 0, 0);
    match s.content
      case Unreadable(e) => SheetOutcome(info.(status := Failed, reason := e), ErrorSheet, false, None)
      case Loaded(g) =>
        var info := info.(originalRows := |g|);
        if EmptyGrid(g) then SheetOutcome(info.(reason := EmptyReason), EmptySheet, false, None)
        else match MarkerRow(g)
          case None => SheetOutcome(info.(reason := NoIdReason), SkippedSheet, false, None)
          case Some(m) =>
            var d := CleanDataframe(DataRegion(g, m));
            if |d.rows| == 0 || |d.columns| == 0 then
              SheetOutcome(info.(reason := CleanedEmptyReason), SkippedSheet, true, None)
            else
              var x := Tag(d, file, s.name, folder);
              SheetOutcome(
                info.(status := Succeeded, processedRows := |x.rows|, columnsCount := |x.columns|,
                      reason := SuccessReason(|x.rows|)),
                ProcessedSheet, true, Some(Extract(x, file, s.name, folder, |g|, |x.rows|, x.columns)))
  }

  method ProcessSheet(folder: string, file: string, s: Sheet) returns (o: SheetOutcome)
    requires ValidSheet(s)
    ensures o == SheetStep(folder, file, s)
  {
    var info := SheetInfo(folder, file, s.name, Skipped, "", 0, 0, 0);
    if s.content.Unreadable? {
      return SheetOutcome(info.(status := Failed, reason := s.content.reason), ErrorSheet, false, None);
    }
    var g := s.content.grid;
    info := info.(originalRows := |g|);
    if EmptyGrid(g) {
      return SheetOutcome(info.(reason := EmptyReason), EmptySheet, false, None);
    }
    var idRow := FindIdColumnRow(g);
    if idRow.None? {
      return SheetOutcome(info.(reason := NoIdReason), SkippedSheet, false, None);
    }
    var m := idRow.value;
    var data := CleanDataframe(DataRegion(g, m));
    if |data.rows| == 0 || |data.columns| == 0 {
      return SheetOutcome(info.(reason := CleanedEmptyReason), SkippedSheet, true, None);
    }
    var x := Tag(data, file, s.name, folder);
    info := info.(status := Succeeded, processedRows := |x.rows|, columnsCount := |x.columns|,
                  reason := SuccessReason(|x.rows|));
    o := SheetOutcome(info, ProcessedSheet, true, Some(Extract(x, file, s.name, folder, |g|, |x.rows|, x.columns)));
  }

  /** The record names its own sheet, file and folder, and its status,
      reason and list agree: a success is the processed list with its row
      count in the reason, an empty sheet and a sheet without the marker or
      without data after cleaning are skipped with their reasons, an
      unreadable sheet is an error carrying the error text. */
  predicate Coherent(folder: string, file: string, s: Sheet, o: SheetOutcome)
  {
    && o.info.folderName == folder && o.info.fileName == file && o.info.sheetName == s.name
    && (o.category == ProcessedSheet <==> o.info.status == Succeeded)
    && (o.category == ProcessedSheet <==> o.extract.Some?)
    && (o.category == ErrorSheet <==> o.info.status == Failed)
    && (o.category == ErrorSheet <==> s.content.Unreadable?)
    && (o.category == ErrorSheet ==> o.info.reason == s.content.reason && o.info.originalRows == 0)
    && (o.category == EmptySheet ==> o.info.status == Skipped && o.info.reason == EmptyReason)
    && (o.category == SkippedSheet ==>
          o.info.status == Skipped && (o.info.reason == NoIdReason || o.info.reason == CleanedEmptyReason))
    && (o.category == ProcessedSheet ==> o.info.reason == SuccessReason(o.info.processedRows))
    && (o.idColumn <==> o.category == ProcessedSheet || (o.category == SkippedSheet && o.info.reason == CleanedEmptyReason))
    && (o.category != ProcessedSheet ==> o.info.processedRows == 0)
  }

  lemma SheetStepCoherent(folder: string, file: string, s: Sheet)
    requires ValidSheet(s)
    ensures Coherent(folder, file, s, SheetStep(folder, file, s))
  {
    assert NoIdReason != CleanedEmptyReason;
    assert EmptyReason != CleanedEmptyReason;
  }

  /** An empty grid is skipped as empty; a grid without the marker in its
      first ten rows is skipped for that reason. */
  lemma SheetStepSkips(folder: string, file: string, s: Sheet)
    requires ValidSheet(s) && s.content.Loaded?
    ensures EmptyGrid(s.content.grid) <==> SheetStep(folder, file, s).category == EmptySheet
    ensures !EmptyGrid(s.content.grid) && MarkerRow(s.content.grid).None? <==>
      SheetStep(folder, file, s).category == SkippedSheet && SheetStep(folder, file, s).info.reason == NoIdReason
  {
    assert NoIdReason != CleanedEmptyReason;
  }

  /** A well-formed table with at least one row, with all three provenance
      columns filled in, whose record repeats its size. */
  predicate GoodExtract(x: Extract)
  {
    && WellFormed(x.data) && |x.data.rows| > 0
    && x.processedRows == |x.data.rows| && x.columns == x.data.columns
    && FileNameCol in x.columns && SheetNameCol in x.columns && FolderNameCol in x.columns
    && (forall k, j :: 0 <= k < |x.data.rows| && 0 <= j < |x.columns| && x.columns[j] == FolderNameCol ==>
          x.data.rows[k][j] == Text(x.folderName))
    && (forall k, j :: 0 <= k < |x.data.rows| && 0 <= j < |x.columns| && x.columns[j] == SheetNameCol ==>
          x.data.rows[k][j] == Text(x.sheetName))
    && (forall k, j :: 0 <= k < |x.data.rows| && 0 <= j < |x.columns| && x.columns[j] == FileNameCol ==>
          x.data.rows[k][j] == Text(x.fileName))
  }

  /** A sheet's table is good and is recorded with its file, sheet, folder
      and the size of the grid it was read from. */
  lemma SheetStepExtract(folder: string, file: string, s: Sheet)
    requires ValidSheet(s) && SheetStep(folder, file, s).extract.Some?
    ensures var o := SheetStep(folder, file, s);
      var x := o.extract.value;
      && GoodExtract(x)
      && x.fileName == file && x.sheetName == s.name && x.folderName == folder
      && x.originalRows == |s.content.grid| == o.info.originalRows
      && o.info.processedRows == x.processedRows && o.info.columnsCount == |x.columns|
  {
    var g := s.content.grid;
    var m := MarkerRow(g).value;
    var d := CleanDataframe(DataRegion(g, m));
    var x := Tag(d, file, s.name, folder);
    assert SheetStep(folder, file, s).extract.value == Extract(x, file, s.name, folder, |g|, |x.rows|, x.columns);
    TagFills(d, file, s.name, folder);
  }

  lemma TagFills(d: Table, file: string, sheet: string, folder: string)
    requires WellFormed(d)
    ensures var x := Tag(d, file, sheet, folder);
      && WellFormed(x) && |x.rows| == |d.rows|
      && FileNameCol in x.columns && SheetNameCol in x.columns && FolderNameCol in x.columns
      && (forall k, j :: 0 <= k < |x.rows| && 0 <= j < |x.columns| && x.columns[j] == FolderNameCol ==>
            x.rows[k][j] == Text(folder))
      && (forall k, j :: 0 <= k < |x.rows| && 0 <= j < |x.columns| && x.columns[j] == SheetNameCol ==>
            x.rows[k][j] == Text(sheet))
      && (forall k, j :: 0 <= k < |x.rows| && 0 <= j < |x.columns| && x.columns[j] == FileNameCol ==>
            x.rows[k][j] == Text(file))
  {
    var a := Assign(d, FileNameCol, Text(file));
    var b := Assign(a, SheetNameCol, Text(sheet));
    var x := Assign(b, FolderNameCol, Text(folder));
    assert FileNameCol != SheetNameCol && FileNameCol != FolderNameCol && SheetNameCol != FolderNameCol;
    forall k, j | 0 <= k < |x.rows| && 0 <= j < |x.columns| && x.columns[j] == SheetNameCol
      ensures x.rows[k][j] == Text(sheet)
    {
      assert j < |b.columns| && b.columns[j] == SheetNameCol;
    }
    forall k, j | 0 <= k < |x.rows| && 0 <= j < |x.columns| && x.columns[j] == FileNameCol
      ensures x.rows[k][j] == Text(file)
    {
      assert j < |b.columns| && b.columns[j] == FileNameCol;
      assert j < |a.columns| && a.columns[j] == FileNameCol;
    }
  }

  /** Outside the provenance columns, a cell of a sheet's table is the cell
      of a row strictly below the header row that survived cleaning. */
  lemma SheetStepCell(folder: string, file: string, s: Sheet, p: nat, q: nat)
    requires ValidSheet(s) && SheetStep(folder, file, s).extract.Some?
    requires var x := SheetStep(folder, file, s).extract.value.data;
      p < |x.rows| && q < |x.columns| && x.columns[q] != FileNameCol && x.columns[q] != SheetNameCol && x.columns[q] != FolderNameCol
    ensures var g := s.content.grid;
      var m := MarkerRow(g).value;
      var t := DataRegion(g, m);
      var kr, kc := ValueRows(t), ValueColumns(t);
      var x := SheetStep(folder, file, s).extract.value.data;
      && p < |kr| && q < |kc| && m + 1 + kr[p] < |g|
      && x.columns[q] == HeaderName(g[m][kc[q]])
      && x.rows[p][q] == g[m + 1 + kr[p]][kc[q]]
  {
    var g := s.content.grid;
    var m := MarkerRow(g).value;
    var t := DataRegion(g, m);
    var d := CleanDataframe(t);
    TagKeeps(d, file, s.name, folder, p, q);
  }

  /** Tagging moves no column and changes no cell outside the provenance
      columns. */
  lemma TagKeeps(d: Table, file: string, sheet: string, folder: string, p: nat, q: nat)
    requires WellFormed(d)
    requires var x := Tag(d, file, sheet, folder);
      p < |x.rows| && q < |x.columns| && x.columns[q] != FileNameCol && x.columns[q] != SheetNameCol && x.columns[q] != FolderNameCol
    ensures q < |d.columns| && p < |d.rows|
    ensures Tag(d, file, sheet, folder).columns[q] == d.columns[q]
    ensures Tag(d, file, sheet, folder).rows[p][q] == d.rows[p][q]
  {
    var a := Assign(d, FileNameCol, Text(file));
    var b := Assign(a, SheetNameCol, Text(sheet));
    var x := Assign(b, FolderNameCol, Text(folder));
    assert q < |b.columns| && b.columns[q] == x.columns[q];
    assert q < |a.columns| && a.columns[q] == b.columns[q];
  }
}
