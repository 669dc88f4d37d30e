/** The driver of excel.py: every sheet of every candidate workbook through
    process_sheet, with the per-file and per-run counters, then the merge. */
module ExcelRun {
  import opened Wrappers
  import opened Strings
  import opened Frames
  import opened ExcelSheet
  import opened ExcelMerge

  /** One entry of `file_stats['sheet_details']`. */
  datatype SheetDetail = SheetDetail(sheetName: string, hasTarget: bool, dataRows: nat, columnsCount: nat)

  /** `file_stats`; `totalSheets` is absent and `error` present when the
      workbook could not be opened. The relative path is left out. */
  datatype FileStats = FileStats(
    fileName: string,
    totalSheets: Option<nat>,
    sheetsProcessed: nat,
    sheetsSkipped: nat,
    totalDataRows: nat,
    sheetDetails: seq<SheetDetail>,
    error: Option<string>)

  /** One entry of `processing_stats['error_files']`. */
  datatype ErrorInfo = ErrorInfo(fileName: string, error: string)

  datatype ProcessingStats = ProcessingStats(
    totalFiles: nat,
    processedFiles: nat,
    skippedFiles: nat,
    totalSheets: nat,
    processedSheets: nat,
    skippedSheets: nat,
    filesDetails: seq<FileStats>,
    errorFiles: seq<ErrorInfo>)

  /** What process_excel_files returns; the directory scan summary is not
      part of this model. */
  datatype ProcessResult = ProcessResult(
    data: Table,
    filesProcessed: nat,
    sheetsProcessed: nat,
    totalRows: nat,
    columnSources: map<string, set<Source>>,
    processingStats: ProcessingStats)

  /** A candidate workbook: its file name and what opening it gives. */
  type Candidate = (string, Workbook)

  /** The error get_excel_files raises when no candidate was found. */
  const NoTargetFiles: string := "❌ 在指定路径的子文件夹中没有找到以'优'字开头的xlsx文件"

  /** The error process_excel_files raises when no sheet gave a table. */
  const NoData: string := "没有成功处理任何数据"

  // ---------------------------------------------------------------------
  // process_file
  // ---------------------------------------------------------------------

  /** process_sheet on each sheet, in order. */
  function SheetResults(file: string, sheets: seq<Sheet>): (r: seq<Option<Table>>)
    requires forall i :: 0 <= i < |sheets| ==> ValidSheet(sheets[i])
    ensures |r| == |sheets| && forall i :: 0 <= i < |r| ==> r[i] == SheetResult(file, sheets[i])
  {
    seq(|sheets|, i requires 0 <= i < |sheets| => SheetResult(file, sheets[i]))
  }

  /** The tables among the results, in order. */
  function Present(rs: seq<Option<Table>>): seq<Table>
    decreases |rs|
  {
    if |rs| == 0 then []
    else Present(rs[..|rs| - 1]) + (if rs[|rs| - 1].Some? then [rs[|rs| - 1].value] else [])
  }

  /** The detail recorded for one sheet: the row count and the number of
      labels other than the provenance columns of the table it gave. */
  function Detail(name: string, r: Option<Table>): SheetDetail
  {
    match r
      case None => SheetDetail(name, false, 0, 0)
      case Some(t) => SheetDetail(name, true, |t.rows|, |DataColumns(t.columns)|)
  }

  /** One pass of process_file's loop: a table counts as processed and adds
      its rows, no table counts as skipped; either way the detail is
      appended. */
  function SheetStep(acc: (seq<Table>, FileStats), name: string, r: Option<Table>): (seq<Table>, FileStats)
  {
    var (tables, st) := acc;
    match r
      case None =>
        (tables, st.(sheetsSkipped := st.sheetsSkipped + 1, sheetDetails := st.sheetDetails + [Detail(name, r)]))
      case Some(t) =>
        (tables + [t], st.(sheetsProcessed := st.sheetsProcessed + 1, totalDataRows := st.totalDataRows + |t.rows|,
                           sheetDetails := st.sheetDetails + [Detail(name, r)]))
  }

  /** The tables and statistics after the results `rs` of the sheets named
      `names`, in a workbook of `total` sheets. */
  function SheetsFold(file: string, total: nat, names: seq<string>, rs: seq<Option<Table>>): (seq<Table>, FileStats)
    requires |names| == |rs|
    decreases |rs|
  {
    if |rs| == 0 then ([], FileStats(file, Some(total), 0, 0, 0, [], None))
    else
      var n := |rs| - 1;
      SheetStep(SheetsFold(file, total, names[..n], rs[..n]), names[n], rs[n])
  }

  function SheetNames(sheets: seq<Sheet>): (r: seq<string>)
    ensures |r| == |sheets| && forall i :: 0 <= i < |r| ==> r[i] == sheets[i].name
  {
    seq(|sheets|, i requires 0 <= i < |sheets| => sheets[i].name)
  }

  /** What process_file returns for a candidate. */
  function FileOutcome(file: string, book: Workbook): (seq<Table>, FileStats)
    requires ValidBook(book)
  {
    match book
      case Unopenable(reason) => ([], FileStats(file, None, 0, 0, 0, [], Some(reason)))
      case Workbook(sheets) => SheetsFold(file, |sheets|, SheetNames(sheets), SheetResults(file, sheets))
  }

  method ProcessFile(file: string, book: Workbook) returns (tables: seq<Table>, stats: FileStats)
    requires ValidBook(book)
    ensures (tables, stats) == FileOutcome(file, book)
  {
    stats := FileStats(file, None, 0, 0, 0, [], None);
    if book.Unopenable? {
      tables := [];
      stats := stats.(error := Some(book.reason));
      return;
    }
    var sheets := book.sheets;
    ghost var names := SheetNames(sheets);
    ghost var rs := SheetResults(file, sheets);
    stats := stats.(totalSheets := Some(|sheets|));
    tables := [];
    for i := 0 to |sheets|
      invariant (tables, stats) == SheetsFold(file, |sheets|, names[..i], rs[..i])
    {
      SheetsFoldStep(file, |sheets|, names, rs, i);
      var result := ProcessSheet(file, sheets[i]);
      tables, stats := RecordSheet(tables, stats, sheets[i].name, result);
    }
    assert names[..|sheets|] == names && rs[..|sheets|] == rs;
  }

  lemma SheetsFoldStep(file: string, total: nat, names: seq<string>, rs: seq<Option<Table>>, i: nat)
    requires |names| == |rs| && i < |rs|
    ensures SheetsFold(file, total, names[..i + 1], rs[..i + 1])
         == SheetStep(SheetsFold(file, total, names[..i], rs[..i]), names[i], rs[i])
  {
    assert names[..i + 1][..i] == names[..i] && rs[..i + 1][..i] == rs[..i];
  }

  /** The bookkeeping of process_file for one sheet and its result. */
  method RecordSheet(tables: seq<Table>, stats: FileStats, name: string, result: Option<Table>)
    returns (tables': seq<Table>, stats': FileStats)
    ensures (tables', stats') == SheetStep((tables, stats), name, result)
  {
    tables', stats' := tables, stats;
    var detail := SheetDetail(name, false, 0, 0);
    if result.Some? {
      var t := result.value;
      tables' := tables' + [t];
      stats' := stats'.(sheetsProcessed := stats'.sheetsProcessed + 1, totalDataRows := stats'.totalDataRows + |t.rows|);
      detail := SheetDetail(name, true, |t.rows|, |DataColumns(t.columns)|);
    } else {
      stats' := stats'.(sheetsSkipped := stats'.sheetsSkipped + 1);
    }
    stats' := stats'.(sheetDetails := stats'.sheetDetails + [detail]);
  }

  /** Every sheet counts as exactly one of processed and skipped; the
      processed ones are the tables returned, in sheet order, their rows add
      up to the data-row total, and every sheet has its own detail entry. */
  lemma {:induction false} SheetsFoldCounts(file: string, total: nat, names: seq<string>, rs: seq<Option<Table>>)
    requires |names| == |rs|
    ensures var (tables, stats) := SheetsFold(file, total, names, rs);
      && stats.totalSheets == Some(total) && stats.error.None? && stats.fileName == file
      && stats.sheetsProcessed + stats.sheetsSkipped == |rs|
      && stats.sheetsProcessed == |tables|
      && tables == Present(rs)
      && stats.totalDataRows == TotalRows(tables)
      && |stats.sheetDetails| == |rs|
      && (forall i :: 0 <= i < |rs| ==> stats.sheetDetails[i] == Detail(names[i], rs[i]))
    decreases |rs|
  {
    if |rs| > 0 {
      var n := |rs| - 1;
      SheetsFoldCounts(file, total, names[..n], rs[..n]);
      var (tables, stats) := SheetsFold(file, total, names, rs);
      var (t0, s0) := SheetsFold(file, total, names[..n], rs[..n]);
      if rs[n].Some? {
        assert tables[..|tables| - 1] == t0;
      }
    }
  }

  lemma FileOutcomeCounts(file: string, book: Workbook)
    requires ValidBook(book) && book.Workbook?
    ensures var (tables, stats) := FileOutcome(file, book);
      && stats.totalSheets == Some(|book.sheets|) && stats.error.None?
      && stats.sheetsProcessed + stats.sheetsSkipped == |book.sheets|
      && stats.sheetsProcessed == |tables|
      && tables == Present(SheetResults(file, book.sheets))
      && stats.totalDataRows == TotalRows(tables)
      && |stats.sheetDetails| == |book.sheets|
      && (forall i :: 0 <= i < |book.sheets| ==>
            stats.sheetDetails[i] == Detail(book.sheets[i].name, SheetResult(file, book.sheets[i])))
  {
    SheetsFoldCounts(file, |book.sheets|, SheetNames(book.sheets), SheetResults(file, book.sheets));
  }

  /** A workbook that cannot be opened gives no table and reports its error. */
  lemma FileOutcomeError(file: string, book: Workbook)
    requires book.Unopenable?
    ensures FileOutcome(file, book).0 == []
    ensures FileOutcome(file, book).1.error == Some(book.reason) && FileOutcome(file, book).1.totalSheets.None?
  {
  }

  /** Among distinct labels that include both provenance columns, exactly
      two are not data labels: a processed sheet's columns_count is its
      table's width less two. */
  lemma DetailColumnsCount(file: string, s: Sheet)
    requires ValidSheet(s) && SheetResult(file, s).Some?
    ensures var t := SheetResult(file, s).value;
      Detail(s.name, SheetResult(file, s)).columnsCount + 2 == |t.columns|
  {
    var g := s.content.grid;
    SheetTableDistinct(file, s.name, g);
    var t := SheetResult(file, s).value;
    WithoutCount(t.columns);
    ProvenanceCount(t.columns);
  }

  /** How many labels are provenance columns. */
  function ProvenanceHits(cols: seq<string>): nat
    decreases |cols|
  {
    if |cols| == 0 then 0
    else ProvenanceHits(cols[..|cols| - 1]) + (if cols[|cols| - 1] in Provenance then 1 else 0)
  }

  lemma {:induction false} WithoutCount(cols: seq<string>)
    ensures |Without(cols, Provenance)| + ProvenanceHits(cols) == |cols|
    decreases |cols|
  {
    if |cols| > 0 {
      WithoutCount(cols[..|cols| - 1]);
    }
  }

  lemma {:induction false} ProvenanceCount(cols: seq<string>)
    requires Distinct(cols)
    ensures ProvenanceHits(cols) == (if FileNameCol in cols then 1 else 0) + (if SheetNameCol in cols then 1 else 0)
    decreases |cols|
  {
    if |cols| > 0 {
      var init := cols[..|cols| - 1];
      var last := cols[|cols| - 1];
      assert Distinct(init) by {
        forall a, b | 0 <= a < b < |init| ensures init[a] != init[b] {
          assert init[a] == cols[a] && init[b] == cols[b];
        }
      }
      ProvenanceCount(init);
      assert cols == init + [last];
      assert last !in init by {
        forall a | 0 <= a < |init| ensures init[a] != last {
          assert init[a] == cols[a];
        }
      }
      assert FileNameCol != SheetNameCol;
    }
  }

  // ---------------------------------------------------------------------
  // process_excel_files
  // ---------------------------------------------------------------------

  /** How one file's outcome updates the run's statistics. */
  function AddFile(s: ProcessingStats, fs: FileStats): ProcessingStats
  {
    match fs.error
      case Some(e) =>
        s.(errorFiles := s.errorFiles + [ErrorInfo(fs.fileName, e)], skippedFiles := s.skippedFiles + 1)
      case None =>
        s.(totalSheets := s.totalSheets + (if fs.totalSheets.Some? then fs.totalSheets.value else 0),
           processedSheets := s.processedSheets + fs.sheetsProcessed,
           skippedSheets := s.skippedSheets + fs.sheetsSkipped,
           processedFiles := s.processedFiles + (if fs.sheetsProcessed > 0 then 1 else 0),
           skippedFiles := s.skippedFiles + (if fs.sheetsProcessed > 0 then 0 else 1),
           filesDetails := s.filesDetails + [fs])
  }

  predicate ValidCandidates(files: seq<Candidate>)
  {
    forall i :: 0 <= i < |files| ==> ValidBook(files[i].1)
  }

  /** A table produced by process_sheet: tagged, with distinct labels. */
  predicate Extracted(t: Table)
  {
    Tagged(t) && Distinct(t.columns)
  }

  /** The tables and statistics after the given files, out of `total`. */
  function Tally(files: seq<Candidate>, total: nat): (r: (seq<Table>, ProcessingStats))
    requires ValidCandidates(files)
    ensures forall i :: 0 <= i < |r.0| ==> Extracted(r.0[i])
    decreases |files|
  {
    if |files| == 0 then ([], ProcessingStats(total, 0, 0, 0, 0, 0, [], []))
    else
      var init := files[..|files| - 1];
      assert ValidCandidates(init) by {
        forall i | 0 <= i < |init| ensures ValidBook(init[i].1) {
          assert init[i] == files[i];
        }
      }
      var prev := Tally(init, total);
      var last := files[|files| - 1];
      var outcome := FileOutcome(last.0, last.1);
      FileTablesExtracted(last.0, last.1);
      var tables := if outcome.1.error.Some? then prev.0 else prev.0 + outcome.0;
      (tables, AddFile(prev.1, outcome.1))
  }

  lemma FileTablesExtracted(file: string, book: Workbook)
    requires ValidBook(book)
    ensures forall i :: 0 <= i < |FileOutcome(file, book).0| ==> Extracted(FileOutcome(file, book).0[i])
  {
    if book.Workbook? {
      var rs := SheetResults(file, book.sheets);
      FileOutcomeCounts(file, book);
      forall i | 0 <= i < |rs| && rs[i].Some? ensures Extracted(rs[i].value) {
        SheetResultExtracted(file, book.sheets[i]);
      }
      PresentExtracted(rs);
    }
  }

  lemma SheetResultExtracted(file: string, s: Sheet)
    requires ValidSheet(s) && SheetResult(file, s).Some?
    ensures Extracted(SheetResult(file, s).value)
  {
    SheetTableDistinct(file, s.name, s.content.grid);
  }

  lemma {:induction false} PresentExtracted(rs: seq<Option<Table>>)
    requires forall i :: 0 <= i < |rs| && rs[i].Some? ==> Extracted(rs[i].value)
    ensures forall i :: 0 <= i < |Present(rs)| ==> Extracted(Present(rs)[i])
    decreases |rs|
  {
    if |rs| > 0 {
      var n := |rs| - 1;
      PresentExtracted(rs[..n]);
      if rs[n].Some? {
        assert Present(rs) == Present(rs[..n]) + [rs[n].value];
      }
    }
  }

  /** What process_excel_files returns or raises. */
  function Run(files: seq<Candidate>): Result<ProcessResult>
    requires ValidCandidates(files)
  {
    if |files| == 0 then Failure(NoTargetFiles)
    else
      var r := Tally(files, |files|);
      assert forall i :: 0 <= i < |r.0| ==> Tagged(r.0[i]) by {
        forall i | 0 <= i < |r.0| ensures Tagged(r.0[i]) {
          assert Extracted(r.0[i]);
        }
      }
      Finish(r.0, r.1)
  }

  /** The end of process_excel_files once every file is tallied. */
  function Finish(all: seq<Table>, stats: ProcessingStats): Result<ProcessResult>
    requires forall i :: 0 <= i < |all| ==> Tagged(all[i])
  {
    if |all| == 0 then Failure(NoData)
    else
      assert AllWellFormed(all) by {
        forall i | 0 <= i < |all| ensures WellFormed(all[i]) {
          assert Tagged(all[i]);
        }
      }
      Success(ProcessResult(MergeTables(all), stats.processedFiles, stats.processedSheets,
        |MergeTables(all).rows|, ColumnSources(all), stats))
  }

  method ProcessExcelFiles(files: seq<Candidate>) returns (r: Result<ProcessResult>)
    requires ValidCandidates(files)
    ensures r == Run(files)
  {
    if |files| == 0 {
      return Failure(NoTargetFiles);
    }
    var stats := ProcessingStats(|files|, 0, 0, 0, 0, 0, [], []);
    var all: seq<Table> := [];
    for i := 0 to |files|
      invariant (all, stats) == Tally(files[..i], |files|)
    {
      assert files[..i + 1][..i] == files[..i];
      var fileTables, fileStats := ProcessFile(files[i].0, files[i].1);
      all, stats := RecordFile(all, stats, fileTables, fileStats);
    }
    assert files[..|files|] == files;
    if |all| == 0 {
      return Failure(NoData);
    }
    var columnSources := CollectColumnSources(all);
    var merged := MergeTables(all);
    r := Success(ProcessResult(merged, stats.processedFiles, stats.processedSheets, |merged.rows|, columnSources, stats));
  }

  /** The bookkeeping of process_excel_files for one file's outcome. */
  method RecordFile(all: seq<Table>, stats: ProcessingStats, fileTables: seq<Table>, fileStats: FileStats)
    returns (all': seq<Table>, stats': ProcessingStats)
    ensures all' == if fileStats.error.Some? then all else all + fileTables
    ensures stats' == AddFile(stats, fileStats)
  {
    all', stats' := all, stats;
    if fileStats.error.Some? {
      stats' := stats'.(errorFiles := stats'.errorFiles + [ErrorInfo(fileStats.fileName, fileStats.error.value)]);
      stats' := stats'.(skippedFiles := stats'.skippedFiles + 1);
    } else {
      all' := all' + fileTables;
      var sheetsSeen := if fileStats.totalSheets.Some? then fileStats.totalSheets.value else 0;
      stats' := stats'.(totalSheets := stats'.totalSheets + sheetsSeen);
      stats' := stats'.(processedSheets := stats'.processedSheets + fileStats.sheetsProcessed);
      stats' := stats'.(skippedSheets := stats'.skippedSheets + fileStats.sheetsSkipped);
      if fileStats.sheetsProcessed > 0 {
        stats' := stats'.(processedFiles := stats'.processedFiles + 1);
      } else {
        stats' := stats'.(skippedFiles := stats'.skippedFiles + 1);
      }
      stats' := stats'.(filesDetails := stats'.filesDetails + [fileStats]);
    }
  }

  /** Every file counts as exactly one of processed and skipped; every
      opened file is in the details and every other in the error list; the
      sheets of opened files count as exactly one of processed and skipped. */
  lemma {:induction false} TallyCounts(files: seq<Candidate>, total: nat)
    requires ValidCandidates(files)
    ensures var s := Tally(files, total).1;
      && s.totalFiles == total
      && s.processedFiles + s.skippedFiles == |files|
      && |s.filesDetails| + |s.errorFiles| == |files|
      && s.processedSheets + s.skippedSheets == s.totalSheets
      && s.processedSheets == |Tally(files, total).0|
    decreases |files|
  {
    if |files| > 0 {
      var init := files[..|files| - 1];
      assert ValidCandidates(init) by {
        forall i | 0 <= i < |init| ensures ValidBook(init[i].1) {
          assert init[i] == files[i];
        }
      }
      TallyCounts(init, total);
      var last := files[|files| - 1];
      if last.1.Workbook? {
        FileOutcomeCounts(last.0, last.1);
      }
    }
  }

  /** process_excel_files fails exactly when there is no candidate or no
      sheet of an opened candidate gave a table, with the matching error. */
  lemma RunFailure(files: seq<Candidate>)
    requires ValidCandidates(files)
    ensures Run(files).Failure? <==> |files| == 0 || |Tally(files, |files|).0| == 0
    ensures Run(files).Failure? ==>
      Run(files).error == if |files| == 0 then NoTargetFiles else NoData
  {
  }

  /** On success the merged table has the unified labels and holds every
      extracted row, and the file counters add up. */
  lemma RunSuccess(files: seq<Candidate>)
    requires ValidCandidates(files) && Run(files).Success?
    ensures var res := Run(files).value;
      var all := Tally(files, |files|).0;
      && res.data == MergeTables(all)
      && res.data.columns == UnifiedColumns(all)
      && res.totalRows == TotalRows(all)
      && res.sheetsProcessed == |all|
      && res.filesProcessed + res.processingStats.skippedFiles == res.processingStats.totalFiles == |files|
  {
    TallyCounts(files, |files|);
  }
}
