/** main.py's ExcelProcessor: the counters and lists that process_excel_file
    keeps per sheet, merge_all_data over the collected tables, and the
    folder loop of process_folders with its per-folder tallies. */
module MainProcessor {
  import opened Wrappers
  import opened Strings
  import opened Frames
  import opened MainSheet
  import opened MainMerge

  // ---------------------------------------------------------------------
  // The processor's state
  // ---------------------------------------------------------------------

  /** `processing_summary`. */
  datatype Summary = Summary(
    foldersProcessed: nat,
    filesProcessed: nat,
    sheetsProcessed: nat,
    sheetsWithIdColumn: nat,
    totalRows: nat)

  /** The four sheet lists of `processing_details`. */
  datatype Details = Details(
    processedSheets: seq<SheetInfo>,
    skippedSheets: seq<SheetInfo>,
    errorSheets: seq<SheetInfo>,
    emptySheets: seq<SheetInfo>)

  datatype State = State(summary: Summary, details: Details)

  const Initial: State := State(Summary(0, 0, 0, 0, 0), Details([], [], [], []))

  /** The sum of `processed_rows` over sheet records. */
  function InfoRows(xs: seq<SheetInfo>): nat
    decreases |xs|
  {
    if |xs| == 0 then 0 else InfoRows(xs[..|xs| - 1]) + xs[|xs| - 1].processedRows
  }

  /** The sum of `processed_rows` over collected tables. */
  function ExtractRows(xs: seq<Extract>): nat
    decreases |xs|
  {
    if |xs| == 0 then 0 else ExtractRows(xs[..|xs| - 1]) + xs[|xs| - 1].processedRows
  }

  /** How many records carry the given reason. */
  function CountReason(xs: seq<SheetInfo>, reason: string): nat
    decreases |xs|
  {
    if |xs| == 0 then 0
    else CountReason(xs[..|xs| - 1], reason) + (if xs[|xs| - 1].reason == reason then 1 else 0)
  }

  /** The counters agree with the lists: `sheets_processed` counts the
      processed and the skipped sheets, `sheets_with_id_column` the
      processed ones and those skipped for having no data after cleaning,
      `total_rows` the processed rows; every list holds the statuses and
      reasons it should. */
  predicate Consistent(st: State)
  {
    var s, d := st.summary, st.details;
    && s.sheetsProcessed == |d.processedSheets| + |d.skippedSheets|
    && s.sheetsWithIdColumn == |d.processedSheets| + CountReason(d.skippedSheets, CleanedEmptyReason)
    && s.totalRows == InfoRows(d.processedSheets)
    && (forall i :: 0 <= i < |d.processedSheets| ==> d.processedSheets[i].status == Succeeded)
    && (forall i :: 0 <= i < |d.skippedSheets| ==>
          d.skippedSheets[i].status == Skipped &&
          (d.skippedSheets[i].reason == NoIdReason || d.skippedSheets[i].reason == CleanedEmptyReason))
    && (forall i :: 0 <= i < |d.emptySheets| ==>
          d.emptySheets[i].status == Skipped && d.emptySheets[i].reason == EmptyReason)
    && (forall i :: 0 <= i < |d.errorSheets| ==> d.errorSheets[i].status == Failed)
  }

  // ---------------------------------------------------------------------
  // The sheet loop of process_excel_file
  // ---------------------------------------------------------------------

  /** What one sheet outcome does to the counters and the lists. */
  function Record(st: State, o: SheetOutcome): State
  {
    var s, d := st.summary, st.details;
    match o.category
      case ProcessedSheet =>
        State(s.(sheetsProcessed := s.sheetsProcessed + 1, sheetsWithIdColumn := s.sheetsWithIdColumn + 1,
                 totalRows := s.totalRows + o.info.processedRows),
              d.(processedSheets := d.processedSheets + [o.info]))
      case SkippedSheet =>
        State(s.(sheetsProcessed := s.sheetsProcessed + 1,
                 sheetsWithIdColumn := s.sheetsWithIdColumn + (if o.idColumn then 1 else 0)),
              d.(skippedSheets := d.skippedSheets + [o.info]))
      case EmptySheet => State(s, d.(emptySheets := d.emptySheets + [o.info]))
      case ErrorSheet => State(s, d.(errorSheets := d.errorSheets + [o.info]))
  }

  function RecordAll(st: State, os: seq<SheetOutcome>): State
    decreases |os|
  {
    if |os| == 0 then st else Record(RecordAll(st, os[..|os| - 1]), os[|os| - 1])
  }

  /** The tables the outcomes gave, in sheet order: `file_data`. */
  function Extracts(os: seq<SheetOutcome>): seq<Extract>
    decreases |os|
  {
    if |os| == 0 then []
    else
      var o := os[|os| - 1];
      Extracts(os[..|os| - 1]) + (if o.extract.Some? then [o.extract.value] else [])
  }

  /** One record per outcome: `sheets_info`. */
  function Infos(os: seq<SheetOutcome>): (r: seq<SheetInfo>)
    ensures |r| == |os| && forall i :: 0 <= i < |os| ==> r[i] == os[i].info
  {
    seq(|os|, i requires 0 <= i < |os| => os[i].info)
  }

  function Outcomes(folder: string, file: string, sheets: seq<Sheet>): (r: seq<SheetOutcome>)
    requires forall i :: 0 <= i < |sheets| ==> ValidSheet(sheets[i])
    ensures |r| == |sheets| && forall i :: 0 <= i < |sheets| ==> r[i] == SheetStep(folder, file, sheets[i])
  {
    seq(|sheets|, i requires 0 <= i < |sheets| => SheetStep(folder, file, sheets[i]))
  }

  /** The state after a file, its tables and its sheet records. */
  datatype Run = Run(state: State, data: seq<Extract>, infos: seq<SheetInfo>)

  /** process_excel_file: a workbook that cannot be opened changes nothing
      and gives nothing; otherwise every sheet is recorded and the file
      counts as processed. */
  function FileRun(st: State, folder: string, file: string, book: Workbook): Run
    requires ValidBook(book)
  {
    match book
      case Unopenable(_) => Run(st, [], [])
      case Workbook(sheets) =>
        var os := Outcomes(folder, file, sheets);
        var after := RecordAll(st, os);
        Run(after.(summary := after.summary.(filesProcessed := after.summary.filesProcessed + 1)), Extracts(os), Infos(os))
  }

  /** The facts about an outcome that the counters rely on. */
  predicate Genuine(o: SheetOutcome)
  {
    && (o.category == ProcessedSheet ==>
          o.info.status == Succeeded && o.idColumn && o.extract.Some? &&
          o.extract.value.processedRows == o.info.processedRows && GoodExtract(o.extract.value))
    && (o.category == SkippedSheet ==>
          o.info.status == Skipped && o.extract.None? &&
          (o.info.reason == NoIdReason || o.info.reason == CleanedEmptyReason) &&
          (o.idColumn <==> o.info.reason == CleanedEmptyReason))
    && (o.category == EmptySheet ==>
          o.info.status == Skipped && o.info.reason == EmptyReason && !o.idColumn && o.extract.None?)
    && (o.category == ErrorSheet ==> o.info.status == Failed && !o.idColumn && o.extract.None?)
  }

  lemma SheetStepGenuine(folder: string, file: string, s: Sheet)
    requires ValidSheet(s)
    ensures Genuine(SheetStep(folder, file, s))
  {
    SheetStepCoherent(folder, file, s);
    if SheetStep(folder, file, s).extract.Some? {
      SheetStepExtract(folder, file, s);
    }
  }

  // ---------------------------------------------------------------------
  // Where every sheet lands
  // ---------------------------------------------------------------------

  function CountCategory(os: seq<SheetOutcome>, c: Category): nat
    decreases |os|
  {
    if |os| == 0 then 0
    else CountCategory(os[..|os| - 1], c) + (if os[|os| - 1].category == c then 1 else 0)
  }

  /** Every sheet lands in exactly one of the four lists, and
      `sheets_processed` grows only by the sheets that were neither empty
      nor unreadable. */
  lemma {:induction false} RecordAllLists(st: State, os: seq<SheetOutcome>)
    ensures var a, b := st.details, RecordAll(st, os).details;
      && |b.processedSheets| == |a.processedSheets| + CountCategory(os, ProcessedSheet)
      && |b.skippedSheets| == |a.skippedSheets| + CountCategory(os, SkippedSheet)
      && |b.emptySheets| == |a.emptySheets| + CountCategory(os, EmptySheet)
      && |b.errorSheets| == |a.errorSheets| + CountCategory(os, ErrorSheet)
    ensures CountCategory(os, ProcessedSheet) + CountCategory(os, SkippedSheet) +
      CountCategory(os, EmptySheet) + CountCategory(os, ErrorSheet) == |os|
    ensures RecordAll(st, os).summary.sheetsProcessed ==
      st.summary.sheetsProcessed + |os| - CountCategory(os, EmptySheet) - CountCategory(os, ErrorSheet)
    decreases |os|
  {
    if |os| > 0 {
      RecordAllLists(st, os[..|os| - 1]);
    }
  }

  // ---------------------------------------------------------------------
  // Recording keeps the counters consistent
  // ---------------------------------------------------------------------

  /** From a to b the counters stay consistent, the tables collected on the
      way are good, and `total_rows` grows by their rows. */
  /** Every table of xs is a well-formed extract. */
  predicate AllGood(xs: seq<Extract>)
  {
    forall i :: 0 <= i < |xs| ==> GoodExtract(xs[i])
  }

  predicate Advances(a: State, b: State, xs: seq<Extract>)
  {
    && Consistent(b)
    && (forall i :: 0 <= i < |xs| ==> GoodExtract(xs[i]))
    && b.summary.totalRows == a.summary.totalRows + ExtractRows(xs)
  }

  lemma {:induction false} ExtractRowsAppend(xs: seq<Extract>, ys: seq<Extract>)
    ensures ExtractRows(xs + ys) == ExtractRows(xs) + ExtractRows(ys)
    decreases |ys|
  {
    if |ys| == 0 {
      assert xs + ys == xs;
    } else {
      var n := |ys| - 1;
      assert (xs + ys)[..|xs| + n] == xs + ys[..n];
      assert (xs + ys)[|xs| + n] == ys[n];
      ExtractRowsAppend(xs, ys[..n]);
    }
  }

  lemma AdvancesTrans(a: State, b: State, c: State, xs: seq<Extract>, ys: seq<Extract>)
    requires Advances(a, b, xs) && Advances(b, c, ys)
    ensures Advances(a, c, xs + ys)
  {
    ExtractRowsAppend(xs, ys);
  }

  lemma RecordAdvances(st: State, o: SheetOutcome)
    requires Consistent(st) && Genuine(o)
    ensures Advances(st, Record(st, o), if o.extract.Some? then [o.extract.value] else [])
  {
    match o.category
      case ProcessedSheet => RecordProcessedAdvances(st, o);
      case SkippedSheet => RecordSkippedAdvances(st, o);
      case EmptySheet =>
      case ErrorSheet =>
  }

  lemma RecordProcessedAdvances(st: State, o: SheetOutcome)
    requires Consistent(st) && Genuine(o) && o.category == ProcessedSheet
    ensures Advances(st, Record(st, o), [o.extract.value])
  {
    var d := st.details;
    var ps := d.processedSheets + [o.info];
    assert ps[..|d.processedSheets|] == d.processedSheets;
    assert InfoRows(ps) == InfoRows(d.processedSheets) + o.info.processedRows;
    assert [o.extract.value][..0] == [];
    assert ExtractRows([o.extract.value]) == o.info.processedRows;
  }

  lemma RecordSkippedAdvances(st: State, o: SheetOutcome)
    requires Consistent(st) && Genuine(o) && o.category == SkippedSheet
    ensures Advances(st, Record(st, o), [])
  {
    var d := st.details;
    var ks := d.skippedSheets + [o.info];
    assert ks[..|d.skippedSheets|] == d.skippedSheets;
    assert NoIdReason != CleanedEmptyReason;
    assert CountReason(ks, CleanedEmptyReason) ==
      CountReason(d.skippedSheets, CleanedEmptyReason) + (if o.idColumn then 1 else 0);
  }

  lemma {:induction false} RecordAllAdvances(st: State, os: seq<SheetOutcome>)
    requires Consistent(st) && forall i :: 0 <= i < |os| ==> Genuine(os[i])
    ensures Advances(st, RecordAll(st, os), Extracts(os))
    decreases |os|
  {
    if |os| > 0 {
      var n := |os| - 1;
      RecordAllAdvances(st, os[..n]);
      var mid := RecordAll(st, os[..n]);
      RecordAdvances(mid, os[n]);
      AdvancesTrans(st, mid, Record(mid, os[n]), Extracts(os[..n]),
                    if os[n].extract.Some? then [os[n].extract.value] else []);
    }
  }

  /** The sheet loop touches neither the folder nor the file counter. */
  lemma {:induction false} RecordAllKeepsCounters(st: State, os: seq<SheetOutcome>)
    ensures RecordAll(st, os).summary.filesProcessed == st.summary.filesProcessed
    ensures RecordAll(st, os).summary.foldersProcessed == st.summary.foldersProcessed
    decreases |os|
  {
    if |os| > 0 {
      RecordAllKeepsCounters(st, os[..|os| - 1]);
    }
  }

  lemma FileRunAdvances(st: State, folder: string, file: string, book: Workbook)
    requires Consistent(st) && ValidBook(book)
    ensures var r := FileRun(st, folder, file, book); Advances(st, r.state, r.data)
  {
    if book.Workbook? {
      var os := Outcomes(folder, file, book.sheets);
      forall i | 0 <= i < |os| ensures Genuine(os[i]) {
        SheetStepGenuine(folder, file, book.sheets[i]);
      }
      RecordAllAdvances(st, os);
    }
  }

  /** Each sheet of an opened workbook gets exactly one record, in sheet
      order, naming its folder, file and sheet, and the file counts as
      processed; a workbook that cannot be opened leaves everything as it
      was. */
  lemma FileRunRecords(st: State, folder: string, file: string, book: Workbook)
    requires ValidBook(book)
    ensures var r := FileRun(st, folder, file, book);
      && (book.Unopenable? ==> r == Run(st, [], []))
      && (book.Workbook? ==>
            && |r.infos| == |book.sheets|
            && r.state.summary.filesProcessed == st.summary.filesProcessed + 1
            && forall i :: 0 <= i < |book.sheets| ==>
                 && r.infos[i].sheetName == book.sheets[i].name
                 && r.infos[i].fileName == file && r.infos[i].folderName == folder)
  {
    if book.Workbook? {
      RecordAllKeepsCounters(st, Outcomes(folder, file, book.sheets));
      forall i | 0 <= i < |book.sheets|
        ensures Coherent(folder, file, book.sheets[i], SheetStep(folder, file, book.sheets[i]))
      {
        SheetStepCoherent(folder, file, book.sheets[i]);
      }
    }
  }

  // ---------------------------------------------------------------------
  // Folders
  // ---------------------------------------------------------------------

  datatype ExcelFile = ExcelFile(name: string, book: Workbook)

  /** A sub-folder of the source folder with the workbooks found in it. */
  datatype Folder = Folder(name: string, files: seq<ExcelFile>)

  predicate ValidFolder(f: Folder)
  {
    forall i :: 0 <= i < |f.files| ==> ValidBook(f.files[i].book)
  }

  /** process_folders works on the sub-folders whose name starts with this. */
  const TargetPrefix: string := "优"

  function Targets(entries: seq<Folder>): (r: seq<Folder>)
    ensures forall f :: f in r <==> f in entries && TargetPrefix <= f.name
    decreases |entries|
  {
    if |entries| == 0 then []
    else
      var n := |entries| - 1;
      assert entries == entries[..n] + [entries[n]];
      Targets(entries[..n]) + (if TargetPrefix <= entries[n].name then [entries[n]] else [])
  }

  /** Which positions of a listing hold a target folder. */
  function TargetMask(entries: seq<Folder>): nat -> bool
  {
    (k: nat) => k < |entries| && TargetPrefix <= entries[k].name
  }

  /** The target folders are the entries at the target positions, in the
      order of the listing: Where gives those positions increasing and
      all of them. */
  lemma {:induction false} TargetsInOrder(entries: seq<Folder>)
    ensures var ix := Where(|entries|, TargetMask(entries));
      && |Targets(entries)| == |ix|
      && forall p :: 0 <= p < |ix| ==> ix[p] < |entries| && Targets(entries)[p] == entries[ix[p]]
    decreases |entries|
  {
    if |entries| > 0 {
      var n := |entries| - 1;
      var pre := entries[..n];
      TargetsInOrder(pre);
      WhereSame(n, TargetMask(entries), TargetMask(pre));
      var ix, ixPre := Where(|entries|, TargetMask(entries)), Where(n, TargetMask(pre));
      var r, rPre := Targets(entries), Targets(pre);
      assert ix == ixPre + (if TargetMask(entries)(n) then [n] else []);
      assert r == rPre + (if TargetPrefix <= entries[n].name then [entries[n]] else []);
      forall p | 0 <= p < |ix|
        ensures ix[p] < |entries| && r[p] == entries[ix[p]]
      {
        if p < |ixPre| {
          assert ix[p] == ixPre[p] && r[p] == rPre[p];
        }
      }
    }
  }

  /** The files of one folder, one after the other. */
  function FilesRun(st: State, folder: string, files: seq<ExcelFile>): Run
    requires forall i :: 0 <= i < |files| ==> ValidBook(files[i].book)
    decreases |files|
  {
    if |files| == 0 then Run(st, [], [])
    else
      var n := |files| - 1;
      var r := FilesRun(st, folder, files[..n]);
      var f := FileRun(r.state, folder, files[n].name, files[n].book);
      Run(f.state, r.data + f.data, r.infos + f.infos)
  }

  /** How many of the files can be opened. */
  function Opened(files: seq<ExcelFile>): nat
    decreases |files|
  {
    if |files| == 0 then 0
    else Opened(files[..|files| - 1]) + (if files[|files| - 1].book.Workbook? then 1 else 0)
  }

  /** How many records carry the given status. */
  function CountStatus(xs: seq<SheetInfo>, s: Status): nat
    decreases |xs|
  {
    if |xs| == 0 then 0
    else CountStatus(xs[..|xs| - 1], s) + (if xs[|xs| - 1].status == s then 1 else 0)
  }

  /** The success rate of a folder, as a percentage. */
  function SuccessRate(processed: nat, total: nat): (r: real)
    ensures total == 0 ==> r == 0.0
    ensures 0 < total && processed <= total ==> 0.0 <= r <= 100.0
    ensures 0 < total ==> (r == 100.0 <==> processed == total)
    ensures 0 < total ==> (r == 0.0 <==> processed == 0)
  {
    if total > 0 then processed as real / total as real * 100.0 else 0.0
  }

  /** The file names of the records, each once, in the order they first
      appear: the keys of `files_dict`. */
  function FileNames(xs: seq<SheetInfo>): (r: seq<string>)
    ensures Distinct(r)
    ensures forall n :: n in r <==> exists i :: 0 <= i < |xs| && xs[i].fileName == n
    decreases |xs|
  {
    if |xs| == 0 then []
    else
      var n := |xs| - 1;
      var p := FileNames(xs[..n]);
      assert forall i :: 0 <= i < n ==> xs[..n][i] == xs[i];
      p + (if xs[n].fileName in p then [] else [xs[n].fileName])
  }

  /** The records of one file, in order. */
  function OfFile(xs: seq<SheetInfo>, name: string): (r: seq<SheetInfo>)
    ensures forall y :: y in r ==> y.fileName == name
    ensures forall i :: 0 <= i < |xs| && xs[i].fileName == name ==> xs[i] in r
    ensures (forall i :: 0 <= i < |xs| ==> xs[i].fileName != name) ==> r == []
    decreases |xs|
  {
    if |xs| == 0 then []
    else
      var n := |xs| - 1;
      assert forall i :: 0 <= i < n ==> xs[..n][i] == xs[i];
      OfFile(xs[..n], name) + (if xs[n].fileName == name then [xs[n]] else [])
  }

  /** `files_dict`, built record by record: a new file name opens an empty
      group, and the record joins the group of its file. */
  function Groups(xs: seq<SheetInfo>): map<string, seq<SheetInfo>>
    decreases |xs|
  {
    if |xs| == 0 then map[]
    else
      var g := Groups(xs[..|xs| - 1]);
      var x := xs[|xs| - 1];
      g[x.fileName := (if x.fileName in g then g[x.fileName] else []) + [x]]
  }

  /** The groups are the file names and, for each, the records of that file
      in order. */
  lemma {:induction false} GroupsAreFilters(xs: seq<SheetInfo>)
    ensures forall n :: n in Groups(xs) <==> n in FileNames(xs)
    ensures forall n :: n in Groups(xs) ==> Groups(xs)[n] == OfFile(xs, n)
    decreases |xs|
  {
    if |xs| > 0 {
      var n := |xs| - 1;
      var p, x := xs[..n], xs[n];
      assert p + [x] == xs;
      GroupsAreFilters(p);
      FileNamesStep(p, x);
      forall c | c in Groups(xs) ensures Groups(xs)[c] == OfFile(xs, c) {
        OfFileStep(p, x, c);
      }
    }
  }

  /** Every record is in the group of its file, a group holds only records
      of its file, and there is a group exactly for each file named. */
  lemma GroupsContents(xs: seq<SheetInfo>)
    ensures forall n :: n in Groups(xs) <==> exists i :: 0 <= i < |xs| && xs[i].fileName == n
    ensures forall i :: 0 <= i < |xs| ==> xs[i].fileName in Groups(xs) && xs[i] in Groups(xs)[xs[i].fileName]
    ensures forall n, y :: n in Groups(xs) && y in Groups(xs)[n] ==> y.fileName == n
  {
    GroupsAreFilters(xs);
  }

  /** The tallies handed to the folder summary of the log. */
  datatype FolderReport = FolderReport(
    name: string,
    excelFiles: nat,
    totalSheets: nat,
    processedSheets: nat,
    skippedSheets: nat,
    errorSheets: nat,
    successRate: real,
    files: seq<string>,
    byFile: map<string, seq<SheetInfo>>)

  function Report(name: string, excelFiles: nat, infos: seq<SheetInfo>): FolderReport
  {
    var processed := CountStatus(infos, Succeeded);
    FolderReport(name, excelFiles, |infos|, processed, CountStatus(infos, Skipped), CountStatus(infos, Failed),
                 SuccessRate(processed, |infos|), FileNames(infos), Groups(infos))
  }

  datatype FolderResult = FolderResult(state: State, data: seq<Extract>, report: Option<FolderReport>)

  /** One pass of process_folders' loop: a folder without workbooks is
      passed over; otherwise its files are processed, it is summarised and
      it counts as processed. */
  function FolderRun(st: State, f: Folder): FolderResult
    requires ValidFolder(f)
  {
    if |f.files| == 0 then FolderResult(st, [], None)
    else
      var r := FilesRun(st, f.name, f.files);
      FolderResult(r.state.(summary := r.state.summary.(foldersProcessed := r.state.summary.foldersProcessed + 1)),
                   r.data, Some(Report(f.name, |f.files|, r.infos)))
  }

  datatype FoldersResult = FoldersResult(state: State, data: seq<Extract>, reports: seq<FolderReport>)

  function FoldersRun(st: State, fs: seq<Folder>): FoldersResult
    requires forall i :: 0 <= i < |fs| ==> ValidFolder(fs[i])
    decreases |fs|
  {
    if |fs| == 0 then FoldersResult(st, [], [])
    else
      var n := |fs| - 1;
      var r := FoldersRun(st, fs[..n]);
      var f := FolderRun(r.state, fs[n]);
      FoldersResult(f.state, r.data + f.data, r.reports + (if f.report.Some? then [f.report.value] else []))
  }

  // ---------------------------------------------------------------------
  // Properties of the folder loop
  // ---------------------------------------------------------------------

  lemma {:induction false} FilesRunAdvances(st: State, folder: string, files: seq<ExcelFile>)
    requires Consistent(st) && forall i :: 0 <= i < |files| ==> ValidBook(files[i].book)
    ensures var r := FilesRun(st, folder, files); Advances(st, r.state, r.data)
    decreases |files|
  {
    if |files| > 0 {
      var n := |files| - 1;
      FilesRunAdvances(st, folder, files[..n]);
      var r := FilesRun(st, folder, files[..n]);
      FileRunAdvances(r.state, folder, files[n].name, files[n].book);
      var f := FileRun(r.state, folder, files[n].name, files[n].book);
      AdvancesTrans(st, r.state, f.state, r.data, f.data);
    }
  }

  lemma {:induction false} FoldersRunAdvances(st: State, fs: seq<Folder>)
    requires Consistent(st) && forall i :: 0 <= i < |fs| ==> ValidFolder(fs[i])
    ensures var r := FoldersRun(st, fs); Advances(st, r.state, r.data)
    decreases |fs|
  {
    if |fs| > 0 {
      var n := |fs| - 1;
      FoldersRunAdvances(st, fs[..n]);
      var r := FoldersRun(st, fs[..n]);
      var f := FolderRun(r.state, fs[n]);
      if |fs[n].files| > 0 {
        FilesRunAdvances(r.state, fs[n].name, fs[n].files);
      }
      AdvancesTrans(st, r.state, f.state, r.data, f.data);
    }
  }

  /** `files_processed` counts the workbooks that could be opened, and the
      files leave `folders_processed` alone. */
  lemma {:induction false} FilesRunCounters(st: State, folder: string, files: seq<ExcelFile>)
    requires forall i :: 0 <= i < |files| ==> ValidBook(files[i].book)
    ensures var r := FilesRun(st, folder, files);
      && r.state.summary.filesProcessed == st.summary.filesProcessed + Opened(files)
      && r.state.summary.foldersProcessed == st.summary.foldersProcessed
    decreases |files|
  {
    if |files| > 0 {
      var n := |files| - 1;
      FilesRunCounters(st, folder, files[..n]);
      var r := FilesRun(st, folder, files[..n]);
      if files[n].book.Workbook? {
        RecordAllKeepsCounters(r.state, Outcomes(folder, files[n].name, files[n].book.sheets));
      }
    }
  }

  /** `folders_processed` counts the folders that held a workbook, one
      summary each. */
  lemma {:induction false} FoldersRunCounters(st: State, fs: seq<Folder>)
    requires forall i :: 0 <= i < |fs| ==> ValidFolder(fs[i])
    ensures var r := FoldersRun(st, fs);
      r.state.summary.foldersProcessed == st.summary.foldersProcessed + |r.reports|
    ensures |FoldersRun(st, fs).reports| <= |fs|
    decreases |fs|
  {
    if |fs| > 0 {
      var n := |fs| - 1;
      FoldersRunCounters(st, fs[..n]);
      var r := FoldersRun(st, fs[..n]);
      if |fs[n].files| > 0 {
        FilesRunCounters(r.state, fs[n].name, fs[n].files);
      }
    }
  }

  /** Every record has exactly one status, so a folder's sheets are its
      processed, skipped and erroneous ones together. */
  lemma {:induction false} StatusesAddUp(xs: seq<SheetInfo>)
    ensures CountStatus(xs, Succeeded) + CountStatus(xs, Skipped) + CountStatus(xs, Failed) == |xs|
    decreases |xs|
  {
    if |xs| > 0 {
      StatusesAddUp(xs[..|xs| - 1]);
    }
  }

  lemma ReportTallies(name: string, excelFiles: nat, infos: seq<SheetInfo>)
    ensures var r := Report(name, excelFiles, infos);
      && r.totalSheets == r.processedSheets + r.skippedSheets + r.errorSheets
      && 0.0 <= r.successRate <= 100.0
      && (r.totalSheets == 0 ==> r.successRate == 0.0)
  {
    StatusesAddUp(infos);
  }

  /** The sum of the group sizes over the given names. */
  function GroupSizes(names: seq<string>, xs: seq<SheetInfo>): nat
    decreases |names|
  {
    if |names| == 0 then 0
    else GroupSizes(names[..|names| - 1], xs) + |OfFile(xs, names[|names| - 1])|
  }

  /** A record appended to the list grows the group of its own file by one. */
  lemma {:induction false} GroupSizesAppend(names: seq<string>, xs: seq<SheetInfo>, x: SheetInfo)
    requires Distinct(names)
    ensures GroupSizes(names, xs + [x]) == GroupSizes(names, xs) + (if x.fileName in names then 1 else 0)
    decreases |names|
  {
    if |names| > 0 {
      var n := |names| - 1;
      assert (xs + [x])[..|xs|] == xs;
      assert Distinct(names[..n]);
      GroupSizesAppend(names[..n], xs, x);
      assert x.fileName in names <==> x.fileName in names[..n] || x.fileName == names[n] by {
        assert names == names[..n] + [names[n]];
      }
      assert names[n] !in names[..n];
    }
  }

  /** Grouping by file keeps every record exactly once: each is in the group
      of its file (GroupsContents), and the groups together hold as
      many records as there are. */
  lemma {:induction false} GroupsPartition(xs: seq<SheetInfo>)
    ensures GroupSizes(FileNames(xs), xs) == |xs|
    decreases |xs|
  {
    if |xs| > 0 {
      var n := |xs| - 1;
      var p, x := xs[..n], xs[n];
      assert p + [x] == xs;
      GroupsPartition(p);
      FileNamesStep(p, x);
      var names := FileNames(p);
      GroupSizesAppend(names, p, x);
      if x.fileName in names {
        assert FileNames(xs) == names;
        assert GroupSizes(names, xs) == |p| + 1;
      } else {
        GroupSizesNewName(names, p, x);
        assert FileNames(xs) == names + [x.fileName];
        assert GroupSizes(names + [x.fileName], xs) == |p| + 1;
      }
    } else {
      assert FileNames(xs) == [];
    }
  }

  /** A record of a file not seen before opens a group of one. */
  lemma GroupSizesNewName(names: seq<string>, p: seq<SheetInfo>, x: SheetInfo)
    requires names == FileNames(p) && x.fileName !in names
    ensures GroupSizes(names + [x.fileName], p + [x]) == GroupSizes(names, p + [x]) + 1
  {
    var m := x.fileName;
    assert (names + [m])[..|names|] == names;
    OfFileStep(p, x, m);
    assert OfFile(p, m) == [];
  }

  lemma {:induction false} IndexOfAppend(s: seq<string>, t: seq<string>, c: string)
    requires c in s
    ensures IndexOf(s + t, c) == IndexOf(s, c)
    decreases |s|
  {
    if s[0] != c {
      assert (s + t)[1..] == s[1..] + t;
      IndexOfAppend(s[1..], t, c);
    }
  }

  /** The file names of the records, one per record. */
  function FileColumn(xs: seq<SheetInfo>): (r: seq<string>)
    ensures |r| == |xs| && forall i :: 0 <= i < |xs| ==> r[i] == xs[i].fileName
  {
    seq(|xs|, i requires 0 <= i < |xs| => xs[i].fileName)
  }

  /** The groups come in the order their files first appear. */
  lemma {:induction false} FileNamesOrder(xs: seq<SheetInfo>, a: nat, b: nat)
    requires a < b < |FileNames(xs)|
    ensures FileNames(xs)[a] in FileColumn(xs) && FileNames(xs)[b] in FileColumn(xs)
    ensures IndexOf(FileColumn(xs), FileNames(xs)[a]) < IndexOf(FileColumn(xs), FileNames(xs)[b])
    decreases |xs|
  {
    var n := |xs| - 1;
    var p := xs[..n];
    var names := FileNames(p);
    var col := FileColumn(xs);
    assert col == FileColumn(p) + [xs[n].fileName];
    var ca, cb := FileNames(xs)[a], FileNames(xs)[b];
    assert ca == names[a];
    InFileColumn(p, ca);
    IndexOfAppend(FileColumn(p), [xs[n].fileName], ca);
    if b < |names| {
      FileNamesOrder(p, a, b);
      InFileColumn(p, cb);
      IndexOfAppend(FileColumn(p), [xs[n].fileName], cb);
    } else {
      assert cb == xs[n].fileName && cb !in names;
      assert cb !in FileColumn(p);
      assert col[..n] == FileColumn(p);
    }
  }

  lemma InFileColumn(xs: seq<SheetInfo>, c: string)
    requires c in FileNames(xs)
    ensures c in FileColumn(xs)
  {
    var i :| 0 <= i < |xs| && xs[i].fileName == c;
    assert FileColumn(xs)[i] == c;
  }

  /** One more pass of the sheet loop. */
  lemma SheetLoopStep(st: State, os: seq<SheetOutcome>, i: nat)
    requires i < |os|
    ensures RecordAll(st, os[..i + 1]) == Record(RecordAll(st, os[..i]), os[i])
    ensures Extracts(os[..i + 1]) == Extracts(os[..i]) + (if os[i].extract.Some? then [os[i].extract.value] else [])
    ensures Infos(os[..i + 1]) == Infos(os[..i]) + [os[i].info]
  {
    assert os[..i + 1][..i] == os[..i];
  }

  lemma TargetsValid(entries: seq<Folder>)
    requires forall i :: 0 <= i < |entries| ==> ValidFolder(entries[i])
    ensures forall i :: 0 <= i < |Targets(entries)| ==> ValidFolder(Targets(entries)[i])
  {
    var ts := Targets(entries);
    forall i | 0 <= i < |ts| ensures ValidFolder(ts[i]) {
      assert ts[i] in entries;
    }
  }

  /** One more pass of the folder loop. */
  lemma FolderLoopStep(st: State, fs: seq<Folder>, i: nat)
    requires i < |fs| && forall j :: 0 <= j < |fs| ==> ValidFolder(fs[j])
    ensures var r := FoldersRun(st, fs[..i]);
      var f := FolderRun(r.state, fs[i]);
      FoldersRun(st, fs[..i + 1]) ==
        FoldersResult(f.state, r.data + f.data, r.reports + (if f.report.Some? then [f.report.value] else []))
  {
    assert fs[..i + 1][..i] == fs[..i];
  }

  // ---------------------------------------------------------------------
  // merge_all_data
  // ---------------------------------------------------------------------

  /** The tables of the collected entries. */
  function Tables(xs: seq<Extract>): (r: seq<Table>)
    ensures |r| == |xs| && forall i :: 0 <= i < |xs| ==> r[i] == xs[i].data
  {
    seq(|xs|, i requires 0 <= i < |xs| => xs[i].data)
  }

  // ---------------------------------------------------------------------
  // The processor
  // ---------------------------------------------------------------------

  class ExcelProcessor {
    /** `all_data`. */
    var allData: seq<Extract>
    /** `processing_summary`. */
    var summary: Summary
    /** `processing_details`, without the per-folder dictionary. */
    var details: Details

    /** The counters agree with the lists and every collected table is good. */
    predicate Valid()
      reads this
    {
      Consistent(State(summary, details)) && AllGood(allData)
    }

    constructor ()
      ensures Valid() && allData == [] && State(summary, details) == Initial
    {
      allData := [];
      summary := Summary(0, 0, 0, 0, 0);
      details := Details([], [], [], []);
    }

    /** The bookkeeping of one pass of the sheet loop. */
    method Note(o: SheetOutcome)
      requires Valid() && Genuine(o)
      modifies this
      ensures Valid()
      ensures State(summary, details) == Record(old(State(summary, details)), o)
      ensures allData == old(allData)
    {
      ghost var st0 := State(summary, details);
      RecordAdvances(st0, o);
      Tally(o);
    }

    /** The counters and lists one sheet outcome updates. */
    method Tally(o: SheetOutcome)
      modifies this
      ensures State(summary, details) == Record(old(State(summary, details)), o)
      ensures allData == old(allData)
    {
      match o.category
        case ProcessedSheet =>
          summary := summary.(sheetsWithIdColumn := summary.sheetsWithIdColumn + 1,
                              totalRows := summary.totalRows + o.info.processedRows,
                              sheetsProcessed := summary.sheetsProcessed + 1);
          details := details.(processedSheets := details.processedSheets + [o.info]);
        case SkippedSheet =>
          if o.idColumn {
            summary := summary.(sheetsWithIdColumn := summary.sheetsWithIdColumn + 1);
          }
          summary := summary.(sheetsProcessed := summary.sheetsProcessed + 1);
          details := details.(skippedSheets := details.skippedSheets + [o.info]);
        case EmptySheet =>
          details := details.(emptySheets := details.emptySheets + [o.info]);
        case ErrorSheet =>
          details := details.(errorSheets := details.errorSheets + [o.info]);
    }

    /** One pass of the sheet loop of process_excel_file: the sheet is
        processed and its outcome recorded. */
    method NoteSheet(folderName: string, fileName: string, s: Sheet) returns (o: SheetOutcome)
      requires Valid() && ValidSheet(s)
      modifies this
      ensures Valid() && o == SheetStep(folderName, fileName, s)
      ensures State(summary, details) == Record(old(State(summary, details)), o)
      ensures allData == old(allData)
    {
      o := ProcessSheet(folderName, fileName, s);
      SheetStepGenuine(folderName, fileName, s);
      Note(o);
    }

    /** process_excel_file. */
    method ProcessExcelFile(file: ExcelFile, folderName: string) returns (fileData: seq<Extract>, sheetsInfo: seq<SheetInfo>)
      requires Valid() && ValidBook(file.book)
      modifies this
      ensures Valid()
      ensures Run(State(summary, details), fileData, sheetsInfo) ==
        FileRun(old(State(summary, details)), folderName, file.name, file.book)
      ensures allData == old(allData)
    {
      fileData, sheetsInfo := [], [];
      if file.book.Unopenable? {
        return;
      }
      var sheets := file.book.sheets;
      ghost var st0 := State(summary, details);
      ghost var os := Outcomes(folderName, file.name, sheets);
      for i := 0 to |sheets|
        invariant State(summary, details) == RecordAll(st0, os[..i])
        invariant fileData == Extracts(os[..i]) && sheetsInfo == Infos(os[..i])
        invariant allData == old(allData) && Valid()
      {
        SheetLoopStep(st0, os, i);
        var o := NoteSheet(folderName, file.name, sheets[i]);
        if o.extract.Some? {
          fileData := fileData + [o.extract.value];
        }
        sheetsInfo := sheetsInfo + [o.info];
      }
      assert os[..|sheets|] == os;
      summary := summary.(filesProcessed := summary.filesProcessed + 1);
    }

    /** The padding loop of merge_all_data: every label of cols the table
        lacks is added as a column of missing values. */
    static method AddMissingColumns(t: Table, cols: seq<string>) returns (df: Table)
      requires WellFormed(t)
      ensures df == Pad(t, cols)
    {
      df := t;
      for j := 0 to |cols|
        invariant df == Pad(t, cols[..j])
      {
        assert cols[..j + 1][..j] == cols[..j];
        if cols[j] !in df.columns {
          df := Table(df.columns + [cols[j]], seq(|df.rows|, k requires 0 <= k < |df.rows| => df.rows[k] + [Null]));
        }
      }
      assert cols[..|cols|] == cols;
    }

    /** The label-collecting loop of merge_all_data: every label of every
        table, table after table, before they are made a sorted set. */
    static method CollectLabels(data: seq<Extract>) returns (labels: seq<string>)
      ensures labels == Labels(Tables(data))
    {
      ghost var ts := Tables(data);
      labels := [];
      for i := 0 to |data|
        invariant labels == Labels(ts[..i])
      {
        assert ts[..i + 1][..i] == ts[..i];
        labels := labels + data[i].data.columns;
      }
      assert ts[..|data|] == ts;
    }

    /** The loop of merge_all_data that pads and reindexes every table,
        stopping at the first one whose labels repeat. */
    static method UnifyTables(data: seq<Extract>, cols: seq<string>) returns (ok: bool, unified: seq<Table>)
      requires forall i :: 0 <= i < |data| ==> WellFormed(data[i].data)
      ensures ok <==> forall j :: 0 <= j < |data| ==> Distinct(Pad(Tables(data)[j], cols).columns)
      ensures ok ==> unified == Unified(Tables(data), cols)
    {
      ghost var ts := Tables(data);
      unified := [];
      for i := 0 to |data|
        invariant unified == Unified(ts, cols)[..i]
        invariant forall j :: 0 <= j < i ==> Distinct(Pad(ts[j], cols).columns)
      {
        var df := AddMissingColumns(data[i].data, cols);
        if !Distinct(df.columns) {
          return false, unified;
        }
        unified := unified + [Reindex(df, cols)];
      }
      assert unified == Unified(ts, cols);
      ok := true;
    }

    /** merge_all_data. */
    static method MergeAllData(data: seq<Extract>) returns (r: Result<Table>)
      requires forall i :: 0 <= i < |data| ==> WellFormed(data[i].data)
      ensures r == Merge(Tables(data))
    {
      if |data| == 0 {
        return Success(Table([], []));
      }
      var labels := CollectLabels(data);
      var cols := SortedSet(labels);
      var ok, unified := UnifyTables(data, cols);
      if !ok {
        return Failure(DuplicateLabels);
      }
      r := Success(Concat(unified));
    }

    /** The grouping of a folder's records by file name. */
    static method GroupByFile(infos: seq<SheetInfo>) returns (names: seq<string>, groups: map<string, seq<SheetInfo>>)
      ensures names == FileNames(infos) && groups == Groups(infos)
    {
      names, groups := [], map[];
      for i := 0 to |infos|
        invariant names == FileNames(infos[..i]) && groups == Groups(infos[..i])
        invariant forall n :: n in groups <==> n in names
      {
        GroupLoopStep(infos, i);
        var name := infos[i].fileName;
        if name !in groups {
          groups := groups[name := []];
          names := names + [name];
        }
        groups := groups[name := groups[name] + [infos[i]]];
      }
      assert infos[..|infos|] == infos;
    }

    /** The tallies of one folder. */
    static method SummarizeFolder(name: string, excelFiles: nat, infos: seq<SheetInfo>) returns (report: FolderReport)
      ensures report == Report(name, excelFiles, infos)
    {
      var total := |infos|;
      var processed := CountStatus(infos, Succeeded);
      var skipped := CountStatus(infos, Skipped);
      var errors := CountStatus(infos, Failed);
      var rate := if total > 0 then processed as real / total as real * 100.0 else 0.0;
      var names, groups := GroupByFile(infos);
      report := FolderReport(name, excelFiles, total, processed, skipped, errors, rate, names, groups);
    }

    /** The loop of process_folders over the Excel files of one folder. */
    method ProcessFiles(folderName: string, files: seq<ExcelFile>) returns (data: seq<Extract>, infos: seq<SheetInfo>)
      requires Valid() && forall i :: 0 <= i < |files| ==> ValidBook(files[i].book)
      modifies this
      ensures Valid()
      ensures Run(State(summary, details), data, infos) == FilesRun(old(State(summary, details)), folderName, files)
      ensures allData == old(allData)
    {
      ghost var st0 := State(summary, details);
      data, infos := [], [];
      for j := 0 to |files|
        invariant Run(State(summary, details), data, infos) == FilesRun(st0, folderName, files[..j])
        invariant allData == old(allData) && Valid()
      {
        assert files[..j + 1][..j] == files[..j];
        var fileData, sheetsInfo := ProcessExcelFile(files[j], folderName);
        data := data + fileData;
        infos := infos + sheetsInfo;
      }
      assert files[..|files|] == files;
    }

    /** One pass of process_folders' loop. */
    method ProcessFolder(folder: Folder) returns (folderData: seq<Extract>, report: Option<FolderReport>)
      requires Valid() && ValidFolder(folder)
      modifies this
      ensures Valid()
      ensures FolderResult(State(summary, details), folderData, report) == FolderRun(old(State(summary, details)), folder)
      ensures allData == old(allData)
    {
      folderData, report := [], None;
      if |folder.files| == 0 {
        return;
      }
      var folderInfos;
      folderData, folderInfos := ProcessFiles(folder.name, folder.files);
      var r := SummarizeFolder(folder.name, |folder.files|, folderInfos);
      report := Some(r);
      summary := summary.(foldersProcessed := summary.foldersProcessed + 1);
    }

    /** The loop of process_folders over the target folders. */
    method ProcessTargets(targets: seq<Folder>) returns (all: seq<Extract>, reports: seq<FolderReport>)
      requires Valid() && forall i :: 0 <= i < |targets| ==> ValidFolder(targets[i])
      modifies this
      ensures Valid()
      ensures FoldersResult(State(summary, details), all, reports) == FoldersRun(old(State(summary, details)), targets)
      ensures allData == old(allData)
    {
      ghost var st0 := State(summary, details);
      all, reports := [], [];
      for i := 0 to |targets|
        invariant State(summary, details) == FoldersRun(st0, targets[..i]).state
        invariant all == FoldersRun(st0, targets[..i]).data && reports == FoldersRun(st0, targets[..i]).reports
        invariant allData == old(allData) && Valid()
      {
        FolderLoopStep(st0, targets, i);
        var folderData, report := ProcessFolder(targets[i]);
        all := all + folderData;
        if report.Some? {
          reports := reports + [report.value];
        }
      }
      assert targets[..|targets|] == targets;
    }

    /** process_folders: false when the source folder is missing or has no
        target folder; otherwise every target folder is processed, the
        collected tables replace `all_data`, and the result says whether
        any table was collected. */
    method ProcessFolders(sourceExists: bool, entries: seq<Folder>) returns (ok: bool, reports: seq<FolderReport>)
      requires Valid() && forall i :: 0 <= i < |entries| ==> ValidFolder(entries[i])
      modifies this
      ensures Valid()
      ensures !sourceExists || |Targets(entries)| == 0 ==>
        !ok && reports == [] && allData == old(allData) && State(summary, details) == old(State(summary, details))
      ensures sourceExists && |Targets(entries)| > 0 ==>
        var r := FoldersRun(old(State(summary, details)), Targets(entries));
        && State(summary, details) == r.state && allData == r.data && reports == r.reports
        && summary.totalRows == old(summary.totalRows) + ExtractRows(allData)
        && (ok <==> |allData| > 0)
    {
      if !sourceExists {
        return false, [];
      }
      var targets := Targets(entries);
      if |targets| == 0 {
        return false, [];
      }
      TargetsValid(entries);
      ghost var st0 := State(summary, details);
      var all;
      all, reports := ProcessTargets(targets);
      FoldersRunAdvances(st0, targets);
      allData := all;
      ok := |all| > 0;
    }
  }

  /** One more pass of the grouping loop. */
  lemma GroupLoopStep(xs: seq<SheetInfo>, i: nat)
    requires i < |xs|
    ensures var n := xs[i].fileName;
      && FileNames(xs[..i + 1]) == FileNames(xs[..i]) + (if n in FileNames(xs[..i]) then [] else [n])
      && Groups(xs[..i + 1]) ==
           Groups(xs[..i])[n := (if n in Groups(xs[..i]) then Groups(xs[..i])[n] else []) + [xs[i]]]
  {
    assert xs[..i + 1][..i] == xs[..i];
  }

  lemma FileNamesStep(p: seq<SheetInfo>, x: SheetInfo)
    ensures FileNames(p + [x]) == FileNames(p) + (if x.fileName in FileNames(p) then [] else [x.fileName])
  {
    assert (p + [x])[..|p|] == p;
  }

  lemma OfFileStep(p: seq<SheetInfo>, x: SheetInfo, n: string)
    ensures OfFile(p + [x], n) == OfFile(p, n) + (if x.fileName == n then [x] else [])
  {
    assert (p + [x])[..|p|] == p;
  }
}
