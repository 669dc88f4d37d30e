# Excel batch extraction, modelled in Dafny

The repository reads batches of workbooks and pulls one table out of every
worksheet. The table is anchored on the first row, among the first ten,
that contains the marker `身份证号` (an ID-card number heading). The rows
below that marker row become the data, and the marker row supplies the
column names. The extracted tables are then cleaned, tagged with where they
came from, put onto one sorted set of columns and concatenated. The
repository does this twice, in two independent scripts:

- `excel.py` is a functional pipeline:
  - `process_sheet` and its error decorator;
  - `process_file` and `process_excel_files` with their counters;
  - `unify_columns` with the final concatenation;
  - `collect_column_sources`;
  - `calculate_completeness_stats`.

  It tags every row with two provenance columns, `文件名` (file name) and
  `工作表名` (sheet name).
- `main.py` is an `ExcelProcessor` object whose methods update its
  `processing_summary` counters, its `processing_details` lists and
  `all_data`. It has three provenance columns: the two above plus
  `文件夹名` (folder name). It walks the sub-folders whose name starts with
  `优`, keeps a tally per folder and groups the sheet records by file.

A cell is `Null`, `Text(s)` or `Num(n)`. A raw worksheet is a rectangular
grid of cells. A table (a DataFrame) is a sequence of column labels plus
rows of the same width. The row index is always `0..n-1`, so it is
implicit. What the workbook reader returns is an input:

- an opened workbook lists its sheets;
- a sheet is either a grid or the error text its read raised;
- a workbook that cannot be opened carries the error text.

Files:

- `wrappers.dfy`: `Option` and `Result`.
- `strings.dfy`: `str()` of integers, substring search, `str.strip`,
  Python's string order, sorted sets of strings.
- `frames.dfy`: cells, grids and tables, plus the pandas operations both
  scripts use:
  - boolean-mask selection;
  - the two `dropna` calls;
  - scalar column assignment;
  - `reindex(columns=...)`;
  - `concat(ignore_index=True)`.

  It also holds the marker-row search, which is shared by both scripts.
- `excel_sheet.dfy`: `find_target_row`, `create_headers`, `clean_data`,
  `process_sheet`.
- `excel_merge.dfy`: `unify_columns` with the concatenation,
  `collect_column_sources`, `calculate_completeness_stats`.
- `excel_run.dfy`: `process_file` and `process_excel_files`.
- `main_sheet.dfy`: `find_id_column_row`, the header and data split,
  `clean_dataframe`, one pass of `process_excel_file`'s sheet loop.
- `main_merge.dfy`: `merge_all_data`.
- `main_processor.dfy`:
  - the processor's state;
  - `process_excel_file`, `merge_all_data` and `process_folders` as
    methods of the class `ExcelProcessor`;
  - the specification functions those methods are proved against.

The loops of the source are methods with loop invariants. Each is proved
equal to a fold-style specification function, and the properties are
lemmas about those functions:

- `FindTargetRow`, `CreateHeaders`, `CollectColumnSources`,
  `CalculateCompletenessStats`, `ProcessFile` and `ProcessExcelFiles`;
- `FindIdColumnRow`;
- `ExcelProcessor.ProcessExcelFile`, `MergeAllData` and `ProcessFolders`.

The processor's counters are tied to its lists by the class invariant
`ExcelProcessor.Valid` (predicate `MainProcessor.Consistent`):

- `sheets_processed` is the number of processed plus skipped records;
- `sheets_with_id_column` is the number of processed records plus those
  skipped because cleaning left nothing;
- `total_rows` is the number of processed rows;
- each list holds only the statuses and reasons it should.

`Note`, `NoteSheet`, `ProcessExcelFile`, `ProcessFiles`, `ProcessFolder`,
`ProcessTargets` and `ProcessFolders` each require this invariant and keep
it. `Tally` is the bare counting step inside `Note`; it states the new
state exactly and leaves the invariant to `Note`.

## Model

| member | source | states |
|---|---|---|
| Frames.MarkerRow | excel.py:44-49 | The marker row is `None` exactly when none of the first `min(10, len)` rows has a cell whose `astype(str)` contains `身份证号`. Otherwise it is the first such row, and it lies below `min(10, len)`. |
| Frames.MarkerTestsAgree | main.py:281-288 | main.py's test needs a non-null cell; excel.py's test stringifies nulls to "nan". The two tests accept the same rows, so both scripts pick the same marker row. |
| ExcelSheet.FindTargetRow | excel.py:44-49 | The search loop returns the first marker row among the first ten, or `None` exactly when there is none. |
| ExcelSheet.Headers | excel.py:62-74 | There is one header per cell of the marker row. |
| ExcelSheet.HeadersDistinct | excel.py:62-74 | The headers are pairwise distinct. |
| ExcelSheet.HeadersPrefix | excel.py:65-73 | Each header depends only on the cells before it and itself (names are assigned left to right). |
| ExcelSheet.HeadersNaming | excel.py:66-73 | The base name of header i is `str(val)`, or `未命名_i` for a null. Header i is that base name if the base is still free. Otherwise it is `<base>_k` for the smallest k ≥ 1 whose name is not taken by an earlier header. |
| ExcelSheet.FirstFree | excel.py:69-72 | The collision counter stops at the first candidate not used yet, and every earlier candidate is used. |
| ExcelSheet.FirstFreeUnique | excel.py:69-72 | That stopping point is unique. |
| ExcelSheet.CandidateInjective | excel.py:69-71 | Distinct counters give distinct names, so the while loop ends. |
| ExcelSheet.CreateHeaders | excel.py:62-74 | The header loop with its inner while loop returns `Headers(row)`: as long as the row and pairwise distinct. |
| ExcelSheet.FreeName | excel.py:68-72 | The inner while loop returns the first free `<base>_k` (or the base itself), and that name is not used yet. |
| ExcelSheet.CleanData | excel.py:52-59 | Cleaning only selects rows and columns. Their indices increase, so the original order is kept, no cell is changed and the index is renumbered. |
| ExcelSheet.CleanDataColumnsIff | excel.py:55-57 | A column survives iff two things hold. It has a non-null cell in a row that is not entirely null (the dropna calls). It has a non-blank cell anywhere in the input, because the step-3 mask is evaluated on the original `df`. |
| ExcelSheet.CleanDataRowsIff | excel.py:55-58 | A row survives iff it is not entirely null and has a non-blank cell among the surviving columns. |
| ExcelSheet.CleanDataRowNonBlank | excel.py:58 | Every surviving row has a cell whose stripped string is non-empty. |
| ExcelSheet.CleanDataRowsNonBlank | excel.py:58 | The same, for all surviving rows at once. |
| ExcelSheet.CleanDataColumnsHaveValue | excel.py:55-56 | Every surviving column had a non-null cell among the rows that survive step 1. |
| ExcelSheet.CleanDataNullRowKeepsColumns | excel.py:57 | If the input has a fully null row, step 3 drops no column: a null renders as "nan", which is never blank. |
| ExcelSheet.CleanDataNotIdempotent | excel.py:52-59 | Applied to a concrete table, cleaning twice differs from cleaning once. |
| ExcelSheet.Region | excel.py:91-93 | The data region is exactly the rows strictly below the marker row. |
| ExcelSheet.ProcessSheet | excel.py:77-98 | `process_sheet` under its error decorator gives `SheetResult`: a sheet that cannot be read gives no table. |
| ExcelSheet.SheetResultNone | excel.py:77-98 | There is no table iff one of these holds: the sheet could not be read, the grid is empty, there is no marker row, or cleaning leaves no row. |
| ExcelSheet.SheetTableDistinct | excel.py:96-97 | A produced table is well formed and non-empty, has distinct labels, and carries `文件名` and `工作表名`. |
| ExcelSheet.SheetTableTagged | excel.py:96-97 | Every row of a produced table holds the file name under `文件名` and the sheet name under `工作表名`. |
| ExcelSheet.SheetTableColumns | excel.py:90-96 | The leading labels of a produced table are the headers of the kept columns, in order. |
| ExcelSheet.SheetTableRows | excel.py:92-96 | A produced table has one row per kept row of the region, in order. |
| ExcelSheet.SheetTableCell | excel.py:90-96 | Each data cell of a produced table is the grid cell strictly below the marker row at the kept row and column. |
| ExcelSheet.TagKeeps | excel.py:97 | Tagging does not change any other column. |
| ExcelMerge.UnifiedColumns | excel.py:244-249 | The unified labels are the sorted union of the non-provenance labels, with `['文件名', '工作表名']` appended after them. |
| ExcelMerge.UnifiedDistinct | excel.py:249 | The unified labels are pairwise distinct. |
| ExcelMerge.UnifiedHasEveryColumn | excel.py:244-249 | Every label of every input is among the unified labels. |
| ExcelMerge.UnifyColumns | excel.py:239-253 | Each output table has exactly the unified labels and keeps its row count. A label the input had keeps its values. An absent label is filled with nulls. An empty input gives `[]`. |
| ExcelMerge.UnifyRoundTrip | excel.py:253 | Reindexing a unified table back onto its input's own labels gives the input: nothing is lost. |
| ExcelMerge.MergeTables | excel.py:542-543 | The concatenation has the unified labels and as many rows as the inputs together. |
| ExcelMerge.MergeTablesRow | excel.py:542-543 | Row k of input i lands at position `rows(ts[..i]) + k`, so input order is kept. |
| ExcelMerge.AddSourcesFor | excel.py:266-267 | Adding one table's pair to the sets of its labels adds exactly that pair to exactly those labels. |
| ExcelMerge.ColumnSourcesIff | excel.py:256-269 | A pair is in the source set of a label iff some non-empty input has that data label and this first-row (file, sheet) pair. Empty inputs contribute nothing. |
| ExcelMerge.ColumnSourcesKeys | excel.py:256-269 | The labels with a source set are exactly the data labels of the non-empty inputs. |
| ExcelMerge.CollectColumnSources | excel.py:256-269 | The nested loops over the defaultdict of sets compute `ColumnSources`. |
| ExcelMerge.NonNullCount | excel.py:296 | A non-null count is at most the row count. |
| ExcelMerge.StatsFor | excel.py:292-302 | There is one entry per data column, in column order, and each count is at most `len(df)`. |
| ExcelMerge.SortByCount | excel.py:304 | Sorting permutes the entries. |
| ExcelMerge.SortByCountSorted | excel.py:304 | Sorting orders the entries by non-null count, descending. |
| ExcelMerge.SortByCountStable | excel.py:304 | Entries with equal counts keep their relative order, as Python's sort does. |
| ExcelMerge.CalculateCompletenessStats | excel.py:290-304 | The loop, then the sort. |
| ExcelMerge.CompletenessOrder | excel.py:290-304 | The stats are sorted by count, descending and stable. |
| ExcelMerge.CompletenessEntries | excel.py:292-302 | There is one entry per data column, each a non-provenance label, each count at most `len(df)`. |
| ExcelMerge.CompletenessCovers | excel.py:292-295 | Every data column has an entry. |
| ExcelRun.SheetsFoldCounts | excel.py:124-151 | Every sheet increments exactly one of `sheets_processed` and `sheets_skipped`. `sheets_processed` is the number of tables, and the tables are the present results in order. `total_data_rows` is the sum of their rows. There is one detail per sheet. |
| ExcelRun.FileOutcomeCounts | excel.py:101-160 | The same facts for an opened workbook, with `total_sheets` equal to the number of sheets. |
| ExcelRun.FileOutcomeError | excel.py:162-169 | A workbook that cannot be opened gives no tables and carries its error. |
| ExcelRun.DetailColumnsCount | excel.py:141-146 | The detail's `columns_count` is the width minus the two provenance columns. |
| ExcelRun.ProcessFile | excel.py:101-169 | The sheet loop with its counters computes `FileOutcome`. |
| ExcelRun.RecordFile | excel.py:507-526 | One pass of the file loop. An errored file adds no tables. |
| ExcelRun.TallyCounts | excel.py:505-526 | Every file increments exactly one of `processed_files` and `skipped_files`. Every file gives a detail or an error entry. Processed plus skipped sheets equal `total_sheets`. `processed_sheets` is the number of collected tables. |
| ExcelRun.Tally | excel.py:505-526 | Every collected table is well formed, carries `文件名` and `工作表名`, and has distinct labels. |
| ExcelRun.ProcessExcelFiles | excel.py:472-570 | The driver computes `Run`. |
| ExcelRun.RunFailure | excel.py:227-228 | The run fails iff there is no candidate file (the error of `get_excel_files`) or no table was collected (the error at line 530). |
| ExcelRun.RunSuccess | excel.py:538-557 | On success the data is the unified concatenation of the collected tables, and `total_rows` is its row count. `sheets_processed` is the number of tables. Files processed plus skipped is the number of files. |
| MainSheet.FindIdColumnRow | main.py:271-288 | The nested loop with its early return gives the first row below `min(10, len)` that has a non-null cell containing the marker, or `None` exactly when there is none. |
| MainSheet.FirstMarkerRow | main.py:281-288 | Such a first row is the marker row. |
| MainSheet.NoMarkerRow | main.py:281-288 | Without such a row there is no marker row. |
| MainSheet.HeaderRow | main.py:369 | The header has the row's length. A null becomes `未命名列` and any other cell becomes `str()`. There is no deduplication. |
| MainSheet.HeaderMayRepeat | main.py:369 | Two nulls give the same name twice. |
| MainSheet.DataRegion | main.py:372-373 | The data is exactly the rows strictly below the marker row, under those headers. |
| MainSheet.CleanDataframe | main.py:300-309 | Cleaning only selects rows and columns, in order, with cells unchanged and the index renumbered. |
| MainSheet.CleanDataframeRowsIff | main.py:301 | A row is kept iff it is not entirely null. |
| MainSheet.CleanDataframeColumnsIff | main.py:304 | A column is kept iff it has a non-null cell in a kept row. |
| MainSheet.CleanDataframeRowHasValue | main.py:301 | No row of the result is entirely null. |
| MainSheet.CleanDataframeColumnHasValue | main.py:304 | No column of the result is entirely null. |
| MainSheet.CleanDataframeIdempotent | main.py:290-309 | Cleaning twice equals cleaning once. |
| MainSheet.ProcessSheet | main.py:336-421 | One pass of the sheet loop computes `SheetStep`. |
| MainSheet.SheetStepCoherent | main.py:335-421 | The record names its folder, file and sheet. The status is `成功处理` exactly for the processed list, which is exactly when a table is collected. It is `错误` exactly for the error list, which is exactly an unreadable sheet, with the exception text as reason. Empty and skipped sheets are `跳过`, with reason `工作表为空`, or `未找到身份证号列` / `清洗后数据为空`. `sheets_with_id_column` is counted exactly for processed sheets and those that clean to nothing. `processed_rows` is nonzero only on success. |
| MainSheet.SheetStepSkips | main.py:353-359 | An empty grid lands in the empty list. A non-empty grid without a marker row is skipped as `未找到身份证号列`. |
| MainSheet.SheetStepExtract | main.py:378-401 | On success, `processed_rows` equals the row count, and `columns_count` counts every label, the three provenance columns included. The collected table names its file, sheet and folder and keeps the original grid height. |
| MainSheet.TagFills | main.py:380-382 | `文件名`, `工作表名` and `文件夹名` are present and hold their constant values in every row. |
| MainSheet.SheetStepCell | main.py:369-382 | Each other cell of a collected table is the grid cell strictly below the marker row, at a kept row and column, under that column's header. |
| MainSheet.TagKeeps | main.py:380-382 | Tagging does not change any other column. |
| MainMerge.Labels | main.py:447-449 | The label union holds exactly the labels of the inputs. |
| MainMerge.MergedColumns | main.py:451 | `sorted(list(all_columns))` is strictly sorted and holds exactly every label of every input, provenance labels included. |
| MainMerge.Pad | main.py:460-462 | Padding appends, once each, the labels the table lacks, as columns of nulls. It keeps the rows, the existing labels and their cells. |
| MainMerge.PadDistinct | main.py:460-465 | Padding neither creates nor removes a repeated label. |
| MainMerge.PadReindex | main.py:460-465 | Padding first does not change what the reindex gives. |
| MainMerge.MergeFailure | main.py:465 | The merge fails, with pandas' duplicate-label error, iff some input has a repeated label. |
| MainMerge.MergeEmpty | main.py:441-442 | No input gives the empty table. |
| MainMerge.MergeShape | main.py:447-469 | A merged table is well formed and has the sorted union of the labels. Its row count is the sum of the inputs. |
| MainMerge.MergeRow | main.py:455-469 | Row k of input i sits at position `rows(ts[..i]) + k`. Each of its labels keeps its value and every other label is null. |
| MainMerge.MergeRoundTrip | main.py:463-469 | Reindexing an input's block back onto the input's labels gives the input. |
| MainProcessor.SheetStepGenuine | main.py:335-421 | Every sheet outcome has the facts the counters rely on. |
| MainProcessor.RecordAllLists | main.py:353-421 | Every sheet lands in exactly one of the four lists. `sheets_processed` grows only for sheets that are neither empty nor errored. |
| MainProcessor.RecordAllAdvances | main.py:335-421 | Recording the sheets of a file keeps the counters consistent with the lists. `total_rows` grows by the rows of the collected tables. |
| MainProcessor.FileRunAdvances | main.py:311-429 | The same holds for a whole file. |
| MainProcessor.FileRunRecords | main.py:423-427 | A workbook that cannot be opened changes nothing and gives nothing. An opened one gives one record per sheet, naming it, and counts as one more processed file. |
| MainProcessor.Targets | main.py:488-489 | The target folders are exactly the entries whose name starts with `优`. |
| MainProcessor.TargetsInOrder | main.py:488-489 | The target folders are the entries at the target positions, in listing order. |
| MainProcessor.SuccessRate | main.py:543 | The rate is 0 when the total is 0, lies within [0, 100], is 100 iff every sheet was processed, and is 0 iff none was. |
| MainProcessor.StatusesAddUp | main.py:539-542 | The processed, skipped and error counts add up to the number of records. |
| MainProcessor.ReportTallies | main.py:539-553 | A folder's total is processed plus skipped plus error, and its rate is 0 when the total is 0. |
| MainProcessor.FileNames | main.py:557-561 | The keys of `files_dict` are distinct and are exactly the file names of the records. |
| MainProcessor.FileNamesOrder | main.py:557-561 | The keys come in the order the files first appear. |
| MainProcessor.OfFile | main.py:557-562 | A file's records are all of that file, and every record of that file is among them. |
| MainProcessor.GroupsAreFilters | main.py:557-562 | The dictionary built record by record has a key per file name, holding that file's records in order. |
| MainProcessor.GroupsContents | main.py:557-562 | Every record is in the group of its file, and a group holds only records of its file. |
| MainProcessor.GroupsPartition | main.py:557-562 | The group sizes add up to the number of records, so each record is kept exactly once. |
| MainProcessor.FilesRunAdvances | main.py:533-536 | A folder's file loop keeps the counters consistent and adds the collected rows to `total_rows`. |
| MainProcessor.FilesRunCounters | main.py:533-536 | `files_processed` grows by the number of workbooks that could be opened. |
| MainProcessor.FoldersRunAdvances | main.py:514-569 | The folder loop keeps the counters consistent. |
| MainProcessor.FoldersRunCounters | main.py:514-569 | `folders_processed` grows by one per folder that has workbooks. Those are the folders that get a report. |
| MainProcessor.ExcelProcessor.constructor | main.py:203-220 | All counters start at zero and all lists and `all_data` start empty. The invariant holds. |
| MainProcessor.ExcelProcessor.Tally | main.py:359-414 | One sheet outcome is recorded into the counters and lists, and `all_data` is untouched. |
| MainProcessor.ExcelProcessor.Note | main.py:359-414 | Recording an outcome the sheet step can produce keeps the invariant. |
| MainProcessor.ExcelProcessor.NoteSheet | main.py:335-414 | One pass of the sheet loop processes the sheet, records its outcome and keeps the invariant. |
| MainProcessor.ExcelProcessor.ProcessExcelFile | main.py:311-429 | The processor's new state, the file's tables and its records are `FileRun` of the old state. The invariant is kept. |
| MainProcessor.ExcelProcessor.ProcessFiles | main.py:531-537 | The file loop of one folder computes `FilesRun` and keeps the invariant. |
| MainProcessor.ExcelProcessor.AddMissingColumns | main.py:460-462 | The padding loop computes `Pad`. |
| MainProcessor.ExcelProcessor.CollectLabels | main.py:447-449 | The union loop collects every label of every table. |
| MainProcessor.ExcelProcessor.UnifyTables | main.py:455-466 | The loop succeeds iff no padded table repeats a label, and then gives every table padded and reindexed. |
| MainProcessor.ExcelProcessor.MergeAllData | main.py:431-472 | The method computes `Merge` of the collected tables. |
| MainProcessor.ExcelProcessor.GroupByFile | main.py:557-562 | The loop builds `files_dict` and its key order. |
| MainProcessor.ExcelProcessor.SummarizeFolder | main.py:539-553 | The folder summary is its tallies, its rate and its grouping. |
| MainProcessor.ExcelProcessor.ProcessFolder | main.py:514-569 | One pass of the folder loop. A folder without workbooks is passed over. Otherwise its files are processed, it is summarised and `folders_processed` grows by one. |
| MainProcessor.ExcelProcessor.ProcessTargets | main.py:514-569 | The folder loop computes `FoldersRun` and keeps the invariant. |
| MainProcessor.ExcelProcessor.ProcessFolders | main.py:474-572 | With no source folder or no target folder it returns false and changes nothing. Otherwise the state is `FoldersRun` of the old state, and `all_data` is replaced by the tables collected. `total_rows` grows by their rows, the invariant is kept, and it returns true iff some table was collected. |

## Left out

- Workbook and file I/O:
  - what is left out: `pd.ExcelFile`, `read_excel`, `excel_file.close()`, the output folder and everything `save_results` writes;
  - how the model stands in: each sheet's grid, or its read error, is an input, and so is whether a workbook can be opened.
- Directory discovery:
  - what is left out: `scan_directory_structure`, `get_excel_files`' scan and its `scan_summary`, and the `iterdir`/`glob` calls;
  - how the model stands in: the candidate files (excel.py) and the folders with their workbooks (main.py) are inputs, and whether the source folder exists is a boolean;
  - kept: the prefix filter on folder names and the error when nothing is found.
- `get_source_folder`, `main()`, `append.py` and `space.py`: these are prompts and whole-script glue.
- Logging and HTML reporting: the `HTMLLogger`, `setup_logging`, the `log_*` functions, `create_summary` and `generate_html_summary`. For main.py, the data handed to the HTML logger is returned by `ProcessFolders` as one `FolderReport` per folder (tallies, rate, grouping) rather than formatted.
- `relative_path` in excel.py's file statistics: it is a path computation.
- The `folders` dictionary of `processing_details`: it is never written in `process_folders`.
- Floating point:
  - `completeness_rate` is left out, and the stats are ordered by non-null count, which gives the same order for a fixed row total;
  - the folder success rate is an exact `real`.
- pandas dtype coercion and float formatting: numbers are integers, and `str()` of a number is its decimal form.
- Exceptions other than the failures the model states. A sheet that cannot be read and a workbook that cannot be opened are explicit outcomes. A merge whose padded tables repeat a label ends in `Failure(DuplicateLabels)`. In excel.py, a run that finds no target file ends in `Failure(NoTargetFiles)`, and one that collects no table ends in `Failure(NoData)`. In main.py, `ProcessFolders` returns false in the matching cases. No other operation of the model fails.
- `calculate_completeness_stats`' result is modelled but not stored in `ExcelRun.ProcessResult`, because the source only logs it.
- Repeated labels in main.py's merge: pandas raises on reindexing a table whose labels repeat. main.py does not deduplicate its headers, so the model returns this as a `Failure` carrying pandas' message, and does not model the exception's propagation.
- Idempotence of excel.py's cleaning: it does not hold, so it is not claimed. `CleanDataNotIdempotent` gives a counterexample. main.py's `clean_dataframe` is idempotent (`CleanDataframeIdempotent`).
