/** The merging half of excel.py: one schema for all extracted tables, the
    record of which sheets each column came from, and per-column counts of
    filled cells. */
module ExcelMerge {
  import opened Strings
  import opened Frames
  import opened ExcelSheet

  /** The labels of a table other than the provenance columns. */
  function DataColumns(cols: seq<string>): (r: seq<string>)
    ensures forall c :: c in r <==> c in cols && c !in Provenance
  {
    Without(cols, Provenance)
  }

  // ---------------------------------------------------------------------
  // unify_columns and the concatenation after it
  // ---------------------------------------------------------------------

  /** Every data label of every table, table after table. */
  function AllDataColumns(ts: seq<Table>): (r: seq<string>)
    ensures forall c :: c in r <==> exists i :: 0 <= i < |ts| && c in ts[i].columns && c !in Provenance
    decreases |ts|
  {
    if |ts| == 0 then []
    else
      var init := ts[..|ts| - 1];
      assert forall i :: 0 <= i < |init| ==> init[i] == ts[i];
      AllDataColumns(init) + DataColumns(ts[|ts| - 1].columns)
  }

  /** `sorted(all_columns) + ['文件名', '工作表名']`. */
  function UnifiedColumns(ts: seq<Table>): (r: seq<string>)
    ensures |r| >= 2 && r[|r| - 2..] == Provenance
    ensures StrictlySorted(r[..|r| - 2])
    ensures forall c :: c in r[..|r| - 2] <==> exists i :: 0 <= i < |ts| && c in ts[i].columns && c !in Provenance
  {
    var sorted := SortedSet(AllDataColumns(ts));
    assert (sorted + Provenance)[..|sorted|] == sorted;
    sorted + Provenance
  }

  /** Each table reindexed onto the unified labels. */
  function UnifyColumns(ts: seq<Table>): (r: seq<Table>)
    requires AllWellFormed(ts)
    ensures |r| == |ts| && AllWellFormed(r) && SameColumns(r)
    ensures forall i :: 0 <= i < |r| ==> r[i].columns == UnifiedColumns(ts) && |r[i].rows| == |ts[i].rows|
    ensures forall i, k, c :: 0 <= i < |ts| && 0 <= k < |ts[i].rows| && c in ts[i].columns ==>
      c in UnifiedColumns(ts) &&
      r[i].rows[k][IndexOf(UnifiedColumns(ts), c)] == ts[i].rows[k][IndexOf(ts[i].columns, c)]
    ensures forall i, k, j ::
      0 <= i < |ts| && 0 <= k < |ts[i].rows| && 0 <= j < |UnifiedColumns(ts)| && UnifiedColumns(ts)[j] !in ts[i].columns
      ==> r[i].rows[k][j] == Null
  {
    UnifiedHasEveryColumn(ts);
    if |ts| == 0 then [] else seq(|ts|, i requires 0 <= i < |ts| => Reindex(ts[i], UnifiedColumns(ts)))
  }

  /** No label is lost: every label of every table is a unified label. */
  lemma UnifiedHasEveryColumn(ts: seq<Table>)
    ensures forall i, c :: 0 <= i < |ts| && c in ts[i].columns ==> c in UnifiedColumns(ts)
  {
    var u := UnifiedColumns(ts);
    forall i, c | 0 <= i < |ts| && c in ts[i].columns ensures c in u {
      if c in Provenance {
        assert c in u[|u| - 2..];
      } else {
        assert c in u[..|u| - 2];
      }
    }
  }

  /** The unified labels are distinct, so each table can be reindexed onto
      them and back. */
  lemma UnifiedDistinct(ts: seq<Table>)
    ensures Distinct(UnifiedColumns(ts))
  {
    var all := AllDataColumns(ts);
    var s := SortedSet(all);
    StrictlySortedDistinct(s);
    assert Distinct(Provenance) by {
      assert FileNameCol != SheetNameCol;
    }
    forall x | x in s ensures x !in Provenance {
      assert x in all;
    }
    DistinctConcat(s, Provenance);
    assert UnifiedColumns(ts) == s + Provenance;
  }

  /** Unifying loses no cell: reindexing a unified table back onto its own
      labels gives the table back. */
  lemma UnifyRoundTrip(ts: seq<Table>, i: nat)
    requires AllWellFormed(ts) && i < |ts| && Distinct(ts[i].columns)
    ensures Reindex(UnifyColumns(ts)[i], ts[i].columns) == ts[i]
  {
    UnifiedHasEveryColumn(ts);
    ReindexRoundTrip(ts[i], UnifiedColumns(ts));
  }

  /** `pd.concat(unify_columns(all_dataframes), ignore_index=True)`. */
  function MergeTables(ts: seq<Table>): (r: Table)
    requires |ts| > 0 && AllWellFormed(ts)
    ensures r.columns == UnifiedColumns(ts) && |r.rows| == TotalRows(ts) && WellFormed(r)
  {
    var u := UnifyColumns(ts);
    ConcatWellFormed(u);
    SameTotal(u, ts);
    Concat(u)
  }

  /** The merged table holds the rows of the inputs in input order: row k of
      table i sits at position TotalRows(ts[..i]) + k, with each of the
      table's labels keeping its value. */
  lemma MergeTablesRow(ts: seq<Table>, i: nat, k: nat)
    requires |ts| > 0 && AllWellFormed(ts) && i < |ts| && k < |ts[i].rows|
    ensures TotalRows(ts[..i]) + k < |MergeTables(ts).rows|
    ensures MergeTables(ts).rows[TotalRows(ts[..i]) + k] == UnifyColumns(ts)[i].rows[k]
  {
    var u := UnifyColumns(ts);
    ConcatRowsAt(u, i, k);
    SameTotal(u[..i], ts[..i]);
    SameTotal(u, ts);
  }

  // ---------------------------------------------------------------------
  // collect_column_sources
  // ---------------------------------------------------------------------

  /** A (file name, sheet name) pair as stored in the provenance columns. */
  type Source = (Cell, Cell)

  /** A table as process_sheet returns it: well formed, with both provenance
      columns. */
  predicate Tagged(t: Table)
  {
    WellFormed(t) && FileNameCol in t.columns && SheetNameCol in t.columns
  }

  /** `(df['文件名'].iloc[0], df['工作表名'].iloc[0])`. */
  function FirstSource(t: Table): Source
    requires Tagged(t) && |t.rows| > 0
  {
    (t.rows[0][IndexOf(t.columns, FileNameCol)], t.rows[0][IndexOf(t.columns, SheetNameCol)])
  }

  /** `column_sources[col].add(src)` on a defaultdict(set). */
  function AddSource(m: map<string, set<Source>>, col: string, src: Source): map<string, set<Source>>
  {
    m[col := (if col in m then m[col] else {}) + {src}]
  }

  /** Adding one source under each of the given labels, in order. */
  function AddSourcesFor(m: map<string, set<Source>>, cols: seq<string>, src: Source): (r: map<string, set<Source>>)
    ensures forall c :: c in r <==> c in m || c in cols
    ensures forall c, x :: c in r && x in r[c] <==> (c in m && x in m[c]) || (c in cols && x == src)
    decreases |cols|
  {
    if |cols| == 0 then m
    else
      assert cols == cols[..|cols| - 1] + [cols[|cols| - 1]];
      AddSource(AddSourcesFor(m, cols[..|cols| - 1], src), cols[|cols| - 1], src)
  }

  /** The dictionary collect_column_sources builds, table after table; a
      table without rows adds nothing. */
  function ColumnSources(ts: seq<Table>): map<string, set<Source>>
    requires forall i :: 0 <= i < |ts| ==> Tagged(ts[i])
    decreases |ts|
  {
    if |ts| == 0 then map[]
    else
      var prev := ColumnSources(ts[..|ts| - 1]);
      var t := ts[|ts| - 1];
      if |t.rows| == 0 then prev else AddSourcesFor(prev, DataColumns(t.columns), FirstSource(t))
  }

  /** Table t has rows, a data label c, and the pair x in its first row. */
  predicate SourceOf(t: Table, c: string, x: Source)
  {
    Tagged(t) && |t.rows| > 0 && c in t.columns && c !in Provenance && x == FirstSource(t)
  }

  /** A pair is recorded for a label exactly when some table with rows has
      that data label and that pair in its first row. */
  lemma {:induction false} ColumnSourcesIff(ts: seq<Table>, c: string, x: Source)
    requires forall i :: 0 <= i < |ts| ==> Tagged(ts[i])
    ensures c in ColumnSources(ts) && x in ColumnSources(ts)[c] <==>
      exists i :: 0 <= i < |ts| && SourceOf(ts[i], c, x)
    decreases |ts|
  {
    if |ts| > 0 {
      var init := ts[..|ts| - 1];
      ColumnSourcesIff(init, c, x);
      SourcesStep(ts, init, c, x);
    }
  }

  lemma SourcesStep(ts: seq<Table>, init: seq<Table>, c: string, x: Source)
    requires forall i :: 0 <= i < |ts| ==> Tagged(ts[i])
    requires |ts| > 0 && init == ts[..|ts| - 1]
    requires c in ColumnSources(init) && x in ColumnSources(init)[c] <==>
      exists i :: 0 <= i < |init| && SourceOf(init[i], c, x)
    ensures c in ColumnSources(ts) && x in ColumnSources(ts)[c] <==>
      exists i :: 0 <= i < |ts| && SourceOf(ts[i], c, x)
  {
    var t := ts[|ts| - 1];
    SourcesSplit(ts, init, c, x);
    if |t.rows| > 0 {
      assert SourceOf(t, c, x) <==> c in DataColumns(t.columns) && x == FirstSource(t);
    }
  }

  lemma SourcesSplit(ts: seq<Table>, init: seq<Table>, c: string, x: Source)
    requires |ts| > 0 && init == ts[..|ts| - 1]
    ensures (exists i :: 0 <= i < |ts| && SourceOf(ts[i], c, x)) <==>
      (exists i :: 0 <= i < |init| && SourceOf(init[i], c, x)) || SourceOf(ts[|ts| - 1], c, x)
  {
    if exists i :: 0 <= i < |ts| && SourceOf(ts[i], c, x) {
      var i :| 0 <= i < |ts| && SourceOf(ts[i], c, x);
      if i < |init| {
        assert init[i] == ts[i];
      }
    }
    if exists i :: 0 <= i < |init| && SourceOf(init[i], c, x) {
      var i :| 0 <= i < |init| && SourceOf(init[i], c, x);
      assert init[i] == ts[i];
    }
  }

  /** Table t has rows and the data label c. */
  predicate HasDataColumn(t: Table, c: string)
  {
    |t.rows| > 0 && c in t.columns && c !in Provenance
  }

  /** Labels with a recorded source are exactly the data labels of the
      tables that have rows. */
  lemma {:induction false} ColumnSourcesKeys(ts: seq<Table>)
    requires forall i :: 0 <= i < |ts| ==> Tagged(ts[i])
    ensures forall c :: c in ColumnSources(ts) <==> exists i :: 0 <= i < |ts| && HasDataColumn(ts[i], c)
    decreases |ts|
  {
    if |ts| > 0 {
      var init := ts[..|ts| - 1];
      ColumnSourcesKeys(init);
      forall c ensures c in ColumnSources(ts) <==> exists i :: 0 <= i < |ts| && HasDataColumn(ts[i], c) {
        KeysSplit(ts, init, c);
      }
    }
  }

  lemma KeysSplit(ts: seq<Table>, init: seq<Table>, c: string)
    requires |ts| > 0 && init == ts[..|ts| - 1]
    ensures (exists i :: 0 <= i < |ts| && HasDataColumn(ts[i], c)) <==>
      (exists i :: 0 <= i < |init| && HasDataColumn(init[i], c)) || HasDataColumn(ts[|ts| - 1], c)
  {
    if exists i :: 0 <= i < |ts| && HasDataColumn(ts[i], c) {
      var i :| 0 <= i < |ts| && HasDataColumn(ts[i], c);
      if i < |init| {
        assert init[i] == ts[i];
      }
    }
    if exists i :: 0 <= i < |init| && HasDataColumn(init[i], c) {
      var i :| 0 <= i < |init| && HasDataColumn(init[i], c);
      assert init[i] == ts[i];
    }
  }

  /** collect_column_sources: nested loops adding into a dictionary of
      sets. */
  method CollectColumnSources(ts: seq<Table>) returns (sources: map<string, set<Source>>)
    requires forall i :: 0 <= i < |ts| ==> Tagged(ts[i])
    ensures sources == ColumnSources(ts)
  {
    sources := map[];
    for i := 0 to |ts|
      invariant sources == ColumnSources(ts[..i])
    {
      var t := ts[i];
      var dataColumns := DataColumns(t.columns);
      assert ts[..i + 1][..i] == ts[..i];
      if |t.rows| > 0 {
        var src := FirstSource(t);
        ghost var before := sources;
        for j := 0 to |dataColumns|
          invariant sources == AddSourcesFor(before, dataColumns[..j], src)
        {
          assert dataColumns[..j + 1][..j] == dataColumns[..j];
          sources := AddSource(sources, dataColumns[j], src);
        }
        assert dataColumns[..|dataColumns|] == dataColumns;
      }
    }
    assert ts[..|ts|] == ts;
  }

  // ---------------------------------------------------------------------
  // calculate_completeness_stats
  // ---------------------------------------------------------------------

  /** One entry of the completeness report; the percentage is left out, and
      ordering by the count is the same as ordering by the percentage since
      every entry shares one row total. */
  datatype CompletenessStat = CompletenessStat(column: string, nonNullCount: nat)

  /** `df[col].notna().sum()` for the column at position j. */
  function NonNullCount(rows: seq<Row>, j: nat): (n: nat)
    ensures n <= |rows|
    decreases |rows|
  {
    if |rows| == 0 then 0
    else NonNullCount(rows[..|rows| - 1], j) + (if j < |rows[|rows| - 1]| && !rows[|rows| - 1][j].Null? then 1 else 0)
  }

  /** The report in column order, before sorting. */
  function StatsFor(t: Table, cols: seq<string>): (r: seq<CompletenessStat>)
    requires forall c :: c in cols ==> c in t.columns
    ensures |r| == |cols|
    ensures forall q :: 0 <= q < |r| ==> r[q].column == cols[q] && r[q].nonNullCount <= |t.rows|
    decreases |cols|
  {
    if |cols| == 0 then []
    else
      var c := cols[|cols| - 1];
      StatsFor(t, cols[..|cols| - 1]) + [CompletenessStat(c, NonNullCount(t.rows, IndexOf(t.columns, c)))]
  }

  predicate SortedByCount(s: seq<CompletenessStat>)
  {
    forall a, b :: 0 <= a < b < |s| ==> s[a].nonNullCount >= s[b].nonNullCount
  }

  /** Inserting into a descending list after every entry with at least the
      same count, which keeps equal entries in their arrival order. */
  function InsertByCount(x: CompletenessStat, s: seq<CompletenessStat>): (r: seq<CompletenessStat>)
    ensures multiset(r) == multiset(s) + multiset{x}
    decreases |s|
  {
    if |s| == 0 then [x]
    else if s[0].nonNullCount < x.nonNullCount then [x] + s
    else
      assert s == [s[0]] + s[1..];
      [s[0]] + InsertByCount(x, s[1..])
  }

  /** `sorted(stats, key=..., reverse=True)`: a stable sort by count,
      largest first. */
  function SortByCount(xs: seq<CompletenessStat>): (r: seq<CompletenessStat>)
    ensures multiset(r) == multiset(xs)
    decreases |xs|
  {
    if |xs| == 0 then []
    else
      assert xs == xs[..|xs| - 1] + [xs[|xs| - 1]];
      InsertByCount(xs[|xs| - 1], SortByCount(xs[..|xs| - 1]))
  }

  lemma {:induction false} InsertByCountMember(x: CompletenessStat, s: seq<CompletenessStat>, y: CompletenessStat)
    requires y in InsertByCount(x, s)
    ensures y == x || y in s
    decreases |s|
  {
    if |s| > 0 && s[0].nonNullCount >= x.nonNullCount && y != s[0] {
      InsertByCountMember(x, s[1..], y);
    }
  }

  lemma {:induction false} InsertByCountSorted(x: CompletenessStat, s: seq<CompletenessStat>)
    requires SortedByCount(s)
    ensures SortedByCount(InsertByCount(x, s))
    decreases |s|
  {
    if |s| > 0 && s[0].nonNullCount >= x.nonNullCount {
      InsertByCountSorted(x, s[1..]);
      InsertByCountBelowHead(x, s);
      ConsSorted(s[0], InsertByCount(x, s[1..]));
    }
  }

  /** Inserting behind a head that outranks x keeps everything behind it
      at most the head's count. */
  lemma InsertByCountBelowHead(x: CompletenessStat, s: seq<CompletenessStat>)
    requires SortedByCount(s) && |s| > 0 && s[0].nonNullCount >= x.nonNullCount
    ensures forall y :: y in InsertByCount(x, s[1..]) ==> s[0].nonNullCount >= y.nonNullCount
  {
    forall y | y in InsertByCount(x, s[1..]) ensures s[0].nonNullCount >= y.nonNullCount {
      InsertByCountMember(x, s[1..], y);
      if y != x {
        var k :| 0 <= k < |s[1..]| && s[1..][k] == y;
        assert s[k + 1] == y;
      }
    }
  }

  lemma ConsSorted(h: CompletenessStat, tail: seq<CompletenessStat>)
    requires SortedByCount(tail) && forall y :: y in tail ==> h.nonNullCount >= y.nonNullCount
    ensures SortedByCount([h] + tail)
  {
    var r := [h] + tail;
    forall a, b | 0 <= a < b < |r| ensures r[a].nonNullCount >= r[b].nonNullCount {
      if a == 0 {
        assert r[b] == tail[b - 1];
        assert r[b] in tail;
      } else {
        assert r[a] == tail[a - 1] && r[b] == tail[b - 1];
      }
    }
  }

  /** The sorted report is ordered by count, largest first. */
  lemma {:induction false} SortByCountSorted(xs: seq<CompletenessStat>)
    ensures SortedByCount(SortByCount(xs))
    decreases |xs|
  {
    if |xs| > 0 {
      SortByCountSorted(xs[..|xs| - 1]);
      InsertByCountSorted(xs[|xs| - 1], SortByCount(xs[..|xs| - 1]));
    }
  }

  /** The entries with one given count, in order. */
  function WithCount(s: seq<CompletenessStat>, n: nat): (r: seq<CompletenessStat>)
    decreases |s|
  {
    if |s| == 0 then []
    else WithCount(s[..|s| - 1], n) + (if s[|s| - 1].nonNullCount == n then [s[|s| - 1]] else [])
  }

  lemma {:induction false} WithCountAppend(a: seq<CompletenessStat>, b: seq<CompletenessStat>, n: nat)
    ensures WithCount(a + b, n) == WithCount(a, n) + WithCount(b, n)
    decreases |b|
  {
    if |b| == 0 {
      assert a + b == a;
    } else {
      var b' := b[..|b| - 1];
      assert (a + b)[..|a + b| - 1] == a + b';
      WithCountAppend(a, b', n);
    }
  }

  lemma {:induction false} WithCountInsert(x: CompletenessStat, s: seq<CompletenessStat>, n: nat)
    requires SortedByCount(s)
    ensures WithCount(InsertByCount(x, s), n) == WithCount(s, n) + (if x.nonNullCount == n then [x] else [])
    decreases |s|
  {
    if |s| == 0 {
      assert WithCount([x], n) == WithCount([], n) + (if x.nonNullCount == n then [x] else []);
    } else if s[0].nonNullCount < x.nonNullCount {
      WithCountFront(x, s, n);
    } else {
      WithCountInsert(x, s[1..], n);
      WithCountCons(s[0], InsertByCount(x, s[1..]), n);
      WithCountCons(s[0], s[1..], n);
      assert s == [s[0]] + s[1..];
    }
  }

  lemma WithCountCons(y: CompletenessStat, s: seq<CompletenessStat>, n: nat)
    ensures WithCount([y] + s, n) == (if y.nonNullCount == n then [y] else []) + WithCount(s, n)
  {
    WithCountAppend([y], s, n);
    assert WithCount([y], n) == WithCount([], n) + (if y.nonNullCount == n then [y] else []);
  }

  lemma WithCountFront(x: CompletenessStat, s: seq<CompletenessStat>, n: nat)
    requires SortedByCount(s) && |s| > 0 && s[0].nonNullCount < x.nonNullCount
    ensures WithCount([x] + s, n) == WithCount(s, n) + (if x.nonNullCount == n then [x] else [])
  {
    WithCountCons(x, s, n);
    if x.nonNullCount == n {
      WithCountNone(s, n);
    }
  }

  /** In a descending list whose first count is below n, no entry has
      count n. */
  lemma {:induction false} WithCountNone(s: seq<CompletenessStat>, n: nat)
    requires SortedByCount(s) && |s| > 0 && s[0].nonNullCount < n
    ensures WithCount(s, n) == []
    decreases |s|
  {
    if |s| > 1 {
      var init := s[..|s| - 1];
      assert init[0] == s[0];
      WithCountNone(init, n);
    }
  }

  /** The sort is stable: the entries of each count keep their order. */
  lemma {:induction false} SortByCountStable(xs: seq<CompletenessStat>, n: nat)
    ensures WithCount(SortByCount(xs), n) == WithCount(xs, n)
    decreases |xs|
  {
    if |xs| > 0 {
      var init := xs[..|xs| - 1];
      SortByCountStable(init, n);
      SortByCountSorted(init);
      WithCountInsert(xs[|xs| - 1], SortByCount(init), n);
    }
  }

  /** calculate_completeness_stats: a loop over the data labels appending
      the count of filled cells of each, then the descending sort. */
  method CalculateCompletenessStats(t: Table) returns (stats: seq<CompletenessStat>)
    requires WellFormed(t)
    ensures stats == SortByCount(StatsFor(t, DataColumns(t.columns)))
  {
    var dataCols := DataColumns(t.columns);
    var unsorted: seq<CompletenessStat> := [];
    for q := 0 to |dataCols|
      invariant unsorted == StatsFor(t, dataCols[..q])
    {
      var col := dataCols[q];
      var count := NonNullCount(t.rows, IndexOf(t.columns, col));
      assert dataCols[..q + 1][..q] == dataCols[..q];
      unsorted := unsorted + [CompletenessStat(col, count)];
    }
    assert dataCols[..|dataCols|] == dataCols;
    stats := SortByCount(unsorted);
  }

  /** The report is ordered by count, largest first, and entries with equal
      counts stay in label order. */
  lemma CompletenessOrder(t: Table)
    requires WellFormed(t)
    ensures SortedByCount(SortByCount(StatsFor(t, DataColumns(t.columns))))
    ensures forall n ::
      WithCount(SortByCount(StatsFor(t, DataColumns(t.columns))), n) == WithCount(StatsFor(t, DataColumns(t.columns)), n)
  {
    var xs := StatsFor(t, DataColumns(t.columns));
    SortByCountSorted(xs);
    forall n ensures WithCount(SortByCount(xs), n) == WithCount(xs, n) {
      SortByCountStable(xs, n);
    }
  }

  /** Each entry of the report names a data label and counts at most the
      table's rows. */
  lemma CompletenessEntries(t: Table)
    requires WellFormed(t)
    ensures var r := SortByCount(StatsFor(t, DataColumns(t.columns)));
      && |r| == |DataColumns(t.columns)|
      && (forall q :: 0 <= q < |r| ==> r[q].column in t.columns && r[q].column !in Provenance)
      && (forall q :: 0 <= q < |r| ==> r[q].nonNullCount <= |t.rows|)
  {
    SortByCountMembers(StatsFor(t, DataColumns(t.columns)));
  }

  /** Every data label has an entry in the report. */
  lemma CompletenessCovers(t: Table, c: string)
    requires WellFormed(t) && c in t.columns && c !in Provenance
    ensures var r := SortByCount(StatsFor(t, DataColumns(t.columns)));
      exists q :: 0 <= q < |r| && r[q].column == c
  {
    var xs := StatsFor(t, DataColumns(t.columns));
    var r := SortByCount(xs);
    var dc := DataColumns(t.columns);
    var p :| 0 <= p < |dc| && dc[p] == c;
    assert xs[p] in multiset(xs);
    assert xs[p] in multiset(r);
    assert xs[p].column == c;
    var q :| 0 <= q < |r| && r[q] == xs[p];
    assert r[q].column == c;
    assert r == SortByCount(StatsFor(t, DataColumns(t.columns)));
  }

  /** Sorting only reorders: every sorted entry is an entry of the input. */
  lemma SortByCountMembers(xs: seq<CompletenessStat>)
    ensures |SortByCount(xs)| == |xs|
    ensures forall q :: 0 <= q < |xs| ==> SortByCount(xs)[q] in xs
  {
    var r := SortByCount(xs);
    assert |r| == |multiset(r)| == |multiset(xs)| == |xs|;
    forall q | 0 <= q < |xs| ensures r[q] in xs {
      assert r[q] in multiset(r);
    }
  }
}
