/** Cells, raw worksheet grids and tables (DataFrames), with the few pandas
    operations both pipelines use: boolean-mask filtering, scalar column
    assignment, `reindex(columns=...)` and `concat(..., ignore_index=True)`.
    The marker-row search that both pipelines share is specified here too. */
module Frames {
  import opened Wrappers
  import opened Strings

  /** One cell as pandas holds it after reading a workbook. */
  datatype Cell = Null | Text(text: string) | Num(number: int)

  type Row = seq<Cell>

  /** The raw cells of one worksheet, read with no header row. */
  type Grid = seq<Row>

  /** A DataFrame: column labels and rows of cells. The row index is always
      0..n-1, so it is implicit in the sequence. */
  datatype Table = Table(columns: seq<string>, rows: seq<Row>)

  predicate WellFormed(t: Table)
  {
    forall k :: 0 <= k < |t.rows| ==> |t.rows[k]| == |t.columns|
  }

  predicate AllWellFormed(ts: seq<Table>)
  {
    forall i :: 0 <= i < |ts| ==> WellFormed(ts[i])
  }

  /** A grid read from a workbook has rows of one width. */
  predicate Rectangular(g: Grid)
  {
    forall k :: 0 <= k < |g| ==> |g[k]| == |g[0]|
  }

  /** `DataFrame.empty` for a raw grid: no rows or no columns. */
  predicate EmptyGrid(g: Grid)
  {
    |g| == 0 || |g[0]| == 0
  }

  /** What the workbook reader hands over for one worksheet: its grid, or the
      error raised while reading it. */
  datatype SheetData = Loaded(grid: Grid) | Unreadable(reason: string)

  datatype Sheet = Sheet(name: string, content: SheetData)

  /** An opened workbook lists its worksheets in order; one that cannot be
      opened carries the reader's error text. */
  datatype Workbook = Workbook(sheets: seq<Sheet>) | Unopenable(reason: string)

  predicate ValidSheet(s: Sheet)
  {
    s.content.Loaded? ==> Rectangular(s.content.grid)
  }

  predicate ValidBook(b: Workbook)
  {
    b.Workbook? ==> forall i :: 0 <= i < |b.sheets| ==> ValidSheet(b.sheets[i])
  }

  /** `str(v)`, and `astype(str)` on a cell: a missing value renders as "nan".
      Numbers are rendered as integers (pandas' float formatting is not part
      of this model). */
  function CellStr(c: Cell): string
  {
    match c
    case Null => "nan"
    case Text(s) => s
    case Num(n) => IntStr(n)
  }

  function Min(a: nat, b: nat): nat
  {
    if a < b then a else b
  }

  // ---------------------------------------------------------------------
  // The marker row
  // ---------------------------------------------------------------------

  /** The provenance labels both scripts give the file and the sheet a row
      came from. */
  const FileNameCol: string := "文件名"
  const SheetNameCol: string := "工作表名"

  /** The label that anchors the header row. */
  const Marker: string := "身份证号"

  /** Only the first rows of a sheet are searched for the marker. */
  const SearchRows: nat := 10

  /** excel.py's row test: some cell, rendered with `astype(str)`, contains
      the marker. */
  predicate MarkerInRow(r: Row)
  {
    exists j :: 0 <= j < |r| && Contains(CellStr(r[j]), Marker)
  }

  /** main.py's row test: some non-null cell whose `str()` contains the marker. */
  predicate MarkerInNonNullCell(r: Row)
  {
    exists j :: 0 <= j < |r| && r[j] != Null && Contains(CellStr(r[j]), Marker)
  }

  /** The two tests agree, because "nan" does not contain the marker. */
  lemma MarkerTestsAgree(r: Row)
    ensures MarkerInRow(r) <==> MarkerInNonNullCell(r)
  {
    assert !Contains(CellStr(Null), Marker);
  }

  function MarkerRowFrom(g: Grid, i: nat): (r: Option<nat>)
    requires i <= Min(SearchRows, |g|)
    requires forall k :: 0 <= k < i ==> !MarkerInRow(g[k])
    ensures r.Some? ==> i <= r.value < Min(SearchRows, |g|) && MarkerInRow(g[r.value])
    ensures r.Some? ==> forall k :: 0 <= k < r.value ==> !MarkerInRow(g[k])
    ensures r.None? <==> forall k :: 0 <= k < Min(SearchRows, |g|) ==> !MarkerInRow(g[k])
    decreases Min(SearchRows, |g|) - i
  {
    if i == Min(SearchRows, |g|) then None
    else if MarkerInRow(g[i]) then Some(i)
    else MarkerRowFrom(g, i + 1)
  }

  /** The first row among the first ten that holds the marker, if any. */
  function MarkerRow(g: Grid): (r: Option<nat>)
    ensures r.Some? ==> r.value < Min(SearchRows, |g|) && MarkerInRow(g[r.value])
    ensures r.Some? ==> forall k :: 0 <= k < r.value ==> !MarkerInRow(g[k])
    ensures r.None? <==> forall k :: 0 <= k < Min(SearchRows, |g|) ==> !MarkerInRow(g[k])
  {
    MarkerRowFrom(g, 0)
  }

  // ---------------------------------------------------------------------
  // Boolean masks and selection
  // ---------------------------------------------------------------------

  predicate Increasing(s: seq<nat>)
  {
    forall i, j :: 0 <= i < j < |s| ==> s[i] < s[j]
  }

  /** An increasing sequence of positions below n has at most n entries. */
  lemma {:induction false} IncreasingBound(s: seq<nat>, n: nat)
    requires Increasing(s) && forall p :: 0 <= p < |s| ==> s[p] < n
    ensures |s| <= n
    decreases n
  {
    if |s| > 0 {
      var last := s[|s| - 1];
      IncreasingBound(s[..|s| - 1], last);
    }
  }

  /** The positions below n where a boolean mask is true, in order. */
  function Where(n: nat, keep: nat -> bool): (r: seq<nat>)
    ensures Increasing(r)
    ensures forall p :: 0 <= p < |r| ==> r[p] < n && keep(r[p])
    ensures forall i :: 0 <= i < n && keep(i) ==> i in r
    decreases n
  {
    if n == 0 then [] else Where(n - 1, keep) + (if keep(n - 1) then [n - 1] else [])
  }

  /** Two masks that agree below n select the same positions. */
  lemma {:induction false} WhereSame(n: nat, f: nat -> bool, g: nat -> bool)
    requires forall i :: 0 <= i < n ==> f(i) == g(i)
    ensures Where(n, f) == Where(n, g)
    decreases n
  {
    if n > 0 {
      WhereSame(n - 1, f, g);
    }
  }

  /** A mask that is true everywhere keeps every position. */
  lemma {:induction false} WhereAll(n: nat, keep: nat -> bool)
    requires forall i :: 0 <= i < n ==> keep(i)
    ensures |Where(n, keep)| == n
    ensures forall p :: 0 <= p < n ==> Where(n, keep)[p] == p
    decreases n
  {
    if n > 0 {
      WhereAll(n - 1, keep);
      var prev := Where(n - 1, keep);
      var r := Where(n, keep);
      assert keep(n - 1);
      assert r == prev + [n - 1];
      forall p | 0 <= p < n ensures r[p] == p {
        if p < n - 1 { assert r[p] == prev[p]; }
      }
    }
  }

  predicate InRange(t: Table, ri: seq<nat>, ci: seq<nat>)
  {
    (forall p :: 0 <= p < |ri| ==> ri[p] < |t.rows|)
    && (forall q :: 0 <= q < |ci| ==> ci[q] < |t.columns|)
  }

  /** r is t filtered: the rows ri and the columns ci of t, both kept in
      their original order, with no cell changed. */
  predicate SubTable(r: Table, t: Table, ri: seq<nat>, ci: seq<nat>)
  {
    && WellFormed(t) && WellFormed(r)
    && Increasing(ri) && Increasing(ci) && InRange(t, ri, ci)
    && |r.columns| == |ci| && |r.rows| == |ri|
    && (forall q :: 0 <= q < |ci| ==> r.columns[q] == t.columns[ci[q]])
    && (forall p, q :: 0 <= p < |ri| && 0 <= q < |ci| ==> r.rows[p][q] == t.rows[ri[p]][ci[q]])
  }

  /** Keeps the rows ri and the columns ci of t (`df.loc[rows, cols]` followed
      by `reset_index(drop=True)`). */
  function Select(t: Table, ri: seq<nat>, ci: seq<nat>): (r: Table)
    requires WellFormed(t) && InRange(t, ri, ci)
    requires Increasing(ri) && Increasing(ci)
    ensures SubTable(r, t, ri, ci)
  {
    Table(seq(|ci|, q requires 0 <= q < |ci| => t.columns[ci[q]]),
          seq(|ri|, p requires 0 <= p < |ri| =>
            seq(|ci|, q requires 0 <= q < |ci| => t.rows[ri[p]][ci[q]])))
  }

  /** Selecting every row and every column gives the table back. */
  lemma SelectEverything(t: Table, ri: seq<nat>, ci: seq<nat>)
    requires WellFormed(t)
    requires |ri| == |t.rows| && forall p :: 0 <= p < |ri| ==> ri[p] == p
    requires |ci| == |t.columns| && forall q :: 0 <= q < |ci| ==> ci[q] == q
    ensures Increasing(ri) && Increasing(ci) && InRange(t, ri, ci)
    ensures Select(t, ri, ci) == t
  {
    var r := Select(t, ri, ci);
    assert r.columns == t.columns;
    forall p | 0 <= p < |ri| ensures r.rows[p] == t.rows[p] {
    }
  }

  /** Distinct labels stay distinct when some columns are dropped. */
  lemma SubTableDistinct(r: Table, t: Table, ri: seq<nat>, ci: seq<nat>)
    requires SubTable(r, t, ri, ci) && Distinct(t.columns)
    ensures Distinct(r.columns)
  {
    forall a, b | 0 <= a < b < |r.columns| ensures r.columns[a] != r.columns[b] {
      assert ci[a] < ci[b];
    }
  }

  // ---------------------------------------------------------------------
  // Missing values
  // ---------------------------------------------------------------------

  predicate AllNull(r: Row)
  {
    forall j :: 0 <= j < |r| ==> r[j].Null?
  }

  /** `dropna(how='all')` followed by `dropna(axis=1, how='all')` keeps
      column j exactly when it has a non-null cell in a row that is not
      entirely null. */
  predicate HasValue(t: Table, j: nat)
  {
    exists k :: 0 <= k < |t.rows| && !AllNull(t.rows[k]) && j < |t.rows[k]| && !t.rows[k][j].Null?
  }

  /** `dropna(how='all')` keeps the rows that are not entirely null. */
  predicate RowHasValue(t: Table, k: nat)
  {
    k < |t.rows| && !AllNull(t.rows[k])
  }

  function ValueRows(t: Table): seq<nat>
  {
    Where(|t.rows|, (k: nat) => RowHasValue(t, k))
  }

  /** The columns left by the two `dropna` calls. */
  function ValueColumns(t: Table): seq<nat>
  {
    Where(|t.columns|, (j: nat) => HasValue(t, j))
  }

  // ---------------------------------------------------------------------
  // Column assignment, reindexing, concatenation
  // ---------------------------------------------------------------------

  /** `df[name] = v` and `df.assign(name=v)` with a scalar v: every column
      labelled name is overwritten with v in every row; when there is no such
      column, one is appended. */
  function Assign(t: Table, name: string, v: Cell): (r: Table)
    requires WellFormed(t)
    ensures WellFormed(r) && |r.rows| == |t.rows| && name in r.columns
    ensures r.columns == if name in t.columns then t.columns else t.columns + [name]
    ensures forall k, j :: 0 <= k < |r.rows| && 0 <= j < |r.columns| && r.columns[j] == name ==> r.rows[k][j] == v
    ensures forall k, j :: 0 <= k < |r.rows| && 0 <= j < |t.columns| && t.columns[j] != name ==> r.rows[k][j] == t.rows[k][j]
  {
    if name in t.columns then
      Table(t.columns, seq(|t.rows|, k requires 0 <= k < |t.rows| =>
        seq(|t.columns|, j requires 0 <= j < |t.columns| => if t.columns[j] == name then v else t.rows[k][j])))
    else
      Table(t.columns + [name], seq(|t.rows|, k requires 0 <= k < |t.rows| => t.rows[k] + [v]))
  }

  lemma AssignDistinct(t: Table, name: string, v: Cell)
    requires WellFormed(t) && Distinct(t.columns)
    ensures Distinct(Assign(t, name, v).columns)
  {
  }

  /** The position of the first column labelled x. */
  function IndexOf(s: seq<string>, x: string): (i: nat)
    requires x in s
    ensures i < |s| && s[i] == x && x !in s[..i]
  {
    if s[0] == x then 0 else 1 + IndexOf(s[1..], x)
  }

  lemma IndexOfDistinct(s: seq<string>, j: nat)
    requires Distinct(s) && j < |s|
    ensures IndexOf(s, s[j]) == j
  {
  }

  /** `df.reindex(columns=cols)` with null as the fill value, for a table whose
      labels are distinct (pandas refuses to reindex duplicate labels). */
  function Reindex(t: Table, cols: seq<string>): (r: Table)
    requires WellFormed(t)
    ensures WellFormed(r) && r.columns == cols && |r.rows| == |t.rows|
    ensures forall k, c :: 0 <= k < |t.rows| && c in t.columns && c in cols ==>
      r.rows[k][IndexOf(cols, c)] == t.rows[k][IndexOf(t.columns, c)]
    ensures forall k, j :: 0 <= k < |t.rows| && 0 <= j < |cols| && cols[j] !in t.columns ==> r.rows[k][j] == Null
  {
    Table(cols, seq(|t.rows|, k requires 0 <= k < |t.rows| =>
      seq(|cols|, j requires 0 <= j < |cols| =>
        if cols[j] in t.columns then t.rows[k][IndexOf(t.columns, cols[j])] else Null)))
  }

  /** Reindexing onto a superset of the labels loses nothing: reindexing back
      onto the original labels restores the table. */
  lemma ReindexRoundTrip(t: Table, cols: seq<string>)
    requires WellFormed(t) && Distinct(t.columns)
    requires forall c :: c in t.columns ==> c in cols
    ensures Reindex(Reindex(t, cols), t.columns) == t
  {
    var r := Reindex(t, cols);
    var back := Reindex(r, t.columns);
    forall k | 0 <= k < |t.rows| ensures back.rows[k] == t.rows[k] {
      forall j | 0 <= j < |t.columns| ensures back.rows[k][j] == t.rows[k][j] {
        var c := t.columns[j];
        IndexOfDistinct(t.columns, j);
        assert back.rows[k][IndexOf(t.columns, c)] == r.rows[k][IndexOf(cols, c)];
      }
    }
  }

  function TotalRows(ts: seq<Table>): nat
    decreases |ts|
  {
    if |ts| == 0 then 0 else TotalRows(ts[..|ts| - 1]) + |ts[|ts| - 1].rows|
  }

  /** Tables of the same lengths have the same number of rows in all. */
  lemma {:induction false} SameTotal(a: seq<Table>, b: seq<Table>)
    requires |a| == |b| && forall i :: 0 <= i < |a| ==> |a[i].rows| == |b[i].rows|
    ensures TotalRows(a) == TotalRows(b)
    decreases |a|
  {
    if |a| > 0 {
      SameTotal(a[..|a| - 1], b[..|b| - 1]);
    }
  }

  /** All rows of all tables, table after table. */
  function ConcatRows(ts: seq<Table>): (r: seq<Row>)
    ensures |r| == TotalRows(ts)
    decreases |ts|
  {
    if |ts| == 0 then [] else ConcatRows(ts[..|ts| - 1]) + ts[|ts| - 1].rows
  }

  /** Row k of table i lands at position TotalRows(ts[..i]) + k. */
  lemma {:induction false} ConcatRowsAt(ts: seq<Table>, i: nat, k: nat)
    requires i < |ts| && k < |ts[i].rows|
    ensures TotalRows(ts[..i]) + k < TotalRows(ts)
    ensures ConcatRows(ts)[TotalRows(ts[..i]) + k] == ts[i].rows[k]
    decreases |ts|
  {
    var n := |ts| - 1;
    assert ts[..n] == ts[..|ts| - 1];
    if i < n {
      assert ts[..n][..i] == ts[..i];
      ConcatRowsAt(ts[..n], i, k);
    } else {
      assert ts[..i] == ts[..n];
    }
  }

  predicate SameColumns(ts: seq<Table>)
  {
    forall i :: 0 <= i < |ts| ==> ts[i].columns == ts[0].columns
  }

  /** `pd.concat(ts, ignore_index=True)` for a non-empty list of tables that
      share one list of labels. */
  function Concat(ts: seq<Table>): (r: Table)
    requires |ts| > 0 && SameColumns(ts)
    ensures r.columns == ts[0].columns && |r.rows| == TotalRows(ts)
  {
    Table(ts[0].columns, ConcatRows(ts))
  }

  lemma {:induction false} ConcatWellFormed(ts: seq<Table>)
    requires |ts| > 0 && SameColumns(ts) && AllWellFormed(ts)
    ensures WellFormed(Concat(ts))
  {
    var r := Concat(ts);
    forall m | 0 <= m < |r.rows| ensures |r.rows[m]| == |r.columns| {
      var i, k := Locate(ts, m);
      ConcatRowsAt(ts, i, k);
    }
  }

  /** Every position of the concatenation belongs to one table's row. */
  lemma {:induction false} Locate(ts: seq<Table>, m: nat) returns (i: nat, k: nat)
    requires m < TotalRows(ts)
    ensures i < |ts| && k < |ts[i].rows| && m == TotalRows(ts[..i]) + k
    decreases |ts|
  {
    var n := |ts| - 1;
    if m < TotalRows(ts[..n]) {
      i, k := Locate(ts[..n], m);
      assert ts[..n][..i] == ts[..i];
    } else {
      i, k := n, m - TotalRows(ts[..n]);
    }
  }

  /** The labels of cols that are not in drop, in order. */
  function Without(cols: seq<string>, drop: seq<string>): (r: seq<string>)
    ensures forall c :: c in r <==> c in cols && c !in drop
    decreases |cols|
  {
    if |cols| == 0 then []
    else
      assert cols == cols[..|cols| - 1] + [cols[|cols| - 1]];
      Without(cols[..|cols| - 1], drop) + (if cols[|cols| - 1] in drop then [] else [cols[|cols| - 1]])
  }
}
