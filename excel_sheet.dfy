/** The per-worksheet half of excel.py: find the marker row, name the columns
    after it, clean the data below it and tag it with where it came from. */
module ExcelSheet {
  import opened Wrappers
  import opened Strings
  import opened Frames

  /** The two provenance columns excel.py appends to every table. */
  const Provenance: seq<string> := [FileNameCol, SheetNameCol]

  // ---------------------------------------------------------------------
  // find_target_row
  // ---------------------------------------------------------------------

  /** The scan over the first ten rows, returning at the first row that
      holds the marker. */
  method FindTargetRow(g: Grid) returns (r: Option<nat>)
    ensures r.Some? ==> r.value < Min(SearchRows, |g|) && MarkerInRow(g[r.value])
    ensures r.Some? ==> forall k :: 0 <= k < r.value ==> !MarkerInRow(g[k])
    ensures r.None? <==> forall k :: 0 <= k < Min(SearchRows, |g|) ==> !MarkerInRow(g[k])
    ensures r == MarkerRow(g)
  {
    var n := Min(SearchRows, |g|);
    for i := 0 to n
      invariant forall k :: 0 <= k < i ==> !MarkerInRow(g[k])
    {
      if MarkerInRow(g[i]) {
        return Some(i);
      }
    }
    return None;
  }

  // ---------------------------------------------------------------------
  // create_headers
  // ---------------------------------------------------------------------

  /** The name a header cell proposes before deduplication. */
  function BaseName(v: Cell, i: nat): string
  {
    if v.Null? then "未命名_" + NatStr(i) else CellStr(v)
  }

  /** The k-th name tried for a base name: the base itself, then base_1,
      base_2, and so on. */
  function Candidate(base: string, k: nat): string
  {
    if k == 0 then base else base + "_" + NatStr(k)
  }

  lemma CandidateInjective(base: string, a: nat, b: nat)
    requires Candidate(base, a) == Candidate(base, b)
    ensures a == b
  {
    var pre := base + "_";
    if a != 0 && b != 0 {
      assert Candidate(base, a) == pre + NatStr(a);
      assert Candidate(base, b) == pre + NatStr(b);
      assert NatStr(a) == Candidate(base, a)[|pre|..];
      assert NatStr(b) == Candidate(base, b)[|pre|..];
      NatStrInjective(a, b);
    }
  }

  /** Distinct candidates that are all taken cannot outnumber the names
      taken: this is why the renaming loop stops. */
  lemma CandidatesBound(base: string, used: seq<string>, k: nat)
    requires forall j :: 0 <= j < k ==> Candidate(base, j) in used
    ensures k <= |used|
  {
    var cs := seq(k, j requires 0 <= j < k => Candidate(base, j));
    forall a, b | 0 <= a < b < k ensures cs[a] != cs[b] {
      if cs[a] == cs[b] {
        CandidateInjective(base, a, b);
      }
    }
    forall x | x in cs ensures x in used {
      var j :| 0 <= j < k && cs[j] == x;
    }
    DistinctBound(cs, used);
  }

  function FirstFreeFrom(base: string, used: seq<string>, k: nat): (r: nat)
    requires forall j :: 0 <= j < k ==> Candidate(base, j) in used
    ensures k <= r && Candidate(base, r) !in used
    ensures forall j :: 0 <= j < r ==> Candidate(base, j) in used
    decreases |used| - k
  {
    CandidatesBound(base, used, k);
    if Candidate(base, k) !in used then k
    else
      CandidatesBound(base, used, k + 1);
      FirstFreeFrom(base, used, k + 1)
  }

  /** The smallest k whose candidate is not taken yet. */
  function FirstFree(base: string, used: seq<string>): (r: nat)
    ensures Candidate(base, r) !in used
    ensures forall j :: 0 <= j < r ==> Candidate(base, j) in used
  {
    FirstFreeFrom(base, used, 0)
  }

  /** The first free index is the only free index below which every index is
      taken. */
  lemma FirstFreeUnique(base: string, used: seq<string>, k: nat)
    requires Candidate(base, k) !in used
    requires forall j :: 0 <= j < k ==> Candidate(base, j) in used
    ensures k == FirstFree(base, used)
  {
    var r := FirstFree(base, used);
    assert Candidate(base, r) !in used;
  }

  /** The header list create_headers builds: each cell in turn takes the
      first free candidate of its base name. */
  function Headers(row: Row): (h: seq<string>)
    ensures |h| == |row|
    decreases |row|
  {
    if |row| == 0 then []
    else
      var prev := Headers(row[..|row| - 1]);
      var base := BaseName(row[|row| - 1], |row| - 1);
      prev + [Candidate(base, FirstFree(base, prev))]
  }

  /** Names already chosen never change when more cells follow. */
  lemma {:induction false} HeadersPrefix(row: Row, i: nat)
    requires i <= |row|
    ensures Headers(row[..i]) == Headers(row)[..i]
    decreases |row|
  {
    if i < |row| {
      var init := row[..|row| - 1];
      assert init[..i] == row[..i];
      HeadersPrefix(init, i);
      assert Headers(row)[..|row| - 1] == Headers(init);
    } else {
      assert row[..i] == row;
    }
  }

  /** The names are pairwise distinct. */
  lemma {:induction false} HeadersDistinct(row: Row)
    ensures Distinct(Headers(row))
    decreases |row|
  {
    if |row| > 0 {
      var init := row[..|row| - 1];
      HeadersDistinct(init);
      var prev := Headers(init);
      var h := Headers(row);
      forall a, b | 0 <= a < b < |h| ensures h[a] != h[b] {
        if b < |prev| {
          assert h[a] == prev[a] && h[b] == prev[b];
        } else {
          assert h[a] in prev;
        }
      }
    }
  }

  /** The naming rule at each position: position i is named after its cell
      (未命名_i for a null, the cell's text otherwise), with the smallest
      suffix _k (k >= 1) that avoids the names to its left, or no suffix when
      the plain name is free. */
  lemma HeadersNaming(row: Row, i: nat)
    requires i < |row|
    ensures var h := Headers(row);
      var base := if row[i].Null? then "未命名_" + NatStr(i) else CellStr(row[i]);
      h[i] !in h[..i] &&
      (base !in h[..i] ==> h[i] == base) &&
      (base in h[..i] ==>
         exists k: nat :: (1 <= k && h[i] == base + "_" + NatStr(k) &&
           forall j: nat :: 1 <= j < k ==> base + "_" + NatStr(j) in h[..i]))
  {
    var h := Headers(row);
    var base := BaseName(row[i], i);
    HeadersPrefix(row, i + 1);
    assert row[..i + 1][..i] == row[..i];
    HeadersPrefix(row, i);
    var prev := Headers(row[..i]);
    assert prev == h[..i];
    var k := FirstFree(base, prev);
    assert h[i] == Headers(row[..i + 1])[i] == Candidate(base, k);
    if base in prev {
      assert Candidate(base, 0) in prev;
      assert k != 0;
      forall j: nat | 1 <= j < k ensures base + "_" + NatStr(j) in prev {
        assert Candidate(base, j) in prev;
      }
    }
  }

  /** create_headers: a list built left to right, each name renamed with a
      counter until it is not in the list yet. */
  method CreateHeaders(row: Row) returns (h: seq<string>)
    ensures h == Headers(row)
    ensures |h| == |row| && Distinct(h)
  {
    h := [];
    for i := 0 to |row|
      invariant h == Headers(row[..i])
    {
      var name := FreeName(BaseName(row[i], i), h);
      assert row[..i + 1][..i] == row[..i];
      h := h + [name];
    }
    assert row[..|row|] == row;
    HeadersDistinct(row);
  }

  /** The inner loop of create_headers: `name_counter` counts up from 1
      until `original_name_counter` is not taken. */
  method FreeName(original: string, h: seq<string>) returns (name: string)
    ensures name == Candidate(original, FirstFree(original, h))
    ensures name !in h
  {
    name := original;
    var counter := 1;
    while name in h
      invariant 1 <= counter
      invariant name == Candidate(original, counter - 1)
      invariant forall j :: 0 <= j < counter - 1 ==> Candidate(original, j) in h
      decreases |h| + 1 - counter
    {
      CandidatesBound(original, h, counter);
      name := original + "_" + NatStr(counter);
      counter := counter + 1;
    }
    FirstFreeUnique(original, h, counter - 1);
  }

  // ---------------------------------------------------------------------
  // clean_data
  // ---------------------------------------------------------------------

  /** A cell whose stringified, stripped form is empty. A null stringifies to
      "nan" and so is never blank. */
  predicate Blank(c: Cell)
  {
    Strip(CellStr(c)) == ""
  }

  /** Step 3's mask, `strip().eq('').all()`, evaluated on the input table
      itself rather than on what steps 1 and 2 left. */
  predicate BlankColumn(t: Table, j: nat)
  {
    forall k :: 0 <= k < |t.rows| ==> j < |t.rows[k]| ==> Blank(t.rows[k][j])
  }

  predicate ColumnKept(t: Table, j: nat)
  {
    HasValue(t, j) && !BlankColumn(t, j)
  }

  /** The columns clean_data keeps: those of step 2 that step 3's mask spares. */
  function KeptColumns(t: Table): seq<nat>
  {
    Where(|t.columns|, (j: nat) => ColumnKept(t, j))
  }

  /** Step 4's row test over the kept columns; over no columns at all it
      holds for every row, as `all()` of nothing does. */
  predicate BlankOver(r: Row, cols: seq<nat>)
  {
    forall q :: 0 <= q < |cols| ==> cols[q] < |r| ==> Blank(r[cols[q]])
  }

  /** Steps 1 and 4: a row that is not entirely null and not blank over the
      kept columns. */
  predicate RowKept(t: Table, k: nat)
  {
    k < |t.rows| && !AllNull(t.rows[k]) && !BlankOver(t.rows[k], KeptColumns(t))
  }

  /** The rows clean_data keeps. */
  function KeptRows(t: Table): seq<nat>
  {
    Where(|t.rows|, (k: nat) => RowKept(t, k))
  }

  /** clean_data: a selection of rows and columns of the input, in their
      original order, values unchanged, renumbered from 0. */
  function CleanData(t: Table): (r: Table)
    requires WellFormed(t)
    ensures SubTable(r, t, KeptRows(t), KeptColumns(t))
    ensures WellFormed(r)
  {
    Select(t, KeptRows(t), KeptColumns(t))
  }

  /** Which columns survive: those with a non-null cell in a row that is not
      all null, and a cell anywhere in the input that is not blank. */
  lemma CleanDataColumnsIff(t: Table, j: nat)
    requires WellFormed(t)
    ensures j in KeptColumns(t) <==>
      j < |t.columns| &&
      (exists k :: 0 <= k < |t.rows| && !AllNull(t.rows[k]) && !t.rows[k][j].Null?) &&
      (exists k :: 0 <= k < |t.rows| && !Blank(t.rows[k][j]))
  {
  }

  /** Which rows survive: those not all null with a non-blank cell in a kept
      column. */
  lemma CleanDataRowsIff(t: Table, k: nat)
    requires WellFormed(t)
    ensures k in KeptRows(t) <==>
      k < |t.rows| && !AllNull(t.rows[k]) &&
      exists q :: 0 <= q < |KeptColumns(t)| && !Blank(t.rows[k][KeptColumns(t)[q]])
  {
  }

  /** The positions of all columns of a table. */
  function AllColumns(t: Table): (r: seq<nat>)
    ensures |r| == |t.columns| && forall q :: 0 <= q < |r| ==> r[q] == q
  {
    seq(|t.columns|, q requires 0 <= q < |t.columns| => q)
  }

  /** Every row clean_data returns has a cell whose stripped text is
      non-empty. */
  lemma CleanDataRowsNonBlank(t: Table)
    requires WellFormed(t)
    ensures forall p :: 0 <= p < |CleanData(t).rows| ==> !BlankOver(CleanData(t).rows[p], AllColumns(CleanData(t)))
  {
    forall p | 0 <= p < |CleanData(t).rows|
      ensures !BlankOver(CleanData(t).rows[p], AllColumns(CleanData(t)))
    {
      CleanDataRowNonBlank(t, p);
    }
  }

  lemma CleanDataRowNonBlank(t: Table, p: nat)
    requires WellFormed(t) && p < |CleanData(t).rows|
    ensures !BlankOver(CleanData(t).rows[p], AllColumns(CleanData(t)))
  {
    var r := CleanData(t);
    var kr, kc := KeptRows(t), KeptColumns(t);
    assert RowKept(t, kr[p]);
    var q :| 0 <= q < |kc| && kc[q] < |t.rows[kr[p]]| && !Blank(t.rows[kr[p]][kc[q]]);
    assert r.rows[p][q] == t.rows[kr[p]][kc[q]];
    assert AllColumns(r)[q] == q;
  }

  /** Every column clean_data returns had a non-null cell in a row that
      survived the first step. */
  lemma CleanDataColumnsHaveValue(t: Table)
    requires WellFormed(t)
    ensures forall q :: 0 <= q < |KeptColumns(t)| ==> HasValue(t, KeptColumns(t)[q])
  {
    var kc := KeptColumns(t);
    forall q | 0 <= q < |kc| ensures HasValue(t, kc[q]) {
      assert ColumnKept(t, kc[q]);
    }
  }

  /** The quirk of the third step: when the input has an all-null row, that
      row's "nan" cells keep every column from looking blank, so the third
      step drops nothing. */
  lemma CleanDataNullRowKeepsColumns(t: Table, k: nat)
    requires WellFormed(t) && k < |t.rows| && AllNull(t.rows[k])
    ensures KeptColumns(t) == ValueColumns(t)
  {
    assert Strip("nan") == "nan";
    forall j: nat | 0 <= j < |t.columns| ensures ColumnKept(t, j) == HasValue(t, j) {
      assert !Blank(t.rows[k][j]);
    }
    WhereSame(|t.columns|, (j: nat) => ColumnKept(t, j), (j: nat) => HasValue(t, j));
  }

  /** A two-row table whose first row is all null and whose second column
      holds only a blank under it. */
  function IdempotenceWitness(): (t: Table)
    ensures WellFormed(t)
  {
    Table(["A", "B"], [[Null, Null], [Text("a"), Text(" ")]])
  }

  lemma WitnessFirstColumns()
    ensures KeptColumns(IdempotenceWitness()) == [0, 1]
  {
    var t := IdempotenceWitness();
    assert t.rows[1][0] == Text("a") && t.rows[1][1] == Text(" ");
    assert !AllNull(t.rows[1]);
    assert HasValue(t, 0) && HasValue(t, 1);
    assert Strip("nan") == "nan";
    assert !Blank(t.rows[0][0]) && !Blank(t.rows[0][1]);
    assert ColumnKept(t, 0) && ColumnKept(t, 1);
    var kc := KeptColumns(t);
    assert 0 in kc && 1 in kc;
    IncreasingBound(kc, 2);
    assert kc[0] < kc[1] < 2;
  }

  lemma WitnessFirstRows()
    ensures forall p :: 0 <= p < |KeptRows(IdempotenceWitness())| ==> KeptRows(IdempotenceWitness())[p] == 1
  {
    var t := IdempotenceWitness();
    assert AllNull(t.rows[0]);
    assert !RowKept(t, 0);
  }

  lemma WitnessSecondColumns()
    ensures |KeptColumns(CleanData(IdempotenceWitness()))| <= 1
  {
    var t := IdempotenceWitness();
    var kr, kc := KeptRows(t), KeptColumns(t);
    WitnessFirstColumns();
    WitnessFirstRows();
    var t2 := CleanData(t);
    assert Strip(" ") == "";
    forall p | 0 <= p < |t2.rows| ensures t2.rows[p][1] == Text(" ") {
      assert t2.rows[p][1] == t.rows[kr[p]][kc[1]];
    }
    assert BlankColumn(t2, 1);
    var kc2 := KeptColumns(t2);
    assert 1 !in kc2;
    forall p | 0 <= p < |kc2| ensures kc2[p] < 1 {
      assert kc2[p] < 2;
    }
    IncreasingBound(kc2, 1);
  }

  /** clean_data is not idempotent. Its first pass judges blank columns on
      its input, where an all-null row shows "nan" everywhere; a second pass
      no longer sees that row and drops a column made of blanks. */
  lemma CleanDataNotIdempotent()
    ensures CleanData(CleanData(IdempotenceWitness())) != CleanData(IdempotenceWitness())
  {
    WitnessFirstColumns();
    WitnessSecondColumns();
    assert |CleanData(IdempotenceWitness()).columns| == 2;
  }

  // ---------------------------------------------------------------------
  // process_sheet
  // ---------------------------------------------------------------------

  /** The rows strictly below the marker row m, named by create_headers. */
  function Region(g: Grid, m: nat): (t: Table)
    requires Rectangular(g) && m < |g|
    ensures WellFormed(t) && |t.rows| == |g| - m - 1
    ensures forall k :: 0 <= k < |t.rows| ==> t.rows[k] == g[m + 1 + k]
  {
    Table(Headers(g[m]), g[m + 1..])
  }

  /** `assign(文件名=..., 工作表名=...)`. */
  function Tag(t: Table, file: string, sheet: string): Table
    requires WellFormed(t)
  {
    Assign(Assign(t, FileNameCol, Text(file)), SheetNameCol, Text(sheet))
  }

  /** What process_sheet returns for a grid that was read: nothing for an
      empty grid, a grid without the marker or one that cleans to no rows,
      otherwise the cleaned and tagged region. */
  function SheetTable(file: string, sheet: string, g: Grid): Option<Table>
    requires Rectangular(g)
  {
    if EmptyGrid(g) then None
    else match MarkerRow(g)
      case None => None
      case Some(m) =>
        var x := Tag(CleanData(Region(g, m)), file, sheet);
        if |x.rows| == 0 then None else Some(x)
  }

  /** process_sheet with its error handler: a sheet that cannot be read
      yields nothing. */
  function SheetResult(file: string, s: Sheet): Option<Table>
    requires ValidSheet(s)
  {
    match s.content
      case Unreadable(_) => None
      case Loaded(g) => SheetTable(file, s.name, g)
  }

  method ProcessSheet(file: string, sheet: Sheet) returns (r: Option<Table>)
    requires ValidSheet(sheet)
    ensures r == SheetResult(file, sheet)
  {
    if sheet.content.Unreadable? {
      return None;
    }
    var g := sheet.content.grid;
    if EmptyGrid(g) {
      return None;
    }
    var target := FindTargetRow(g);
    if target.None? {
      return None;
    }
    var m := target.value;
    var headers := CreateHeaders(g[m]);
    var data := Table(headers, g[m + 1..]);
    var x := Tag(CleanData(data), file, sheet.name);
    r := if |x.rows| == 0 then None else Some(x);
  }

  /** process_sheet yields nothing exactly when the sheet is unreadable or
      empty, has no marker in its first ten rows, or cleans to no rows. */
  lemma SheetResultNone(file: string, s: Sheet)
    requires ValidSheet(s)
    ensures SheetResult(file, s).None? <==>
      s.content.Unreadable? || EmptyGrid(s.content.grid) || MarkerRow(s.content.grid).None? ||
      |KeptRows(Region(s.content.grid, MarkerRow(s.content.grid).value))| == 0
  {
    if s.content.Loaded? && !EmptyGrid(s.content.grid) && MarkerRow(s.content.grid).Some? {
      var g := s.content.grid;
      var m := MarkerRow(g).value;
      assert |Tag(CleanData(Region(g, m)), file, s.name).rows| == |KeptRows(Region(g, m))|;
    }
  }

  /** A table process_sheet returns has distinct column names, among them
      both provenance columns. */
  lemma SheetTableDistinct(file: string, sheet: string, g: Grid)
    requires Rectangular(g) && SheetTable(file, sheet, g).Some?
    ensures var r := SheetTable(file, sheet, g).value;
      WellFormed(r) && |r.rows| > 0 && Distinct(r.columns) && FileNameCol in r.columns && SheetNameCol in r.columns
  {
    var m := MarkerRow(g).value;
    var t := Region(g, m);
    var c := CleanData(t);
    var a := Assign(c, FileNameCol, Text(file));
    HeadersDistinct(g[m]);
    SubTableDistinct(c, t, KeptRows(t), KeptColumns(t));
    AssignDistinct(c, FileNameCol, Text(file));
    AssignDistinct(a, SheetNameCol, Text(sheet));
  }

  /** Every row of such a table carries the file name under 文件名 and the
      sheet name under 工作表名. */
  lemma SheetTableTagged(file: string, sheet: string, g: Grid)
    requires Rectangular(g) && SheetTable(file, sheet, g).Some?
    ensures var r := SheetTable(file, sheet, g).value;
      && WellFormed(r)
      && (forall p, j :: 0 <= p < |r.rows| && 0 <= j < |r.columns| && r.columns[j] == FileNameCol ==>
            r.rows[p][j] == Text(file))
      && (forall p, j :: 0 <= p < |r.rows| && 0 <= j < |r.columns| && r.columns[j] == SheetNameCol ==>
            r.rows[p][j] == Text(sheet))
  {
    var m := MarkerRow(g).value;
    TagSets(CleanData(Region(g, m)), file, sheet);
  }

  lemma TagSets(c: Table, file: string, sheet: string)
    requires WellFormed(c)
    ensures var r := Tag(c, file, sheet);
      && (forall p, j :: 0 <= p < |r.rows| && 0 <= j < |r.columns| && r.columns[j] == FileNameCol ==>
            r.rows[p][j] == Text(file))
      && (forall p, j :: 0 <= p < |r.rows| && 0 <= j < |r.columns| && r.columns[j] == SheetNameCol ==>
            r.rows[p][j] == Text(sheet))
  {
    var a := Assign(c, FileNameCol, Text(file));
    var r := Assign(a, SheetNameCol, Text(sheet));
    assert FileNameCol != SheetNameCol;
    forall p, j | 0 <= p < |r.rows| && 0 <= j < |r.columns| && r.columns[j] == FileNameCol
      ensures r.rows[p][j] == Text(file)
    {
      assert j < |a.columns| && a.columns[j] == FileNameCol;
    }
  }

  /** Tagging leaves every other column's name and cells as they were. */
  lemma TagKeeps(c: Table, file: string, sheet: string, p: nat, q: nat)
    requires WellFormed(c) && p < |c.rows| && q < |c.columns| && c.columns[q] !in Provenance
    ensures q < |Tag(c, file, sheet).columns| && p < |Tag(c, file, sheet).rows|
    ensures Tag(c, file, sheet).columns[q] == c.columns[q]
    ensures Tag(c, file, sheet).rows[p][q] == c.rows[p][q]
  {
    var a := Assign(c, FileNameCol, Text(file));
    assert a.columns[q] == c.columns[q];
  }

  /** The data columns of such a table keep the names create_headers gave
      them, in the order of the marker row. */
  lemma SheetTableColumns(file: string, sheet: string, g: Grid)
    requires Rectangular(g) && SheetTable(file, sheet, g).Some?
    ensures var r := SheetTable(file, sheet, g).value;
      var m := MarkerRow(g).value;
      var kc := KeptColumns(Region(g, m));
      && |kc| <= |r.columns| && Increasing(kc)
      && (forall q :: 0 <= q < |kc| ==> kc[q] < |g[m]| && r.columns[q] == Headers(g[m])[kc[q]])
  {
    var m := MarkerRow(g).value;
    var t := Region(g, m);
    var kc := KeptColumns(t);
    var c := CleanData(t);
    var r := Tag(c, file, sheet);
    forall q | 0 <= q < |kc| ensures kc[q] < |g[m]| && r.columns[q] == Headers(g[m])[kc[q]] {
      TagColumn(c, file, sheet, q);
    }
  }

  lemma TagColumn(c: Table, file: string, sheet: string, q: nat)
    requires WellFormed(c) && q < |c.columns|
    ensures q < |Tag(c, file, sheet).columns| && Tag(c, file, sheet).columns[q] == c.columns[q]
  {
    var a := Assign(c, FileNameCol, Text(file));
    assert a.columns[q] == c.columns[q];
  }

  /** The rows of such a table are the kept rows of the region, in order. */
  lemma SheetTableRows(file: string, sheet: string, g: Grid)
    requires Rectangular(g) && SheetTable(file, sheet, g).Some?
    ensures var r := SheetTable(file, sheet, g).value;
      var kr := KeptRows(Region(g, MarkerRow(g).value));
      |r.rows| == |kr| && Increasing(kr)
  {
  }

  /** Every other cell of such a table is copied from the same column of a
      row strictly below the marker row. */
  lemma SheetTableCell(file: string, sheet: string, g: Grid, p: nat, q: nat)
    requires Rectangular(g) && SheetTable(file, sheet, g).Some?
    requires var r := SheetTable(file, sheet, g).value;
      var kc := KeptColumns(Region(g, MarkerRow(g).value));
      p < |r.rows| && q < |kc| && q < |r.columns| && r.columns[q] !in Provenance
    ensures var r := SheetTable(file, sheet, g).value;
      var m := MarkerRow(g).value;
      var kr, kc := KeptRows(Region(g, m)), KeptColumns(Region(g, m));
      && p < |kr| && m < m + 1 + kr[p] < |g| && r.rows[p][q] == g[m + 1 + kr[p]][kc[q]]
  {
    var m := MarkerRow(g).value;
    var t := Region(g, m);
    var c := CleanData(t);
    TagColumn(c, file, sheet, q);
    TaggedCell(t, file, sheet, p, q);
  }

  /** A cell of the cleaned and tagged table outside the provenance columns
      is the cell of the kept row and kept column it came from. */
  lemma TaggedCell(t: Table, file: string, sheet: string, p: nat, q: nat)
    requires WellFormed(t) && p < |KeptRows(t)| && q < |KeptColumns(t)|
    requires CleanData(t).columns[q] !in Provenance
    ensures KeptRows(t)[p] < |t.rows| && KeptColumns(t)[q] < |t.columns|
    ensures p < |Tag(CleanData(t), file, sheet).rows| && q < |Tag(CleanData(t), file, sheet).columns|
    ensures Tag(CleanData(t), file, sheet).rows[p][q] == t.rows[KeptRows(t)[p]][KeptColumns(t)[q]]
  {
    var c := CleanData(t);
    TagKeeps(c, file, sheet, p, q);
  }
}
