/** main.py's merge_all_data: the union of all labels, sorted, every table
    padded with empty columns and reindexed onto it, then concatenated. */
module MainMerge {
  import opened Wrappers
  import opened Strings
  import opened Frames

  /** The error pandas raises when reindexing a table whose labels repeat. */
  const DuplicateLabels: string := "cannot reindex on an axis with duplicate labels"

  /** Every label of every table, table after table. */
  function Labels(ts: seq<Table>): (r: seq<string>)
    ensures forall c :: c in r <==> exists i :: 0 <= i < |ts| && c in ts[i].columns
    decreases |ts|
  {
    if |ts| == 0 then []
    else
      var init := ts[..|ts| - 1];
      assert forall i :: 0 <= i < |init| ==> init[i] == ts[i];
      Labels(init) + ts[|ts| - 1].columns
  }

  /** `sorted(list(all_columns))` with all_columns the union of the labels. */
  function MergedColumns(ts: seq<Table>): (r: seq<string>)
    ensures StrictlySorted(r) && Distinct(r)
    ensures forall c :: c in r <==> exists i :: 0 <= i < |ts| && c in ts[i].columns
  {
    var r := SortedSet(Labels(ts));
    StrictlySortedDistinct(r);
    r
  }

  /** The padding loop: each label of cols that the table does not have yet
      is added as a column of missing values. */
  function Pad(t: Table, cols: seq<string>): (r: Table)
    requires WellFormed(t)
    ensures WellFormed(r) && |r.rows| == |t.rows| && |t.columns| <= |r.columns|
    ensures r.columns[..|t.columns|] == t.columns
    ensures forall j :: |t.columns| <= j < |r.columns| ==> r.columns[j] !in t.columns
    ensures forall c :: c in cols ==> c in r.columns
    ensures forall k, j :: 0 <= k < |r.rows| && 0 <= j < |t.columns| ==> r.rows[k][j] == t.rows[k][j]
    ensures forall k, j :: 0 <= k < |r.rows| && |t.columns| <= j < |r.columns| ==> r.rows[k][j] == Null
    decreases |cols|
  {
    if |cols| == 0 then t
    else
      var p := Pad(t, cols[..|cols| - 1]);
      var c := cols[|cols| - 1];
      if c in p.columns then p
      else
        var r := Table(p.columns + [c], seq(|p.rows|, k requires 0 <= k < |p.rows| => p.rows[k] + [Null]));
        assert r.columns[..|t.columns|] == p.columns[..|t.columns|];
        assert forall x :: x in cols[..|cols| - 1] ==> x in p.columns;
        r
  }

  /** Padding adds each label at most once, so it neither creates nor
      removes a repeated label. */
  lemma {:induction false} PadDistinct(t: Table, cols: seq<string>)
    requires WellFormed(t)
    ensures Distinct(Pad(t, cols).columns) <==> Distinct(t.columns)
    decreases |cols|
  {
    if |cols| > 0 {
      var p := Pad(t, cols[..|cols| - 1]);
      var c := cols[|cols| - 1];
      PadDistinct(t, cols[..|cols| - 1]);
      if c !in p.columns {
        var r := Pad(t, cols);
        assert r.columns == p.columns + [c];
        if Distinct(p.columns) {
          forall a, b | 0 <= a < b < |r.columns| ensures r.columns[a] != r.columns[b] {
            if b < |p.columns| {
              assert r.columns[a] == p.columns[a] && r.columns[b] == p.columns[b];
            } else {
              assert r.columns[a] in p.columns;
            }
          }
        } else {
          var a, b :| 0 <= a < b < |p.columns| && p.columns[a] == p.columns[b];
          assert r.columns[a] == r.columns[b];
        }
      }
    }
  }

  /** The first position of a label of t is the same after padding. */
  lemma PadIndexOf(t: Table, cols: seq<string>, c: string)
    requires WellFormed(t) && c in t.columns
    ensures IndexOf(Pad(t, cols).columns, c) == IndexOf(t.columns, c)
  {
    var r := Pad(t, cols);
    var i := IndexOf(t.columns, c);
    var i' := IndexOf(r.columns, c);
    assert r.columns[i] == c;
  }

  /** Padding first does not change what reindexing gives. */
  lemma PadReindex(t: Table, cols: seq<string>)
    requires WellFormed(t)
    ensures Reindex(Pad(t, cols), cols) == Reindex(t, cols)
  {
    var p := Pad(t, cols);
    var a, b := Reindex(p, cols), Reindex(t, cols);
    forall k | 0 <= k < |a.rows| ensures a.rows[k] == b.rows[k] {
      forall j | 0 <= j < |cols| ensures a.rows[k][j] == b.rows[k][j] {
        var c := cols[j];
        if c in t.columns {
          PadIndexOf(t, cols, c);
        } else {
          assert IndexOf(p.columns, c) >= |t.columns|;
        }
      }
    }
  }

  /** Every table padded and reindexed onto the merged labels. */
  function Unified(ts: seq<Table>, cols: seq<string>): (r: seq<Table>)
    requires AllWellFormed(ts)
    ensures |r| == |ts| && AllWellFormed(r) && SameColumns(r)
    ensures forall i :: 0 <= i < |r| ==> r[i].columns == cols && |r[i].rows| == |ts[i].rows|
  {
    seq(|ts|, i requires 0 <= i < |ts| => Reindex(Pad(ts[i], cols), cols))
  }

  /** What merge_all_data returns or raises. */
  function Merge(ts: seq<Table>): Result<Table>
    requires AllWellFormed(ts)
  {
    if |ts| == 0 then Success(Table([], []))
    else
      var cols := MergedColumns(ts);
      if exists i :: 0 <= i < |ts| && !Distinct(Pad(ts[i], cols).columns) then Failure(DuplicateLabels)
      else Success(Concat(Unified(ts, cols)))
  }

  /** The merge fails exactly when some table has a repeated label. */
  lemma MergeFailure(ts: seq<Table>)
    requires AllWellFormed(ts)
    ensures Merge(ts).Failure? <==> exists i :: 0 <= i < |ts| && !Distinct(ts[i].columns)
    ensures Merge(ts).Failure? ==> Merge(ts).error == DuplicateLabels
  {
    var cols := MergedColumns(ts);
    forall i | 0 <= i < |ts| ensures Distinct(Pad(ts[i], cols).columns) <==> Distinct(ts[i].columns) {
      PadDistinct(ts[i], cols);
    }
  }

  /** Merging nothing gives the empty table. */
  lemma MergeEmpty(ts: seq<Table>)
    requires AllWellFormed(ts) && |ts| == 0
    ensures Merge(ts) == Success(Table([], []))
  {
  }

  /** A merged table is well formed, under the sorted union of the labels,
      and holds as many rows as the inputs together. */
  lemma MergeShape(ts: seq<Table>)
    requires AllWellFormed(ts) && |ts| > 0 && Merge(ts).Success?
    ensures var r := Merge(ts).value;
      && WellFormed(r) && r.columns == MergedColumns(ts) && |r.rows| == TotalRows(ts)
  {
    var u := Unified(ts, MergedColumns(ts));
    ConcatWellFormed(u);
    SameTotal(u, ts);
  }

  /** Row k of input i sits at position TotalRows(ts[..i]) + k, each of its
      labels keeping its value and every other label missing. */
  lemma MergeRow(ts: seq<Table>, i: nat, k: nat)
    requires AllWellFormed(ts) && |ts| > 0 && Merge(ts).Success? && i < |ts| && k < |ts[i].rows|
    ensures TotalRows(ts[..i]) + k < |Merge(ts).value.rows|
    ensures Merge(ts).value.rows[TotalRows(ts[..i]) + k] == Reindex(ts[i], MergedColumns(ts)).rows[k]
  {
    var cols := MergedColumns(ts);
    var u := Unified(ts, cols);
    ConcatRowsAt(u, i, k);
    SameTotal(u[..i], ts[..i]);
    SameTotal(u, ts);
    PadReindex(ts[i], cols);
  }

  /** Merging loses nothing: the block of input i, reindexed back onto the
      input's own labels, is the input. */
  lemma MergeRoundTrip(ts: seq<Table>, i: nat)
    requires AllWellFormed(ts) && |ts| > 0 && Merge(ts).Success? && i < |ts|
    ensures Reindex(Unified(ts, MergedColumns(ts))[i], ts[i].columns) == ts[i]
  {
    var cols := MergedColumns(ts);
    MergeFailure(ts);
    PadReindex(ts[i], cols);
    ReindexRoundTrip(ts[i], cols);
  }
}
