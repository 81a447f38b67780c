/** The daily snapshot of the Robert Koch Institute's case-number page: the
    first HTML table on the page, its columns relabelled and its last row
    renamed "Germany" (the page labels the totals row differently). The table
    is changed in place, so it is a class; `Snapshot` is the same
    transformation on values and is what the lemmas are about. */
module RkiSnapshot {
  import opened Wrappers
  import opened Tables
  import opened Metadata

  const Url := "https://www.rki.de/DE/Content/InfAZ/N/Neuartiges_Coronavirus/Fallzahlen.html"
  const Agency := "https://www.rki.de"
  const Keywords := ["covid-19", "cases", "deaths", "by country"]

  /** `get_metadata`: the six fixed keys, with neither a cutoff nor a license. */
  function GetMetadata(now: Instant): (m: Metadata)
    ensures m.Keys == BaseKeys
    ensures Describes(m, now, Text(Url), Agency, Url, Keywords)
    ensures "license" !in m && "estimatedReportingCutoff" !in m
  {
    BaseMetadata(now, Text(Url), Agency, Url, Keywords)
  }

  /** The labels `get_data` assigns, in order. */
  const SnapshotColumns := ["State", "Confirmed cases", "Confirmed cases difference to previous day",
                            "confirmed cases per 100.000 population", "Deaths"]

  /** The total row's new label. */
  const Germany := Str("Germany")

  /** A table as a value: column labels and rows of cells. */
  datatype Table = Table(columns: seq<string>, rows: seq<seq<Value>>)

  /** Every row has one cell per column, as in any pandas frame. */
  predicate Rectangular(t: Table) {
    forall i :: 0 <= i < |t.rows| ==> |t.rows[i]| == |t.columns|
  }

  /** `ValueError` when new labels do not match the column count,
      `IndexError` when an `iloc` position is out of range. */
  datatype FrameError = LengthMismatch | IndexError

  /** The position `iloc` addresses with `i` along an axis of length `n`:
      a negative `i` counts from the end. */
  function Iloc(i: int, n: nat): (r: Option<nat>)
    ensures r.Some? <==> 0 <= n + i && i < n
    ensures r.Some? ==> r.value < n
    ensures r.Some? && i >= 0 ==> r.value == i
    ensures r.Some? && i < 0 ==> r.value == n + i
  {
    if 0 <= i < n then Some(i) else if i < 0 && 0 <= n + i then Some(n + i) else None
  }

  /** `df.columns = SnapshotColumns`, then `df.iloc[-1, 0] = "Germany"`. */
  function Snapshot(t: Table): Result<Table, FrameError>
    requires Rectangular(t)
  {
    if |t.columns| != |SnapshotColumns| then Failure(LengthMismatch)
    else
      var row := Iloc(-1, |t.rows|);
      var col := Iloc(0, |SnapshotColumns|);
      if row.None? || col.None? then Failure(IndexError)
      else Success(Table(SnapshotColumns, t.rows[row.value := t.rows[row.value][col.value := Germany]]))
  }

  class Frame {
    var columns: seq<string>
    var rows: seq<seq<Value>>

    function Contents(): Table
      reads this
    {
      Table(columns, rows)
    }

    constructor (columns: seq<string>, rows: seq<seq<Value>>)
      requires Rectangular(Table(columns, rows))
      ensures Contents() == Table(columns, rows)
    {
      this.columns := columns;
      this.rows := rows;
    }

    /** `df.columns = names`. */
    method SetColumns(names: seq<string>) returns (error: Option<FrameError>)
      modifies this
      ensures |names| == |old(columns)| ==> error == None && columns == names && rows == old(rows)
      ensures |names| != |old(columns)| ==> error == Some(LengthMismatch) && unchanged(this)
    {
      if |names| != |columns| {
        return Some(LengthMismatch);
      }
      columns := names;
      return None;
    }

    /** `df.iloc[i, j] = v`. */
    method SetCell(i: int, j: int, v: Value) returns (error: Option<FrameError>)
      requires Rectangular(Contents())
      modifies this
      ensures Rectangular(Contents()) && columns == old(columns)
      ensures var row, col := Iloc(i, |old(rows)|), Iloc(j, |old(columns)|);
              && (row.None? || col.None? ==> error == Some(IndexError) && rows == old(rows))
              && (row.Some? && col.Some? ==>
                    error == None && rows == old(rows)[row.value := old(rows)[row.value][col.value := v]])
    {
      var row, col := Iloc(i, |rows|), Iloc(j, |columns|);
      if row.None? || col.None? {
        return Some(IndexError);
      }
      rows := rows[row.value := rows[row.value][col.value := v]];
      return None;
    }
  }

  /** `get_data` after the download: the first table of the page, relabelled
      and with its last row renamed. `read_html` returns at least one table or
      raises, so the list is not empty. A wrong column count leaves the table
      as it was; an empty table keeps its new labels when `iloc` raises. */
  method GetData(tables: seq<Frame>) returns (r: Result<Frame, FrameError>)
    requires |tables| > 0 && Rectangular(tables[0].Contents())
    modifies tables[0]
    ensures r.Success? ==> r.value == tables[0]
    ensures Snapshot(old(tables[0].Contents())).Success? <==> r.Success?
    ensures r.Success? ==> tables[0].Contents() == Snapshot(old(tables[0].Contents())).value
    ensures r.Failure? ==> r.error == Snapshot(old(tables[0].Contents())).error
    ensures r.Failure? && r.error == LengthMismatch ==> tables[0].Contents() == old(tables[0].Contents())
    ensures r.Failure? && r.error == IndexError ==>
              tables[0].columns == SnapshotColumns && tables[0].rows == old(tables[0].rows)
  {
    var df := tables[0];
    var error := df.SetColumns(SnapshotColumns);
    if error.Some? {
      return Failure(error.value);
    }
    error := df.SetCell(-1, 0, Germany);
    if error.Some? {
      return Failure(error.value);
    }
    return Success(df);
  }

  // ---------------------------------------------------------------------------
  // Properties

  /** The snapshot fails exactly when the page's table does not have five
      columns or has no row. */
  lemma SnapshotFails(t: Table)
    requires Rectangular(t)
    ensures Snapshot(t).Failure? <==> |t.columns| != 5 || |t.rows| == 0
    ensures |t.columns| != 5 ==> Snapshot(t) == Failure(LengthMismatch)
    ensures |t.columns| == 5 && |t.rows| == 0 ==> Snapshot(t) == Failure(IndexError)
  {
  }

  /** A successful snapshot has exactly the five labels, in order, the same
      number of rows, each still one cell per column; the last row's first
      cell is "Germany" and every other cell is unchanged. */
  lemma SnapshotContents(t: Table, i: int, j: int)
    requires Rectangular(t) && Snapshot(t).Success?
    requires 0 <= i < |t.rows| && 0 <= j < |t.columns|
    ensures var s := Snapshot(t).value;
            && s.columns == SnapshotColumns
            && |s.rows| == |t.rows|
            && Rectangular(s)
            && s.rows[i][j] == if i == |t.rows| - 1 && j == 0 then Germany else t.rows[i][j]
  {
    var s := Snapshot(t).value;
    forall k | 0 <= k < |s.rows|
      ensures |s.rows[k]| == |s.columns|
    {
      assert |t.rows[k]| == |t.columns|;
    }
  }

  /** A second snapshot of a snapshot changes nothing: the labels are already
      in place and the total row already reads "Germany". */
  lemma SnapshotIdempotent(t: Table)
    requires Rectangular(t) && Snapshot(t).Success?
    ensures Rectangular(Snapshot(t).value)
    ensures Snapshot(Snapshot(t).value) == Snapshot(t)
  {
    var s := Snapshot(t).value;
    var last := |t.rows| - 1;
    assert |t.rows[last]| == |t.columns|;
    forall k | 0 <= k < |s.rows|
      ensures |s.rows[k]| == |s.columns|
    {
      assert |t.rows[k]| == |t.columns|;
    }
    assert s.rows[last][0 := Germany] == s.rows[last];
    assert s.rows[last := s.rows[last]] == s.rows;
  }
}
