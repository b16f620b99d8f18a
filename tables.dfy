/** Result tables: the `{cols, rows}` dict the agent leaves in its state, and
    the pandas data frames the dashboard builds from it (`_raw_table_to_df`,
    and the direct construction used when the chat is drawn). */
module Tables {
  import opened Common

  /** A column label: a column name taken from the result, or the position
      pandas assigns when it is given rows alone. */
  datatype Label = Name(name: string) | Pos(index: nat)

  /** One cell of a result row.  Measures are integers, so sums are exact. */
  datatype Cell = Null | Int(n: int) | Str(s: string)

  /** A data frame: column labels and rows of cells. */
  datatype Table = Table(cols: seq<Label>, rows: seq<seq<Cell>>)

  const EmptyTable := Table([], [])

  /** Every row has one cell per column. */
  predicate Rectangular(t: Table) {
    forall i :: 0 <= i < |t.rows| ==> |t.rows[i]| == |t.cols|
  }

  /** pandas' `df.empty`: no columns or no rows. */
  predicate IsEmpty(t: Table) {
    |t.cols| == 0 || |t.rows| == 0
  }

  /** The first position of a label among the columns, as `dim in df.columns`
      followed by `df[dim]` finds it. */
  function Find(cols: seq<Label>, l: Label): (r: Option<nat>)
    ensures r.Some? <==> l in cols
    ensures r.Some? ==> r.value < |cols| && cols[r.value] == l && l !in cols[..r.value]
  {
    if cols == [] then None
    else if cols[0] == l then Some(0)
    else
      match Find(cols[1..], l)
      case None => None
      case Some(j) =>
        assert cols[..j + 1] == [cols[0]] + cols[1..][..j];
        Some(j + 1)
  }

  // ---------------------------------------------------------------------
  // The raw table and its conversion
  // ---------------------------------------------------------------------

  /** The agent state's `raw_table` dict: its `cols` and `rows` entries, each
      of which may be missing. */
  datatype RawTable = RawTable(cols: Option<seq<string>>, rows: Option<seq<seq<Cell>>>)

  /** `if raw_table:` holds for a dict with at least one key. */
  predicate Truthy(raw: Option<RawTable>) {
    raw.Some? && (raw.value.cols.Some? || raw.value.rows.Some?)
  }

  /** `raw_table.get("cols", [])`. */
  function ColsOf(raw: RawTable): seq<string> {
    if raw.cols.Some? then raw.cols.value else []
  }

  /** `raw_table.get("rows", [])`. */
  function RowsOf(raw: RawTable): seq<seq<Cell>> {
    if raw.rows.Some? then raw.rows.value else []
  }

  /** The widest row's length: the number of columns pandas infers. */
  function Width(rows: seq<seq<Cell>>): (w: nat)
    ensures forall i :: 0 <= i < |rows| ==> |rows[i]| <= w
    ensures rows != [] ==> exists i :: 0 <= i < |rows| && |rows[i]| == w
    ensures rows == [] ==> w == 0
  {
    if rows == [] then 0
    else
      var w := Width(rows[1..]);
      assert forall i :: 1 <= i < |rows| ==> rows[i] == rows[1..][i - 1];
      if |rows[0]| >= w then |rows[0]| else w
  }

  /** A short row filled out with missing values. */
  function Pad(row: seq<Cell>, w: nat): (r: seq<Cell>)
    requires |row| <= w
    ensures |r| == w && r[..|row|] == row
    ensures forall k :: |row| <= k < w ==> r[k] == Null
  {
    row + seq(w - |row|, _ => Null)
  }

  function PadAll(rows: seq<seq<Cell>>, w: nat): (r: seq<seq<Cell>>)
    requires forall i :: 0 <= i < |rows| ==> |rows[i]| <= w
    ensures |r| == |rows|
    ensures forall i :: 0 <= i < |rows| ==> r[i] == Pad(rows[i], w)
  {
    seq(|rows|, i requires 0 <= i < |rows| => Pad(rows[i], w))
  }

  function Names(cols: seq<string>): (r: seq<Label>)
    ensures |r| == |cols| && forall i :: 0 <= i < |cols| ==> r[i] == Name(cols[i])
  {
    seq(|cols|, i requires 0 <= i < |cols| => Name(cols[i]))
  }

  function Positions(w: nat): (r: seq<Label>)
    ensures |r| == w && forall i :: 0 <= i < w ==> r[i] == Pos(i)
  {
    seq(w, i requires 0 <= i => Pos(i))
  }

  /** `pd.DataFrame(rows, columns=cols)`: pandas pads short rows and raises
      `ValueError` when the rows' width is not the number of names given. */
  function FrameWithColumns(cols: seq<string>, rows: seq<seq<Cell>>): (r: Result<Table>)
    ensures r.Err? <==> rows != [] && Width(rows) != |cols|
    ensures r.Err? ==> r.fault == ValueError
    ensures r.Ok? ==> r.value.cols == Names(cols) && Rectangular(r.value) && |r.value.rows| == |rows|
  {
    if rows != [] && Width(rows) != |cols| then Err(ValueError)
    else Ok(Table(Names(cols), PadAll(rows, |cols|)))
  }

  /** `pd.DataFrame(rows)`: positional labels, as many as the widest row. */
  function FrameOfRows(rows: seq<seq<Cell>>): (t: Table)
    ensures t.cols == Positions(Width(rows)) && Rectangular(t) && |t.rows| == |rows|
  {
    Table(Positions(Width(rows)), PadAll(rows, Width(rows)))
  }

  /** `_raw_table_to_df`: an empty frame for a falsy dict; otherwise the rows
      under the given names, or, when pandas rejects the names, under
      positional labels.  It never raises. */
  function RawToTable(raw: Option<RawTable>): (t: Table)
    ensures !Truthy(raw) ==> t == EmptyTable && IsEmpty(t)
    ensures Truthy(raw) ==>
      t.cols == (if RowsOf(raw.value) == [] || Width(RowsOf(raw.value)) == |ColsOf(raw.value)|
                 then Names(ColsOf(raw.value)) else Positions(Width(RowsOf(raw.value))))
  {
    if !Truthy(raw) then EmptyTable
    else
      match FrameWithColumns(ColsOf(raw.value), RowsOf(raw.value))
      case Ok(t) => t
      case Err(_) => FrameOfRows(RowsOf(raw.value))
  }

  /** The frame built directly from `raw_table` when the chat is drawn and
      after a turn: the same construction without the positional fallback,
      so a width mismatch raises. */
  function DirectTable(raw: Option<RawTable>): (r: Result<Table>)
    ensures r.Ok? ==> r.value == RawToTable(raw) && Rectangular(r.value)
    ensures r.Err? <==>
      Truthy(raw) && RowsOf(raw.value) != [] && Width(RowsOf(raw.value)) != |ColsOf(raw.value)|
    ensures r.Err? ==> r.fault == ValueError
  {
    if !Truthy(raw) then Ok(EmptyTable)
    else FrameWithColumns(ColsOf(raw.value), RowsOf(raw.value))
  }

  // ---------------------------------------------------------------------
  // Properties of the conversion
  // ---------------------------------------------------------------------

  /** The adapter always yields a rectangular frame with one row per given
      row, and each given row survives as the start of its frame row. */
  lemma RawToTableKeepsRows(raw: RawTable)
    ensures var t := RawToTable(Some(raw));
      Rectangular(t) && |t.rows| == |RowsOf(raw)|
      && forall i :: 0 <= i < |t.rows| ==> t.rows[i][..|RowsOf(raw)[i]|] == RowsOf(raw)[i]
  {
    var rows := RowsOf(raw);
    if !Truthy(Some(raw)) {
      assert rows == [];
    } else if FrameWithColumns(ColsOf(raw), rows).Err? {
      assert RawToTable(Some(raw)).rows == PadAll(rows, Width(rows));
    } else {
      assert RawToTable(Some(raw)).rows == PadAll(rows, |ColsOf(raw)|);
      assert rows == [] || Width(rows) == |ColsOf(raw)|;
    }
  }

  /** Rows that all match the column list come through unchanged. */
  lemma MatchingRowsUnchanged(raw: RawTable)
    requires Truthy(Some(raw))
    requires forall i :: 0 <= i < |RowsOf(raw)| ==> |RowsOf(raw)[i]| == |ColsOf(raw)|
    ensures RawToTable(Some(raw)) == Table(Names(ColsOf(raw)), RowsOf(raw))
  {
    var rows := RowsOf(raw);
    if rows != [] {
      var i :| 0 <= i < |rows| && |rows[i]| == Width(rows);
    }
    var padded := PadAll(rows, |ColsOf(raw)|);
    forall i | 0 <= i < |rows| ensures padded[i] == rows[i] {
      assert padded[i] == Pad(rows[i], |ColsOf(raw)|);
      assert Pad(rows[i], |ColsOf(raw)|)[..|rows[i]|] == rows[i];
    }
  }
}
