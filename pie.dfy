/** The aggregation behind a pie chart:
    `df.groupby(dim, as_index=False)[measure].sum()`.  pandas drops rows whose
    dimension is missing, sorts the group keys (numbers before strings,
    numbers by value, strings by code point) and sums each group's measures,
    a missing measure counting as nothing. */
module Pie {
  import opened Tables

  // ---------------------------------------------------------------------
  // The order of group keys
  // ---------------------------------------------------------------------

  /** Code-point order on strings, as Python compares `str` values. */
  predicate StrLess(x: string, y: string) {
    if x == [] then y != []
    else y != [] && (x[0] < y[0] || (x[0] == y[0] && StrLess(x[1..], y[1..])))
  }

  /** The order in which pandas lists group keys. */
  predicate CellLess(a: Cell, b: Cell) {
    match (a, b)
    case (Int(x), Int(y)) => x < y
    case (Int(_), Str(_)) => true
    case (Str(x), Str(y)) => StrLess(x, y)
    case _ => false
  }

  lemma {:induction false} StrLessIrreflexive(x: string)
    ensures !StrLess(x, x)
  {
    if x != [] {
      StrLessIrreflexive(x[1..]);
    }
  }

  lemma {:induction false} StrLessTransitive(x: string, y: string, z: string)
    requires StrLess(x, y) && StrLess(y, z)
    ensures StrLess(x, z)
  {
    if x != [] && x[0] == y[0] && y[0] == z[0] {
      StrLessTransitive(x[1..], y[1..], z[1..]);
    }
  }

  lemma {:induction false} StrLessTotal(x: string, y: string)
    requires x != y
    ensures StrLess(x, y) || StrLess(y, x)
  {
    if x != [] && y != [] && x[0] == y[0] {
      assert x == [x[0]] + x[1..] && y == [y[0]] + y[1..];
      StrLessTotal(x[1..], y[1..]);
    }
  }

  lemma CellLessIrreflexive(a: Cell)
    ensures !CellLess(a, a)
  {
    if a.Str? {
      StrLessIrreflexive(a.s);
    }
  }

  lemma CellLessTransitive(a: Cell, b: Cell, c: Cell)
    requires CellLess(a, b) && CellLess(b, c)
    ensures CellLess(a, c)
  {
    if a.Str? {
      StrLessTransitive(a.s, b.s, c.s);
    }
  }

  lemma CellLessTotal(a: Cell, b: Cell)
    requires a != Null && b != Null && a != b
    ensures CellLess(a, b) || CellLess(b, a)
  {
    if a.Str? && b.Str? {
      StrLessTotal(a.s, b.s);
    }
  }

  predicate StrictlySorted(s: seq<Cell>) {
    forall i, j :: 0 <= i < j < |s| ==> CellLess(s[i], s[j])
  }

  // ---------------------------------------------------------------------
  // Group keys
  // ---------------------------------------------------------------------

  /** Adds a key to a sorted list of distinct keys. */
  function InsertKey(keys: seq<Cell>, k: Cell): (r: seq<Cell>)
    requires StrictlySorted(keys) && k != Null && Null !in keys
    ensures StrictlySorted(r) && Null !in r
    ensures forall c :: c in r <==> c in keys || c == k
  {
    if keys == [] then [k]
    else if k == keys[0] then keys
    else if CellLess(k, keys[0]) then
      assert forall j :: 0 <= j < |keys| ==> CellLess(k, keys[j]) by {
        forall j | 0 < j < |keys| ensures CellLess(k, keys[j]) {
          CellLessTransitive(k, keys[0], keys[j]);
        }
      }
      [k] + keys
    else
      CellLessTotal(k, keys[0]);
      var tail := InsertKey(keys[1..], k);
      assert forall c :: c in keys <==> c == keys[0] || c in keys[1..] by {
        assert keys == [keys[0]] + keys[1..];
      }
      forall j | 0 <= j < |tail| ensures CellLess(keys[0], tail[j]) {
        if tail[j] != k {
          assert tail[j] in tail;
          var p :| 0 <= p < |keys[1..]| && keys[1..][p] == tail[j];
          assert keys[p + 1] == tail[j];
        }
      }
      [keys[0]] + tail
  }

  /** Every row has a cell at both positions. */
  predicate Covers(rows: seq<seq<Cell>>, d: nat, m: nat) {
    forall i :: 0 <= i < |rows| ==> d < |rows[i]| && m < |rows[i]|
  }

  /** The distinct dimension values present, in pandas' key order. */
  function GroupKeys(rows: seq<seq<Cell>>, d: nat): (keys: seq<Cell>)
    requires forall i :: 0 <= i < |rows| ==> d < |rows[i]|
    ensures StrictlySorted(keys) && Null !in keys
    ensures forall c :: c in keys <==> c != Null && exists i :: 0 <= i < |rows| && rows[i][d] == c
  {
    if rows == [] then []
    else
      var keys := GroupKeys(rows[1..], d);
      assert forall i :: 1 <= i < |rows| ==> rows[i] == rows[1..][i - 1];
      if rows[0][d] == Null then keys else InsertKey(keys, rows[0][d])
  }

  // ---------------------------------------------------------------------
  // Sums
  // ---------------------------------------------------------------------

  /** What a measure cell adds to a sum. */
  function Measure(c: Cell): int {
    if c.Int? then c.n else 0
  }

  /** The sum of the measures of the rows whose dimension is `key`. */
  function GroupSum(rows: seq<seq<Cell>>, d: nat, m: nat, key: Cell): int
    requires Covers(rows, d, m)
  {
    if rows == [] then 0
    else (if rows[0][d] == key then Measure(rows[0][m]) else 0) + GroupSum(rows[1..], d, m, key)
  }

  /** The sum of the measures of every row with a dimension value. */
  function KeyedTotal(rows: seq<seq<Cell>>, d: nat, m: nat): int
    requires Covers(rows, d, m)
  {
    if rows == [] then 0
    else (if rows[0][d] != Null then Measure(rows[0][m]) else 0) + KeyedTotal(rows[1..], d, m)
  }

  /** The group sums of several keys added up. */
  function SumOverKeys(keys: seq<Cell>, rows: seq<seq<Cell>>, d: nat, m: nat): int
    requires Covers(rows, d, m)
  {
    if keys == [] then 0 else GroupSum(rows, d, m, keys[0]) + SumOverKeys(keys[1..], rows, d, m)
  }

  /** The measure of one row, counted under each key it matches. */
  function RowShare(keys: seq<Cell>, c: Cell, x: int): int {
    if keys == [] then 0 else (if keys[0] == c then x else 0) + RowShare(keys[1..], c, x)
  }

  lemma {:induction false} RowShareDistinct(keys: seq<Cell>, c: Cell, x: int)
    requires StrictlySorted(keys)
    ensures RowShare(keys, c, x) == if c in keys then x else 0
  {
    if keys != [] {
      RowShareDistinct(keys[1..], c, x);
      if keys[0] == c {
        assert c !in keys[1..] by {
          forall j | 0 <= j < |keys[1..]| ensures keys[1..][j] != c {
            assert CellLess(keys[0], keys[j + 1]);
            CellLessIrreflexive(c);
          }
        }
      }
      assert c in keys <==> c == keys[0] || c in keys[1..] by {
        assert keys == [keys[0]] + keys[1..];
      }
    }
  }

  lemma {:induction false} SumOverKeysStep(keys: seq<Cell>, rows: seq<seq<Cell>>, d: nat, m: nat)
    requires rows != [] && Covers(rows, d, m)
    ensures SumOverKeys(keys, rows, d, m) ==
            RowShare(keys, rows[0][d], Measure(rows[0][m])) + SumOverKeys(keys, rows[1..], d, m)
  {
    if keys != [] {
      SumOverKeysStep(keys[1..], rows, d, m);
    }
  }

  lemma {:induction false} SumOverKeysNoRows(keys: seq<Cell>, d: nat, m: nat)
    ensures SumOverKeys(keys, [], d, m) == 0
  {
    if keys != [] {
      SumOverKeysNoRows(keys[1..], d, m);
    }
  }

  /** Summing the groups of every key accounts for each keyed row once. */
  lemma {:induction false} SumOverKeysIsTotal(keys: seq<Cell>, rows: seq<seq<Cell>>, d: nat, m: nat)
    requires Covers(rows, d, m) && StrictlySorted(keys) && Null !in keys
    requires forall i :: 0 <= i < |rows| && rows[i][d] != Null ==> rows[i][d] in keys
    ensures SumOverKeys(keys, rows, d, m) == KeyedTotal(rows, d, m)
  {
    if rows == [] {
      SumOverKeysNoRows(keys, d, m);
    } else {
      SumOverKeysStep(keys, rows, d, m);
      RowShareDistinct(keys, rows[0][d], Measure(rows[0][m]));
      assert rows[0][d] != Null ==> rows[0][d] in keys;
      assert RowShare(keys, rows[0][d], Measure(rows[0][m])) ==
             if rows[0][d] != Null then Measure(rows[0][m]) else 0;
      assert forall i :: 0 <= i < |rows[1..]| ==> rows[1..][i] == rows[i + 1];
      SumOverKeysIsTotal(keys, rows[1..], d, m);
    }
  }

  // ---------------------------------------------------------------------
  // The aggregated table
  // ---------------------------------------------------------------------

  /** The sum of the measure cells of a two-column table's rows. */
  function ColumnTotal(rows: seq<seq<Cell>>): int
    requires forall i :: 0 <= i < |rows| ==> |rows[i]| == 2
  {
    if rows == [] then 0 else Measure(rows[0][1]) + ColumnTotal(rows[1..])
  }

  /** The table pandas returns: the dimension and measure labels, and one row
      per distinct dimension value, in key order, holding that value and the
      sum of its measures. */
  function Aggregate(t: Table, d: nat, m: nat): (r: Table)
    requires d < |t.cols| && m < |t.cols| && Rectangular(t)
    ensures r.cols == [t.cols[d], t.cols[m]] && Rectangular(r)
    ensures |r.rows| == |GroupKeys(t.rows, d)|
    ensures forall i :: 0 <= i < |r.rows| ==>
      r.rows[i] == [GroupKeys(t.rows, d)[i], Int(GroupSum(t.rows, d, m, GroupKeys(t.rows, d)[i]))]
  {
    var keys := GroupKeys(t.rows, d);
    Table([t.cols[d], t.cols[m]],
          seq(|keys|, i requires 0 <= i < |keys| => [keys[i], Int(GroupSum(t.rows, d, m, keys[i]))]))
  }

  lemma {:induction false} ColumnTotalIsSumOverKeys(t: Table, d: nat, m: nat, keys: seq<Cell>)
    requires d < |t.cols| && m < |t.cols| && Rectangular(t)
    ensures var rows := seq(|keys|, i requires 0 <= i < |keys| => [keys[i], Int(GroupSum(t.rows, d, m, keys[i]))]);
      ColumnTotal(rows) == SumOverKeys(keys, t.rows, d, m)
  {
    if keys != [] {
      ColumnTotalIsSumOverKeys(t, d, m, keys[1..]);
      var rows := seq(|keys|, i requires 0 <= i < |keys| => [keys[i], Int(GroupSum(t.rows, d, m, keys[i]))]);
      var rest := seq(|keys| - 1, i requires 0 <= i < |keys| - 1 => [keys[1..][i], Int(GroupSum(t.rows, d, m, keys[1..][i]))]);
      assert rows[1..] == rest;
    }
  }

  /** Nothing is lost or counted twice: the aggregated measures add up to
      the measures of every row that has a dimension value. */
  lemma AggregateTotal(t: Table, d: nat, m: nat)
    requires d < |t.cols| && m < |t.cols| && Rectangular(t)
    ensures ColumnTotal(Aggregate(t, d, m).rows) == KeyedTotal(t.rows, d, m)
  {
    var keys := GroupKeys(t.rows, d);
    ColumnTotalIsSumOverKeys(t, d, m, keys);
    SumOverKeysIsTotal(keys, t.rows, d, m);
  }
}
