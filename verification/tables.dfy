/** The data frames the viewer analyses (main.py, display_*_analyses): columns
    with a pandas dtype, rows of possibly-missing cells, the keyword rules
    that classify columns, the data-quality counts and the gates that decide
    whether a view is computed. */
module Tables {
  import opened Outcomes
  import opened Strings

  /** The pandas dtypes the viewer distinguishes. `OtherNumeric` stands for
      numeric dtypes other than int64/float64 (int32, UInt8, ...). */
  datatype Kind = Int64 | Float64 | OtherNumeric | Boolean | DateTime | Object

  /** A non-missing cell value. */
  datatype Value = Num(x: real) | Str(s: string) | Flag(b: bool) | Instant(t: int)

  /** A cell: `None` is a missing value (NaN, None, NaT). */
  type Cell = Option<Value>

  datatype Column = Column(name: string, kind: Kind)

  datatype Table = Table(columns: seq<Column>, rows: seq<seq<Cell>>)

  /** Every row has one cell per column. */
  predicate WellFormed(t: Table) {
    forall r :: 0 <= r < |t.rows| ==> |t.rows[r]| == |t.columns|
  }

  /** `pd.api.types.is_numeric_dtype`: booleans count as numeric. */
  predicate IsNumericDtype(k: Kind) {
    k in {Int64, Float64, OtherNumeric, Boolean}
  }

  /** `select_dtypes(include=[np.number])`: booleans do not. */
  predicate IsNumberKind(k: Kind) {
    k in {Int64, Float64, OtherNumeric}
  }

  /** The names of the columns `keep` accepts, in column order. */
  function NamesWhere(cols: seq<Column>, keep: Column -> bool): (r: seq<string>)
    ensures |r| <= |cols|
    ensures forall i :: 0 <= i < |cols| && keep(cols[i]) ==> cols[i].name in r
    ensures forall n :: n in r ==> exists i :: 0 <= i < |cols| && keep(cols[i]) && cols[i].name == n
  {
    if |cols| == 0 then []
    else
      var rest := NamesWhere(cols[1..], keep);
      assert forall i :: 1 <= i < |cols| ==> cols[i] == cols[1..][i - 1];
      (if keep(cols[0]) then [cols[0].name] else []) + rest
  }

  const TemporalKeywords: seq<string> :=
    ["date", "mois", "année", "trimestre", "semaine", "jour", "time", "timestamp"]

  /** A temporal column: datetime dtype, or a lower-cased name containing a temporal keyword. */
  predicate IsTemporal(c: Column) {
    c.kind == DateTime || ContainsAny(Lower(c.name), TemporalKeywords)
  }

  const GeographicKeywords: seq<string> :=
    ["région", "district", "province", "ville", "département", "zone"]

  /** A geographic column: its lower-cased name contains a geographic keyword. */
  predicate IsGeographic(c: Column) {
    ContainsAny(Lower(c.name), GeographicKeywords)
  }

  function TemporalColumns(t: Table): seq<string> {
    NamesWhere(t.columns, IsTemporal)
  }

  function GeographicColumns(t: Table): seq<string> {
    NamesWhere(t.columns, IsGeographic)
  }

  function NumericColumns(t: Table): seq<string> {
    NamesWhere(t.columns, (c: Column) => IsNumberKind(c.kind))
  }

  function CategoricalColumns(t: Table): seq<string> {
    NamesWhere(t.columns, (c: Column) => !IsNumberKind(c.kind))
  }

  /** Column detection: a datetime column is always temporal; otherwise a
      column is temporal or geographic exactly when its lower-cased name
      holds one of the keywords somewhere (so "Mois", "DATE_FIN" and
      "Région médicale" qualify, whatever their dtype). */
  lemma ColumnDetection(t: Table, i: nat)
    requires i < |t.columns|
    ensures t.columns[i].kind == DateTime ==> t.columns[i].name in TemporalColumns(t)
    ensures t.columns[i].kind != DateTime ==>
      (IsTemporal(t.columns[i]) <==>
         exists j, p :: 0 <= j < |TemporalKeywords| && OccursAt(Lower(t.columns[i].name), TemporalKeywords[j], p))
    ensures IsGeographic(t.columns[i]) <==>
      exists j, p :: 0 <= j < |GeographicKeywords| && OccursAt(Lower(t.columns[i].name), GeographicKeywords[j], p)
    ensures IsTemporal(t.columns[i]) ==> t.columns[i].name in TemporalColumns(t)
    ensures IsGeographic(t.columns[i]) ==> t.columns[i].name in GeographicColumns(t)
  {
    var lname := Lower(t.columns[i].name);
    forall j | 0 <= j < |TemporalKeywords| ensures Contains(lname, TemporalKeywords[j]) <==> exists p :: OccursAt(lname, TemporalKeywords[j], p) {
      ContainsIffOccurs(lname, TemporalKeywords[j]);
    }
    forall j | 0 <= j < |GeographicKeywords| ensures Contains(lname, GeographicKeywords[j]) <==> exists p :: OccursAt(lname, GeographicKeywords[j], p) {
      ContainsIffOccurs(lname, GeographicKeywords[j]);
    }
  }

  // ---------------------------------------------------------------------
  // Data quality (display_data_quality_analyses)
  // ---------------------------------------------------------------------

  /** Missing cells among the first `n` cells of a row. */
  function MissingIn(row: seq<Cell>, n: nat): nat
    requires n <= |row|
  {
    if n == 0 then 0 else MissingIn(row, n - 1) + (if row[n - 1].None? then 1 else 0)
  }

  /** `df.isnull().sum().sum()`, summed row by row. */
  function MissingCount(rows: seq<seq<Cell>>): nat {
    if |rows| == 0 then 0
    else MissingCount(rows[..|rows| - 1]) + MissingIn(rows[|rows| - 1], |rows[|rows| - 1]|)
  }

  /** `df[col].isnull().sum()` for the column at position `j`. */
  function ColumnMissing(rows: seq<seq<Cell>>, j: nat): (r: nat)
    ensures r <= |rows|
  {
    if |rows| == 0 then 0
    else
      var last := rows[|rows| - 1];
      ColumnMissing(rows[..|rows| - 1], j) + (if j < |last| && last[j].None? then 1 else 0)
  }

  /** The per-column missing counts of the first `n` columns, added up. */
  function SumColumnMissing(rows: seq<seq<Cell>>, n: nat): nat {
    if n == 0 then 0 else SumColumnMissing(rows, n - 1) + ColumnMissing(rows, n - 1)
  }

  lemma {:induction false} SumColumnMissingEmpty(rows: seq<seq<Cell>>, n: nat)
    requires |rows| == 0
    ensures SumColumnMissing(rows, n) == 0
  {
    if n > 0 {
      SumColumnMissingEmpty(rows, n - 1);
    }
  }

  lemma {:induction false} SumColumnMissingAppend(rows: seq<seq<Cell>>, r: seq<Cell>, n: nat)
    requires n <= |r|
    ensures SumColumnMissing(rows + [r], n) == SumColumnMissing(rows, n) + MissingIn(r, n)
  {
    if n > 0 {
      SumColumnMissingAppend(rows, r, n - 1);
      assert (rows + [r])[..|rows + [r]| - 1] == rows;
    }
  }

  /** Counting missing cells row by row or column by column gives the same
      total: the breakdown per column accounts for every missing cell. */
  lemma {:induction false} MissingByRowsEqualsByColumns(rows: seq<seq<Cell>>, width: nat)
    requires forall r :: 0 <= r < |rows| ==> |rows[r]| == width
    ensures MissingCount(rows) == SumColumnMissing(rows, width)
  {
    if |rows| > 0 {
      var init, last := rows[..|rows| - 1], rows[|rows| - 1];
      assert forall r :: 0 <= r < |init| ==> init[r] == rows[r];
      MissingByRowsEqualsByColumns(init, width);
      assert |last| == width;
      SumColumnMissingAppend(init, last, width);
      assert init + [last] == rows;
      assert MissingCount(rows) == MissingCount(init) + MissingIn(last, width);
    } else {
      SumColumnMissingEmpty(rows, width);
    }
  }

  /** The positions of the columns from `j` on that have a missing value, in
      column order. */
  function MissingColumnsFrom(t: Table, j: nat): (r: seq<nat>)
    requires j <= |t.columns|
    ensures forall k :: 0 <= k < |r| ==> j <= r[k] < |t.columns| && ColumnMissing(t.rows, r[k]) > 0
    ensures forall k1, k2 :: 0 <= k1 < k2 < |r| ==> r[k1] < r[k2]
    ensures forall i :: j <= i < |t.columns| && ColumnMissing(t.rows, i) > 0 ==> i in r
    decreases |t.columns| - j
  {
    if j == |t.columns| then []
    else (if ColumnMissing(t.rows, j) > 0 then [j] else []) + MissingColumnsFrom(t, j + 1)
  }

  /** The (name, count) pairs of the given column positions. */
  function Counts(t: Table, cols: seq<nat>): (r: seq<(string, nat)>)
    requires forall k :: 0 <= k < |cols| ==> cols[k] < |t.columns|
    ensures |r| == |cols|
    ensures forall k :: 0 <= k < |cols| ==> r[k] == (t.columns[cols[k]].name, ColumnMissing(t.rows, cols[k]))
  {
    if |cols| == 0 then []
    else [(t.columns[cols[0]].name, ColumnMissing(t.rows, cols[0]))] + Counts(t, cols[1..])
  }

  /** `missing_by_col[missing_by_col > 0]`: the columns with at least one
      missing value and their counts, in column order (the descending sort
      of the display is not modelled). */
  function MissingBreakdown(t: Table): (r: seq<(string, nat)>)
    ensures forall k :: 0 <= k < |r| ==> r[k].1 > 0
    ensures forall j ::
              0 <= j < |t.columns| && ColumnMissing(t.rows, j) > 0
              ==> (t.columns[j].name, ColumnMissing(t.rows, j)) in r
    ensures forall k :: 0 <= k < |r| ==>
              exists j :: 0 <= j < |t.columns| && r[k] == (t.columns[j].name, ColumnMissing(t.rows, j))
  {
    Counts(t, MissingColumnsFrom(t, 0))
  }

  /** Each entry of the breakdown is a distinct column, taken in column
      order, paired with its own missing count. */
  lemma MissingBreakdownColumns(t: Table)
    ensures var cols := MissingColumnsFrom(t, 0);
      |MissingBreakdown(t)| == |cols|
      && (forall k :: 0 <= k < |cols| ==>
            MissingBreakdown(t)[k] == (t.columns[cols[k]].name, ColumnMissing(t.rows, cols[k])))
      && (forall k1, k2 :: 0 <= k1 < k2 < |cols| ==> cols[k1] < cols[k2])
      && (forall j :: 0 <= j < |t.columns| ==> (j in cols <==> ColumnMissing(t.rows, j) > 0))
  {
  }

  /** `missing_pct`: the missing share of all cells in percent; an empty
      frame divides by zero and yields no number. */
  function MissingPercent(t: Table): (r: Option<real>)
    requires WellFormed(t)
    ensures r.None? <==> |t.rows| * |t.columns| == 0
    ensures r.Some? ==> 0.0 <= r.value <= 100.0
  {
    var size := |t.rows| * |t.columns|;
    if size == 0 then None
    else
      var m := MissingCount(t.rows);
      MissingBounded(t.rows, |t.columns|);
      PercentBounded(m, size);
      Some(m as real * 100.0 / size as real)
  }

  lemma PercentBounded(m: nat, size: nat)
    requires 0 < size && m <= size
    ensures 0.0 <= m as real * 100.0 / size as real <= 100.0
  {
    assert m as real * 100.0 <= size as real * 100.0;
    assert size as real * 100.0 / size as real == 100.0;
  }

  lemma {:induction false} MissingInBounded(row: seq<Cell>, n: nat)
    requires n <= |row|
    ensures MissingIn(row, n) <= n
  {
    if n > 0 {
      MissingInBounded(row, n - 1);
    }
  }

  lemma {:induction false} MissingBounded(rows: seq<seq<Cell>>, width: nat)
    requires forall r :: 0 <= r < |rows| ==> |rows[r]| == width
    ensures MissingCount(rows) <= |rows| * width
  {
    if |rows| > 0 {
      var init := rows[..|rows| - 1];
      assert forall r :: 0 <= r < |init| ==> init[r] == rows[r];
      MissingBounded(init, width);
      MissingInBounded(rows[|rows| - 1], width);
      assert (|rows| - 1) * width + width == |rows| * width;
    }
  }

  /** `df.duplicated().sum()`: rows equal to some earlier row. */
  function DuplicateCount(rows: seq<seq<Cell>>): nat {
    if |rows| == 0 then 0
    else DuplicateCount(rows[..|rows| - 1]) + (if rows[|rows| - 1] in rows[..|rows| - 1] then 1 else 0)
  }

  function RowSet(rows: seq<seq<Cell>>): set<seq<Cell>> {
    set r | r in rows
  }

  /** The duplicate count is the number of rows minus the number of distinct rows. */
  lemma {:induction false} DuplicatesAreRowsMinusDistinct(rows: seq<seq<Cell>>)
    ensures DuplicateCount(rows) + |RowSet(rows)| == |rows|
  {
    if |rows| > 0 {
      var init, last := rows[..|rows| - 1], rows[|rows| - 1];
      DuplicatesAreRowsMinusDistinct(init);
      assert RowSet(rows) == RowSet(init) + {last} by {
        assert rows == init + [last];
      }
      if last in init {
        assert RowSet(rows) == RowSet(init);
      } else {
        assert last !in RowSet(init);
        assert |RowSet(init) + {last}| == |RowSet(init)| + 1;
      }
    }
  }

  /** `len(df.select_dtypes(include=[np.number]).columns)`. */
  function NumericColumnCount(cols: seq<Column>): (r: nat)
    ensures r <= |cols|
  {
    if |cols| == 0 then 0
    else NumericColumnCount(cols[..|cols| - 1]) + (if IsNumberKind(cols[|cols| - 1].kind) then 1 else 0)
  }

  /** Cells of number-kind columns equal to zero, among the first `n` cells of a row. */
  function ZerosIn(cols: seq<Column>, row: seq<Cell>, n: nat): (r: nat)
    requires n <= |cols| && n <= |row|
    ensures r <= NumericColumnCount(cols[..n])
  {
    if n == 0 then 0
    else
      assert cols[..n][..n - 1] == cols[..n - 1];
      ZerosIn(cols, row, n - 1)
      + (if IsNumberKind(cols[n - 1].kind) && row[n - 1] == Some(Num(0.0)) then 1 else 0)
  }

  /** `(df.select_dtypes(include=[np.number]) == 0).sum().sum()`: at most one
      per numeric cell. */
  function ZeroCount(t: Table): (r: nat)
    requires WellFormed(t)
    ensures r <= |t.rows| * NumericColumnCount(t.columns)
    decreases |t.rows|
  {
    if |t.rows| == 0 then 0
    else
      var init := Table(t.columns, t.rows[..|t.rows| - 1]);
      assert forall r :: 0 <= r < |init.rows| ==> init.rows[r] == t.rows[r];
      var k := NumericColumnCount(t.columns);
      var before := ZeroCount(init);
      var here := ZerosIn(t.columns, t.rows[|t.rows| - 1], |t.columns|);
      assert t.columns[..|t.columns|] == t.columns;
      assert (|t.rows| - 1) * k + k == |t.rows| * k;
      before + here
  }

  /** `(df[col] == 0).sum()` for the column at position `j`. */
  function ColumnZeros(rows: seq<seq<Cell>>, j: nat): (r: nat)
    ensures r <= |rows|
  {
    if |rows| == 0 then 0
    else
      var last := rows[|rows| - 1];
      ColumnZeros(rows[..|rows| - 1], j) + (if j < |last| && last[j] == Some(Num(0.0)) then 1 else 0)
  }

  /** The zero counts of the number-kind columns among the first `n`, added up;
      other columns contribute nothing. */
  function SumNumericZeros(cols: seq<Column>, rows: seq<seq<Cell>>, n: nat): nat
    requires n <= |cols|
  {
    if n == 0 then 0
    else SumNumericZeros(cols, rows, n - 1) + (if IsNumberKind(cols[n - 1].kind) then ColumnZeros(rows, n - 1) else 0)
  }

  lemma {:induction false} SumNumericZerosEmpty(cols: seq<Column>, rows: seq<seq<Cell>>, n: nat)
    requires n <= |cols| && |rows| == 0
    ensures SumNumericZeros(cols, rows, n) == 0
  {
    if n > 0 {
      SumNumericZerosEmpty(cols, rows, n - 1);
    }
  }

  lemma {:induction false} SumNumericZerosAppend(cols: seq<Column>, rows: seq<seq<Cell>>, r: seq<Cell>, n: nat)
    requires n <= |cols| && n <= |r|
    ensures SumNumericZeros(cols, rows + [r], n) == SumNumericZeros(cols, rows, n) + ZerosIn(cols, r, n)
  {
    if n > 0 {
      SumNumericZerosAppend(cols, rows, r, n - 1);
      assert (rows + [r])[..|rows + [r]| - 1] == rows;
    }
  }

  /** Counting zeros row by row or column by column gives the same total,
      and only number-kind columns are counted. */
  lemma {:induction false} ZerosByRowsEqualsByColumns(t: Table)
    requires WellFormed(t)
    ensures ZeroCount(t) == SumNumericZeros(t.columns, t.rows, |t.columns|)
    decreases |t.rows|
  {
    if |t.rows| > 0 {
      var init, last := t.rows[..|t.rows| - 1], t.rows[|t.rows| - 1];
      var ti := Table(t.columns, init);
      assert forall r :: 0 <= r < |init| ==> init[r] == t.rows[r];
      ZerosByRowsEqualsByColumns(ti);
      SumNumericZerosAppend(t.columns, init, last, |t.columns|);
      assert init + [last] == t.rows;
      assert ZeroCount(t) == ZeroCount(ti) + ZerosIn(t.columns, last, |t.columns|);
    } else {
      SumNumericZerosEmpty(t.columns, t.rows, |t.columns|);
    }
  }

  // ---------------------------------------------------------------------
  // View gates
  // ---------------------------------------------------------------------

  /** The non-missing values of column `j`. */
  function ColumnValues(rows: seq<seq<Cell>>, j: nat): set<Value> {
    set r | 0 <= r < |rows| && j < |rows[r]| && rows[r][j].Some? :: rows[r][j].value
  }

  /** `df[col].nunique()`: distinct non-missing values. */
  function UniqueCount(rows: seq<seq<Cell>>, j: nat): nat {
    |ColumnValues(rows, j)|
  }

  /** A column never has more distinct values than the frame has rows, so
      the ANOVA gate needs at least 31 rows of which three differ in the
      group column. */
  lemma {:induction false} UniqueCountBounded(rows: seq<seq<Cell>>, j: nat)
    ensures UniqueCount(rows, j) <= |rows|
  {
    if |rows| > 0 {
      var init, last := rows[..|rows| - 1], rows[|rows| - 1];
      UniqueCountBounded(init, j);
      var extra: set<Value> := if j < |last| && last[j].Some? then {last[j].value} else {};
      assert ColumnValues(rows, j) <= ColumnValues(init, j) + extra by {
        forall v | v in ColumnValues(rows, j) ensures v in ColumnValues(init, j) + extra {
          var r :| 0 <= r < |rows| && j < |rows[r]| && rows[r][j].Some? && rows[r][j].value == v;
          if r < |rows| - 1 {
            assert init[r] == rows[r];
          }
        }
      }
      assert |ColumnValues(init, j) + extra| <= |ColumnValues(init, j)| + |extra|;
      SubsetCardinality(ColumnValues(rows, j), ColumnValues(init, j) + extra);
    }
  }

  lemma SubsetCardinality<T>(a: set<T>, b: set<T>)
    requires a <= b
    ensures |a| <= |b|
  {
    assert b == a + (b - a);
  }

  /** The comparative view groups a non-number column by its values and
      compares a number column across the groups; the one-way ANOVA is
      attempted only with more than two groups and more than 30 rows.
      Column names are strings here; the source's `if cat_col and num_col`
      would also skip the section for a falsy label such as the integer
      column 0 of a frame built from positional records, which this
      predicate does not model. */
  predicate AnovaRuns(t: Table, c: nat, v: nat)
    requires c < |t.columns| && v < |t.columns|
  {
    !IsNumberKind(t.columns[c].kind) && IsNumberKind(t.columns[v].kind)
    && UniqueCount(t.rows, c) > 2 && |t.rows| > 30
  }

  /** An attempted ANOVA compares a column offered as a category with one
      offered as a number, and has three rows that fall into three different
      groups. */
  lemma AnovaGate(t: Table, c: nat, v: nat)
    requires c < |t.columns| && v < |t.columns|
    ensures AnovaRuns(t, c, v) ==>
      t.columns[c].name in CategoricalColumns(t) && t.columns[v].name in NumericColumns(t)
    ensures AnovaRuns(t, c, v) ==>
      exists r1, r2, r3 ::
        0 <= r1 < |t.rows| && 0 <= r2 < |t.rows| && 0 <= r3 < |t.rows|
        && c < |t.rows[r1]| && c < |t.rows[r2]| && c < |t.rows[r3]|
        && t.rows[r1][c].Some? && t.rows[r2][c].Some? && t.rows[r3][c].Some?
        && t.rows[r1][c] != t.rows[r2][c] && t.rows[r1][c] != t.rows[r3][c] && t.rows[r2][c] != t.rows[r3][c]
  {
    if AnovaRuns(t, c, v) {
      var a, b, d := ThreeValues(ColumnValues(t.rows, c));
      var r1 := RowWith(t.rows, c, a);
      var r2 := RowWith(t.rows, c, b);
      var r3 := RowWith(t.rows, c, d);
    }
  }

  /** A set of more than two values holds three different ones. */
  lemma ThreeValues(s: set<Value>) returns (a: Value, b: Value, d: Value)
    requires |s| > 2
    ensures a in s && b in s && d in s && a != b && a != d && b != d
  {
    a :| a in s;
    var s1 := s - {a};
    assert |s1| == |s| - 1;
    b :| b in s1;
    var s2 := s1 - {b};
    assert |s2| == |s1| - 1;
    d :| d in s2;
  }

  /** A row whose cell in column `j` holds a given value of that column. */
  lemma RowWith(rows: seq<seq<Cell>>, j: nat, v: Value) returns (r: nat)
    requires v in ColumnValues(rows, j)
    ensures r < |rows| && j < |rows[r]| && rows[r][j] == Some(v)
  {
    var q :| 0 <= q < |rows| && j < |rows[q]| && rows[q][j].Some? && rows[q][j].value == v;
    r := q;
  }

  /** A row holding a value in both columns. */
  predicate Complete(row: seq<Cell>, x: nat, y: nat) {
    x < |row| && y < |row| && row[x].Some? && row[y].Some?
  }

  /** `len(df[[x, y]].dropna())`: rows where both columns hold a value. */
  function CompleteRows(rows: seq<seq<Cell>>, x: nat, y: nat): (r: nat)
    ensures r <= |rows|
  {
    if |rows| == 0 then 0
    else
      CompleteRows(rows[..|rows| - 1], x, y) + (if Complete(rows[|rows| - 1], x, y) then 1 else 0)
  }

  /** The positions of the rows `dropna` keeps. */
  function CompleteIndices(rows: seq<seq<Cell>>, x: nat, y: nat): set<nat> {
    set r: nat | r < |rows| && Complete(rows[r], x, y)
  }

  /** The count is the number of rows `dropna` keeps. */
  lemma {:induction false} CompleteRowsCountsKeptRows(rows: seq<seq<Cell>>, x: nat, y: nat)
    ensures CompleteRows(rows, x, y) == |CompleteIndices(rows, x, y)|
  {
    if |rows| > 0 {
      var init, n := rows[..|rows| - 1], |rows| - 1;
      CompleteRowsCountsKeptRows(init, x, y);
      var extra: set<nat> := if Complete(rows[n], x, y) then {n} else {};
      assert CompleteIndices(rows, x, y) == CompleteIndices(init, x, y) + extra by {
        forall r: nat ensures r in CompleteIndices(rows, x, y) <==> r in CompleteIndices(init, x, y) + extra {
          if r < n {
            assert init[r] == rows[r];
          }
        }
      }
      assert n !in CompleteIndices(init, x, y);
    }
  }

  /** The predictive view offers only number columns for X and Y, needs two
      of them, two different variables, and more than 10 complete rows.
      Column names are strings here; the source's `if x_var and y_var` would
      also refuse a falsy label such as the integer column 0 of a frame built
      from positional records, which this predicate does not model. */
  predicate RegressionRuns(t: Table, x: nat, y: nat)
    requires x < |t.columns| && y < |t.columns|
  {
    |NumericColumns(t)| >= 2
    && IsNumberKind(t.columns[x].kind) && IsNumberKind(t.columns[y].kind)
    && t.columns[x].name != t.columns[y].name
    && CompleteRows(t.rows, x, y) > 10
  }

  /** A regression runs exactly when X and Y are two differently named number
      columns and at least 11 rows hold a value in both; a variable is never
      regressed on itself. */
  lemma RegressionGate(t: Table, x: nat, y: nat)
    requires x < |t.columns| && y < |t.columns|
    ensures RegressionRuns(t, x, y) <==>
      IsNumberKind(t.columns[x].kind) && IsNumberKind(t.columns[y].kind)
      && t.columns[x].name != t.columns[y].name
      && |CompleteIndices(t.rows, x, y)| >= 11
    ensures RegressionRuns(t, x, y) ==>
      t.columns[x].name in NumericColumns(t) && t.columns[y].name in NumericColumns(t) && |t.rows| >= 11
    ensures x == y ==> !RegressionRuns(t, x, y)
  {
    CompleteRowsCountsKeptRows(t.rows, x, y);
    var ns := NumericColumns(t);
    if IsNumberKind(t.columns[x].kind) && IsNumberKind(t.columns[y].kind) && t.columns[x].name != t.columns[y].name {
      assert t.columns[x].name in ns && t.columns[y].name in ns;
      TwoDistinctMembers(ns, t.columns[x].name, t.columns[y].name);
    }
  }

  lemma TwoDistinctMembers<T>(s: seq<T>, a: T, b: T)
    requires a in s && b in s && a != b
    ensures |s| >= 2
  {
  }
}
