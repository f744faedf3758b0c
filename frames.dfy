/** Tables as pandas holds them, reduced to values: an ordered list of column
    names and a sequence of rows, each row mapping a column name to a cell.
    A missing cell (NaN or None in pandas) is `None`. Every DataFrame the
    pipeline touches is a copy, so a value model loses nothing there. */
module Frames {

  datatype Option<T> = None | Some(value: T)

  /** The exceptions the modelled code can raise. */
  datatype Error =
    | MissingColumn(name: string)   // a KeyError on `df[name]`
    | NoRegionColumn                // the ValueError of prepare_admin_by_level
    | FitFailed(model: string)      // the mixed-model fit raised
    | NotNumeric(column: string)    // arithmetic on a text cell raised
    | ZeroDivision                  // Python float division by zero
    | DuplicateColumn(name: string) // `df[name]` is a frame, which has no dtype

  datatype Result<T> = Success(value: T) | Failure(error: Error)

  /** A cell value: pandas numbers (int or float) as reals, anything else as text. */
  datatype Value = Num(x: real) | Text(s: string)

  type Cell = Option<Value>
  type Row = map<string, Cell>

  datatype Frame = Frame(columns: seq<string>, rows: seq<Row>)

  /** A value computed for row `i` of a column, standing for a numerical
      routine (a z-score) that is not modelled. */
  type ColumnTransform = (seq<Cell>, nat) -> Cell

  /** A column of z-scores: cell `i` is the transform at `i`. */
  function ZColumn(cells: seq<Cell>, z: ColumnTransform): (r: seq<Cell>)
    ensures |r| == |cells|
    ensures forall i :: 0 <= i < |cells| ==> r[i] == z(cells, i)
  {
    seq(|cells|, i requires 0 <= i < |cells| => z(cells, i))
  }

  function Get(row: Row, col: string): Cell {
    if col in row then row[col] else None
  }

  function Column(f: Frame, col: string): (cells: seq<Cell>)
    ensures |cells| == |f.rows|
    ensures forall i :: 0 <= i < |f.rows| ==> cells[i] == Get(f.rows[i], col)
  {
    seq(|f.rows|, i requires 0 <= i < |f.rows| => Get(f.rows[i], col))
  }

  function MapCells(cells: seq<Cell>, f: Cell -> Cell): (r: seq<Cell>)
    ensures |r| == |cells|
    ensures forall i :: 0 <= i < |cells| ==> r[i] == f(cells[i])
  {
    seq(|cells|, i requires 0 <= i < |cells| => f(cells[i]))
  }

  /** `df[name] = cells`: an existing column keeps its position, a new one is
      appended after the others. */
  function SetColumn(f: Frame, name: string, cells: seq<Cell>): (g: Frame)
    requires |cells| == |f.rows|
    ensures g.columns == if name in f.columns then f.columns else f.columns + [name]
    ensures Column(g, name) == cells
    ensures forall c :: c != name ==> Column(g, c) == Column(f, c)
    ensures |g.rows| == |f.rows|
  {
    var g := Frame(if name in f.columns then f.columns else f.columns + [name],
                   seq(|f.rows|, i requires 0 <= i < |f.rows| => f.rows[i][name := cells[i]]));
    assert Column(g, name) == cells;
    g
  }

  /** `str()` of one cell of `astype(str)`: text is kept, a number is
      printed by `show` (Python's float repr, not modelled), NaN is "nan". */
  function AsStr(c: Cell, show: real -> string): string {
    match c
    case None => "nan"
    case Some(Num(x)) => show(x)
    case Some(Text(s)) => s
  }

  /** `df[col] = df[col].astype(str)`: every cell becomes present text. */
  function StrColumn(f: Frame, col: string, show: real -> string): (g: Frame)
    ensures g.columns == if col in f.columns then f.columns else f.columns + [col]
    ensures |g.rows| == |f.rows|
    ensures forall i :: 0 <= i < |g.rows| ==> Get(g.rows[i], col) == Some(Text(AsStr(Get(f.rows[i], col), show)))
    ensures forall c :: c != col ==> Column(g, c) == Column(f, c)
  {
    var g := SetColumn(f, col, MapCells(Column(f, col), c => Some(Text(AsStr(c, show)))));
    assert forall i :: 0 <= i < |g.rows| ==> Get(g.rows[i], col) == Column(g, col)[i];
    g
  }

  /** `df[col].notna().sum()` */
  function NotNaCount(cells: seq<Cell>): (n: nat)
    ensures n <= |cells|
  {
    if cells == [] then 0 else (if cells[0].Some? then 1 else 0) + NotNaCount(cells[1..])
  }

  /** `notna().sum()` on a column is the number of rows `dropna(subset=[col])`
      keeps: both count the rows whose cell in `col` is present. */
  lemma {:induction false} NotNaCountRows(f: Frame, col: string)
    ensures NotNaCount(Column(f, col)) == |DropMissing(f.rows, col)|
    decreases |f.rows|
  {
    if f.rows != [] {
      var rest := Frame(f.columns, f.rows[1..]);
      assert Column(rest, col) == Column(f, col)[1..];
      NotNaCountRows(rest, col);
    }
  }

  /** A numeric dtype: no cell holds text. */
  predicate Numeric(cells: seq<Cell>) {
    forall i :: 0 <= i < |cells| ==> cells[i].None? || cells[i].value.Num?
  }

  /** The rows whose cell in `col` is present: `df.dropna(subset=[col])`. */
  function DropMissing(rows: seq<Row>, col: string): (r: seq<Row>)
    ensures |r| <= |rows|
    ensures forall x :: x in r ==> x in rows && Get(x, col).Some?
    ensures forall x :: x in rows && Get(x, col).Some? ==> x in r
  {
    if rows == [] then []
    else (if Get(rows[0], col).Some? then [rows[0]] else []) + DropMissing(rows[1..], col)
  }

  /** The rows whose cell in `col` equals the number `v`: `df[df[col] == v]`. */
  function RowsEqual(rows: seq<Row>, col: string, v: real): (r: seq<Row>)
    ensures |r| <= |rows|
    ensures forall x :: x in r ==> x in rows && Get(x, col) == Some(Num(v))
    ensures forall x :: x in rows && Get(x, col) == Some(Num(v)) ==> x in r
  {
    if rows == [] then []
    else (if Get(rows[0], col) == Some(Num(v)) then [rows[0]] else []) + RowsEqual(rows[1..], col, v)
  }

  /** The rows that have a value in every one of `cols`: `df[cols].dropna()`. */
  predicate Complete(row: Row, cols: seq<string>) {
    forall c :: c in cols ==> Get(row, c).Some?
  }

  function CompleteRows(rows: seq<Row>, cols: seq<string>): (r: seq<Row>)
    ensures |r| <= |rows|
    ensures forall x :: x in r ==> x in rows && Complete(x, cols)
    ensures forall x :: x in rows && Complete(x, cols) ==> x in r
  {
    if rows == [] then []
    else (if Complete(rows[0], cols) then [rows[0]] else []) + CompleteRows(rows[1..], cols)
  }

  /** The three row filters keep order: filtering a concatenation
      concatenates the filtered parts. */
  lemma {:induction false} DropMissingAppend(a: seq<Row>, b: seq<Row>, col: string)
    ensures DropMissing(a + b, col) == DropMissing(a, col) + DropMissing(b, col)
  {
    if a != [] {
      assert (a + b)[0] == a[0] && (a + b)[1..] == a[1..] + b;
      DropMissingAppend(a[1..], b, col);
    } else {
      assert a + b == b;
    }
  }

  lemma {:induction false} RowsEqualAppend(a: seq<Row>, b: seq<Row>, col: string, v: real)
    ensures RowsEqual(a + b, col, v) == RowsEqual(a, col, v) + RowsEqual(b, col, v)
  {
    if a != [] {
      assert (a + b)[0] == a[0] && (a + b)[1..] == a[1..] + b;
      RowsEqualAppend(a[1..], b, col, v);
    } else {
      assert a + b == b;
    }
  }

  lemma {:induction false} CompleteRowsAppend(a: seq<Row>, b: seq<Row>, cols: seq<string>)
    ensures CompleteRows(a + b, cols) == CompleteRows(a, cols) + CompleteRows(b, cols)
  {
    if a != [] {
      assert (a + b)[0] == a[0] && (a + b)[1..] == a[1..] + b;
      CompleteRowsAppend(a[1..], b, cols);
    } else {
      assert a + b == b;
    }
  }

  /** A row cut down to `cols`: `df[cols]`. */
  function Project(row: Row, cols: seq<string>): (r: Row)
    ensures forall c :: c in cols ==> Get(r, c) == Get(row, c)
    ensures r.Keys <= set c | c in cols
  {
    map c | c in cols && c in row :: row[c]
  }

  /** The elements of `xs` that lie in `keep`, in their original order. */
  function Filter<T>(xs: seq<T>, keep: set<T>): (r: seq<T>)
    ensures |r| <= |xs|
  {
    if xs == [] then [] else (if xs[0] in keep then [xs[0]] else []) + Filter(xs[1..], keep)
  }

  lemma {:induction false} FilterAppend<T>(xs: seq<T>, ys: seq<T>, keep: set<T>)
    ensures Filter(xs + ys, keep) == Filter(xs, keep) + Filter(ys, keep)
  {
    if xs == [] {
      assert xs + ys == ys;
    } else {
      var head := if xs[0] in keep then [xs[0]] else [];
      assert (xs + ys)[0] == xs[0] && (xs + ys)[1..] == xs[1..] + ys;
      FilterAppend(xs[1..], ys, keep);
      assert Filter(xs + ys, keep) == head + (Filter(xs[1..], keep) + Filter(ys, keep));
    }
  }

  lemma FilterSnoc<T>(xs: seq<T>, x: T, keep: set<T>)
    ensures Filter(xs + [x], keep) == Filter(xs, keep) + (if x in keep then [x] else [])
  {
    FilterAppend(xs, [x], keep);
  }

  lemma {:induction false} FilterMembership<T>(xs: seq<T>, keep: set<T>, y: T)
    ensures y in Filter(xs, keep) <==> y in xs && y in keep
  {
    if xs != [] {
      FilterMembership(xs[1..], keep, y);
      assert xs == [xs[0]] + xs[1..];
    }
  }

  lemma {:induction false} FilterAll<T>(xs: seq<T>, keep: set<T>)
    requires forall x :: x in xs ==> x in keep
    ensures Filter(xs, keep) == xs
  {
    if xs != [] {
      FilterAll(xs[1..], keep);
    }
  }

  lemma {:induction false} FilterNone<T>(xs: seq<T>, keep: set<T>)
    requires forall x :: x in xs ==> x !in keep
    ensures Filter(xs, keep) == []
  {
    if xs != [] {
      FilterNone(xs[1..], keep);
    }
  }

  /** The names among `cands` that are columns of the frame, in `cands` order. */
  function Present(cands: seq<string>, columns: seq<string>): seq<string> {
    Filter(cands, set c | c in columns)
  }

  lemma PresentMembership(cands: seq<string>, columns: seq<string>, c: string)
    ensures c in Present(cands, columns) <==> c in cands && c in columns
  {
    FilterMembership(cands, (set x | x in columns), c);
  }

  /** The distinct cells of a column, NaN counted once: `df[col].unique()`. */
  function Distinct(cells: seq<Cell>): set<Cell> {
    set c | c in cells
  }

  lemma {:induction false} DistinctBound(cells: seq<Cell>)
    ensures |Distinct(cells)| <= |cells|
    ensures cells != [] ==> |Distinct(cells)| >= 1
  {
    if cells != [] {
      DistinctBound(cells[1..]);
      assert Distinct(cells) == Distinct(cells[1..]) + {cells[0]};
      assert cells[0] in Distinct(cells);
    }
  }

  predicate NoDuplicates<T(==)>(xs: seq<T>) {
    forall i, j :: 0 <= i < j < |xs| ==> xs[i] != xs[j]
  }

  lemma {:induction false} FilterNoDuplicates<T>(xs: seq<T>, keep: set<T>)
    requires NoDuplicates(xs)
    ensures NoDuplicates(Filter(xs, keep))
  {
    if xs != [] {
      assert NoDuplicates(xs[1..]) by {
        forall i, j | 0 <= i < j < |xs[1..]|
          ensures xs[1..][i] != xs[1..][j]
        {
          assert xs[1..][i] == xs[i + 1] && xs[1..][j] == xs[j + 1];
        }
      }
      FilterNoDuplicates(xs[1..], keep);
      FilterMembership(xs[1..], keep, xs[0]);
    }
  }
}
