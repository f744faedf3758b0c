/** standardize_context_vars (transform.py): every neighbourhood-context
    column, recognised by its level prefix, is replaced by its z-score when
    it is numeric and not constant. The z-score itself is a parameter. */
module Standardize {
  import opened Frames
  import opened PyStr
  import AdminLevels

  /** The default prefixes: buurt, wijk and gemeente indicators. */
  const ContextPrefixes := ["b_", "w_", "g_"]

  predicate HasPrefix(col: string, prefixes: seq<string>) {
    exists k :: 0 <= k < |prefixes| && StartsWith(col, prefixes[k])
  }

  /** `std() > 0`: the sample standard deviation of the present values is
      positive exactly when two of them differ (one value gives NaN). */
  predicate HasSpread(cells: seq<Cell>) {
    exists i, j :: 0 <= i < |cells| && 0 <= j < |cells| && cells[i].Some? && cells[j].Some? && cells[i] != cells[j]
  }

  /** A column the loop rescales. */
  predicate Eligible(df: Frame, col: string, prefixes: seq<string>) {
    HasPrefix(col, prefixes) && Numeric(Column(df, col)) && HasSpread(Column(df, col))
  }

  /** A prefixed column listed more than once: `df[col]` is then a frame and
      reading its dtype raises. */
  predicate Ambiguous(columns: seq<string>, col: string, prefixes: seq<string>) {
    HasPrefix(col, prefixes) && multiset(columns)[col] > 1
  }

  /** The first column in order at which the loop raises. */
  function FirstAmbiguous(cols: seq<string>, columns: seq<string>, prefixes: seq<string>): (r: Option<string>)
    ensures r.Some? ==> r.value in cols && Ambiguous(columns, r.value, prefixes)
    ensures r.None? <==> forall c :: c in cols ==> !Ambiguous(columns, c, prefixes)
  {
    if cols == [] then None
    else if Ambiguous(columns, cols[0], prefixes) then Some(cols[0])
    else FirstAmbiguous(cols[1..], columns, prefixes)
  }

  lemma {:induction false} FirstAmbiguousAppend(xs: seq<string>, ys: seq<string>, columns: seq<string>, prefixes: seq<string>)
    ensures FirstAmbiguous(xs + ys, columns, prefixes) ==
              if FirstAmbiguous(xs, columns, prefixes).Some? then FirstAmbiguous(xs, columns, prefixes)
              else FirstAmbiguous(ys, columns, prefixes)
  {
    if xs == [] {
      assert xs + ys == ys;
    } else {
      assert (xs + ys)[1..] == xs[1..] + ys;
      FirstAmbiguousAppend(xs[1..], ys, columns, prefixes);
    }
  }

  lemma FirstAmbiguousSnoc(cols: seq<string>, c: string, columns: seq<string>, prefixes: seq<string>)
    requires FirstAmbiguous(cols, columns, prefixes).None?
    ensures FirstAmbiguous(cols + [c], columns, prefixes) ==
              if Ambiguous(columns, c, prefixes) then Some(c) else None
  {
    FirstAmbiguousAppend(cols, [c], columns, prefixes);
    assert [c][1..] == [];
  }

  /** The loop raises at the first ambiguous column. */
  lemma FirstAmbiguousAt(columns: seq<string>, k: nat, prefixes: seq<string>)
    requires k < |columns| && FirstAmbiguous(columns[..k], columns, prefixes).None?
    requires Ambiguous(columns, columns[k], prefixes)
    ensures FirstAmbiguous(columns, columns, prefixes) == Some(columns[k])
  {
    assert columns == columns[..k + 1] + columns[k + 1..];
    assert columns[..k + 1] == columns[..k] + [columns[k]];
    FirstAmbiguousSnoc(columns[..k], columns[k], columns, prefixes);
    FirstAmbiguousAppend(columns[..k + 1], columns[k + 1..], columns, prefixes);
  }

  /** A name listed once has not been seen by the loop before. */
  lemma ListedOnce(columns: seq<string>, k: nat)
    requires k < |columns| && multiset(columns)[columns[k]] <= 1
    ensures columns[k] !in columns[..k]
  {
    assert columns == columns[..k] + columns[k..];
    assert multiset(columns) == multiset(columns[..k]) + multiset(columns[k..]);
    assert columns[k] in multiset(columns[k..]) by {
      assert columns[k..][0] == columns[k];
    }
  }

  /** The columns the loop rescales, in column order; their number is the
      `standardized_count` the function reports. */
  function Rescaled(data: Frame, prefixes: seq<string>): seq<string> {
    Filter(data.columns, EligibleSet(data, prefixes))
  }

  function EligibleSet(data: Frame, prefixes: seq<string>): set<string> {
    set c | c in data.columns && Eligible(data, c, prefixes)
  }

  /** The rescaled list names exactly the eligible columns. */
  lemma RescaledMembership(data: Frame, prefixes: seq<string>, c: string)
    ensures c in Rescaled(data, prefixes) <==> c in data.columns && Eligible(data, c, prefixes)
  {
    FilterMembership(data.columns, EligibleSet(data, prefixes), c);
  }

  /** The state after visiting the first `n` columns: each eligible one
      holds its z-score, every other column is as in the input. */
  ghost predicate Visited(data: Frame, df: Frame, n: nat, count: nat, prefixes: seq<string>, z: ColumnTransform)
    requires n <= |data.columns|
  {
    && df.columns == data.columns && |df.rows| == |data.rows|
    && count == |Filter(data.columns[..n], EligibleSet(data, prefixes))|
    && (forall c :: c in data.columns[..n] && Eligible(data, c, prefixes) ==>
          Column(df, c) == ZColumn(Column(data, c), z))
    && (forall c :: !(c in data.columns[..n] && Eligible(data, c, prefixes)) ==>
          Column(df, c) == Column(data, c))
  }

  /** A column the loop has not reached still holds its input cells. */
  lemma NotYetVisited(data: Frame, df: Frame, k: nat, count: nat, prefixes: seq<string>, z: ColumnTransform)
    requires k < |data.columns| && Visited(data, df, k, count, prefixes, z)
    requires data.columns[k] !in data.columns[..k]
    ensures Column(df, data.columns[k]) == Column(data, data.columns[k])
  {
  }

  /** Rescaling the column at `k` advances the state by one column. */
  lemma RescaledStep(data: Frame, df: Frame, k: nat, count: nat, prefixes: seq<string>, z: ColumnTransform)
    requires k < |data.columns| && Visited(data, df, k, count, prefixes, z)
    requires data.columns[k] !in data.columns[..k] && Eligible(data, data.columns[k], prefixes)
    ensures Visited(data, SetColumn(df, data.columns[k], ZColumn(Column(df, data.columns[k]), z)), k + 1, count + 1, prefixes, z)
  {
    var col := data.columns[k];
    assert data.columns[..k + 1] == data.columns[..k] + [col];
    CountStep(data, k, prefixes);
    NotYetVisited(data, df, k, count, prefixes, z);
  }

  /** Skipping the column at `k` advances the state by one column. */
  lemma KeptStep(data: Frame, df: Frame, k: nat, count: nat, prefixes: seq<string>, z: ColumnTransform)
    requires k < |data.columns| && Visited(data, df, k, count, prefixes, z)
    requires !Eligible(data, data.columns[k], prefixes)
    ensures Visited(data, df, k + 1, count, prefixes, z)
  {
    assert data.columns[..k + 1] == data.columns[..k] + [data.columns[k]];
    CountStep(data, k, prefixes);
  }

  /** Visiting one more column adds one to the count exactly when it is eligible. */
  lemma CountStep(data: Frame, k: nat, prefixes: seq<string>)
    requires k < |data.columns|
    ensures |Filter(data.columns[..k + 1], EligibleSet(data, prefixes))|
            == |Filter(data.columns[..k], EligibleSet(data, prefixes))| + if Eligible(data, data.columns[k], prefixes) then 1 else 0
  {
    assert data.columns[..k + 1] == data.columns[..k] + [data.columns[k]];
    FilterSnoc(data.columns[..k], data.columns[k], EligibleSet(data, prefixes));
  }

  /** standardize_context_vars: the columns keep their order, an eligible
      column holds the z-score of its original cells, every other column is
      unchanged. */
  method StandardizeContextVars(data: Frame, prefixes: seq<string>, z: ColumnTransform)
    returns (r: Result<Frame>, standardizedCount: nat)
    ensures r.Failure? <==> FirstAmbiguous(data.columns, data.columns, prefixes).Some?
    ensures r.Failure? ==> r.error == DuplicateColumn(FirstAmbiguous(data.columns, data.columns, prefixes).value)
    ensures r.Success? ==> r.value.columns == data.columns && |r.value.rows| == |data.rows|
    ensures r.Success? ==> forall c :: c in data.columns && Eligible(data, c, prefixes) ==>
                                       Column(r.value, c) == ZColumn(Column(data, c), z)
    ensures r.Success? ==> forall c :: !(c in data.columns && Eligible(data, c, prefixes)) ==>
                                       Column(r.value, c) == Column(data, c)
    ensures r.Success? ==> standardizedCount == |Rescaled(data, prefixes)|
  {
    var df := data;
    standardizedCount := 0;
    for k := 0 to |data.columns|
      invariant FirstAmbiguous(data.columns[..k], data.columns, prefixes).None?
      invariant Visited(data, df, k, standardizedCount, prefixes, z)
    {
      var col := data.columns[k];
      assert data.columns[..k + 1] == data.columns[..k] + [col];
      FirstAmbiguousSnoc(data.columns[..k], col, data.columns, prefixes);
      if HasPrefix(col, prefixes) {
        if multiset(df.columns)[col] > 1 {
          assert data.columns[..|data.columns|] == data.columns;
          FirstAmbiguousAt(data.columns, k, prefixes);
          return Failure(DuplicateColumn(col)), standardizedCount;
        }
        ListedOnce(data.columns, k);
        NotYetVisited(data, df, k, standardizedCount, prefixes, z);
        if Numeric(Column(df, col)) && HasSpread(Column(df, col)) {
          RescaledStep(data, df, k, standardizedCount, prefixes, z);
          df := SetColumn(df, col, ZColumn(Column(df, col), z));
          standardizedCount := standardizedCount + 1;
        } else {
          KeptStep(data, df, k, standardizedCount, prefixes, z);
        }
      } else {
        KeptStep(data, df, k, standardizedCount, prefixes, z);
      }
    }
    assert data.columns[..|data.columns|] == data.columns;
    r := Success(df);
  }

  lemma {:induction false} CountOne(cells: seq<Cell>, i: nat)
    requires i < |cells| && cells[i].Some?
    ensures NotNaCount(cells) >= 1
  {
    if i > 0 {
      CountOne(cells[1..], i - 1);
    }
  }

  lemma {:induction false} CountTwo(cells: seq<Cell>, i: nat, j: nat)
    requires i < j < |cells| && cells[i].Some? && cells[j].Some?
    ensures NotNaCount(cells) >= 2
  {
    if i == 0 {
      CountOne(cells[1..], j - 1);
    } else {
      CountTwo(cells[1..], i - 1, j - 1);
    }
  }

  /** A rescaled column has at least two present values, and a column whose
      present values are all equal is never rescaled. */
  lemma SpreadNeedsTwoValues(cells: seq<Cell>, v: Value)
    ensures HasSpread(cells) ==> NotNaCount(cells) >= 2
    ensures (forall i :: 0 <= i < |cells| && cells[i].Some? ==> cells[i].value == v) ==> !HasSpread(cells)
  {
    if HasSpread(cells) {
      var i, j :| 0 <= i < |cells| && 0 <= j < |cells| && cells[i].Some? && cells[j].Some? && cells[i] != cells[j];
      if i < j {
        CountTwo(cells, i, j);
      } else {
        CountTwo(cells, j, i);
      }
    }
  }

  /** With the default prefixes, every indicator column of a level table is a
      context column and no level's id column is: the ids are never rescaled. */
  lemma LevelColumnsAreContext(level: AdminLevels.Level, v: string)
    requires level in AdminLevels.Levels
    ensures HasPrefix(level.prefix + v, ContextPrefixes)
    ensures !HasPrefix(AdminLevels.IdColumn(level), ContextPrefixes)
  {
    var k := if level == AdminLevels.Buurt then 0 else if level == AdminLevels.Wijk then 1 else 2;
    assert ContextPrefixes[k] == level.prefix;
    assert (level.prefix + v)[..2] == level.prefix;
    var id := AdminLevels.IdColumn(level);
    assert id[1] != '_';
  }
}
