/** The collinearity table and the sample counts of run_diagnostics
    (analyze.py). The variance inflation factor itself (statsmodels
    `variance_inflation_factor`) is an oracle that returns a value or raises. */
module Diagnostics {
  import opened Frames
  import opened Formulas

  const VifCandidates := ["b_perc_low40_hh", "age", "education",
                          "b_pop_dens", "b_pop_over_65", "b_pop_nonwest",
                          "b_perc_low_inc_hh", "b_perc_soc_min_hh"]

  /** A float VIF: a finite value, +inf (a predictor the others explain
      perfectly) or NaN. */
  datatype Vif = Finite(x: real) | Infinite | Undefined

  /** `variance_inflation_factor(design, i)`; `None` when it raises. */
  type VifOracle = (Frame, nat) -> Option<Vif>

  datatype VifRow = VifRow(variable: string, vif: Vif)

  datatype DiagnosticsResult = DiagnosticsResult(
    vif: seq<VifRow>,
    highVif: seq<string>,
    nClusters: nat,
    nObs: nat)

  /** The candidates that are columns of the data, in candidate order. */
  function VifVars(data: Frame): seq<string> {
    Present(VifCandidates, data.columns)
  }

  /** The selected columns are distinct, as the candidates are. */
  lemma VifVarsDistinct(data: Frame)
    ensures NoDuplicates(VifVars(data))
  {
    assert NoDuplicates(VifCandidates);
    FilterNoDuplicates(VifCandidates, set c | c in data.columns);
  }

  /** `data[vif_vars].dropna()`: the complete rows, cut to the selected columns. */
  function VifData(data: Frame): Frame {
    var vars := VifVars(data);
    var rows := CompleteRows(data.rows, vars);
    Frame(vars, seq(|rows|, i requires 0 <= i < |rows| => Project(rows[i], vars)))
  }

  /** The guard of the VIF loop: some complete row and at least two columns. */
  predicate VifComputed(data: Frame) {
    |VifData(data).rows| > 0 && |VifVars(data)| > 1
  }

  /** A raised exception is recorded as NaN. */
  function VifOrNaN(v: Option<Vif>): Vif {
    if v.Some? then v.value else Undefined
  }

  /** The list `vif_results`, built by the source's loop over the selected columns. */
  method VifTable(data: Frame, vifOf: VifOracle) returns (table: seq<VifRow>)
    ensures VifComputed(data) ==> |table| == |VifVars(data)|
    ensures VifComputed(data) ==>
              forall i :: 0 <= i < |table| ==> table[i] == VifRow(VifVars(data)[i], VifOrNaN(vifOf(VifData(data), i)))
    ensures !VifComputed(data) ==> table == []
  {
    var vars := VifVars(data);
    var design := VifData(data);
    table := [];
    if |design.rows| > 0 && |vars| > 1 {
      var i := 0;
      while i < |vars|
        invariant 0 <= i <= |vars|
        invariant |table| == i
        invariant forall j :: 0 <= j < i ==> table[j] == VifRow(vars[j], VifOrNaN(vifOf(design, j)))
      {
        var v := vifOf(design, i);
        if v.Some? {
          table := table + [VifRow(vars[i], v.value)];
        } else {
          table := table + [VifRow(vars[i], Undefined)];
        }
        i := i + 1;
      }
    }
  }

  /** `vif > threshold` on a float: +inf exceeds every threshold, NaN none. */
  predicate Flagged(v: Vif, threshold: real) {
    match v
    case Finite(x) => x > threshold
    case Infinite => true
    case Undefined => false
  }

  /** `vif_df[vif_df["VIF"] > threshold]["variable"].tolist()` */
  function HighVif(table: seq<VifRow>, threshold: real): (names: seq<string>)
    ensures |names| <= |table|
  {
    if table == [] then []
    else (if Flagged(table[0].vif, threshold) then [table[0].variable] else [])
         + HighVif(table[1..], threshold)
  }

  /** A variable is flagged exactly when a row for it has a VIF above the
      threshold, so one whose VIF is NaN never is. */
  lemma {:induction false} HighVifMembership(table: seq<VifRow>, threshold: real, name: string)
    ensures name in HighVif(table, threshold)
            <==> exists i :: 0 <= i < |table| && table[i].variable == name && Flagged(table[i].vif, threshold)
  {
    if table != [] {
      HighVifMembership(table[1..], threshold, name);
      if name in HighVif(table[1..], threshold) {
        var i :| 0 <= i < |table[1..]| && table[1..][i].variable == name && Flagged(table[1..][i].vif, threshold);
        assert table[i + 1] == table[1..][i];
      }
      if exists i :: 0 <= i < |table| && table[i].variable == name && Flagged(table[i].vif, threshold) {
        var i :| 0 <= i < |table| && table[i].variable == name && Flagged(table[i].vif, threshold);
        if i > 0 {
          assert table[1..][i - 1] == table[i];
        }
      }
    }
  }

  function FlaggedNames(table: seq<VifRow>, threshold: real): set<string> {
    set r | r in table && Flagged(r.vif, threshold) :: r.variable
  }

  /** With distinct variables, the flagged ones are the table's variables with
      the unflagged ones removed, in table order. */
  lemma {:induction false} HighVifIsFilter(table: seq<VifRow>, threshold: real)
    requires NoDuplicates(Variables(table))
    ensures HighVif(table, threshold) == Filter(Variables(table), FlaggedNames(table, threshold))
  {
    var keep := FlaggedNames(table, threshold);
    if table != [] {
      var rest := table[1..];
      var keepRest := FlaggedNames(rest, threshold);
      assert NoDuplicates(Variables(rest)) by {
        forall i, j | 0 <= i < j < |rest|
          ensures Variables(rest)[i] != Variables(rest)[j]
        {
          assert rest[i] == table[i + 1] && rest[j] == table[j + 1];
          assert Variables(table)[i + 1] != Variables(table)[j + 1];
        }
      }
      HighVifIsFilter(rest, threshold);
      assert Variables(table) == [table[0].variable] + Variables(rest);
      FilterRestricted(Variables(rest), keep, keepRest, table, threshold);
      assert table[0].variable in keep <==> Flagged(table[0].vif, threshold) by {
        if table[0].variable in keep {
          var r :| r in table && Flagged(r.vif, threshold) && r.variable == table[0].variable;
          var k :| 0 <= k < |table| && table[k] == r;
          assert Variables(table)[k] == Variables(table)[0];
        }
      }
    }
  }

  /** A variable whose VIF is NaN is never flagged. */
  lemma UndefinedNeverFlagged(table: seq<VifRow>, threshold: real, i: nat)
    requires NoDuplicates(Variables(table))
    requires i < |table| && table[i].vif == Undefined
    ensures table[i].variable !in HighVif(table, threshold)
  {
    HighVifMembership(table, threshold, table[i].variable);
  }

  lemma FilterRestricted(names: seq<string>, keep: set<string>, keepRest: set<string>,
                         table: seq<VifRow>, threshold: real)
    requires table != [] && names == Variables(table[1..])
    requires keep == FlaggedNames(table, threshold)
    requires keepRest == FlaggedNames(table[1..], threshold)
    requires NoDuplicates(Variables(table))
    ensures Filter(names, keep) == Filter(names, keepRest)
  {
    forall n | n in names
      ensures n in keep <==> n in keepRest
    {
      var k :| 0 <= k < |names| && names[k] == n;
      assert table[1..][k] == table[k + 1];
      if n in keep {
        var r :| r in table && Flagged(r.vif, threshold) && r.variable == n;
        var m :| 0 <= m < |table| && table[m] == r;
        assert Variables(table)[m] == Variables(table)[k + 1];
        assert r in table[1..];
      }
    }
    FilterAgree(names, keep, keepRest);
  }

  lemma {:induction false} FilterAgree(xs: seq<string>, a: set<string>, b: set<string>)
    requires forall x :: x in xs ==> (x in a <==> x in b)
    ensures Filter(xs, a) == Filter(xs, b)
  {
    if xs != [] {
      FilterAgree(xs[1..], a, b);
    }
  }

  function Variables(table: seq<VifRow>): (names: seq<string>)
    ensures |names| == |table|
    ensures forall i :: 0 <= i < |table| ==> names[i] == table[i].variable
  {
    seq(|table|, i requires 0 <= i < |table| => table[i].variable)
  }

  /** The collinearity part of run_diagnostics, followed by the cluster and
      observation counts read straight from the data (`buurt_id` must exist). */
  method RunDiagnostics(data: Frame, vifOf: VifOracle, threshold: real) returns (r: Result<DiagnosticsResult>)
    ensures r.Failure? <==> GroupColumn !in data.columns
    ensures r.Failure? ==> r.error == MissingColumn(GroupColumn)
    ensures r.Success? ==> (|r.value.vif| > 0 <==> VifComputed(data))
    ensures r.Success? && VifComputed(data) ==>
              Variables(r.value.vif) == VifVars(data)
              && forall i :: 0 <= i < |r.value.vif| ==> r.value.vif[i].vif == VifOrNaN(vifOf(VifData(data), i))
    ensures r.Success? ==> r.value.highVif == HighVif(r.value.vif, threshold)
    ensures r.Success? ==> r.value.highVif == Filter(VifVars(data), FlaggedNames(r.value.vif, threshold))
    ensures r.Success? ==> r.value.nObs == |data.rows|
    ensures r.Success? ==> r.value.nClusters == |Distinct(Column(data, GroupColumn))|
    ensures r.Success? ==> r.value.nClusters <= r.value.nObs
    ensures r.Success? && r.value.nObs > 0 ==> r.value.nClusters >= 1
  {
    var table := VifTable(data, vifOf);
    var high: seq<string> := [];
    if |table| > 0 {
      high := HighVif(table, threshold);
    }
    if GroupColumn !in data.columns {
      return Failure(MissingColumn(GroupColumn));
    }
    VifVarsDistinct(data);
    if |table| > 0 {
      HighVifIsFilter(table, threshold);
    } else {
      FilterNone(VifVars(data), FlaggedNames(table, threshold));
    }
    var ids := Column(data, GroupColumn);
    DistinctBound(ids);
    r := Success(DiagnosticsResult(table, high, |Distinct(ids)|, |data.rows|));
  }
}
