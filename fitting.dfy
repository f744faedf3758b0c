/** The main model sequence of fit_two_level_models (analyze.py). The
    mixed-effects solver (statsmodels `mixedlm(...).fit(reml=True)`) is an
    oracle: given a formula, the grouping column and the data it returns the
    fitted model or raises, and what it returns is only read. */
module Fitting {
  import opened Frames
  import opened Formulas

  /** What the pipeline reads from a fitted model: coefficient estimates and
      standard errors by term (a stored NaN is `None`), the observation count,
      the random-intercept variance (`cov_re[0, 0]`) and the residual scale. */
  datatype FitResult = FitResult(
    params: map<string, Option<real>>,
    bse: map<string, Option<real>>,
    nobs: nat,
    covRe: real,
    scale: real)

  /** The solver: `None` when the fit raises. */
  type Fitter = (string, string, Frame) -> Option<FitResult>

  datatype TwoLevelModels = TwoLevelModels(m0: FitResult, m1: FitResult, m2: FitResult, m3: FitResult)

  const ModelNames := ["m0", "m1", "m2", "m3"]

  /** The working copy every fit sees: `df["buurt_id"] = df["buurt_id"].astype(str)`
      on a copy of the data, every other column as given. */
  function WorkingCopy(data: Frame, show: real -> string): (df: Frame)
    ensures GroupColumn in data.columns ==> df.columns == data.columns
    ensures |df.rows| == |data.rows|
    ensures forall i :: 0 <= i < |df.rows| ==> Get(df.rows[i], GroupColumn).Some? && Get(df.rows[i], GroupColumn).value.Text?
    ensures forall c :: c != GroupColumn ==> Column(df, c) == Column(data, c)
  {
    StrColumn(data, GroupColumn, show)
  }

  /** The formula of model `k` of the sequence. */
  function ModelFormula(df: Frame, k: nat): string
    requires k < 4
  {
    if k == 0 then Formula(Outcome, M0Predictors())
    else if k == 1 then Formula(Outcome, M1Predictors())
    else if k == 2 then Formula(Outcome, M2Predictors(df))
    else Formula(Outcome, M3Predictors(df))
  }

  function FitModel(fit: Fitter, df: Frame, k: nat): Option<FitResult>
    requires k < 4
  {
    fit(ModelFormula(df, k), GroupColumn, df)
  }

  /** Fits the four models in order on the same rows and the same grouping
      column; the first fit that raises aborts the sequence, as does a
      missing `buurt_id` column. */
  method FitTwoLevelModels(data: Frame, fit: Fitter, show: real -> string) returns (r: Result<TwoLevelModels>)
    ensures GroupColumn !in data.columns ==> r == Failure(MissingColumn(GroupColumn))
    ensures r.Success? <==> GroupColumn in data.columns
                            && forall k :: 0 <= k < 4 ==> FitModel(fit, WorkingCopy(data, show), k).Some?
    ensures r.Success? ==>
              var df := WorkingCopy(data, show);
              r.value == TwoLevelModels(FitModel(fit, df, 0).value, FitModel(fit, df, 1).value,
                                        FitModel(fit, df, 2).value, FitModel(fit, df, 3).value)
    ensures r.Failure? && GroupColumn in data.columns ==>
              exists k :: 0 <= k < 4 && r.error == FitFailed(ModelNames[k])
                          && FitModel(fit, WorkingCopy(data, show), k).None?
                          && forall j :: 0 <= j < k ==> FitModel(fit, WorkingCopy(data, show), j).Some?
  {
    if GroupColumn !in data.columns {
      return Failure(MissingColumn(GroupColumn));
    }
    var df := StrColumn(data, GroupColumn, show);
    assert df == WorkingCopy(data, show);
    var fs := BuildFormulas(df);
    var m0 := fit(fs.m0, GroupColumn, df);
    if m0.None? {
      assert FitModel(fit, df, 0).None?;
      return Failure(FitFailed("m0"));
    }
    var m1 := fit(fs.m1, GroupColumn, df);
    if m1.None? {
      assert FitModel(fit, df, 1).None?;
      return Failure(FitFailed("m1"));
    }
    var m2 := fit(fs.m2, GroupColumn, df);
    if m2.None? {
      assert FitModel(fit, df, 2).None?;
      return Failure(FitFailed("m2"));
    }
    var m3 := fit(fs.m3, GroupColumn, df);
    if m3.None? {
      assert FitModel(fit, df, 3).None?;
      return Failure(FitFailed("m3"));
    }
    assert forall k :: 0 <= k < 4 ==> FitModel(fit, df, k).Some? by {
      assert FitModel(fit, df, 0) == m0 && FitModel(fit, df, 1) == m1;
      assert FitModel(fit, df, 2) == m2 && FitModel(fit, df, 3) == m3;
    }
    r := Success(TwoLevelModels(m0.value, m1.value, m2.value, m3.value));
  }

  /** Casting `buurt_id` to text changes none of the four formulas: the gates
      read only the occupation and area columns. */
  lemma WorkingCopyFormulas(data: Frame, show: real -> string, k: nat)
    requires GroupColumn in data.columns && k < 4
    ensures ModelFormula(WorkingCopy(data, show), k) == ModelFormula(data, k)
  {
    var df := WorkingCopy(data, show);
    assert Usable(df, OccupationColumn) == Usable(data, OccupationColumn);
    assert UsableSet(df, AreaCandidates) == UsableSet(data, AreaCandidates) by {
      forall c | c in AreaCandidates
        ensures Usable(df, c) == Usable(data, c)
      {
        assert Column(df, c) == Column(data, c);
      }
    }
  }
}
