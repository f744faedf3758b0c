/** The model specifications of the two-level analysis: the outcome, the
    predictors and their formula strings (`outcome ~ a + b + ...`), for the
    four nested random-intercept models (analyze.py, fit_two_level_models) and
    for the shared controls of the sensitivity runs (run_sensitivity). */
module Formulas {
  import opened Frames
  import opened PyStr

  const Outcome := "DV_single"
  const KeyPredictor := "b_perc_low40_hh"
  const GroupColumn := "buurt_id"
  const IndividualControls := ["age", "C(sex)", "education", "C(employment_status)", "born_in_nl"]
  const OccupationColumn := "occupation"
  const OccupationTerm := "C(occupation)"
  const AreaCandidates := ["b_pop_dens", "b_pop_over_65", "b_pop_nonwest",
                           "b_perc_low_inc_hh", "b_perc_soc_min_hh"]
  /** A gated covariate enters only with strictly more non-missing values than this. */
  const MinNonMissing := 100

  /** The patsy formula `outcome ~ p1 + p2 + ...`, with `1` for no predictor. */
  function Formula(outcome: string, predictors: seq<string>): string {
    outcome + " ~ " + (if predictors == [] then "1" else Join(" + ", predictors))
  }

  /** Extending a non-empty predictor list extends the formula string. */
  lemma FormulaExtends(outcome: string, xs: seq<string>, ys: seq<string>)
    requires xs != [] && ys != []
    ensures Formula(outcome, xs + ys) == Formula(outcome, xs) + " + " + Join(" + ", ys)
    ensures StartsWith(Formula(outcome, xs + ys), Formula(outcome, xs))
  {
    JoinAppend(" + ", xs, ys);
    var f := Formula(outcome, xs);
    assert Formula(outcome, xs + ys) == f + (" + " + Join(" + ", ys));
    assert (f + (" + " + Join(" + ", ys)))[..|f|] == f;
  }

  /** The gate: the column exists and has more than 100 non-missing values. */
  predicate Usable(df: Frame, col: string) {
    col in df.columns && NotNaCount(Column(df, col)) > MinNonMissing
  }

  function UsableSet(df: Frame, cands: seq<string>): set<string> {
    set c | c in cands && Usable(df, c)
  }

  /** The area controls of Model 3: the gated candidates, in candidate order. */
  function UsableAreaControls(df: Frame): seq<string> {
    Filter(AreaCandidates, UsableSet(df, AreaCandidates))
  }

  function M0Predictors(): seq<string> { [] }

  function M1Predictors(): seq<string> { [KeyPredictor] }

  function M2Predictors(df: Frame): seq<string> {
    M1Predictors() + IndividualControls
    + (if Usable(df, OccupationColumn) then [OccupationTerm] else [])
  }

  function M3Predictors(df: Frame): seq<string> {
    M2Predictors(df) + UsableAreaControls(df)
  }

  datatype ModelFormulas = ModelFormulas(m0: string, m1: string, m2: string, m3: string)

  /** The loop of fit_two_level_models that collects the gated area controls. */
  method GatedAreaControls(df: Frame) returns (controls: seq<string>)
    ensures controls == UsableAreaControls(df)
  {
    controls := [];
    var i := 0;
    while i < |AreaCandidates|
      invariant 0 <= i <= |AreaCandidates|
      invariant controls == Filter(AreaCandidates[..i], UsableSet(df, AreaCandidates))
    {
      var v := AreaCandidates[i];
      if v in df.columns && NotNaCount(Column(df, v)) > MinNonMissing {
        controls := controls + [v];
      }
      FilterSnoc(AreaCandidates[..i], v, UsableSet(df, AreaCandidates));
      assert AreaCandidates[..i + 1] == AreaCandidates[..i] + [v];
      i := i + 1;
    }
    assert AreaCandidates[..i] == AreaCandidates;
  }

  /** The formula strings of fit_two_level_models, built as the source builds
      them: literals, a conditional ` + C(occupation)`, a loop collecting the
      gated area controls and a ` + `-joined tail. */
  method BuildFormulas(df: Frame) returns (fs: ModelFormulas)
    ensures fs.m0 == Formula(Outcome, M0Predictors())
    ensures fs.m1 == Formula(Outcome, M1Predictors())
    ensures fs.m2 == Formula(Outcome, M2Predictors(df))
    ensures fs.m3 == Formula(Outcome, M3Predictors(df))
  {
    var m2 := Outcome + " ~ " + Join(" + ", [KeyPredictor] + IndividualControls);
    if OccupationColumn in df.columns && NotNaCount(Column(df, OccupationColumn)) > MinNonMissing {
      FormulaExtends(Outcome, M1Predictors() + IndividualControls, [OccupationTerm]);
      m2 := m2 + " + " + OccupationTerm;
    } else {
      assert M2Predictors(df) == M1Predictors() + IndividualControls;
    }
    assert m2 == Formula(Outcome, M2Predictors(df));

    var controls := GatedAreaControls(df);
    var m3 := m2;
    if controls != [] {
      FormulaExtends(Outcome, M2Predictors(df), controls);
      m3 := m3 + " + " + Join(" + ", controls);
    } else {
      assert M3Predictors(df) == M2Predictors(df);
    }
    fs := ModelFormulas(Outcome + " ~ 1", Outcome + " ~ " + KeyPredictor, m2, m3);
  }

  /** The four models are nested: Model 0 is intercept only, Model 1 has the
      key predictor alone, and each later predictor list and formula string
      extends the previous one; all four share the outcome. */
  lemma NestedModels(df: Frame)
    ensures Formula(Outcome, M0Predictors()) == Outcome + " ~ 1"
    ensures M1Predictors() == [KeyPredictor]
    ensures M2Predictors(df)[..1] == M1Predictors()
    ensures M3Predictors(df)[..|M2Predictors(df)|] == M2Predictors(df)
    ensures StartsWith(Formula(Outcome, M2Predictors(df)), Formula(Outcome, M1Predictors()))
    ensures StartsWith(Formula(Outcome, M3Predictors(df)), Formula(Outcome, M2Predictors(df)))
    ensures UsableAreaControls(df) == [] ==> Formula(Outcome, M3Predictors(df)) == Formula(Outcome, M2Predictors(df))
    ensures StartsWith(Formula(Outcome, M3Predictors(df)), Outcome + " ~ ")
  {
    var p1, p2 := M1Predictors(), M2Predictors(df);
    assert p2 == p1 + p2[1..];
    FormulaExtends(Outcome, p1, p2[1..]);
    if UsableAreaControls(df) != [] {
      FormulaExtends(Outcome, p2, UsableAreaControls(df));
    } else {
      assert M3Predictors(df) == p2;
    }
    var f3 := Formula(Outcome, M3Predictors(df));
    assert f3 == (Outcome + " ~ ") + (if M3Predictors(df) == [] then "1" else Join(" + ", M3Predictors(df)));
  }

  /** ` + C(occupation)` is in Model 2 exactly when the occupation column
      exists with more than 100 non-missing values. */
  lemma OccupationGate(df: Frame)
    ensures OccupationTerm in M2Predictors(df)
            <==> OccupationColumn in df.columns && NotNaCount(Column(df, OccupationColumn)) > 100
  {
    assert OccupationTerm !in M1Predictors() + IndividualControls;
  }

  /** The area controls of Model 3 are the candidates that pass the gate;
      none are added when none pass. */
  lemma AreaControlGate(df: Frame, c: string)
    ensures c in UsableAreaControls(df) <==> c in AreaCandidates && Usable(df, c)
    ensures (forall v :: v in AreaCandidates ==> !Usable(df, v)) ==> M3Predictors(df) == M2Predictors(df)
  {
    FilterMembership(AreaCandidates, UsableSet(df, AreaCandidates), c);
    if forall v :: v in AreaCandidates ==> !Usable(df, v) {
      FilterNone(AreaCandidates, UsableSet(df, AreaCandidates));
    }
  }

  /** The controls shared by every sensitivity specification: the individual
      controls and every area candidate that is a column, without the gate. */
  function SensitivityControls(df: Frame): seq<string> {
    IndividualControls + Present(AreaCandidates, df.columns)
  }

  /** The formula of a sensitivity specification for `outcome`. */
  function SensitivityFormula(outcome: string, df: Frame): string {
    Formula(outcome, [KeyPredictor] + SensitivityControls(df))
  }

  /** The loop of run_sensitivity that collects the area candidates present. */
  method PresentAreaControls(df: Frame) returns (controls: seq<string>)
    ensures controls == Present(AreaCandidates, df.columns)
  {
    controls := [];
    var i := 0;
    while i < |AreaCandidates|
      invariant 0 <= i <= |AreaCandidates|
      invariant controls == Filter(AreaCandidates[..i], set c | c in df.columns)
    {
      var v := AreaCandidates[i];
      if v in df.columns {
        controls := controls + [v];
      }
      FilterSnoc(AreaCandidates[..i], v, set c | c in df.columns);
      assert AreaCandidates[..i + 1] == AreaCandidates[..i] + [v];
      i := i + 1;
    }
    assert AreaCandidates[..i] == AreaCandidates;
  }

  /** `base_controls` of run_sensitivity, built as the source builds it. */
  method BaseControls(df: Frame) returns (s: string)
    ensures s == Join(" + ", SensitivityControls(df))
  {
    s := Join(" + ", IndividualControls);
    var controls := PresentAreaControls(df);
    if controls != [] {
      JoinAppend(" + ", IndividualControls, controls);
      s := s + " + " + Join(" + ", controls);
    } else {
      assert SensitivityControls(df) == IndividualControls;
    }
  }

  /** The sensitivity formula as run_sensitivity writes it. */
  lemma SensitivityFormulaText(outcome: string, df: Frame)
    ensures SensitivityFormula(outcome, df)
            == outcome + " ~ " + KeyPredictor + " + " + Join(" + ", SensitivityControls(df))
  {
    JoinAppend(" + ", [KeyPredictor], SensitivityControls(df));
  }

  /** The sensitivity controls take every present area candidate, so they
      contain Model 3's gated ones, and the four sensitivity formulas differ
      only in their outcome. */
  lemma SensitivityControlsUngated(df: Frame, c: string)
    ensures c in Present(AreaCandidates, df.columns) <==> c in AreaCandidates && c in df.columns
    ensures c in UsableAreaControls(df) ==> c in SensitivityControls(df)
  {
    PresentMembership(AreaCandidates, df.columns, c);
    FilterMembership(AreaCandidates, UsableSet(df, AreaCandidates), c);
  }
}
