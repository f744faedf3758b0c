/** The robustness table of run_sensitivity and the per-model summary of
    _extract_key_coef (analyze.py). Every specification uses the same
    predictors (the key predictor and the ungated controls); they differ in
    the outcome and in the rows. A fit that raises contributes no row and the
    remaining specifications still run. */
module Sensitivity {
  import opened Frames
  import opened PyStr
  import opened Formulas
  import opened Fitting

  const TwoItemOutcome := "DV_2item_scaled"
  const ThreeItemOutcome := "DV_3item_scaled"
  const BornInNl := "born_in_nl"
  /** The Dutch-born subsample is fitted only with strictly more rows than this. */
  const MinSubsample := 100
  /** The two-sided 5% critical value of the normal approximation. */
  const ZCritical: real := 1.96

  const BaseLabel := "Base (DV_single)"
  const TwoItemLabel := "2-item composite"
  const ThreeItemLabel := "3-item composite"
  const DutchLabel := "Dutch-born only"
  const AllLabels := [BaseLabel, TwoItemLabel, ThreeItemLabel, DutchLabel]

  /** The four labels are distinct; so are the three outcome columns. */
  lemma LabelsDistinct()
    ensures BaseLabel != TwoItemLabel && BaseLabel != ThreeItemLabel && BaseLabel != DutchLabel
    ensures TwoItemLabel != ThreeItemLabel && TwoItemLabel != DutchLabel && ThreeItemLabel != DutchLabel
    ensures Outcome != TwoItemOutcome && Outcome != ThreeItemOutcome && TwoItemOutcome != ThreeItemOutcome
  {
  }

  datatype SensitivityRow = SensitivityRow(
    specification: string,
    n: nat,
    coefficient: Option<real>,
    se: Option<real>,
    significant: bool)

  function Abs(x: real): real { if x < 0.0 then -x else x }

  /** `m.get(key, np.nan)`, with NaN as `None`. */
  function Lookup(m: map<string, Option<real>>, key: string): Option<real> {
    if key in m then m[key] else None
  }

  /** The significance rule: both present, SE positive and |coef / SE| > 1.96. */
  predicate Significant(coef: Option<real>, se: Option<real>) {
    coef.Some? && se.Some? && se.value > 0.0 && Abs(coef.value / se.value) > ZCritical
  }

  lemma RatioAbove(c: real, s: real)
    requires s > 0.0
    ensures Abs(c / s) > ZCritical <==> Abs(c) > ZCritical * s
  {
    assert Abs(c / s) == Abs(c) / s;
    assert Abs(c) == (Abs(c) / s) * s;
  }

  function ExtractKeyCoef(model: FitResult, spec: string): (r: SensitivityRow)
    ensures r.specification == spec && r.n == model.nobs
    ensures r.coefficient == Lookup(model.params, KeyPredictor)
    ensures r.se == Lookup(model.bse, KeyPredictor)
    ensures r.significant <==> r.coefficient.Some? && r.se.Some? && r.se.value > 0.0
                               && Abs(r.coefficient.value) > ZCritical * r.se.value
    ensures KeyPredictor !in model.params || KeyPredictor !in model.bse ==> !r.significant
  {
    var coef := Lookup(model.params, KeyPredictor);
    var se := Lookup(model.bse, KeyPredictor);
    if coef.Some? && se.Some? && se.value > 0.0 then
      RatioAbove(coef.value, se.value);
      SensitivityRow(spec, model.nobs, coef, se, Abs(coef.value / se.value) > ZCritical)
    else
      SensitivityRow(spec, model.nobs, coef, se, false)
  }

  /** For a fixed coefficient, a smaller positive SE can only turn
      "not significant" into "significant". */
  lemma SignificanceMonotone(coef: real, se1: real, se2: real)
    requires 0.0 < se2 <= se1
    ensures Significant(Some(coef), Some(se1)) ==> Significant(Some(coef), Some(se2))
  {
    RatioAbove(coef, se1);
    RatioAbove(coef, se2);
  }

  /** The rows of the Dutch-born subsample: `df[df["born_in_nl"] == 1]`. */
  function DutchBorn(df: Frame): Frame {
    Frame(df.columns, RowsEqual(df.rows, BornInNl, 1.0))
  }

  function DropMissingIn(df: Frame, col: string): Frame {
    Frame(df.columns, DropMissing(df.rows, col))
  }

  /** Whether the specification with this name is attempted at all. */
  predicate Attempted(df: Frame, name: string) {
    || name == BaseLabel
    || (name == TwoItemLabel && TwoItemOutcome in df.columns)
    || (name == ThreeItemLabel && ThreeItemOutcome in df.columns)
    || (name == DutchLabel && BornInNl in df.columns && |DutchBorn(df).rows| > MinSubsample)
  }

  function OutcomeOf(name: string): string {
    if name == TwoItemLabel then TwoItemOutcome
    else if name == ThreeItemLabel then ThreeItemOutcome
    else Outcome
  }

  function SampleOf(df: Frame, name: string): Frame {
    if name == TwoItemLabel then DropMissingIn(df, TwoItemOutcome)
    else if name == ThreeItemLabel then DropMissingIn(df, ThreeItemOutcome)
    else if name == DutchLabel then DutchBorn(df)
    else df
  }

  function FitFor(fit: Fitter, df: Frame, name: string): Option<FitResult> {
    fit(SensitivityFormula(OutcomeOf(name), df), GroupColumn, SampleOf(df, name))
  }

  /** What one specification adds to the table: its row, or nothing when it
      is not attempted or its fit raises. */
  function RowFor(fit: Fitter, df: Frame, name: string): (rows: seq<SensitivityRow>)
    ensures |rows| <= 1
  {
    if Attempted(df, name) && FitFor(fit, df, name).Some?
    then [ExtractKeyCoef(FitFor(fit, df, name).value, name)]
    else []
  }

  /** One specification on the whole working copy or one of its subsamples:
      the fit of `outcome` on `sample`, and its row when the fit succeeds. */
  method FitSpecification(fit: Fitter, df: Frame, baseControls: string, outcome: string,
                          sample: Frame, name: string, results: seq<SensitivityRow>)
    returns (extended: seq<SensitivityRow>)
    requires baseControls == Join(" + ", SensitivityControls(df))
    requires outcome == OutcomeOf(name) && sample == SampleOf(df, name) && Attempted(df, name)
    ensures extended == results + RowFor(fit, df, name)
  {
    SensitivityFormulaText(outcome, df);
    extended := results;
    var m := fit(outcome + " ~ " + KeyPredictor + " + " + baseControls, GroupColumn, sample);
    if m.Some? {
      extended := extended + [ExtractKeyCoef(m.value, name)];
    }
  }

  /** A composite specification: fitted on the rows where its outcome is
      present, and only when the outcome column exists. */
  method CompositeSpecification(fit: Fitter, df: Frame, baseControls: string, name: string,
                                results: seq<SensitivityRow>)
    returns (extended: seq<SensitivityRow>)
    requires baseControls == Join(" + ", SensitivityControls(df))
    requires name == TwoItemLabel || name == ThreeItemLabel
    ensures extended == results + RowFor(fit, df, name)
  {
    LabelsDistinct();
    var outcome := OutcomeOf(name);
    extended := results;
    if outcome in df.columns {
      extended := FitSpecification(fit, df, baseControls, outcome, DropMissingIn(df, outcome), name, results);
    }
  }

  /** The Dutch-born specification: only with a `born_in_nl` column and more
      than 100 Dutch-born rows. */
  method DutchSpecification(fit: Fitter, df: Frame, baseControls: string, results: seq<SensitivityRow>)
    returns (extended: seq<SensitivityRow>)
    requires baseControls == Join(" + ", SensitivityControls(df))
    ensures extended == results + RowFor(fit, df, DutchLabel)
  {
    LabelsDistinct();
    extended := results;
    if BornInNl in df.columns {
      var dfDutch := DutchBorn(df);
      if |dfDutch.rows| > MinSubsample {
        extended := FitSpecification(fit, df, baseControls, Outcome, dfDutch, DutchLabel, results);
      }
    }
  }

  /** The table run_sensitivity returns (`buurt_id` must exist). */
  method RunSensitivity(data: Frame, fit: Fitter, show: real -> string) returns (r: Result<seq<SensitivityRow>>)
    ensures r.Failure? <==> GroupColumn !in data.columns
    ensures r.Failure? ==> r.error == MissingColumn(GroupColumn)
    ensures r.Success? ==> r.value == Table(fit, WorkingCopy(data, show))
  {
    if GroupColumn !in data.columns {
      return Failure(MissingColumn(GroupColumn));
    }
    LabelsDistinct();
    var df := StrColumn(data, GroupColumn, show);
    assert df == WorkingCopy(data, show);
    var baseControls := BaseControls(df);
    var results: seq<SensitivityRow> := [];
    results := FitSpecification(fit, df, baseControls, Outcome, df, BaseLabel, results);
    assert results == RowFor(fit, df, BaseLabel);
    results := CompositeSpecification(fit, df, baseControls, TwoItemLabel, results);
    results := CompositeSpecification(fit, df, baseControls, ThreeItemLabel, results);
    results := DutchSpecification(fit, df, baseControls, results);
    assert results == Table(fit, df);
    r := Success(results);
  }

  function RowLabels(rows: seq<SensitivityRow>): (labels: seq<string>)
    ensures |labels| == |rows|
    ensures forall i :: 0 <= i < |rows| ==> labels[i] == rows[i].specification
  {
    seq(|rows|, i requires 0 <= i < |rows| => rows[i].specification)
  }

  /** The labels of the specifications that are attempted and fit. */
  function Fitted(fit: Fitter, df: Frame): set<string> {
    set l | l in AllLabels && Attempted(df, l) && FitFor(fit, df, l).Some?
  }

  function Table(fit: Fitter, df: Frame): seq<SensitivityRow> {
    RowFor(fit, df, BaseLabel) + RowFor(fit, df, TwoItemLabel)
    + RowFor(fit, df, ThreeItemLabel) + RowFor(fit, df, DutchLabel)
  }

  lemma RowForLabels(fit: Fitter, df: Frame, name: string)
    requires name in AllLabels
    ensures RowLabels(RowFor(fit, df, name)) == if name in Fitted(fit, df) then [name] else []
  {
  }

  lemma RowLabelsAppend(a: seq<SensitivityRow>, b: seq<SensitivityRow>)
    ensures RowLabels(a + b) == RowLabels(a) + RowLabels(b)
  {
  }

  lemma FilterFour(a: string, b: string, c: string, d: string, keep: set<string>)
    ensures Filter([a, b, c, d], keep)
            == (if a in keep then [a] else []) + (if b in keep then [b] else [])
               + (if c in keep then [c] else []) + (if d in keep then [d] else [])
  {
    assert [a, b, c, d] == [a, b, c] + [d] && [a, b, c] == [a, b] + [c] && [a, b] == [a] + [b];
    FilterSnoc([a, b, c], d, keep);
    FilterSnoc([a, b], c, keep);
    FilterSnoc([a], b, keep);
    assert [a][1..] == [];
  }

  /** The table holds one row per specification that is attempted and fits,
      in the fixed order Base, 2-item, 3-item, Dutch-born; so it never has
      more than four rows, and a failed fit removes only its own row. */
  lemma TableOrder(fit: Fitter, df: Frame)
    ensures RowLabels(Table(fit, df)) == Filter(AllLabels, Fitted(fit, df))
    ensures |Table(fit, df)| <= 4
  {
    var a, b, c, d := RowFor(fit, df, BaseLabel), RowFor(fit, df, TwoItemLabel),
                      RowFor(fit, df, ThreeItemLabel), RowFor(fit, df, DutchLabel);
    RowForLabels(fit, df, BaseLabel);
    RowForLabels(fit, df, TwoItemLabel);
    RowForLabels(fit, df, ThreeItemLabel);
    RowForLabels(fit, df, DutchLabel);
    RowLabelsAppend(a + b + c, d);
    RowLabelsAppend(a + b, c);
    RowLabelsAppend(a, b);
    FilterFour(BaseLabel, TwoItemLabel, ThreeItemLabel, DutchLabel, Fitted(fit, df));
  }

  /** A row with a given name is in the table exactly when that
      specification is attempted and its fit succeeds, whatever the other
      specifications do. */
  lemma RowPresence(fit: Fitter, df: Frame, name: string)
    ensures name in RowLabels(Table(fit, df))
            <==> name in AllLabels && Attempted(df, name) && FitFor(fit, df, name).Some?
  {
    TableOrder(fit, df);
    FilterMembership(AllLabels, Fitted(fit, df), name);
  }

  /** A composite row needs its outcome column; the Dutch-born row needs the
      `born_in_nl` column and more than 100 Dutch-born rows. */
  lemma RowRequirements(fit: Fitter, df: Frame)
    ensures TwoItemLabel in RowLabels(Table(fit, df)) ==> TwoItemOutcome in df.columns
    ensures ThreeItemLabel in RowLabels(Table(fit, df)) ==> ThreeItemOutcome in df.columns
    ensures DutchLabel in RowLabels(Table(fit, df)) ==>
              BornInNl in df.columns && |RowsEqual(df.rows, BornInNl, 1.0)| > MinSubsample
    ensures TwoItemOutcome !in df.columns && ThreeItemOutcome !in df.columns ==>
              forall l :: l in RowLabels(Table(fit, df)) ==> l == BaseLabel || l == DutchLabel
  {
    RowPresence(fit, df, TwoItemLabel);
    RowPresence(fit, df, ThreeItemLabel);
    RowPresence(fit, df, DutchLabel);
    forall l | l in RowLabels(Table(fit, df))
      ensures l in AllLabels && Attempted(df, l)
    {
      RowPresence(fit, df, l);
    }
  }
}
