/** Variance decomposition of the empty model (calculate_icc in analyze.py),
    over exact reals. The division by the total is Python float division,
    which raises ZeroDivisionError when the total is zero. */
module Icc {
  import opened Frames
  import opened Fitting

  datatype IccResult = IccResult(
    icc: real,
    varBuurt: real,
    varResidual: real,
    varTotal: real,
    pctBetween: real,
    pctWithin: real)

  function CalculateIcc(models: TwoLevelModels): (r: Result<IccResult>)
    ensures r.Failure? <==> models.m0.covRe + models.m0.scale == 0.0
    ensures r.Failure? ==> r.error == ZeroDivision
    ensures r.Success? ==> r.value.varBuurt == models.m0.covRe && r.value.varResidual == models.m0.scale
    ensures r.Success? ==> r.value.varTotal == r.value.varBuurt + r.value.varResidual
    ensures r.Success? ==> r.value.icc * r.value.varTotal == r.value.varBuurt
    ensures r.Success? ==> r.value.pctBetween == 100.0 * r.value.icc
    ensures r.Success? ==> r.value.pctBetween + r.value.pctWithin == 100.0
  {
    var varBuurt := models.m0.covRe;
    var varResidual := models.m0.scale;
    var varTotal := varBuurt + varResidual;
    if varTotal == 0.0 then Failure(ZeroDivision)
    else
      var icc := varBuurt / varTotal;
      var pctBetween := 100.0 * varBuurt / varTotal;
      var pctWithin := 100.0 * varResidual / varTotal;
      SharesAddUp(varBuurt, varResidual);
      Success(IccResult(icc, varBuurt, varResidual, varTotal, pctBetween, pctWithin))
  }

  lemma SharesAddUp(b: real, w: real)
    requires b + w != 0.0
    ensures 100.0 * b / (b + w) + 100.0 * w / (b + w) == 100.0
    ensures 100.0 * b / (b + w) == 100.0 * (b / (b + w))
  {
    var t := b + w;
    assert 100.0 * b / t + 100.0 * w / t == (100.0 * b + 100.0 * w) / t;
    assert 100.0 * b + 100.0 * w == 100.0 * t;
  }

  /** With non-negative variance components and a positive total, the ICC
      is a proportion and both shares are percentages. */
  lemma IccBounds(models: TwoLevelModels)
    requires models.m0.covRe >= 0.0 && models.m0.scale >= 0.0
    requires models.m0.covRe + models.m0.scale > 0.0
    ensures CalculateIcc(models).Success?
    ensures 0.0 <= CalculateIcc(models).value.icc <= 1.0
    ensures 0.0 <= CalculateIcc(models).value.pctBetween <= 100.0
    ensures 0.0 <= CalculateIcc(models).value.pctWithin <= 100.0
  {
    var r := CalculateIcc(models).value;
    var b, t := models.m0.covRe, models.m0.covRe + models.m0.scale;
    assert r.icc == b / t;
    DivBounds(b, t);
    DivBounds(models.m0.scale, t);
    assert r.pctWithin == 100.0 * (models.m0.scale / t);
  }

  lemma DivBounds(x: real, t: real)
    requires 0.0 <= x <= t && t > 0.0
    ensures 0.0 <= x / t <= 1.0
  {
  }

  /** No variance within areas gives ICC 1; no variance between them gives 0. */
  lemma IccExtremes(models: TwoLevelModels)
    ensures models.m0.covRe > 0.0 && models.m0.scale == 0.0 ==> CalculateIcc(models).value.icc == 1.0
    ensures models.m0.covRe == 0.0 && models.m0.scale > 0.0 ==> CalculateIcc(models).value.icc == 0.0
  {
  }
}
