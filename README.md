# Neighbourhood income inequality and redistribution attitudes: a verified model of the analysis core

The pipeline merges a Dutch survey with CBS neighbourhood statistics and,
with pandas and statsmodels, fits two-level random-intercept models of
support for redistribution. This project models the deterministic rules
around those library calls and proves what they do:

- **specification** (`formulas.dfy`, `fitting.dfy`): the four nested model
  formulas, the occupation and area-control gates, and the shared controls
  of the sensitivity runs;
- **variance decomposition** (`icc.dfy`): the ICC and its percentages, over exact reals;
- **collinearity table** (`diagnostics.dfy`): VIF column selection, the guard,
  one row per variable, the threshold filter, and the cluster and observation counts;
- **sensitivity table** (`sensitivity.dfy`): which specifications are
  attempted, that a failed fit drops only its own row, the fixed row order,
  and the significance rule of `_extract_key_coef`;
- **geographic ids** (`geo_ids.dfy`, `pystr.dfy`): `Buurtcode` to
  `buurt_id`/`wijk_id`/`gemeente_id`, with Python's `re.sub(r"\.0$")`,
  `str.zfill`, `str.strip` and slicing written out;
- **admin levels** (`admin_levels.dfy`): finding the region column, reading
  the BU/WK/GM prefix, renaming and prefixing the indicators, padding the id,
  and dropping duplicate ids keeping the first;
- **survey recodes** (`recode.dfy`): the refusal code 8, the 1..7 to 0..100
  rescale, composite means over non-missing items, the fixed category maps,
  age from the survey year, and `born_in_nl` as float;
- **context standardisation** (`standardize.dfy`): which prefixed columns
  are z-scored, and the count of them.

A table is a value: `Frames.Frame` is an ordered list of column names and a
sequence of rows, each a map from column name to an optional cell (`None`
is NaN or None). Every function of the pipeline works on a copy, so values
lose nothing. Each step that the source writes as a loop or as a sequence of
column assignments is a method. Each of these methods is proved against a
specification function or predicate, and the properties are proved as
lemmas about those specifications. An exception the code raises is a
`Failure` of the `Frames.Result` type.

The statsmodels solvers are parameters: `Fitting.Fitter` for
`mixedlm(...).fit()` and `Diagnostics.VifOracle` for
`variance_inflation_factor`. So are the z-score of a column
(`Frames.ColumnTransform`), Python's `str` of a float (`show`), `float()` of
a string (`parse`), and `SURVEY_YEAR` and `VIF_THRESHOLD`.

Where the obvious reading and the code differ, the model follows the code:

- `calculate_icc` divides without a guard, and a zero total raises
  `ZeroDivisionError`. The model returns `Failure(ZeroDivision)`, and the
  bounds are proved for a positive total.
- `\.0$` also matches just before a final newline.
- `zfill` keeps a leading sign in front, as Python's `str.zfill` and pandas 1.5 or later do.
- `str.strip` removes Python's whitespace set, not only spaces.
- The sensitivity controls take every present area candidate, without the
  100-value gate that Model 3 applies.
- `standardize_context_vars` raises when a prefixed column name is listed
  twice, because `df[col]` is then a frame and has no `dtype`.

## Model

| member | source | states |
|---|---|---|
| Formulas.BuildFormulas | python/src/analyze.py:99-148 | the four formula strings, built by literals, a conditional occupation term, a loop and a joined tail, equal `outcome ~ predictors` for Models 0-3 |
| Formulas.Formula | python/src/analyze.py:117-142 | definition: `outcome ~ p1 + p2 + ...`, with `1` for no predictor; its properties are in FormulaExtends and NestedModels |
| Formulas.GatedAreaControls | python/src/analyze.py:134-138 | the loop collects exactly the area candidates that exist with more than 100 non-missing values, in candidate order |
| Formulas.FormulaExtends | python/src/analyze.py:140-142 | appending ` + ` and joined terms to a formula is the formula of the longer predictor list, so the shorter one is a prefix |
| Formulas.NestedModels | python/src/analyze.py:99-148 | Model 0 is `DV_single ~ 1`, Model 1 has only the key predictor, each predictor list extends the previous one, each formula string is a prefix of the next, and Model 3 equals Model 2 without area controls |
| Formulas.OccupationGate | python/src/analyze.py:123-124 | ` + C(occupation)` is in Model 2 iff the column exists with strictly more than 100 non-missing values |
| Formulas.AreaControlGate | python/src/analyze.py:134-142 | an area control is in Model 3 iff it is a candidate that passes the gate; with none passing, Model 3's predictors are Model 2's |
| Formulas.PresentAreaControls | python/src/analyze.py:372-376 | the loop collects every area candidate that is a column, in candidate order |
| Formulas.BaseControls | python/src/analyze.py:371-379 | `base_controls` is the ` + `-join of the individual controls followed by the present area candidates |
| Formulas.SensitivityFormulaText | python/src/analyze.py:387 | a sensitivity formula is `outcome ~ b_perc_low40_hh + base_controls` |
| Formulas.SensitivityControlsUngated | python/src/analyze.py:371-379 | a candidate is a sensitivity control iff it is a column (no gate), so every gated Model 3 control is one |
| Fitting.WorkingCopy | python/src/analyze.py:91-92 | the copy the fits see has `buurt_id` as present text in every row, the same columns and rows, and every other column unchanged |
| Fitting.WorkingCopyFormulas | python/src/analyze.py:91-92 | casting `buurt_id` to text changes none of the four formulas |
| Frames.AsStr | python/src/analyze.py:92 | definition: `str()` of a cell, with "nan" for a missing one |
| Frames.StrColumn | python/src/analyze.py:92 | `astype(str)` on one column: every cell becomes present text, and the other columns and the row count are kept |
| Frames.NotNaCount | python/src/analyze.py:123 | `notna().sum()` is never more than the number of cells; NotNaCountRows says what it counts |
| Frames.NotNaCountRows | python/src/analyze.py:123 | the non-missing count of a column equals the number of rows `dropna(subset=[col])` keeps |
| Frames.DropMissing | python/src/analyze.py:401 | `dropna(subset=[col])`: a row is kept exactly when it is an input row whose cell in `col` is present |
| Frames.DropMissingAppend | python/src/analyze.py:401 | the filter keeps row order: filtering a concatenation concatenates the filtered parts |
| Frames.RowsEqual | python/src/analyze.py:424 | `df[df[col] == v]`: a row is kept exactly when it is an input row whose cell equals `v` |
| Frames.RowsEqualAppend | python/src/analyze.py:424 | the filter keeps row order: filtering a concatenation concatenates the filtered parts |
| Frames.CompleteRows | python/src/analyze.py:264 | `dropna()` on the selected columns: a row is kept exactly when it is an input row complete in them |
| Frames.CompleteRowsAppend | python/src/analyze.py:264 | the filter keeps row order: filtering a concatenation concatenates the filtered parts |
| Fitting.FitTwoLevelModels | python/src/analyze.py:66-163 | success iff `buurt_id` exists and all four fits return; then the models are the fits of the four formulas on the working copy grouped by `buurt_id`; otherwise the error names the first model whose fit raised |
| Icc.CalculateIcc | python/src/analyze.py:170-213 | fails exactly on a zero total; otherwise total = between + within, icc·total = between, pct_between = 100·icc, and the two percentages add up to 100 |
| Icc.SharesAddUp | python/src/analyze.py:197-199 | the two percentages computed as the source divides them add up to 100 |
| Icc.IccBounds | python/src/analyze.py:193-199 | with non-negative components and a positive total, 0 ≤ ICC ≤ 1 and both percentages lie in [0, 100] |
| Icc.IccExtremes | python/src/analyze.py:197 | no within variance gives ICC 1; no between variance gives ICC 0 |
| Diagnostics.VifVarsDistinct | python/src/analyze.py:256-261 | the selected VIF variables are distinct |
| Diagnostics.VifTable | python/src/analyze.py:264-273 | with a complete row and at least two variables, one row per selected variable in order, holding the oracle's VIF or NaN when it raises; otherwise no row |
| Diagnostics.HighVifMembership | python/src/analyze.py:276-278 | a variable is flagged iff some row for it has a VIF above the threshold (+inf always, NaN never) |
| Diagnostics.HighVifIsFilter | python/src/analyze.py:276-278 | with distinct variables, `high_vif` is the table's variable list with the unflagged ones removed, order kept |
| Diagnostics.UndefinedNeverFlagged | python/src/analyze.py:271-278 | a variable whose VIF is NaN is never in `high_vif` |
| Diagnostics.RunDiagnostics | python/src/analyze.py:256-278 | fails iff `buurt_id` is missing; the table is non-empty iff the guard holds, then lists the selected variables in order; `high_vif` is the ordered flagged sublist; the counts of lines 326-327 are the rows and the distinct `buurt_id` cells, with 1 ≤ clusters ≤ rows when rows exist |
| Diagnostics.VifVars | python/src/analyze.py:256-261 | definition: the candidates that are columns, in candidate order; distinctness in VifVarsDistinct |
| Diagnostics.VifData | python/src/analyze.py:264 | definition: the complete rows cut to the selected columns |
| Diagnostics.Flagged | python/src/analyze.py:278 | definition: `vif > threshold` on a float, true for +inf and false for NaN |
| Diagnostics.HighVif | python/src/analyze.py:276-278 | never longer than the table; membership and order in HighVifMembership and HighVifIsFilter |
| Sensitivity.ExtractKeyCoef | python/src/analyze.py:444-461 | name, N, coefficient and SE are read from the model (NaN when absent); significant iff both present, SE > 0 and abs(coef) > 1.96·SE; an absent key predictor is not significant |
| Sensitivity.RatioAbove | python/src/analyze.py:452-453 | for a positive SE, abs(coef / SE) > 1.96 iff abs(coef) > 1.96·SE |
| Sensitivity.SignificanceMonotone | python/src/analyze.py:446-453 | for a fixed coefficient, a smaller positive SE can only turn not significant into significant |
| Sensitivity.FitSpecification | python/src/analyze.py:383-393 | one try block: it appends the row of its fit when the fit returns and nothing when it raises |
| Sensitivity.CompositeSpecification | python/src/analyze.py:395-419 | a composite specification runs only when its outcome column exists, on the rows where that outcome is present |
| Sensitivity.DutchSpecification | python/src/analyze.py:421-434 | the Dutch-born specification runs only with a `born_in_nl` column and more than 100 rows where it equals 1 |
| Sensitivity.RunSensitivity | python/src/analyze.py:343-441 | fails iff `buurt_id` is missing; otherwise returns the four specifications' rows on the working copy, in order |
| Sensitivity.TableOrder | python/src/analyze.py:381-434 | the table's labels are exactly the attempted specifications that fit, in the order Base, 2-item, 3-item, Dutch-born, so at most four rows |
| Sensitivity.RowPresence | python/src/analyze.py:381-434 | a specification has a row iff it is attempted and its own fit returns, whatever the others do |
| Sensitivity.RowRequirements | python/src/analyze.py:396-425 | the 2-item and 3-item rows need their outcome columns; the Dutch-born row needs `born_in_nl` and more than 100 Dutch-born rows |
| Sensitivity.Significant | python/src/analyze.py:450-453 | definition: both present, SE > 0 and abs(coef / SE) > 1.96; see ExtractKeyCoef and SignificanceMonotone |
| Sensitivity.DutchBorn | python/src/analyze.py:424 | definition: the rows whose `born_in_nl` equals 1 |
| Sensitivity.Table | python/src/analyze.py:381-434 | definition: the four specifications' rows, concatenated in source order; see TableOrder and RowPresence |
| PyStr.JoinAppend | python/src/analyze.py:142 | joining a concatenation is joining each part with the separator between them |
| PyStr.Take | python/src/transform.py:63-64 | `s[:n]` has length min(n, len s) and is a prefix of `s` |
| PyStr.Drop | python/src/transform.py:123 | `s[n:]` is what remains after `s[:n]` |
| PyStr.ZFillLength | python/src/transform.py:56 | the padded string has length max(width, original length) |
| PyStr.ZFillLong | python/src/transform.py:56 | a string already at least as long as the width is unchanged |
| PyStr.ZFillIdempotent | python/src/transform.py:56 | padding twice is padding once |
| PyStr.ZFillUnsigned | python/src/transform.py:56 | an unsigned string is left-padded with zeros |
| PyStr.StripSpec | python/src/transform.py:117 | `strip()` returns a contiguous slice with only whitespace cut from both ends, not starting or ending in whitespace |
| PyStr.StripIdempotent | python/src/transform.py:117-123 | stripping twice is stripping once |
| PyStr.ZFill | python/src/transform.py:56 | definition: `str.zfill`, zeros after a leading sign; see the ZFill lemmas |
| PyStr.Strip | python/src/transform.py:117 | never longer than its input; see StripSpec and StripIdempotent |
| GeoIds.StripDecimal | python/src/transform.py:55 | removing the decimal shortens the string by two or leaves its length |
| GeoIds.StripDecimalOnce | python/src/transform.py:55 | only a final `.0` is removed, and only one of them |
| GeoIds.CanonicalCodes | python/src/transform.py:52-57 | a float code printed as digits plus `.0` becomes those digits zero-padded to 8; an 8-digit text code is kept |
| GeoIds.GeoIdShape | python/src/transform.py:52-67 | all three ids are missing iff `Buurtcode` is; otherwise `buurt_id` has length max(8, stripped length), `wijk_id` 6 and `gemeente_id` 4, and `gemeente_id` is a prefix of `wijk_id`, which is a prefix of `buurt_id` |
| GeoIds.WithBuurtIds | python/src/transform.py:52-60 | sets `buurt_id` to the padded code of each row, NaN where `Buurtcode` is, and changes no other column |
| GeoIds.WithPrefixIds | python/src/transform.py:63-67 | sets `wijk_id` and `gemeente_id` to the 6- and 4-character prefixes of `buurt_id`, NaN where it is NaN, and changes no other column |
| GeoIds.CreateGeoIds | python/src/transform.py:28-76 | fails iff `Buurtcode` is missing; otherwise adds the three id columns, built per row from `Buurtcode`, with the row count and every other column unchanged |
| GeoIds.BuurtId | python/src/transform.py:52-60 | definition: text, a trailing `.0` stripped, zero-padded to 8; NaN stays NaN; see GeoIdShape |
| GeoIds.PrefixCell | python/src/transform.py:63-64 | definition: `.str[:n]` of a text cell, NaN otherwise |
| AdminLevels.FirstPresent | python/src/transform.py:107-114 | the chosen column is a candidate and a column; none is chosen iff no candidate is a column |
| AdminLevels.FirstPresentIsFirst | python/src/transform.py:108-111 | the chosen candidate comes after only absent candidates |
| AdminLevels.FindRegionColumn | python/src/transform.py:107-111 | the loop picks the first present one of `region_code`, `Codering_3`, `WijkenEnBuurten` |
| AdminLevels.RegionTypeByPrefix | python/src/transform.py:117-123 | a code is of a level iff its two-letter prefix is BU, WK or GM for that level; any other prefix gives no level |
| AdminLevels.CleanCode | python/src/transform.py:117 | definition: the row's region code as text, stripped |
| AdminLevels.RegionType | python/src/transform.py:118-122 | definition: BU, WK and GM give Buurt, Wijk and Gemeente, any other prefix NaN; see RegionTypeByPrefix |
| AdminLevels.RegionId | python/src/transform.py:123 | definition: the code after its first two characters, stripped |
| AdminLevels.RenamedColumns | python/src/transform.py:127-145 | a CBS column takes its standard name from the rename pairs, any other column keeps its own, and the column count is kept |
| AdminLevels.RenameTarget | python/src/transform.py:145 | the new name is the column's own name or the one paired with it, and an unlisted column keeps its name |
| AdminLevels.RenamesResolve | python/src/transform.py:127-145 | every CBS name takes exactly its own standard name, the keys being distinct |
| AdminLevels.RenameRowReads | python/src/transform.py:145 | a renamed column keeps its cell under the new name when no other column takes that name |
| AdminLevels.RenameRow | python/src/transform.py:145 | definition: each column's cell moves to its new name; see RenameRowReads |
| AdminLevels.IndicatorRow | python/src/transform.py:182-189 | definition: `prefix + v` holds the cell of `v`; see IndicatorRowReads |
| AdminLevels.IndicatorRowReads | python/src/transform.py:182-189 | with distinct indicators, `prefix + v` holds the row's cell of `v` |
| AdminLevels.LevelId | python/src/transform.py:176 | definition: the region id zero-padded to the level's width; see LevelIdWide |
| AdminLevels.LevelRowReads | python/src/transform.py:176-189 | a level-table row holds the padded id, and under `prefix + v` the renamed row's cell of each available indicator |
| AdminLevels.LevelRows | python/src/transform.py:167 | the selected rows are input rows of that level |
| AdminLevels.LevelRowsOfLevel | python/src/transform.py:167 | an input row is selected for a level iff it is of that level |
| AdminLevels.UntypedRowsDropped | python/src/transform.py:118-122 | a row with an unknown prefix is in no level table |
| AdminLevels.DedupeIds | python/src/transform.py:192 | dropping duplicates keeps every id of the input once |
| AdminLevels.DedupeFirst | python/src/transform.py:192 | a kept row is the first input row with its id |
| AdminLevels.DedupeDistinct | python/src/transform.py:192 | the kept rows' ids are distinct |
| AdminLevels.DedupeFrom | python/src/transform.py:192 | never more rows than its input; see DedupeIds, DedupeFirst and DedupeDistinct |
| AdminLevels.DropDuplicates | python/src/transform.py:192 | definition: `drop_duplicates(subset=[id_col])` keeping the first row of each id |
| AdminLevels.LevelIdWide | python/src/transform.py:176 | a level id is at least as wide as the level's width (8, 6 or 4) |
| AdminLevels.KeptColumns | python/src/transform.py:179-189 | the loop keeps the id column followed by the prefixed available indicators that are columns, in list order |
| AdminLevels.LevelFrame | python/src/transform.py:166-194 | the loop body builds the level's table as specified |
| AdminLevels.LevelKeysDistinct | python/src/transform.py:161-165 | the three levels have distinct result keys |
| AdminLevels.PrepareAdminByLevel | python/src/transform.py:83-197 | fails iff no region column exists; otherwise the keys are exactly buurt, wijk and gemeente, each holding its level's table |
| AdminLevels.LevelTableShape | python/src/transform.py:169-192 | a level without rows gives the empty table; otherwise the columns are the id and the prefixed available indicators in order; ids are unique |
| AdminLevels.LevelTableRows | python/src/transform.py:167-192 | every row of a level table comes from an admin row of that level, with the id padded to the level's width |
| AdminLevels.LevelTableIds | python/src/transform.py:192 | the table keeps every id of the level's rows, each from its first row |
| AdminLevels.LevelTable | python/src/transform.py:166-194 | definition: the empty frame for a level without rows, otherwise the id and prefixed indicators of the level's rows, duplicates dropped; see LevelTableShape, LevelTableRows and LevelTableIds |
| Recode.DropRefusal | python/src/transform.py:236 | the code 8 becomes missing and every other cell is untouched |
| Recode.DropRefusalKeepsNumeric | python/src/transform.py:236 | dropping refusals keeps a column numeric exactly when it was |
| Recode.DropRefusals | python/src/transform.py:232-236 | the loop drops refusals in whichever of the three items exist, and changes nothing else |
| Recode.RescaleSpec | python/src/transform.py:241 | the rescale maps 1 to 0 and 7 to 100, is strictly increasing, and keeps [1, 7] within [0, 100] |
| Recode.Rescale | python/src/transform.py:241 | definition: `(x - 1) / 6 * 100`; see RescaleSpec |
| Recode.ScaleCell | python/src/transform.py:241 | definition: the rescale on a number, NaN stays NaN |
| Recode.MeanBounds | python/src/transform.py:247-252 | a composite lies within the range of its present items |
| Recode.MeanIgnoresMissing | python/src/transform.py:247-252 | a missing item changes neither the sum, the count nor the mean |
| Recode.TwoItemMean | python/src/transform.py:247 | the two-item composite is the mean of both items, the present one, or NaN |
| Recode.MeanOfPresent | python/src/transform.py:247-252 | definition: the mean of the present values, NaN when none; see MeanBounds and MeanIgnoresMissing |
| Recode.CompositeRange | python/src/transform.py:246-253 | on the 1..7 scale with 8 for a refusal, a composite lies in [1, 7] and its rescale in [0, 100], or is NaN |
| Recode.RowMeansOfCleaned | python/src/transform.py:247-252 | row means over the recoded items are the composites of the original items with refusals dropped |
| Recode.MapCodeSpec | python/src/transform.py:261-304 | code k gets the k-th label; a cell gets a label iff it is one of the codes 1..n |
| Recode.CategoryLabels | python/src/transform.py:260-305 | 1/2/3 are Male/Female/Other and 4 is missing for sex; 8 is "Other" for employment; both fixed maps have 8 codes |
| Recode.MapCode | python/src/transform.py:261-304 | definition: code k gets the k-th label, every other cell NaN; see MapCodeSpec |
| Recode.AgeCell | python/src/transform.py:266 | definition: the survey year minus the birth year, NaN stays NaN |
| Recode.AsFloat | python/src/transform.py:312 | definition: numbers kept, text parsed by `float()`, NaN kept |
| Recode.FirstTextSpec | python/src/transform.py:241-253 | no item holds text iff all are numeric; a reported item is one of them |
| Recode.ItemLists | python/src/transform.py:246-251 | the guards and the first text item of the two item lists, spelled out |
| Recode.ScaleStep | python/src/transform.py:240-241 | raises iff the item holds text; otherwise writes only `DV_single`, the rescaled item |
| Recode.CompositeStep | python/src/transform.py:246-253 | writes nothing without all items; raises on the first text item; otherwise writes only the mean and its rescale |
| Recode.SingleItemBlock | python/src/transform.py:240-241 | the `DV_single` block as a step of the dependent-variable section |
| Recode.TwoItemBlock | python/src/transform.py:246-248 | the two-item block: raises iff both items exist and `gov_int` holds text |
| Recode.ThreeItemBlock | python/src/transform.py:251-253 | the three-item block: raises iff all items exist and `union_pref` holds text |
| Recode.RecodeOutcomes | python/src/transform.py:232-253 | raises iff some block reaches a text item, with that block's error; otherwise writes only the dependent-variable columns, each as specified |
| Recode.SexBlock | python/src/transform.py:260-262 | maps `sex` through Male/Female/Other when it exists |
| Recode.AgeBlock | python/src/transform.py:265-268 | raises iff `birth_year` holds text; otherwise `age_raw` is the survey year minus the birth year and `age` its z-score |
| Recode.EducationBlock | python/src/transform.py:272-273 | raises iff `educyrs` holds text; otherwise `education` is its z-score |
| Recode.EmploymentBlock | python/src/transform.py:279-291 | maps `work_status` through the employment labels into `employment_status` |
| Recode.OccupationBlock | python/src/transform.py:293-305 | maps `work_type` through the occupation labels into `occupation` |
| Recode.BornInNlBlock | python/src/transform.py:311-312 | raises iff `born_in_nl` holds text that `float()` rejects; otherwise converts it to floats |
| Recode.RecodeDemographics | python/src/transform.py:259-312 | raises exactly on the first text birth year, text education or unparsable `born_in_nl`; otherwise writes only the demographic columns, each as specified |
| Recode.DemographicsAfterOutcomes | python/src/transform.py:232-312 | the dependent-variable section leaves what the demographic section reads unchanged |
| Recode.OutcomesAfterDemographics | python/src/transform.py:232-312 | the demographic section leaves the dependent-variable columns unchanged |
| Recode.RecodeSurveyVariables | python/src/transform.py:204-315 | raises exactly on the first error of the two sections; otherwise writes only the two sections' columns, every dependent-variable and demographic column as the function of the input columns it is specified as |
| Standardize.FirstAmbiguous | python/src/transform.py:346-348 | the reported column is one of the columns, prefixed and listed twice; none is reported iff there is none |
| Standardize.FirstAmbiguousAppend | python/src/transform.py:346-348 | the first raising column of a concatenation lies in its first part if that has one |
| Standardize.RescaledMembership | python/src/transform.py:346-353 | a column is rescaled iff it is prefixed, numeric and has spread |
| Standardize.StandardizeContextVars | python/src/transform.py:322-356 | raises iff a prefixed column is listed twice; otherwise keeps the columns and rows, replaces exactly the eligible columns by their z-scores, leaves every other column unchanged, and counts the replaced columns |
| Standardize.SpreadNeedsTwoValues | python/src/transform.py:350-351 | a positive std needs at least two present values, and a constant column has none |
| Standardize.LevelColumnsAreContext | python/src/transform.py:184 | every prefixed level indicator is a context column and no level id column is one |
| Standardize.HasSpread | python/src/transform.py:350-351 | definition: two present cells differ; see SpreadNeedsTwoValues |
| Standardize.Eligible | python/src/transform.py:347-351 | definition: prefixed, numeric and with spread |
| Standardize.Rescaled | python/src/transform.py:346-353 | definition: the eligible columns in column order; see RescaledMembership |

## Left out

- The mixed-model fit and `variance_inflation_factor` are foreign solvers. They are the `Fitter` and `VifOracle` parameters, and nothing is proved about what they compute.
- The residual and random-effect summaries of `run_diagnostics` (`np.mean`, `np.std`, `stats.skew`, `stats.kurtosis`, min, max) are floating-point statistics of the solver's output and are not modelled.
- The z-score `(x - mean) / std` of `age`, `education` and the context columns is the `ColumnTransform` parameter. The mean and standard deviation themselves are not computed.
- Recode.AgeBlock: `age` is the z-score parameter applied to `age_raw`; its mean and sample standard deviation are not modelled.
- Printing is not modelled: `n_valid`, the unique counts and the summaries. `standardized_count` is only printed by the source; the model returns it so that its value can be stated.
- `warnings.filterwarnings`, `sys.path` and the `config` imports are not modelled. `SURVEY_YEAR` and `VIF_THRESHOLD` are parameters; the `MinNonMissing` and `MinSubsample` gates (100) and the critical value 1.96 are constants.
- Python's `str()` of a float and `float()` of a string are the `show` and `parse` parameters.
- Floating-point arithmetic is modelled over exact reals: the rescale, the composite means and the ICC shares. Rounding is not captured; for example, the std of equal floats can come out as a tiny positive value rather than 0.
- pandas dtypes are approximated: a column is numeric when no cell holds text. Three kinds of column fail the source's dtype test and are still treated as numeric: an all-NaN object column, an object-dtype column holding only numbers, and the `int32`/`float32`/`bool` dtypes.
- `pd.Categorical` category metadata is not modelled. A categorical column is its label cells, with NaN for unmapped codes.
- Duplicate column names are modelled only in `Standardize`, through the column list. Elsewhere a row maps each name to one cell, so a frame with a repeated name cannot be represented.
- A missing cell stands for both NaN and Python's None. `astype(str)` turns NaN into the text "nan" but None into "None". The model gives "nan" for both, so a `buurt_id` column holding both kinds is one group "nan" in the model's fits, where the source fits two groups. Either text is a region code with no level.
- Calling a pandas arithmetic or `mean` method on a text column raises in pandas; the model returns `NotNumeric` with the column's name, without distinguishing `TypeError` subtypes. The repository pins no pandas version, and the model assumes pandas 2.0 or later: pandas 1.x silently drops a text column from `mean(axis=1)` instead of raising.
