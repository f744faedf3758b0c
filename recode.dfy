/** recode_survey_variables (transform.py): the refusal code 8 becomes
    missing in the three redistribution items, the items and their composites
    are rescaled from 1..7 to 0..100, the demographic codes become category
    labels, and age and education are standardised. Arithmetic on a column
    that holds text raises in pandas; the model reports it as an error. */
module Recode {
  import opened Frames

  const GovInt := "gov_int"
  const RedIncDiff := "red_inc_diff"
  const UnionPref := "union_pref"
  const DvVars := [GovInt, RedIncDiff, UnionPref]
  const TwoItems := [GovInt, RedIncDiff]
  /** The refusal / missing code of the three items. */
  const MissingCode: real := 8.0

  const DvSingle := "DV_single"
  const Dv2 := "DV_2item"
  const Dv2Scaled := "DV_2item_scaled"
  const Dv3 := "DV_3item"
  const Dv3Scaled := "DV_3item_scaled"

  const Sex := "sex"
  const BirthYear := "birth_year"
  const AgeRaw := "age_raw"
  const Age := "age"
  const EducYears := "educyrs"
  const Education := "education"
  const WorkStatus := "work_status"
  const Employment := "employment_status"
  const WorkType := "work_type"
  const Occupation := "occupation"
  const BornInNl := "born_in_nl"

  /** The labels of codes 1, 2, 3, ... of each categorical map. */
  const SexLabels := ["Male", "Female", "Other"]
  const EmploymentLabels := ["Employed", "Self-employed", "Unemployed", "Student",
                             "Retired", "Homemaker", "Disabled", "Other"]
  const OccupationLabels := ["Modern professional", "Clerical", "Senior manager", "Technical",
                             "Semi-routine manual", "Routine manual", "Middle manager",
                             "Traditional professional"]

  /** `df.loc[df[var] == 8, var] = np.nan` on one cell. */
  function DropRefusal(c: Cell): (r: Cell)
    ensures c == Some(Num(MissingCode)) ==> r.None?
    ensures c != Some(Num(MissingCode)) ==> r == c
  {
    if c == Some(Num(MissingCode)) then None else c
  }

  /** `(x - 1) / 6 * 100` */
  function Rescale(x: real): real {
    (x - 1.0) / 6.0 * 100.0
  }

  /** The rescale sends the scale's ends 1 and 7 to 0 and 100, keeps
      [1, 7] inside [0, 100] and is strictly increasing. */
  lemma RescaleSpec(x: real, y: real)
    ensures Rescale(1.0) == 0.0 && Rescale(7.0) == 100.0
    ensures x < y ==> Rescale(x) < Rescale(y)
    ensures 1.0 <= x <= 7.0 ==> 0.0 <= Rescale(x) <= 100.0
  {
  }

  /** The rescale on a cell; NaN stays NaN (a text cell never gets here). */
  function ScaleCell(c: Cell): Cell {
    if c.Some? && c.value.Num? then Some(Num(Rescale(c.value.x))) else None
  }

  function SumPresent(cells: seq<Cell>): real {
    if cells == [] then 0.0
    else (if cells[0].Some? && cells[0].value.Num? then cells[0].value.x else 0.0) + SumPresent(cells[1..])
  }

  function CountPresent(cells: seq<Cell>): (n: nat)
    ensures n <= |cells|
  {
    if cells == [] then 0
    else (if cells[0].Some? && cells[0].value.Num? then 1 else 0) + CountPresent(cells[1..])
  }

  /** `mean(axis=1)` on one row: the mean of the present values, NaN if none. */
  function MeanOfPresent(cells: seq<Cell>): Cell {
    if CountPresent(cells) == 0 then None
    else Some(Num(SumPresent(cells) / (CountPresent(cells) as real)))
  }

  lemma {:induction false} SumAtLeast(cells: seq<Cell>, lo: real)
    requires forall i :: 0 <= i < |cells| && cells[i].Some? && cells[i].value.Num? ==> lo <= cells[i].value.x
    ensures (CountPresent(cells) as real) * lo <= SumPresent(cells)
  {
    if cells != [] {
      var rest := cells[1..];
      assert forall i :: 0 <= i < |rest| ==> rest[i] == cells[i + 1];
      SumAtLeast(rest, lo);
      var n := CountPresent(rest) as real;
      if cells[0].Some? && cells[0].value.Num? {
        assert CountPresent(cells) as real == n + 1.0;
        assert (n + 1.0) * lo == n * lo + lo;
      }
    }
  }

  lemma {:induction false} SumAtMost(cells: seq<Cell>, hi: real)
    requires forall i :: 0 <= i < |cells| && cells[i].Some? && cells[i].value.Num? ==> cells[i].value.x <= hi
    ensures SumPresent(cells) <= (CountPresent(cells) as real) * hi
  {
    if cells != [] {
      var rest := cells[1..];
      assert forall i :: 0 <= i < |rest| ==> rest[i] == cells[i + 1];
      SumAtMost(rest, hi);
      var n := CountPresent(rest) as real;
      if cells[0].Some? && cells[0].value.Num? {
        assert CountPresent(cells) as real == n + 1.0;
        assert (n + 1.0) * hi == n * hi + hi;
      }
    }
  }

  lemma DivBetween(s: real, k: real, lo: real, hi: real)
    requires k > 0.0 && k * lo <= s <= k * hi
    ensures lo <= s / k <= hi
  {
    assert (s / k) * k == s;
  }

  /** A composite lies within the range of its present items. */
  lemma MeanBounds(cells: seq<Cell>, lo: real, hi: real)
    requires forall i :: 0 <= i < |cells| && cells[i].Some? && cells[i].value.Num? ==> lo <= cells[i].value.x <= hi
    ensures MeanOfPresent(cells).Some? ==> lo <= MeanOfPresent(cells).value.x <= hi
  {
    if CountPresent(cells) > 0 {
      SumAtLeast(cells, lo);
      SumAtMost(cells, hi);
      DivBetween(SumPresent(cells), CountPresent(cells) as real, lo, hi);
    }
  }

  /** Missing items do not count: appending a NaN leaves the mean unchanged. */
  lemma {:induction false} MeanIgnoresMissing(cells: seq<Cell>)
    ensures SumPresent(cells + [None]) == SumPresent(cells)
    ensures CountPresent(cells + [None]) == CountPresent(cells)
    ensures MeanOfPresent(cells + [None]) == MeanOfPresent(cells)
  {
    if cells != [] {
      assert (cells + [None])[1..] == cells[1..] + [None];
      MeanIgnoresMissing(cells[1..]);
    }
  }

  /** The composite of two items: their mean when both are present, the
      present one when only one is. */
  lemma TwoItemMean(a: real, b: real)
    ensures MeanOfPresent([Some(Num(a)), Some(Num(b))]) == Some(Num((a + b) / 2.0))
    ensures MeanOfPresent([Some(Num(a)), None]) == Some(Num(a))
    ensures MeanOfPresent([None, Some(Num(b))]) == Some(Num(b))
    ensures MeanOfPresent([None, None]) == None
  {
    var none: Cell := None;
    var sa, sb := Some(Num(a)), Some(Num(b));
    assert [sa, sb][1..] == [sb] && [sb][1..] == [];
    assert [sa, none][1..] == [none] && [none][1..] == [];
    assert [none, sb][1..] == [sb];
    assert [none, none][1..] == [none];
    var empty: seq<Cell> := [];
    assert SumPresent(empty) == 0.0 && CountPresent(empty) == 0;
    assert SumPresent([sb]) == b && CountPresent([sb]) == 1;
    assert SumPresent([none]) == 0.0 && CountPresent([none]) == 0;
    assert SumPresent([sa, sb]) == a + b && CountPresent([sa, sb]) == 2;
    assert SumPresent([sa, none]) == a && CountPresent([sa, none]) == 1;
    assert SumPresent([none, sb]) == 0.0 + SumPresent([sb]);
    assert CountPresent([none, sb]) == 0 + CountPresent([sb]);
    assert CountPresent([none, none]) == 0;
  }

  /** `series.map({1: labels[0], 2: labels[1], ...})`: a number equal to a
      code gets its label, anything else (another number, text, NaN) NaN. */
  function MapCode(c: Cell, labels: seq<string>): Cell {
    if c.Some? && c.value.Num? && c.value.x == c.value.x.Floor as real
       && 1 <= c.value.x.Floor <= |labels|
    then Some(Text(labels[c.value.x.Floor - 1]))
    else None
  }

  function CodeCell(k: int): Cell {
    Some(Num(k as real))
  }

  /** The cells holding one of the codes 1 .. |labels|. */
  function CodeCells(labels: seq<string>): set<Cell> {
    set k: int | 1 <= k <= |labels| :: CodeCell(k)
  }

  /** Code k of a map gives its k-th label; any other cell gives NaN. */
  lemma MapCodeSpec(c: Cell, labels: seq<string>, k: int)
    ensures 1 <= k <= |labels| ==> MapCode(Some(Num(k as real)), labels) == Some(Text(labels[k - 1]))
    ensures MapCode(c, labels).Some? <==> c in CodeCells(labels)
  {
    if MapCode(c, labels).Some? {
      var j := c.value.x.Floor;
      assert c == CodeCell(j);
    }
    if c in CodeCells(labels) {
      var j :| 1 <= j <= |labels| && c == CodeCell(j);
      assert (j as real).Floor == j;
    }
  }

  /** The fixed maps: 1/2/3 are Male/Female/Other, and in the employment
      map 8 is "Other", a label and not a missing value. */
  lemma CategoryLabels()
    ensures MapCode(Some(Num(1.0)), SexLabels) == Some(Text("Male"))
    ensures MapCode(Some(Num(2.0)), SexLabels) == Some(Text("Female"))
    ensures MapCode(Some(Num(3.0)), SexLabels) == Some(Text("Other"))
    ensures MapCode(Some(Num(4.0)), SexLabels) == None
    ensures MapCode(Some(Num(8.0)), EmploymentLabels) == Some(Text("Other"))
    ensures |EmploymentLabels| == 8 && |OccupationLabels| == 8
  {
    MapCodeSpec(None, SexLabels, 1);
    MapCodeSpec(None, SexLabels, 2);
    MapCodeSpec(None, SexLabels, 3);
    MapCodeSpec(None, EmploymentLabels, 8);
  }

  /** `SURVEY_YEAR - df["birth_year"]` on one cell. */
  function AgeCell(surveyYear: int, c: Cell): Cell {
    if c.Some? && c.value.Num? then Some(Num(surveyYear as real - c.value.x)) else None
  }

  /** `astype(float)` on one cell: numbers stay, text is parsed by `parse`
      (Python's `float()`), NaN stays NaN. */
  function AsFloat(c: Cell, parse: string -> Option<real>): Cell {
    match c
    case Some(Text(s)) => if parse(s).Some? then Some(Num(parse(s).value)) else None
    case _ => c
  }

  /** Text that `float()` rejects. */
  predicate Unparsable(cells: seq<Cell>, parse: string -> Option<real>) {
    exists i :: 0 <= i < |cells| && cells[i].Some? && cells[i].value.Text? && parse(cells[i].value.s).None?
  }

  /** The cells of the named columns in one row. */
  function Cells(row: Row, cols: seq<string>): (r: seq<Cell>)
    ensures |r| == |cols|
    ensures forall k :: 0 <= k < |cols| ==> r[k] == Get(row, cols[k])
  {
    seq(|cols|, k requires 0 <= k < |cols| => Get(row, cols[k]))
  }

  /** `df[cols].mean(axis=1)` */
  function RowMeans(df: Frame, cols: seq<string>): (r: seq<Cell>)
    ensures |r| == |df.rows|
    ensures forall i :: 0 <= i < |df.rows| ==> r[i] == MeanOfPresent(Cells(df.rows[i], cols))
  {
    seq(|df.rows|, i requires 0 <= i < |df.rows| => MeanOfPresent(Cells(df.rows[i], cols)))
  }

  /** The items of one row after the refusal recode. */
  function Items(row: Row, items: seq<string>): (r: seq<Cell>)
    ensures |r| == |items|
    ensures forall k :: 0 <= k < |items| ==> r[k] == DropRefusal(Get(row, items[k]))
  {
    seq(|items|, k requires 0 <= k < |items| => DropRefusal(Get(row, items[k])))
  }

  /** A composite of the original items, refusals dropped: the mean of each
      row's non-missing, non-refused items. */
  function Composite(data: Frame, items: seq<string>): (r: seq<Cell>)
    ensures |r| == |data.rows|
    ensures forall i :: 0 <= i < |data.rows| ==> r[i] == MeanOfPresent(Items(data.rows[i], items))
  {
    seq(|data.rows|, i requires 0 <= i < |data.rows| => MeanOfPresent(Items(data.rows[i], items)))
  }

  /** On the 1..7 response scale with 8 for a refusal, a composite lies in
      [1, 7] and its rescaled version in [0, 100], or is NaN when every item
      of the row is missing or refused. */
  lemma CompositeRange(row: Row, items: seq<string>)
    requires forall k :: 0 <= k < |items| ==>
               var c := Get(row, items[k]);
               c.None? || (c.value.Num? && (1.0 <= c.value.x <= 7.0 || c.value.x == MissingCode))
    ensures var m := MeanOfPresent(Items(row, items));
            m.Some? ==> 1.0 <= m.value.x <= 7.0 && 0.0 <= ScaleCell(m).value.x <= 100.0
  {
    var cells := Items(row, items);
    forall i | 0 <= i < |cells| && cells[i].Some? && cells[i].value.Num?
      ensures 1.0 <= cells[i].value.x <= 7.0
    {
      assert cells[i] == DropRefusal(Get(row, items[i]));
    }
    MeanBounds(cells, 1.0, 7.0);
    var m := MeanOfPresent(cells);
    if m.Some? {
      RescaleSpec(m.value.x, m.value.x);
    }
  }

  /** Row means over recoded item columns are the composites of the originals. */
  lemma RowMeansOfCleaned(df: Frame, data: Frame, items: seq<string>)
    requires |df.rows| == |data.rows|
    requires forall v :: v in items ==> Column(df, v) == MapCells(Column(data, v), DropRefusal)
    ensures RowMeans(df, items) == Composite(data, items)
  {
    forall i | 0 <= i < |df.rows|
      ensures Cells(df.rows[i], items) == Items(data.rows[i], items)
    {
      forall k | 0 <= k < |items|
        ensures Get(df.rows[i], items[k]) == DropRefusal(Get(data.rows[i], items[k]))
      {
        assert Column(df, items[k])[i] == MapCells(Column(data, items[k]), DropRefusal)[i];
      }
    }
  }

  predicate Has(df: Frame, c: string) {
    c in df.columns
  }

  /** Whether every one of the columns exists. */
  predicate AllPresent(df: Frame, cols: seq<string>) {
    forall k :: 0 <= k < |cols| ==> cols[k] in df.columns
  }

  /** The first of the columns that holds text. */
  function FirstText(df: Frame, cols: seq<string>): Option<string> {
    if cols == [] then None
    else if !Numeric(Column(df, cols[0])) then Some(cols[0])
    else FirstText(df, cols[1..])
  }

  lemma {:induction false} FirstTextSpec(df: Frame, cols: seq<string>)
    ensures FirstText(df, cols).None? <==> forall k :: 0 <= k < |cols| ==> Numeric(Column(df, cols[k]))
    ensures FirstText(df, cols).Some? ==> FirstText(df, cols).value in cols
  {
    if cols != [] {
      FirstTextSpec(df, cols[1..]);
      assert forall k :: 1 <= k < |cols| ==> cols[k] == cols[1..][k - 1];
    }
  }

  lemma DropRefusalKeepsNumeric(cells: seq<Cell>)
    ensures Numeric(MapCells(cells, DropRefusal)) <==> Numeric(cells)
  {
    if !Numeric(cells) {
      var i :| 0 <= i < |cells| && !(cells[i].None? || cells[i].value.Num?);
      assert MapCells(cells, DropRefusal)[i] == cells[i];
    }
  }

  /** `g` is `df` with at most the `written` columns assigned: the same rows,
      the old columns first, new ones among `written`, every other column as
      it was. */
  ghost predicate Writes(df: Frame, g: Frame, written: set<string>) {
    |g.rows| == |df.rows| && df.columns <= g.columns
    && (forall c :: c in g.columns ==> c in df.columns || c in written)
    && (forall c :: c !in written ==> Column(g, c) == Column(df, c))
  }

  lemma WritesColumn(df: Frame, name: string, cells: seq<Cell>)
    requires |cells| == |df.rows|
    ensures Writes(df, SetColumn(df, name, cells), {name})
  {
  }

  lemma WritesChain(a: Frame, b: Frame, c: Frame, w1: set<string>, w2: set<string>)
    requires Writes(a, b, w1) && Writes(b, c, w2)
    ensures Writes(a, c, w1 + w2)
  {
  }

  function ScaleColumn(cells: seq<Cell>): (r: seq<Cell>)
    ensures |r| == |cells|
    ensures forall i :: 0 <= i < |cells| ==> r[i] == ScaleCell(cells[i])
  {
    MapCells(cells, ScaleCell)
  }

  /** `df[dst] = (df[src] - 1) / 6 * 100`, raising on text. */
  function ScaleStep(df: Frame, src: string, dst: string): (r: Result<Frame>)
    requires src in df.columns
    ensures r.Failure? <==> !Numeric(Column(df, src))
    ensures r.Failure? ==> r.error == NotNumeric(src)
    ensures r.Success? ==> Writes(df, r.value, {dst}) && Column(r.value, dst) == ScaleColumn(Column(df, src))
  {
    if !Numeric(Column(df, src)) then Failure(NotNumeric(src))
    else
      WritesColumn(df, dst, ScaleColumn(Column(df, src)));
      Success(SetColumn(df, dst, ScaleColumn(Column(df, src))))
  }

  /** One composite block: when every item exists, their row mean and its
      rescaled version; a text item raises. */
  function CompositeStep(df: Frame, items: seq<string>, meanCol: string, scaledCol: string): (r: Result<Frame>)
    requires meanCol != scaledCol
    ensures !AllPresent(df, items) ==> r == Success(df)
    ensures r.Failure? <==> AllPresent(df, items) && FirstText(df, items).Some?
    ensures r.Failure? ==> r.error == NotNumeric(FirstText(df, items).value)
    ensures r.Success? && AllPresent(df, items) ==>
              Writes(df, r.value, {meanCol, scaledCol})
              && Column(r.value, meanCol) == RowMeans(df, items)
              && Column(r.value, scaledCol) == ScaleColumn(RowMeans(df, items))
  {
    if !AllPresent(df, items) then Success(df)
    else if FirstText(df, items).Some? then Failure(NotNumeric(FirstText(df, items).value))
    else
      var mean := RowMeans(df, items);
      var d1 := SetColumn(df, meanCol, mean);
      WritesColumn(df, meanCol, mean);
      WritesColumn(d1, scaledCol, ScaleColumn(mean));
      WritesChain(df, d1, SetColumn(d1, scaledCol, ScaleColumn(mean)), {meanCol}, {scaledCol});
      Success(SetColumn(d1, scaledCol, ScaleColumn(mean)))
  }

  function MapColumn(cells: seq<Cell>, labels: seq<string>): (r: seq<Cell>)
    ensures |r| == |cells|
    ensures forall i :: 0 <= i < |cells| ==> r[i] == MapCode(cells[i], labels)
  {
    seq(|cells|, i requires 0 <= i < |cells| => MapCode(cells[i], labels))
  }

  function AgeColumn(surveyYear: int, cells: seq<Cell>): (r: seq<Cell>)
    ensures |r| == |cells|
    ensures forall i :: 0 <= i < |cells| ==> r[i] == AgeCell(surveyYear, cells[i])
  {
    seq(|cells|, i requires 0 <= i < |cells| => AgeCell(surveyYear, cells[i]))
  }

  function FloatColumn(cells: seq<Cell>, parse: string -> Option<real>): (r: seq<Cell>)
    ensures |r| == |cells|
    ensures forall i :: 0 <= i < |cells| ==> r[i] == AsFloat(cells[i], parse)
  {
    seq(|cells|, i requires 0 <= i < |cells| => AsFloat(cells[i], parse))
  }


  /** The cells of `v` after the refusal recode when `v` exists, as they were otherwise. */
  function Cleaned(data: Frame, v: string): seq<Cell> {
    if Has(data, v) then MapCells(Column(data, v), DropRefusal) else Column(data, v)
  }

  /** The columns each section may assign. */
  const OutcomeWrites := {GovInt, RedIncDiff, UnionPref, DvSingle, Dv2, Dv2Scaled, Dv3, Dv3Scaled}
  const DemographicWrites := {Sex, AgeRaw, Age, Education, Employment, Occupation, BornInNl}

  /** The first exception of the dependent-variable section: arithmetic on a
      text item, in the order the blocks run. */
  function OutcomeError(data: Frame): Option<Error> {
    if Has(data, RedIncDiff) && !Numeric(Column(data, RedIncDiff)) then Some(NotNumeric(RedIncDiff))
    else if AllPresent(data, TwoItems) && !Numeric(Column(data, GovInt)) then Some(NotNumeric(GovInt))
    else if AllPresent(data, DvVars) && !Numeric(Column(data, UnionPref)) then Some(NotNumeric(UnionPref))
    else None
  }

  /** The first exception of the demographic section: arithmetic on a text
      birth year or education, or text in `born_in_nl` that `float()` rejects. */
  function DemographicError(df: Frame, parse: string -> Option<real>): Option<Error> {
    if Has(df, BirthYear) && !Numeric(Column(df, BirthYear)) then Some(NotNumeric(BirthYear))
    else if Has(df, EducYears) && !Numeric(Column(df, EducYears)) then Some(NotNumeric(EducYears))
    else if Has(df, BornInNl) && Unparsable(Column(df, BornInNl), parse) then Some(NotNumeric(BornInNl))
    else None
  }

  function RecodeError(data: Frame, parse: string -> Option<real>): Option<Error> {
    if OutcomeError(data).Some? then OutcomeError(data) else DemographicError(data, parse)
  }

  /** The two item lists spelled out. */
  lemma ItemLists(df: Frame)
    ensures AllPresent(df, TwoItems) <==> Has(df, GovInt) && Has(df, RedIncDiff)
    ensures AllPresent(df, DvVars) <==> Has(df, GovInt) && Has(df, RedIncDiff) && Has(df, UnionPref)
    ensures FirstText(df, TwoItems) ==
              if !Numeric(Column(df, GovInt)) then Some(GovInt)
              else if !Numeric(Column(df, RedIncDiff)) then Some(RedIncDiff)
              else None
    ensures FirstText(df, DvVars) ==
              if !Numeric(Column(df, GovInt)) then Some(GovInt)
              else if !Numeric(Column(df, RedIncDiff)) then Some(RedIncDiff)
              else if !Numeric(Column(df, UnionPref)) then Some(UnionPref)
              else None
  {
    var none: seq<string> := [];
    assert FirstText(df, none) == None;
    assert [UnionPref][1..] == none && [RedIncDiff][1..] == none;
    assert FirstText(df, [UnionPref]) == if !Numeric(Column(df, UnionPref)) then Some(UnionPref) else None;
    assert FirstText(df, [RedIncDiff]) == if !Numeric(Column(df, RedIncDiff)) then Some(RedIncDiff) else None;
    assert [RedIncDiff, UnionPref][1..] == [UnionPref];
    assert TwoItems[1..] == [RedIncDiff];
    assert DvVars[1..] == [RedIncDiff, UnionPref];
    assert AllPresent(df, TwoItems) ==> TwoItems[0] in df.columns && TwoItems[1] in df.columns;
    assert AllPresent(df, DvVars) ==> DvVars[0] in df.columns && DvVars[1] in df.columns && DvVars[2] in df.columns;
  }

  /** The three items of `df` are those of `data` with refusals dropped. */
  predicate ItemsCleaned(data: Frame, df: Frame) {
    (Has(df, GovInt) <==> Has(data, GovInt))
    && (Has(df, RedIncDiff) <==> Has(data, RedIncDiff))
    && (Has(df, UnionPref) <==> Has(data, UnionPref))
    && Column(df, GovInt) == Cleaned(data, GovInt)
    && Column(df, RedIncDiff) == Cleaned(data, RedIncDiff)
    && Column(df, UnionPref) == Cleaned(data, UnionPref)
  }

  /** The dependent-variable columns of `df` as recode_survey_variables
      computes them from `data`: refusals dropped in the items, DV_single as
      the rescaled item, each composite as the mean of its present items and
      its rescaled version; a block whose items are absent writes nothing. */
  predicate OutcomeCells(data: Frame, df: Frame) {
    ItemsCleaned(data, df)
    && Column(df, DvSingle) == (if Has(data, RedIncDiff) then ScaleColumn(Cleaned(data, RedIncDiff)) else Column(data, DvSingle))
    && Column(df, Dv2) == (if AllPresent(data, TwoItems) then Composite(data, TwoItems) else Column(data, Dv2))
    && Column(df, Dv2Scaled) == (if AllPresent(data, TwoItems) then ScaleColumn(Composite(data, TwoItems)) else Column(data, Dv2Scaled))
    && Column(df, Dv3) == (if AllPresent(data, DvVars) then Composite(data, DvVars) else Column(data, Dv3))
    && Column(df, Dv3Scaled) == (if AllPresent(data, DvVars) then ScaleColumn(Composite(data, DvVars)) else Column(data, Dv3Scaled))
  }

  /** The demographic columns of `df` as computed from `src`: the three code
      maps, age as survey year minus birth year and its z-score, the
      education z-score, and `born_in_nl` as floats; an absent input column
      leaves its output as it was. */
  predicate DemographicCells(src: Frame, df: Frame, surveyYear: int, z: ColumnTransform, parse: string -> Option<real>) {
    Column(df, Sex) == (if Has(src, Sex) then MapColumn(Column(src, Sex), SexLabels) else Column(src, Sex))
    && Column(df, AgeRaw) == (if Has(src, BirthYear) then AgeColumn(surveyYear, Column(src, BirthYear)) else Column(src, AgeRaw))
    && Column(df, Age) == (if Has(src, BirthYear) then ZColumn(AgeColumn(surveyYear, Column(src, BirthYear)), z) else Column(src, Age))
    && Column(df, Education) == (if Has(src, EducYears) then ZColumn(Column(src, EducYears), z) else Column(src, Education))
    && Column(df, Employment) == (if Has(src, WorkStatus) then MapColumn(Column(src, WorkStatus), EmploymentLabels) else Column(src, Employment))
    && Column(df, Occupation) == (if Has(src, WorkType) then MapColumn(Column(src, WorkType), OccupationLabels) else Column(src, Occupation))
    && Column(df, BornInNl) == (if Has(src, BornInNl) then FloatColumn(Column(src, BornInNl), parse) else Column(src, BornInNl))
  }

  /** The state after the refusal loop. */
  ghost predicate AfterRefusals(data: Frame, df: Frame) {
    df.columns == data.columns && Writes(data, df, {GovInt, RedIncDiff, UnionPref}) && ItemsCleaned(data, df)
  }

  /** The state after the DV_single block. */
  ghost predicate AfterSingle(data: Frame, df: Frame) {
    Writes(data, df, {GovInt, RedIncDiff, UnionPref, DvSingle}) && ItemsCleaned(data, df)
    && Column(df, DvSingle) == (if Has(data, RedIncDiff) then ScaleColumn(Cleaned(data, RedIncDiff)) else Column(data, DvSingle))
    && (Has(data, RedIncDiff) ==> Numeric(Column(data, RedIncDiff)))
  }

  /** The state after the two-item block. */
  ghost predicate AfterTwoItems(data: Frame, df: Frame) {
    Writes(data, df, {GovInt, RedIncDiff, UnionPref, DvSingle, Dv2, Dv2Scaled}) && ItemsCleaned(data, df)
    && Column(df, DvSingle) == (if Has(data, RedIncDiff) then ScaleColumn(Cleaned(data, RedIncDiff)) else Column(data, DvSingle))
    && Column(df, Dv2) == (if AllPresent(data, TwoItems) then Composite(data, TwoItems) else Column(data, Dv2))
    && Column(df, Dv2Scaled) == (if AllPresent(data, TwoItems) then ScaleColumn(Composite(data, TwoItems)) else Column(data, Dv2Scaled))
    && (Has(data, RedIncDiff) ==> Numeric(Column(data, RedIncDiff)))
    && (AllPresent(data, TwoItems) ==> Numeric(Column(data, GovInt)))
  }

  /** The refusal loop over the three items. */
  method DropRefusals(data: Frame) returns (df: Frame)
    ensures AfterRefusals(data, df)
  {
    df := data;
    for k := 0 to |DvVars|
      invariant df.columns == data.columns && |df.rows| == |data.rows|
      invariant forall v :: v in DvVars[..k] && Has(data, v) ==> Column(df, v) == MapCells(Column(data, v), DropRefusal)
      invariant forall c :: c !in DvVars[..k] || !Has(data, c) ==> Column(df, c) == Column(data, c)
    {
      var v := DvVars[k];
      assert DvVars[..k + 1] == DvVars[..k] + [v];
      if v in df.columns {
        assert v !in DvVars[..k];
        df := SetColumn(df, v, MapCells(Column(df, v), DropRefusal));
      }
    }
    assert DvVars[..|DvVars|] == DvVars;
  }

  /** The DV_single block. */
  method SingleItemBlock(data: Frame, df: Frame) returns (r: Result<Frame>)
    requires AfterRefusals(data, df)
    ensures r.Failure? <==> Has(data, RedIncDiff) && !Numeric(Column(data, RedIncDiff))
    ensures r.Failure? ==> r.error == NotNumeric(RedIncDiff)
    ensures r.Success? ==> AfterSingle(data, r.value)
  {
    DropRefusalKeepsNumeric(Column(data, RedIncDiff));
    if RedIncDiff in df.columns {
      r := ScaleStep(df, RedIncDiff, DvSingle);
      if r.Success? {
        WritesChain(data, df, r.value, {GovInt, RedIncDiff, UnionPref}, {DvSingle});
        assert Column(r.value, RedIncDiff) == Column(df, RedIncDiff);
      }
    } else {
      r := Success(df);
      assert Column(df, DvSingle) == Column(data, DvSingle);
    }
  }

  /** The two-item block writes the composite of the original items. */
  lemma TwoItemsWritten(data: Frame, df: Frame, g: Frame)
    requires AfterSingle(data, df) && AllPresent(data, TwoItems) && Numeric(Column(data, GovInt))
    requires Writes(df, g, {Dv2, Dv2Scaled})
    requires Column(g, Dv2) == RowMeans(df, TwoItems) && Column(g, Dv2Scaled) == ScaleColumn(RowMeans(df, TwoItems))
    ensures AfterTwoItems(data, g)
  {
    WritesChain(data, df, g, {GovInt, RedIncDiff, UnionPref, DvSingle}, {Dv2, Dv2Scaled});
    assert {GovInt, RedIncDiff, UnionPref, DvSingle} + {Dv2, Dv2Scaled} == {GovInt, RedIncDiff, UnionPref, DvSingle, Dv2, Dv2Scaled};
    TwoItemComposite(data, df);
    KeptColumn(df, g, {Dv2, Dv2Scaled}, DvSingle);
    ItemsKept(data, df, g, {Dv2, Dv2Scaled});
    AfterTwoItemsFrom(data, df, g);
  }

  /** With both items present, the row means of the cleaned items are the
      composite of the original ones. */
  lemma TwoItemComposite(data: Frame, df: Frame)
    requires ItemsCleaned(data, df) && AllPresent(data, TwoItems) && |df.rows| == |data.rows|
    ensures RowMeans(df, TwoItems) == Composite(data, TwoItems)
  {
    ItemLists(data);
    RowMeansOfCleaned(df, data, TwoItems);
  }

  lemma AfterTwoItemsFrom(data: Frame, df: Frame, g: Frame)
    requires AfterSingle(data, df) && AllPresent(data, TwoItems) && Numeric(Column(data, GovInt))
    requires Writes(data, g, {GovInt, RedIncDiff, UnionPref, DvSingle, Dv2, Dv2Scaled}) && ItemsCleaned(data, g)
    requires Column(g, DvSingle) == Column(df, DvSingle)
    requires Column(g, Dv2) == Composite(data, TwoItems) && Column(g, Dv2Scaled) == ScaleColumn(Composite(data, TwoItems))
    ensures AfterTwoItems(data, g)
  {
  }

  lemma TwoItemsSkipped(data: Frame, df: Frame)
    requires AfterSingle(data, df) && !AllPresent(data, TwoItems)
    ensures AfterTwoItems(data, df)
  {
    assert Column(df, Dv2) == Column(data, Dv2) && Column(df, Dv2Scaled) == Column(data, Dv2Scaled);
  }

  /** The two-item block. */
  method TwoItemBlock(data: Frame, df: Frame) returns (r: Result<Frame>)
    requires AfterSingle(data, df)
    ensures r.Failure? <==> AllPresent(data, TwoItems) && !Numeric(Column(data, GovInt))
    ensures r.Failure? ==> r.error == NotNumeric(GovInt)
    ensures r.Success? ==> AfterTwoItems(data, r.value)
  {
    DropRefusalKeepsNumeric(Column(data, GovInt));
    DropRefusalKeepsNumeric(Column(data, RedIncDiff));
    ItemLists(df);
    ItemLists(data);
    r := CompositeStep(df, TwoItems, Dv2, Dv2Scaled);
    if r.Success? && AllPresent(data, TwoItems) {
      TwoItemsWritten(data, df, r.value);
    } else if r.Success? {
      TwoItemsSkipped(data, df);
    }
  }

  /** The three-item block writes the composite of the original items. */
  lemma ThreeItemsWritten(data: Frame, df: Frame, g: Frame)
    requires AfterTwoItems(data, df) && AllPresent(data, DvVars) && Numeric(Column(data, UnionPref))
    requires Writes(df, g, {Dv3, Dv3Scaled})
    requires Column(g, Dv3) == RowMeans(df, DvVars) && Column(g, Dv3Scaled) == ScaleColumn(RowMeans(df, DvVars))
    ensures Writes(data, g, OutcomeWrites) && OutcomeCells(data, g)
  {
    WritesChain(data, df, g, {GovInt, RedIncDiff, UnionPref, DvSingle, Dv2, Dv2Scaled}, {Dv3, Dv3Scaled});
    assert {GovInt, RedIncDiff, UnionPref, DvSingle, Dv2, Dv2Scaled} + {Dv3, Dv3Scaled} == OutcomeWrites;
    ThreeItemsCells(data, df, g);
  }

  lemma ThreeItemsCells(data: Frame, df: Frame, g: Frame)
    requires AfterTwoItems(data, df) && AllPresent(data, DvVars)
    requires Writes(df, g, {Dv3, Dv3Scaled})
    requires Column(g, Dv3) == RowMeans(df, DvVars) && Column(g, Dv3Scaled) == ScaleColumn(RowMeans(df, DvVars))
    ensures OutcomeCells(data, g)
  {
    ThreeItemComposite(data, df);
    ThreeItemsKept(data, df, g);
    OutcomeCellsAfterThree(data, df, g);
  }

  /** With all three items present, the row means of the cleaned items are
      the composite of the original ones. */
  lemma ThreeItemComposite(data: Frame, df: Frame)
    requires ItemsCleaned(data, df) && AllPresent(data, DvVars) && |df.rows| == |data.rows|
    ensures RowMeans(df, DvVars) == Composite(data, DvVars)
  {
    ItemLists(data);
    RowMeansOfCleaned(df, data, DvVars);
  }

  /** Writing the two three-item columns keeps the earlier outcome columns. */
  lemma ThreeItemsKept(data: Frame, df: Frame, g: Frame)
    requires ItemsCleaned(data, df) && Writes(df, g, {Dv3, Dv3Scaled})
    ensures ItemsCleaned(data, g)
    ensures Column(g, DvSingle) == Column(df, DvSingle)
    ensures Column(g, Dv2) == Column(df, Dv2) && Column(g, Dv2Scaled) == Column(df, Dv2Scaled)
  {
    KeptColumn(df, g, {Dv3, Dv3Scaled}, DvSingle);
    KeptColumn(df, g, {Dv3, Dv3Scaled}, Dv2);
    KeptColumn(df, g, {Dv3, Dv3Scaled}, Dv2Scaled);
    ItemsKept(data, df, g, {Dv3, Dv3Scaled});
  }

  lemma OutcomeCellsAfterThree(data: Frame, df: Frame, g: Frame)
    requires AfterTwoItems(data, df) && AllPresent(data, DvVars) && ItemsCleaned(data, g)
    requires Column(g, DvSingle) == Column(df, DvSingle)
    requires Column(g, Dv2) == Column(df, Dv2) && Column(g, Dv2Scaled) == Column(df, Dv2Scaled)
    requires Column(g, Dv3) == Composite(data, DvVars) && Column(g, Dv3Scaled) == ScaleColumn(Composite(data, DvVars))
    ensures OutcomeCells(data, g)
  {
  }

  lemma ThreeItemsSkipped(data: Frame, df: Frame)
    requires AfterTwoItems(data, df) && !AllPresent(data, DvVars)
    ensures Writes(data, df, OutcomeWrites) && OutcomeCells(data, df)
  {
    var before := {GovInt, RedIncDiff, UnionPref, DvSingle, Dv2, Dv2Scaled};
    WritesMore(data, df, before, OutcomeWrites);
    KeptColumn(data, df, before, Dv3);
    KeptColumn(data, df, before, Dv3Scaled);
  }

  lemma WritesMore(a: Frame, b: Frame, w1: set<string>, w2: set<string>)
    requires Writes(a, b, w1) && w1 <= w2
    ensures Writes(a, b, w2)
  {
  }

  /** The three-item block. */
  method ThreeItemBlock(data: Frame, df: Frame) returns (r: Result<Frame>)
    requires AfterTwoItems(data, df)
    ensures r.Failure? <==> AllPresent(data, DvVars) && !Numeric(Column(data, UnionPref))
    ensures r.Failure? ==> r.error == NotNumeric(UnionPref)
    ensures r.Success? ==> Writes(data, r.value, OutcomeWrites) && OutcomeCells(data, r.value)
  {
    DropRefusalKeepsNumeric(Column(data, GovInt));
    DropRefusalKeepsNumeric(Column(data, RedIncDiff));
    DropRefusalKeepsNumeric(Column(data, UnionPref));
    ItemLists(df);
    ItemLists(data);
    r := CompositeStep(df, DvVars, Dv3, Dv3Scaled);
    if r.Success? && AllPresent(data, DvVars) {
      ThreeItemsWritten(data, df, r.value);
    } else if r.Success? {
      ThreeItemsSkipped(data, df);
    }
  }

  /** The dependent-variable section. */
  method RecodeOutcomes(data: Frame) returns (r: Result<Frame>)
    ensures r.Failure? <==> OutcomeError(data).Some?
    ensures r.Failure? ==> Some(r.error) == OutcomeError(data)
    ensures r.Success? ==> Writes(data, r.value, OutcomeWrites) && OutcomeCells(data, r.value)
  {
    var df := DropRefusals(data);
    var s1 := SingleItemBlock(data, df);
    if s1.Failure? {
      return Failure(s1.error);
    }
    var s2 := TwoItemBlock(data, s1.value);
    if s2.Failure? {
      return Failure(s2.error);
    }
    r := ThreeItemBlock(data, s2.value);
  }

  /** The demographic columns after the first `done` of its six blocks:
      a block that has run wrote its output when its input exists, any other
      output is as it was, and a block that has run did not raise. */
  ghost predicate Recoded(df: Frame, d: Frame, done: nat, surveyYear: int, z: ColumnTransform, parse: string -> Option<real>) {
    Writes(df, d, DemographicWrites)
    && (Has(d, Sex) <==> Has(df, Sex)) && (Has(d, BornInNl) <==> Has(df, BornInNl))
    && Column(d, Sex) == (if done >= 1 && Has(df, Sex) then MapColumn(Column(df, Sex), SexLabels) else Column(df, Sex))
    && Column(d, AgeRaw) == (if done >= 2 && Has(df, BirthYear) then AgeColumn(surveyYear, Column(df, BirthYear)) else Column(df, AgeRaw))
    && Column(d, Age) == (if done >= 2 && Has(df, BirthYear) then ZColumn(AgeColumn(surveyYear, Column(df, BirthYear)), z) else Column(df, Age))
    && Column(d, Education) == (if done >= 3 && Has(df, EducYears) then ZColumn(Column(df, EducYears), z) else Column(df, Education))
    && Column(d, Employment) == (if done >= 4 && Has(df, WorkStatus) then MapColumn(Column(df, WorkStatus), EmploymentLabels) else Column(df, Employment))
    && Column(d, Occupation) == (if done >= 5 && Has(df, WorkType) then MapColumn(Column(df, WorkType), OccupationLabels) else Column(df, Occupation))
    && Column(d, BornInNl) == (if done >= 6 && Has(df, BornInNl) then FloatColumn(Column(df, BornInNl), parse) else Column(df, BornInNl))
    && (done >= 2 && Has(df, BirthYear) ==> Numeric(Column(df, BirthYear)))
    && (done >= 3 && Has(df, EducYears) ==> Numeric(Column(df, EducYears)))
  }

  /** Assigning one more demographic column stays within the section's columns. */
  lemma WritesWithin(df: Frame, d: Frame, name: string, cells: seq<Cell>)
    requires Writes(df, d, DemographicWrites) && |cells| == |d.rows| && name in DemographicWrites
    ensures Writes(df, SetColumn(d, name, cells), DemographicWrites)
  {
    WritesColumn(d, name, cells);
    WritesChain(df, d, SetColumn(d, name, cells), DemographicWrites, {name});
    assert DemographicWrites + {name} == DemographicWrites;
  }

  lemma RecodedStart(df: Frame, surveyYear: int, z: ColumnTransform, parse: string -> Option<real>)
    ensures Recoded(df, df, 0, surveyYear, z, parse)
  {
  }

  /** A block whose input column is absent writes nothing. */
  lemma RecodedSkip(df: Frame, d: Frame, done: nat, surveyYear: int, z: ColumnTransform, parse: string -> Option<real>)
    requires Recoded(df, d, done, surveyYear, z, parse)
    requires done == 0 ==> !Has(df, Sex)
    requires done == 1 ==> !Has(df, BirthYear)
    requires done == 2 ==> !Has(df, EducYears)
    requires done == 3 ==> !Has(df, WorkStatus)
    requires done == 4 ==> !Has(df, WorkType)
    requires done == 5 ==> !Has(df, BornInNl)
    ensures Recoded(df, d, done + 1, surveyYear, z, parse)
  {
  }

  lemma SexWritten(df: Frame, d: Frame, surveyYear: int, z: ColumnTransform, parse: string -> Option<real>)
    requires Recoded(df, d, 0, surveyYear, z, parse)
    requires Has(df, Sex) && Column(d, Sex) == Column(df, Sex)
    ensures Recoded(df, SetColumn(d, Sex, MapColumn(Column(d, Sex), SexLabels)), 1, surveyYear, z, parse)
  {
    WritesWithin(df, d, Sex, MapColumn(Column(d, Sex), SexLabels));
    var g := SetColumn(d, Sex, MapColumn(Column(d, Sex), SexLabels));
    assert Column(g, AgeRaw) == Column(d, AgeRaw) && Column(g, Age) == Column(d, Age);
    assert Column(g, Education) == Column(d, Education) && Column(g, Employment) == Column(d, Employment);
    assert Column(g, Occupation) == Column(d, Occupation) && Column(g, BornInNl) == Column(d, BornInNl);
  }

  /** The sex code map. */
  method SexBlock(df: Frame, d: Frame, ghost surveyYear: int, ghost z: ColumnTransform, ghost parse: string -> Option<real>)
    returns (g: Frame)
    requires Recoded(df, d, 0, surveyYear, z, parse)
    ensures Recoded(df, g, 1, surveyYear, z, parse)
  {
    g := d;
    assert Has(d, Sex) <==> Has(df, Sex);
    if Sex in d.columns {
      SexWritten(df, d, surveyYear, z, parse);
      g := SetColumn(d, Sex, MapColumn(Column(d, Sex), SexLabels));
    } else {
      RecodedSkip(df, d, 0, surveyYear, z, parse);
    }
  }

  /** Age from the birth year, then its z-score; a text birth year raises. */
  method AgeBlock(df: Frame, d: Frame, surveyYear: int, z: ColumnTransform, ghost parse: string -> Option<real>)
    returns (r: Result<Frame>)
    requires Recoded(df, d, 1, surveyYear, z, parse)
    ensures r.Failure? <==> Has(df, BirthYear) && !Numeric(Column(df, BirthYear))
    ensures r.Failure? ==> r.error == NotNumeric(BirthYear)
    ensures r.Success? ==> Recoded(df, r.value, 2, surveyYear, z, parse)
  {
    assert Has(d, BirthYear) <==> Has(df, BirthYear);
    assert Column(d, BirthYear) == Column(df, BirthYear);
    if BirthYear !in d.columns {
      RecodedSkip(df, d, 1, surveyYear, z, parse);
      return Success(d);
    }
    if !Numeric(Column(d, BirthYear)) {
      return Failure(NotNumeric(BirthYear));
    }
    var ages := AgeColumn(surveyYear, Column(d, BirthYear));
    var d1 := SetColumn(d, AgeRaw, ages);
    var d2 := SetColumn(d1, Age, ZColumn(Column(d1, AgeRaw), z));
    AgeWritten(df, d, surveyYear, z, parse);
    r := Success(d2);
  }

  /** The demographic output columns are pairwise distinct, and none of
      them is one of the input columns read after it is written. */
  lemma DemographicNamesDistinct()
    ensures Sex != AgeRaw && Sex != Age && Sex != Education && Sex != Employment && Sex != Occupation && Sex != BornInNl
    ensures AgeRaw != Age && AgeRaw != Education && AgeRaw != Employment && AgeRaw != Occupation && AgeRaw != BornInNl
    ensures Age != Education && Age != Employment && Age != Occupation && Age != BornInNl
    ensures Education != Employment && Education != Occupation && Education != BornInNl
    ensures Employment != Occupation && Employment != BornInNl
    ensures Occupation != BornInNl
    ensures BirthYear !in DemographicWrites && EducYears !in DemographicWrites
    ensures WorkStatus !in DemographicWrites && WorkType !in DemographicWrites
  {
  }

  /** The two age assignments touch `age_raw` and `age` only. */
  lemma AgeAssignments(d: Frame, ages: seq<Cell>, z: ColumnTransform)
    requires |ages| == |d.rows|
    ensures var d1 := SetColumn(d, AgeRaw, ages);
            var d2 := SetColumn(d1, Age, ZColumn(Column(d1, AgeRaw), z));
            && Column(d2, AgeRaw) == ages && Column(d2, Age) == ZColumn(ages, z)
            && (forall c :: c != AgeRaw && c != Age ==> Column(d2, c) == Column(d, c))
            && (forall c :: c in d.columns ==> c in d2.columns)
            && (forall c :: c in d2.columns ==> c in d.columns || c == AgeRaw || c == Age)
  {
    DemographicNamesDistinct();
  }

  /** The stage after the age block, from what the two assignments did. */
  lemma AgeStage(df: Frame, d: Frame, g: Frame, surveyYear: int, z: ColumnTransform, parse: string -> Option<real>)
    requires Recoded(df, d, 1, surveyYear, z, parse) && Writes(df, g, DemographicWrites)
    requires Has(df, BirthYear) && Numeric(Column(df, BirthYear))
    requires Column(g, AgeRaw) == AgeColumn(surveyYear, Column(df, BirthYear))
    requires Column(g, Age) == ZColumn(AgeColumn(surveyYear, Column(df, BirthYear)), z)
    requires forall c :: c != AgeRaw && c != Age ==> Column(g, c) == Column(d, c)
    requires forall c :: c in d.columns ==> c in g.columns
    requires forall c :: c in g.columns ==> c in d.columns || c == AgeRaw || c == Age
    ensures Recoded(df, g, 2, surveyYear, z, parse)
  {
    DemographicNamesDistinct();
  }

  lemma AgeWritten(df: Frame, d: Frame, surveyYear: int, z: ColumnTransform, parse: string -> Option<real>)
    requires Recoded(df, d, 1, surveyYear, z, parse)
    requires Has(df, BirthYear) && Numeric(Column(df, BirthYear)) && Column(d, BirthYear) == Column(df, BirthYear)
    ensures var d1 := SetColumn(d, AgeRaw, AgeColumn(surveyYear, Column(d, BirthYear)));
            Recoded(df, SetColumn(d1, Age, ZColumn(Column(d1, AgeRaw), z)), 2, surveyYear, z, parse)
  {
    var ages := AgeColumn(surveyYear, Column(d, BirthYear));
    WritesWithin(df, d, AgeRaw, ages);
    var d1 := SetColumn(d, AgeRaw, ages);
    WritesWithin(df, d1, Age, ZColumn(Column(d1, AgeRaw), z));
    AgeAssignments(d, ages, z);
    AgeStage(df, d, SetColumn(d1, Age, ZColumn(Column(d1, AgeRaw), z)), surveyYear, z, parse);
  }

  lemma EducationWritten(df: Frame, d: Frame, surveyYear: int, z: ColumnTransform, parse: string -> Option<real>)
    requires Recoded(df, d, 2, surveyYear, z, parse)
    requires Has(df, EducYears) && Column(d, EducYears) == Column(df, EducYears) && Numeric(Column(df, EducYears))
    ensures Recoded(df, SetColumn(d, Education, ZColumn(Column(d, EducYears), z)), 3, surveyYear, z, parse)
  {
    WritesWithin(df, d, Education, ZColumn(Column(d, EducYears), z));
    var g := SetColumn(d, Education, ZColumn(Column(d, EducYears), z));
    assert Column(g, Sex) == Column(d, Sex) && Column(g, AgeRaw) == Column(d, AgeRaw);
    assert Column(g, Age) == Column(d, Age) && Column(g, Employment) == Column(d, Employment);
    assert Column(g, Occupation) == Column(d, Occupation) && Column(g, BornInNl) == Column(d, BornInNl);
  }

  /** The education z-score; a text column raises. */
  method EducationBlock(df: Frame, d: Frame, surveyYear: int, z: ColumnTransform, ghost parse: string -> Option<real>)
    returns (r: Result<Frame>)
    requires Recoded(df, d, 2, surveyYear, z, parse)
    ensures r.Failure? <==> Has(df, EducYears) && !Numeric(Column(df, EducYears))
    ensures r.Failure? ==> r.error == NotNumeric(EducYears)
    ensures r.Success? ==> Recoded(df, r.value, 3, surveyYear, z, parse)
  {
    assert Has(d, EducYears) <==> Has(df, EducYears);
    assert Column(d, EducYears) == Column(df, EducYears);
    if EducYears !in d.columns {
      RecodedSkip(df, d, 2, surveyYear, z, parse);
      return Success(d);
    }
    if !Numeric(Column(d, EducYears)) {
      return Failure(NotNumeric(EducYears));
    }
    EducationWritten(df, d, surveyYear, z, parse);
    r := Success(SetColumn(d, Education, ZColumn(Column(d, EducYears), z)));
  }

  lemma EmploymentWritten(df: Frame, d: Frame, surveyYear: int, z: ColumnTransform, parse: string -> Option<real>)
    requires Recoded(df, d, 3, surveyYear, z, parse)
    requires Has(df, WorkStatus) && Column(d, WorkStatus) == Column(df, WorkStatus)
    ensures Recoded(df, SetColumn(d, Employment, MapColumn(Column(d, WorkStatus), EmploymentLabels)), 4, surveyYear, z, parse)
  {
    WritesWithin(df, d, Employment, MapColumn(Column(d, WorkStatus), EmploymentLabels));
    var g := SetColumn(d, Employment, MapColumn(Column(d, WorkStatus), EmploymentLabels));
    assert Column(g, Sex) == Column(d, Sex) && Column(g, AgeRaw) == Column(d, AgeRaw);
    assert Column(g, Age) == Column(d, Age) && Column(g, Education) == Column(d, Education);
    assert Column(g, Occupation) == Column(d, Occupation) && Column(g, BornInNl) == Column(d, BornInNl);
  }

  /** The employment code map. */
  method EmploymentBlock(df: Frame, d: Frame, ghost surveyYear: int, ghost z: ColumnTransform, ghost parse: string -> Option<real>)
    returns (g: Frame)
    requires Recoded(df, d, 3, surveyYear, z, parse)
    ensures Recoded(df, g, 4, surveyYear, z, parse)
  {
    assert Has(d, WorkStatus) <==> Has(df, WorkStatus);
    assert Column(d, WorkStatus) == Column(df, WorkStatus);
    g := d;
    if WorkStatus in d.columns {
      EmploymentWritten(df, d, surveyYear, z, parse);
      g := SetColumn(d, Employment, MapColumn(Column(d, WorkStatus), EmploymentLabels));
    } else {
      RecodedSkip(df, d, 3, surveyYear, z, parse);
    }
  }

  lemma OccupationWritten(df: Frame, d: Frame, surveyYear: int, z: ColumnTransform, parse: string -> Option<real>)
    requires Recoded(df, d, 4, surveyYear, z, parse)
    requires Has(df, WorkType) && Column(d, WorkType) == Column(df, WorkType)
    ensures Recoded(df, SetColumn(d, Occupation, MapColumn(Column(d, WorkType), OccupationLabels)), 5, surveyYear, z, parse)
  {
    WritesWithin(df, d, Occupation, MapColumn(Column(d, WorkType), OccupationLabels));
    var g := SetColumn(d, Occupation, MapColumn(Column(d, WorkType), OccupationLabels));
    assert Column(g, Sex) == Column(d, Sex) && Column(g, AgeRaw) == Column(d, AgeRaw);
    assert Column(g, Age) == Column(d, Age) && Column(g, Education) == Column(d, Education);
    assert Column(g, Employment) == Column(d, Employment) && Column(g, BornInNl) == Column(d, BornInNl);
  }

  /** The occupation code map. */
  method OccupationBlock(df: Frame, d: Frame, ghost surveyYear: int, ghost z: ColumnTransform, ghost parse: string -> Option<real>)
    returns (g: Frame)
    requires Recoded(df, d, 4, surveyYear, z, parse)
    ensures Recoded(df, g, 5, surveyYear, z, parse)
  {
    assert Has(d, WorkType) <==> Has(df, WorkType);
    assert Column(d, WorkType) == Column(df, WorkType);
    g := d;
    if WorkType in d.columns {
      OccupationWritten(df, d, surveyYear, z, parse);
      g := SetColumn(d, Occupation, MapColumn(Column(d, WorkType), OccupationLabels));
    } else {
      RecodedSkip(df, d, 4, surveyYear, z, parse);
    }
  }

  lemma BornInNlWritten(df: Frame, d: Frame, surveyYear: int, z: ColumnTransform, parse: string -> Option<real>)
    requires Recoded(df, d, 5, surveyYear, z, parse)
    requires Has(df, BornInNl) && Column(d, BornInNl) == Column(df, BornInNl)
    ensures Recoded(df, SetColumn(d, BornInNl, FloatColumn(Column(d, BornInNl), parse)), 6, surveyYear, z, parse)
  {
    WritesWithin(df, d, BornInNl, FloatColumn(Column(d, BornInNl), parse));
    var g := SetColumn(d, BornInNl, FloatColumn(Column(d, BornInNl), parse));
    assert Column(g, Sex) == Column(d, Sex) && Column(g, AgeRaw) == Column(d, AgeRaw);
    assert Column(g, Age) == Column(d, Age) && Column(g, Education) == Column(d, Education);
    assert Column(g, Employment) == Column(d, Employment) && Column(g, Occupation) == Column(d, Occupation);
  }

  /** `born_in_nl` as floats; text that does not parse raises. */
  method BornInNlBlock(df: Frame, d: Frame, ghost surveyYear: int, ghost z: ColumnTransform, parse: string -> Option<real>)
    returns (r: Result<Frame>)
    requires Recoded(df, d, 5, surveyYear, z, parse)
    ensures r.Failure? <==> Has(df, BornInNl) && Unparsable(Column(df, BornInNl), parse)
    ensures r.Failure? ==> r.error == NotNumeric(BornInNl)
    ensures r.Success? ==> Recoded(df, r.value, 6, surveyYear, z, parse)
  {
    if BornInNl !in d.columns {
      RecodedSkip(df, d, 5, surveyYear, z, parse);
      return Success(d);
    }
    if Unparsable(Column(d, BornInNl), parse) {
      return Failure(NotNumeric(BornInNl));
    }
    BornInNlWritten(df, d, surveyYear, z, parse);
    r := Success(SetColumn(d, BornInNl, FloatColumn(Column(d, BornInNl), parse)));
  }

  /** The demographic section, run on the frame the outcome section left. */
  method RecodeDemographics(df: Frame, surveyYear: int, z: ColumnTransform, parse: string -> Option<real>)
    returns (r: Result<Frame>)
    ensures r.Failure? <==> DemographicError(df, parse).Some?
    ensures r.Failure? ==> Some(r.error) == DemographicError(df, parse)
    ensures r.Success? ==> Writes(df, r.value, DemographicWrites) && DemographicCells(df, r.value, surveyYear, z, parse)
  {
    RecodedStart(df, surveyYear, z, parse);
    var d1 := SexBlock(df, df, surveyYear, z, parse);
    var s2 := AgeBlock(df, d1, surveyYear, z, parse);
    if s2.Failure? {
      return Failure(s2.error);
    }
    var s3 := EducationBlock(df, s2.value, surveyYear, z, parse);
    if s3.Failure? {
      return Failure(s3.error);
    }
    var d4 := EmploymentBlock(df, s3.value, surveyYear, z, parse);
    var d5 := OccupationBlock(df, d4, surveyYear, z, parse);
    r := BornInNlBlock(df, d5, surveyYear, z, parse);
    if r.Success? {
      RecodedDone(df, r.value, surveyYear, z, parse);
    }
  }

  /** After the last block every demographic column holds its recoded cells. */
  lemma RecodedDone(df: Frame, g: Frame, surveyYear: int, z: ColumnTransform, parse: string -> Option<real>)
    requires Recoded(df, g, 6, surveyYear, z, parse)
    ensures Writes(df, g, DemographicWrites) && DemographicCells(df, g, surveyYear, z, parse)
  {
  }

  /** No column is assigned by both sections. */
  lemma SectionsDisjoint()
    ensures OutcomeWrites !! DemographicWrites
  {
  }

  lemma KeptColumn(a: Frame, b: Frame, w: set<string>, c: string)
    requires Writes(a, b, w) && c !in w
    ensures Column(b, c) == Column(a, c) && (Has(b, c) <==> Has(a, c))
  {
  }

  /** The outcome section leaves every input and output of the demographic
      section as it was. */
  lemma DemographicsAfterOutcomes(data: Frame, mid: Frame, out: Frame, surveyYear: int, z: ColumnTransform, parse: string -> Option<real>)
    requires Writes(data, mid, OutcomeWrites)
    ensures DemographicError(mid, parse) == DemographicError(data, parse)
    ensures DemographicCells(mid, out, surveyYear, z, parse) ==> DemographicCells(data, out, surveyYear, z, parse)
  {
    KeptColumn(data, mid, OutcomeWrites, BirthYear);
    KeptColumn(data, mid, OutcomeWrites, EducYears);
    KeptColumn(data, mid, OutcomeWrites, BornInNl);
    KeptColumn(data, mid, OutcomeWrites, Sex);
    KeptColumn(data, mid, OutcomeWrites, WorkStatus);
    KeptColumn(data, mid, OutcomeWrites, WorkType);
    KeptColumn(data, mid, OutcomeWrites, AgeRaw);
    KeptColumn(data, mid, OutcomeWrites, Age);
    KeptColumn(data, mid, OutcomeWrites, Education);
    KeptColumn(data, mid, OutcomeWrites, Employment);
    KeptColumn(data, mid, OutcomeWrites, Occupation);
  }

  lemma ItemsKept(data: Frame, mid: Frame, out: Frame, w: set<string>)
    requires ItemsCleaned(data, mid) && Writes(mid, out, w)
    requires GovInt !in w && RedIncDiff !in w && UnionPref !in w
    ensures ItemsCleaned(data, out)
  {
    KeptColumn(mid, out, w, GovInt);
    KeptColumn(mid, out, w, RedIncDiff);
    KeptColumn(mid, out, w, UnionPref);
  }

  /** The demographic section leaves the outcome columns as they were. */
  lemma OutcomesAfterDemographics(data: Frame, mid: Frame, out: Frame)
    requires OutcomeCells(data, mid) && Writes(mid, out, DemographicWrites)
    ensures OutcomeCells(data, out)
  {
    SectionsDisjoint();
    ItemsKept(data, mid, out, DemographicWrites);
    KeptColumn(mid, out, DemographicWrites, DvSingle);
    KeptColumn(mid, out, DemographicWrites, Dv2);
    KeptColumn(mid, out, DemographicWrites, Dv2Scaled);
    KeptColumn(mid, out, DemographicWrites, Dv3);
    KeptColumn(mid, out, DemographicWrites, Dv3Scaled);
  }

  /** recode_survey_variables: the outcome section, then the demographic
      section, on a copy of the survey. The first exception in source order
      is the result when one is raised; otherwise every column that the
      recode assigns holds what the source computes from the input, and
      every other column is as it was. */
  method RecodeSurveyVariables(data: Frame, surveyYear: int, z: ColumnTransform, parse: string -> Option<real>)
    returns (r: Result<Frame>)
    ensures r.Failure? <==> RecodeError(data, parse).Some?
    ensures r.Failure? ==> Some(r.error) == RecodeError(data, parse)
    ensures r.Success? ==> Writes(data, r.value, OutcomeWrites + DemographicWrites)
    ensures r.Success? ==> OutcomeCells(data, r.value) && DemographicCells(data, r.value, surveyYear, z, parse)
  {
    var s1 := RecodeOutcomes(data);
    if s1.Failure? {
      return Failure(s1.error);
    }
    var s2 := RecodeDemographics(s1.value, surveyYear, z, parse);
    if s2.Failure? {
      DemographicsAfterOutcomes(data, s1.value, s1.value, surveyYear, z, parse);
      return Failure(s2.error);
    }
    DemographicsAfterOutcomes(data, s1.value, s2.value, surveyYear, z, parse);
    OutcomesAfterDemographics(data, s1.value, s2.value);
    WritesChain(data, s1.value, s2.value, OutcomeWrites, DemographicWrites);
    r := s2;
  }
}
