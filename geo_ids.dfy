/** The geographic identifiers of create_geo_ids (transform.py): the
    8-character neighbourhood code and its 6- and 4-character district and
    municipality prefixes, derived from the survey's `Buurtcode` column. */
module GeoIds {
  import opened Frames
  import opened PyStr

  const SourceColumn := "Buurtcode"
  const BuurtColumn := "buurt_id"
  const WijkColumn := "wijk_id"
  const GemeenteColumn := "gemeente_id"
  const BuurtLength := 8
  const WijkLength := 6
  const GemeenteLength := 4

  /** The four column names are distinct. */
  lemma NamesDistinct()
    ensures SourceColumn != BuurtColumn && SourceColumn != WijkColumn && SourceColumn != GemeenteColumn
    ensures BuurtColumn != WijkColumn && BuurtColumn != GemeenteColumn && WijkColumn != GemeenteColumn
  {
  }

  /** `re.sub(r"\.0$", "", s)`: removes one `.0` at the end, where `$` also
      matches just before a final newline. */
  function StripDecimal(s: string): (r: string)
    ensures |r| == |s| || |r| == |s| - 2
  {
    if EndsWith(s, ".0") then s[..|s| - 2]
    else if EndsWith(s, ".0\n") then s[..|s| - 3] + "\n"
    else s
  }

  /** Only a trailing `.0` is touched: a string without one is unchanged, and
      a single pass removes one `.0` only. */
  lemma StripDecimalOnce(s: string)
    ensures !EndsWith(s, ".0") && !EndsWith(s, ".0\n") ==> StripDecimal(s) == s
    ensures StripDecimal(s + ".0") == s
    ensures StripDecimal(s + ".0.0") == s + ".0"
  {
    assert (s + ".0")[..|s|] == s;
    assert EndsWith(s + ".0.0", ".0");
    assert (s + ".0.0")[..|s| + 2] == s + ".0";
  }

  predicate IsDigits(s: string) {
    forall i :: 0 <= i < |s| ==> '0' <= s[i] <= '9'
  }

  /** The code of one row: text, decimal stripped, zero-padded to 8; NaN stays NaN. */
  function BuurtId(code: Cell, show: real -> string): Cell {
    if code.None? then None else Some(Text(ZFill(StripDecimal(AsStr(code, show)), BuurtLength)))
  }

  /** `.str[:n]` on a cell: a prefix of text, NaN for anything else. */
  function PrefixCell(c: Cell, n: nat): Cell {
    if c.Some? && c.value.Text? then Some(Text(Take(c.value.s, n))) else None
  }

  /** `df.loc[mask.isna(), col] = np.nan` on one column. */
  function MaskMissing(cells: seq<Cell>, mask: seq<Cell>): (r: seq<Cell>)
    requires |cells| == |mask|
    ensures |r| == |cells|
    ensures forall i :: 0 <= i < |cells| ==> r[i] == if mask[i].None? then None else cells[i]
  {
    seq(|cells|, i requires 0 <= i < |cells| => if mask[i].None? then None else cells[i])
  }

  /** The column list after assigning `name`: kept in place or appended. */
  function WithColumn(columns: seq<string>, name: string): seq<string> {
    if name in columns then columns else columns + [name]
  }

  /** The three identifiers of a row, as functions of its `Buurtcode` cell. */
  lemma GeoIdShape(code: Cell, show: real -> string)
    ensures BuurtId(code, show).None? <==> code.None?
    ensures PrefixCell(BuurtId(code, show), WijkLength).None? <==> code.None?
    ensures PrefixCell(BuurtId(code, show), GemeenteLength).None? <==> code.None?
    ensures code.Some? ==>
              var b := BuurtId(code, show).value.s;
              var w := PrefixCell(BuurtId(code, show), WijkLength).value.s;
              var g := PrefixCell(BuurtId(code, show), GemeenteLength).value.s;
              |b| == Max(BuurtLength, |StripDecimal(AsStr(code, show))|) && |w| == WijkLength && |g| == GemeenteLength
              && StartsWith(b, w) && StartsWith(w, g)
  {
    if code.Some? {
      var b := BuurtId(code, show).value.s;
      ZFillLength(StripDecimal(AsStr(code, show)), BuurtLength);
      assert Take(b, WijkLength)[..GemeenteLength] == b[..GemeenteLength];
    }
  }

  /** A float code prints as digits followed by `.0`; those digits come back
      zero-padded to 8, and an 8-digit text code comes back unchanged. */
  lemma CanonicalCodes(code: Cell, show: real -> string, d: string)
    requires IsDigits(d) && |d| <= BuurtLength
    ensures AsStr(code, show) == d + ".0" && code.Some? ==>
              BuurtId(code, show) == Some(Text(Zeros(BuurtLength - |d|) + d))
    ensures code == Some(Text(d)) && |d| == BuurtLength ==> BuurtId(code, show) == code
  {
    StripDecimalOnce(d);
    ZFillUnsigned(d, BuurtLength);
    if |d| == BuurtLength {
      assert d[|d| - 2..][0] != '.' && ".0"[0] == '.' && ".0\n"[0] == '.';
      assert d[|d| - 3..][0] != '.';
      assert StripDecimal(d) == d;
      ZFillLong(d, BuurtLength);
    }
  }

  /** The identifier columns, read row by row. */
  lemma GeoRows(df: Frame, survey: Frame, show: real -> string)
    requires |df.rows| == |survey.rows|
    requires forall i :: 0 <= i < |survey.rows| ==>
               var b := BuurtId(Get(survey.rows[i], SourceColumn), show);
               Column(df, BuurtColumn)[i] == b
               && Column(df, WijkColumn)[i] == PrefixCell(b, WijkLength)
               && Column(df, GemeenteColumn)[i] == PrefixCell(b, GemeenteLength)
    ensures forall i :: 0 <= i < |survey.rows| ==>
              var b := BuurtId(Get(survey.rows[i], SourceColumn), show);
              Get(df.rows[i], BuurtColumn) == b
              && Get(df.rows[i], WijkColumn) == PrefixCell(b, WijkLength)
              && Get(df.rows[i], GemeenteColumn) == PrefixCell(b, GemeenteLength)
  {
  }

  /** The `buurt_id` assignment and its NaN mask (transform.py:52-60). */
  function WithBuurtIds(df: Frame, show: real -> string): (g: Frame)
    ensures g.columns == WithColumn(df.columns, BuurtColumn)
    ensures |g.rows| == |df.rows|
    ensures forall i :: 0 <= i < |df.rows| ==>
              Column(g, BuurtColumn)[i] == BuurtId(Get(df.rows[i], SourceColumn), show)
    ensures forall c :: c != BuurtColumn ==> Column(g, c) == Column(df, c)
  {
    NamesDistinct();
    var codes := Column(df, SourceColumn);
    var d1 := SetColumn(df, BuurtColumn,
                        MapCells(codes, c => Some(Text(ZFill(StripDecimal(AsStr(c, show)), BuurtLength)))));
    assert Column(d1, SourceColumn) == codes;
    SetColumn(d1, BuurtColumn, MaskMissing(Column(d1, BuurtColumn), Column(d1, SourceColumn)))
  }

  /** The `wijk_id` and `gemeente_id` prefixes of `buurt_id`, masked where
      it is NaN (transform.py:63-67). */
  function WithPrefixIds(df: Frame): (g: Frame)
    ensures g.columns == WithColumn(WithColumn(df.columns, WijkColumn), GemeenteColumn)
    ensures |g.rows| == |df.rows|
    ensures Column(g, BuurtColumn) == Column(df, BuurtColumn)
    ensures forall i :: 0 <= i < |df.rows| ==>
              Column(g, WijkColumn)[i] == PrefixCell(Column(df, BuurtColumn)[i], WijkLength)
              && Column(g, GemeenteColumn)[i] == PrefixCell(Column(df, BuurtColumn)[i], GemeenteLength)
    ensures forall c :: c != WijkColumn && c != GemeenteColumn ==> Column(g, c) == Column(df, c)
  {
    NamesDistinct();
    var ids := Column(df, BuurtColumn);
    var d3 := SetColumn(df, WijkColumn, MapCells(ids, c => PrefixCell(c, WijkLength)));
    var d4 := SetColumn(d3, GemeenteColumn, MapCells(ids, c => PrefixCell(c, GemeenteLength)));
    assert Column(d4, BuurtColumn) == ids;
    var d5 := SetColumn(d4, WijkColumn, MaskMissing(Column(d4, WijkColumn), ids));
    assert Column(d5, GemeenteColumn) == Column(d4, GemeenteColumn);
    var g := SetColumn(d5, GemeenteColumn, MaskMissing(Column(d5, GemeenteColumn), ids));
    assert Column(g, WijkColumn) == Column(d5, WijkColumn);
    g
  }

  /** create_geo_ids: a copy of the survey with the three identifier columns
      set; a missing `Buurtcode` column raises. */
  method CreateGeoIds(survey: Frame, show: real -> string) returns (r: Result<Frame>)
    ensures r.Failure? <==> SourceColumn !in survey.columns
    ensures r.Failure? ==> r.error == MissingColumn(SourceColumn)
    ensures r.Success? ==>
              r.value.columns == WithColumn(WithColumn(WithColumn(survey.columns, BuurtColumn), WijkColumn), GemeenteColumn)
    ensures r.Success? ==> |r.value.rows| == |survey.rows|
    ensures r.Success? ==> forall i :: 0 <= i < |survey.rows| ==>
              var b := BuurtId(Get(survey.rows[i], SourceColumn), show);
              Get(r.value.rows[i], BuurtColumn) == b
              && Get(r.value.rows[i], WijkColumn) == PrefixCell(b, WijkLength)
              && Get(r.value.rows[i], GemeenteColumn) == PrefixCell(b, GemeenteLength)
    ensures r.Success? ==> forall c :: c != BuurtColumn && c != WijkColumn && c != GemeenteColumn ==>
              Column(r.value, c) == Column(survey, c)
  {
    if SourceColumn !in survey.columns {
      return Failure(MissingColumn(SourceColumn));
    }
    var df := survey;
    df := WithBuurtIds(df, show);
    df := WithPrefixIds(df);
    GeoRows(df, survey, show);
    r := Success(df);
  }
}
