/** prepare_admin_by_level (transform.py): the CBS table of regions, one row
    per region with a code such as `BU03630001`, split into one table per
    geographic level. The code's two-letter prefix gives the level, the rest
    is the region's id, padded to the level's width; the CBS indicator
    columns get standard names and a level prefix (`b_`, `w_`, `g_`), and
    each level keeps the first row of every id. */
module AdminLevels {
  import opened Frames
  import opened PyStr

  /** The candidates for the region code column, in order of preference. */
  const RegionColumns := ["region_code", "Codering_3", "WijkenEnBuurten"]

  /** The CBS 84286NED column names and their standard names. */
  const Renames: seq<(string, string)> := [
    ("AantalInwoners_5", "pop_total"),
    ("k_65JaarOfOuder_12", "pop_over_65"),
    ("WestersTotaal_17", "pop_west"),
    ("NietWestersTotaal_18", "pop_nonwest"),
    ("Bevolkingsdichtheid_33", "pop_dens"),
    ("GemiddeldeWoningwaarde_35", "avg_home_value"),
    ("GemiddeldInkomenPerInkomensontvanger_68", "avg_inc_recip"),
    ("GemiddeldInkomenPerInwoner_69", "avg_inc_pers"),
    ("k_40PersonenMetLaagsteInkomen_70", "perc_low40_pers"),
    ("k_20PersonenMetHoogsteInkomen_71", "perc_high20_pers"),
    ("k_40HuishoudensMetLaagsteInkomen_73", "perc_low40_hh"),
    ("k_20HuishoudensMetHoogsteInkomen_74", "perc_high20_hh"),
    ("HuishoudensMetEenLaagInkomen_75", "perc_low_inc_hh"),
    ("HuishoudensTot110VanSociaalMinimum_77", "perc_soc_min_hh")]

  /** The indicators kept in every level table, in output order. */
  const Indicators := [
    "pop_total", "pop_over_65", "pop_west", "pop_nonwest", "pop_dens",
    "avg_home_value", "avg_inc_recip", "avg_inc_pers",
    "perc_low40_pers", "perc_high20_pers", "perc_low40_hh", "perc_high20_hh",
    "perc_low_inc_hh", "perc_soc_min_hh"]

  /** A geographic level: its region type, its key in the result (the
      lower-cased type), its column prefix, its code prefix and its id width. */
  datatype Level = Level(name: string, key: string, prefix: string, code: string, idLength: nat)

  const Buurt := Level("Buurt", "buurt", "b_", "BU", 8)
  const Wijk := Level("Wijk", "wijk", "w_", "WK", 6)
  const Gemeente := Level("Gemeente", "gemeente", "g_", "GM", 4)
  const Levels := [Buurt, Wijk, Gemeente]

  /** `f"{level.lower()}_id"` */
  function IdColumn(level: Level): string {
    level.key + "_id"
  }

  /** The first candidate that is a column, if any. */
  function FirstPresent(cands: seq<string>, columns: seq<string>): (r: Option<string>)
    ensures r.Some? ==> r.value in cands && r.value in columns
    ensures r.None? <==> forall c :: c in cands ==> c !in columns
  {
    if cands == [] then None
    else if cands[0] in columns then Some(cands[0])
    else FirstPresent(cands[1..], columns)
  }

  /** The chosen column is present and no candidate before it is. */
  lemma {:induction false} FirstPresentIsFirst(cands: seq<string>, columns: seq<string>)
    requires FirstPresent(cands, columns).Some?
    ensures exists k :: 0 <= k < |cands| && cands[k] == FirstPresent(cands, columns).value
                        && forall j :: 0 <= j < k ==> cands[j] !in columns
  {
    if cands[0] !in columns {
      FirstPresentIsFirst(cands[1..], columns);
      var k :| 0 <= k < |cands[1..]| && cands[1..][k] == FirstPresent(cands, columns).value
               && forall j :: 0 <= j < k ==> cands[1..][j] !in columns;
      assert forall j :: 1 <= j < k + 1 ==> cands[j] == cands[1..][j - 1];
    } else {
      assert cands[0] == FirstPresent(cands, columns).value;
    }
  }

  /** `admin[region_col].astype(str).str.strip()` on one row. */
  function CleanCode(row: Row, regionCol: string, show: real -> string): string {
    Strip(AsStr(Get(row, regionCol), show))
  }

  /** `clean.str[:2].map({"BU": "Buurt", "WK": "Wijk", "GM": "Gemeente"})` */
  function RegionType(clean: string): Option<string> {
    var p := Take(clean, 2);
    if p == "BU" then Some("Buurt")
    else if p == "WK" then Some("Wijk")
    else if p == "GM" then Some("Gemeente")
    else None
  }

  /** `clean.str[2:].str.strip()` */
  function RegionId(clean: string): string {
    Strip(Drop(clean, 2))
  }

  /** A code belongs to a level exactly when it starts with that level's
      two letters, and a code with any other prefix belongs to none. */
  lemma RegionTypeByPrefix(clean: string)
    ensures forall l :: l in Levels ==> (RegionType(clean) == Some(l.name) <==> Take(clean, 2) == l.code)
    ensures RegionType(clean).None? <==> forall l :: l in Levels ==> Take(clean, 2) != l.code
  {
  }

  /** `col_rename.get(c, c)`: the new name of a listed column, the column's own
      name otherwise. */
  function RenameTarget(pairs: seq<(string, string)>, c: string): (r: string)
    ensures r == c || (c, r) in pairs
    ensures (forall p :: p in pairs ==> p.0 != c) ==> r == c
  {
    if pairs == [] then c
    else if pairs[0].0 == c then pairs[0].1
    else
      var r := RenameTarget(pairs[1..], c);
      assert (c, r) in pairs[1..] ==> (c, r) in pairs;
      assert forall p :: p in pairs[1..] ==> p in pairs;
      r
  }

  /** The CBS names are distinct, so each one takes exactly its own standard name. */
  lemma RenamesResolve()
    ensures forall k :: 0 <= k < |Renames| ==> RenameTarget(Renames, Renames[k].0) == Renames[k].1
  {
    forall k | 0 <= k < |Renames|
      ensures RenameTarget(Renames, Renames[k].0) == Renames[k].1
    {
      FirstKeyWins(Renames, k);
    }
  }

  lemma {:induction false} FirstKeyWins(pairs: seq<(string, string)>, k: nat)
    requires k < |pairs|
    requires forall j :: 0 <= j < k ==> pairs[j].0 != pairs[k].0
    ensures RenameTarget(pairs, pairs[k].0) == pairs[k].1
  {
    if k > 0 {
      assert pairs[1..][k - 1] == pairs[k];
      FirstKeyWins(pairs[1..], k - 1);
    }
  }

  /** The column names after `admin.rename(...)`: a CBS column takes its
      standard name, and any other column keeps its own. */
  function RenamedColumns(columns: seq<string>): (r: seq<string>)
    ensures |r| == |columns|
    ensures forall i, k :: 0 <= i < |columns| && 0 <= k < |Renames| && columns[i] == Renames[k].0 ==>
              r[i] == Renames[k].1
    ensures forall i :: 0 <= i < |columns| && (forall k :: 0 <= k < |Renames| ==> Renames[k].0 != columns[i]) ==>
              r[i] == columns[i]
    ensures forall i :: 0 <= i < |columns| ==> r[i] == columns[i] || (columns[i], r[i]) in Renames
  {
    RenamesResolve();
    seq(|columns|, i requires 0 <= i < |columns| => RenameTarget(Renames, columns[i]))
  }

  /** One row after the rename: each column's cell moves to its new name. */
  function RenameRow(row: Row, columns: seq<string>): Row {
    if columns == [] then map[]
    else
      var last := columns[|columns| - 1];
      RenameRow(row, columns[..|columns| - 1])[RenameTarget(Renames, last) := Get(row, last)]
  }

  /** A column whose new name no other column takes keeps its cell under the new name. */
  lemma {:induction false} RenameRowReads(row: Row, columns: seq<string>, k: nat)
    requires k < |columns|
    requires forall j :: 0 <= j < |columns| && j != k ==>
               RenameTarget(Renames, columns[j]) != RenameTarget(Renames, columns[k])
    ensures Get(RenameRow(row, columns), RenameTarget(Renames, columns[k])) == Get(row, columns[k])
  {
    var init := columns[..|columns| - 1];
    if k < |columns| - 1 {
      RenameRowReads(row, init, k);
    }
  }

  /** `[v for v in indicator_vars if v in admin.columns]`, after the rename. */
  function Available(columns: seq<string>): seq<string> {
    Present(Indicators, RenamedColumns(columns))
  }

  function Prefixed(prefix: string, vars: seq<string>): (r: seq<string>)
    ensures |r| == |vars|
    ensures forall i :: 0 <= i < |vars| ==> r[i] == prefix + vars[i]
  {
    seq(|vars|, i requires 0 <= i < |vars| => prefix + vars[i])
  }

  /** The prefixed indicator cells of one row: `prefix + v` holds the cell of `v`. */
  function IndicatorRow(row: Row, prefix: string, vars: seq<string>): Row {
    if vars == [] then map[]
    else
      var last := vars[|vars| - 1];
      IndicatorRow(row, prefix, vars[..|vars| - 1])[prefix + last := Get(row, last)]
  }

  lemma PrefixInjective(prefix: string, a: string, b: string)
    ensures prefix + a == prefix + b ==> a == b
  {
    if prefix + a == prefix + b {
      assert (prefix + a)[|prefix|..] == a && (prefix + b)[|prefix|..] == b;
    }
  }

  /** With distinct indicators, `prefix + v` holds the row's cell of `v`. */
  lemma {:induction false} IndicatorRowReads(row: Row, prefix: string, vars: seq<string>, k: nat)
    requires k < |vars| && NoDuplicates(vars)
    ensures Get(IndicatorRow(row, prefix, vars), prefix + vars[k]) == Get(row, vars[k])
  {
    var init := vars[..|vars| - 1];
    var last := vars[|vars| - 1];
    if k < |vars| - 1 {
      assert init[k] == vars[k];
      assert NoDuplicates(init);
      PrefixInjective(prefix, last, vars[k]);
      IndicatorRowReads(row, prefix, init, k);
    }
  }

  /** A level id: the region id zero-padded to the level's width. */
  function LevelId(row: Row, regionCol: string, level: Level, show: real -> string): string {
    ZFill(RegionId(CleanCode(row, regionCol, show)), level.idLength)
  }

  /** One admin row as a row of its level's table. */
  function LevelRow(row: Row, columns: seq<string>, regionCol: string, level: Level, show: real -> string): Row {
    IndicatorRow(RenameRow(row, columns), level.prefix, Available(columns))
      [IdColumn(level) := Some(Text(LevelId(row, regionCol, level, show)))]
  }

  /** A level-table row holds the padded id, and under `prefix + v` the
      renamed row's cell of each available indicator `v`. */
  lemma LevelRowReads(row: Row, columns: seq<string>, regionCol: string, level: Level, show: real -> string, k: nat)
    requires level in Levels && k < |Available(columns)|
    ensures Get(LevelRow(row, columns, regionCol, level, show), IdColumn(level))
            == Some(Text(LevelId(row, regionCol, level, show)))
    ensures Get(LevelRow(row, columns, regionCol, level, show), level.prefix + Available(columns)[k])
            == Get(RenameRow(row, columns), Available(columns)[k])
  {
    var vars := Available(columns);
    AvailableDistinct(columns);
    IndicatorRowReads(RenameRow(row, columns), level.prefix, vars, k);
    LevelPrefixes(level);
    assert (level.prefix + vars[k])[1] == level.prefix[1];
  }

  lemma AvailableDistinct(columns: seq<string>)
    ensures NoDuplicates(Available(columns))
  {
    assert NoDuplicates(Indicators);
    FilterNoDuplicates(Indicators, set c | c in RenamedColumns(columns));
  }

  /** A level prefix is a letter and `_`; no id column has `_` second. */
  lemma LevelPrefixes(level: Level)
    requires level in Levels
    ensures |level.prefix| == 2 && level.prefix[1] == '_'
    ensures |IdColumn(level)| > 2 && IdColumn(level)[1] != '_'
  {
  }

  /** `admin[admin["region_type"] == level]` */
  function LevelRows(rows: seq<Row>, regionCol: string, level: Level, show: real -> string): (r: seq<Row>)
    ensures |r| <= |rows|
    ensures forall x :: x in r ==> x in rows && RegionType(CleanCode(x, regionCol, show)) == Some(level.name)
  {
    if rows == [] then []
    else (if RegionType(CleanCode(rows[0], regionCol, show)) == Some(level.name) then [rows[0]] else [])
         + LevelRows(rows[1..], regionCol, level, show)
  }

  lemma {:induction false} LevelRowsComplete(rows: seq<Row>, regionCol: string, level: Level, show: real -> string, x: Row)
    requires x in rows && RegionType(CleanCode(x, regionCol, show)) == Some(level.name)
    ensures x in LevelRows(rows, regionCol, level, show)
  {
    if rows[0] != x {
      LevelRowsComplete(rows[1..], regionCol, level, show, x);
    }
  }

  /** `drop_duplicates(subset=[col])` with the ids in `seen` already taken. */
  function DedupeFrom(rows: seq<Row>, col: string, seen: set<Cell>): (r: seq<Row>)
    ensures |r| <= |rows|
  {
    if rows == [] then []
    else if Get(rows[0], col) in seen then DedupeFrom(rows[1..], col, seen)
    else [rows[0]] + DedupeFrom(rows[1..], col, seen + {Get(rows[0], col)})
  }

  function DropDuplicates(rows: seq<Row>, col: string): seq<Row> {
    DedupeFrom(rows, col, {})
  }

  function Ids(rows: seq<Row>, col: string): set<Cell> {
    set x | x in rows :: Get(x, col)
  }

  /** The kept ids are the ids of the input that are not in `seen`. */
  lemma {:induction false} DedupeIds(rows: seq<Row>, col: string, seen: set<Cell>)
    ensures Ids(DedupeFrom(rows, col, seen), col) == Ids(rows, col) - seen
  {
    if rows != [] {
      var id := Get(rows[0], col);
      var seen' := if id in seen then seen else seen + {id};
      var rest := DedupeFrom(rows[1..], col, seen');
      DedupeIds(rows[1..], col, seen');
      assert Ids(rows, col) == {id} + Ids(rows[1..], col) by {
        assert forall x :: x in rows <==> x == rows[0] || x in rows[1..];
      }
      if id !in seen {
        var out := DedupeFrom(rows, col, seen);
        assert Ids(out, col) == {id} + Ids(rest, col) by {
          assert forall x :: x in out <==> x == rows[0] || x in rest;
        }
      }
    }
  }

  /** Each kept row is an input row whose id is not in `seen` and that no
      earlier input row shares. */
  lemma {:induction false} DedupeFirst(rows: seq<Row>, col: string, seen: set<Cell>)
    ensures forall x :: x in DedupeFrom(rows, col, seen) ==>
              exists i :: 0 <= i < |rows| && rows[i] == x && Get(x, col) !in seen
                          && forall j :: 0 <= j < i ==> Get(rows[j], col) != Get(x, col)
  {
    if rows != [] {
      var id := Get(rows[0], col);
      var seen' := if id in seen then seen else seen + {id};
      var rest := DedupeFrom(rows[1..], col, seen');
      DedupeFirst(rows[1..], col, seen');
      forall x | x in rest
        ensures exists i :: 0 <= i < |rows| && rows[i] == x && Get(x, col) !in seen
                            && forall j :: 0 <= j < i ==> Get(rows[j], col) != Get(x, col)
      {
        var i :| 0 <= i < |rows[1..]| && rows[1..][i] == x && Get(x, col) !in seen'
                 && forall j :: 0 <= j < i ==> Get(rows[1..][j], col) != Get(x, col);
        assert rows[i + 1] == x;
        forall j | 0 <= j < i + 1
          ensures Get(rows[j], col) != Get(x, col)
        {
          if j > 0 {
            assert rows[j] == rows[1..][j - 1];
          }
        }
      }
      if id !in seen {
        var out := DedupeFrom(rows, col, seen);
        assert forall x :: x in out ==> x == rows[0] || x in rest;
      }
    }
  }

  /** The ids of a row sequence, in order. */
  function IdList(rows: seq<Row>, col: string): (ids: seq<Cell>)
    ensures |ids| == |rows|
    ensures forall i :: 0 <= i < |rows| ==> ids[i] == Get(rows[i], col)
  {
    seq(|rows|, i requires 0 <= i < |rows| => Get(rows[i], col))
  }

  /** No two kept rows share an id. */
  lemma {:induction false} DedupeDistinct(rows: seq<Row>, col: string, seen: set<Cell>)
    ensures NoDuplicates(IdList(DedupeFrom(rows, col, seen), col))
  {
    if rows != [] {
      var id := Get(rows[0], col);
      if id in seen {
        DedupeDistinct(rows[1..], col, seen);
      } else {
        var rest := DedupeFrom(rows[1..], col, seen + {id});
        DedupeDistinct(rows[1..], col, seen + {id});
        DedupeIds(rows[1..], col, seen + {id});
        var ids := IdList([rows[0]] + rest, col);
        var idsRest := IdList(rest, col);
        forall i, j | 0 <= i < j < |ids|
          ensures ids[i] != ids[j]
        {
          assert ids[j] == idsRest[j - 1];
          if i > 0 {
            assert ids[i] == idsRest[i - 1];
          } else {
            assert rest[j - 1] in rest;
          }
        }
      }
    }
  }

  /** The level rows of the selected admin rows, one for one. */
  function BuildRows(src: seq<Row>, columns: seq<string>, regionCol: string, level: Level, show: real -> string): (rows: seq<Row>)
    ensures |rows| == |src|
    ensures forall j :: 0 <= j < |src| ==> rows[j] == LevelRow(src[j], columns, regionCol, level, show)
  {
    seq(|src|, j requires 0 <= j < |src| => LevelRow(src[j], columns, regionCol, level, show))
  }

  /** One level's table; a level without rows gives an empty frame. */
  function LevelTable(admin: Frame, regionCol: string, level: Level, show: real -> string): Frame {
    var src := LevelRows(admin.rows, regionCol, level, show);
    if src == [] then Frame([], [])
    else
      Frame([IdColumn(level)] + Prefixed(level.prefix, Available(admin.columns)),
            DropDuplicates(BuildRows(src, admin.columns, regionCol, level, show),
                           IdColumn(level)))
  }

  /** The three levels have distinct result keys. */
  lemma LevelKeysDistinct()
    ensures forall i, j :: 0 <= i < j < |Levels| ==> Levels[i].key != Levels[j].key
  {
    assert |Buurt.key| == 5 && |Wijk.key| == 4 && |Gemeente.key| == 8;
  }

  /** The result keys of the first `i` levels. */
  function KeysUpTo(i: nat): set<string>
    requires i <= |Levels|
  {
    set j | 0 <= j < i :: Levels[j].key
  }

  lemma KeysUpToSnoc(i: nat)
    requires i < |Levels|
    ensures KeysUpTo(i + 1) == KeysUpTo(i) + {Levels[i].key}
  {
  }

  lemma KeysUpToAll()
    ensures KeysUpTo(|Levels|) == {Buurt.key, Wijk.key, Gemeente.key}
  {
    assert Levels[0].key in KeysUpTo(3) && Levels[1].key in KeysUpTo(3) && Levels[2].key in KeysUpTo(3);
  }

  /** `cols_to_keep`: the id column, then the prefixed name of every
      available indicator that is a column of the level's data. */
  method KeptColumns(idCol: string, prefix: string, available: seq<string>, columns: seq<string>)
    returns (cols: seq<string>)
    ensures cols == [idCol] + Prefixed(prefix, Filter(available, set c | c in columns))
  {
    cols := [idCol];
    for v := 0 to |available|
      invariant cols == [idCol] + Prefixed(prefix, Filter(available[..v], set c | c in columns))
    {
      FilterSnoc(available[..v], available[v], set c | c in columns);
      assert available[..v + 1] == available[..v] + [available[v]];
      if available[v] in columns {
        cols := cols + [prefix + available[v]];
        assert Prefixed(prefix, Filter(available[..v + 1], set c | c in columns))
               == Prefixed(prefix, Filter(available[..v], set c | c in columns)) + [prefix + available[v]];
      }
    }
    assert available[..|available|] == available;
  }

  /** One iteration of the level loop: the level's rows, or an empty frame. */
  method LevelFrame(admin: Frame, regionCol: string, level: Level, show: real -> string,
                    available: seq<string>, renamedColumns: seq<string>) returns (t: Frame)
    requires available == Available(admin.columns) && renamedColumns == RenamedColumns(admin.columns)
    ensures t == LevelTable(admin, regionCol, level, show)
  {
    var levelData := LevelRows(admin.rows, regionCol, level, show);
    if |levelData| == 0 {
      return Frame([], []);
    }
    var idCol := IdColumn(level);
    var colsToKeep := KeptColumns(idCol, level.prefix, available, renamedColumns);
    forall c | c in available
      ensures c in (set x | x in renamedColumns)
    {
      PresentMembership(Indicators, renamedColumns, c);
    }
    FilterAll(available, set x | x in renamedColumns);
    var rows := BuildRows(levelData, admin.columns, regionCol, level, show);
    t := Frame(colsToKeep, DropDuplicates(rows, idCol));
  }

  /** The loop that picks the region code column: the first candidate present. */
  method FindRegionColumn(columns: seq<string>) returns (regionCol: Option<string>)
    ensures regionCol == FirstPresent(RegionColumns, columns)
  {
    regionCol := None;
    var k := 0;
    while k < |RegionColumns|
      invariant 0 <= k <= |RegionColumns|
      invariant regionCol.None? ==> FirstPresent(RegionColumns, columns) == FirstPresent(RegionColumns[k..], columns)
      invariant regionCol.Some? ==> regionCol == FirstPresent(RegionColumns, columns)
    {
      if RegionColumns[k] in columns {
        regionCol := Some(RegionColumns[k]);
        break;
      }
      assert RegionColumns[k..][1..] == RegionColumns[k + 1..];
      k := k + 1;
    }
  }

  /** The table of every level, in level order. */
  function LevelTables(admin: Frame, regionCol: string, show: real -> string): (tables: seq<Frame>)
    ensures |tables| == |Levels|
    ensures forall j :: 0 <= j < |Levels| ==> tables[j] == LevelTable(admin, regionCol, Levels[j], show)
  {
    seq(|Levels|, j requires 0 <= j < |Levels| => LevelTable(admin, regionCol, Levels[j], show))
  }

  /** The first `i` levels of the result hold their tables. */
  predicate Filled(result: map<string, Frame>, tables: seq<Frame>, i: nat)
    requires i <= |Levels| && i <= |tables|
  {
    forall j :: 0 <= j < i ==> Levels[j].key in result && result[Levels[j].key] == tables[j]
  }

  lemma FilledSnoc(result: map<string, Frame>, tables: seq<Frame>, i: nat)
    requires i < |Levels| && i < |tables| && Filled(result, tables, i)
    ensures Filled(result[Levels[i].key := tables[i]], tables, i + 1)
  {
    LevelKeysDistinct();
  }

  /** prepare_admin_by_level: the region column is found, then the result is
      filled level by level as the source's loop does. */
  method PrepareAdminByLevel(admin: Frame, show: real -> string) returns (r: Result<map<string, Frame>>)
    ensures r.Failure? <==> forall c :: c in RegionColumns ==> c !in admin.columns
    ensures r.Failure? ==> r.error == NoRegionColumn
    ensures r.Success? ==> r.value.Keys == {Buurt.key, Wijk.key, Gemeente.key}
    ensures r.Success? ==> forall j :: 0 <= j < |Levels| ==>
              r.value[Levels[j].key] == LevelTable(admin, FirstPresent(RegionColumns, admin.columns).value, Levels[j], show)
  {
    var regionCol := FindRegionColumn(admin.columns);
    if regionCol.None? {
      return Failure(NoRegionColumn);
    }
    var col := regionCol.value;
    var renamedColumns := RenamedColumns(admin.columns);
    var available := Available(admin.columns);
    var result: map<string, Frame> := map[];
    ghost var tables := LevelTables(admin, col, show);
    for i := 0 to |Levels|
      invariant result.Keys == KeysUpTo(i)
      invariant Filled(result, tables, i)
    {
      var t := LevelFrame(admin, col, Levels[i], show, available, renamedColumns);
      KeysUpToSnoc(i);
      FilledSnoc(result, tables, i);
      result := result[Levels[i].key := t];
    }
    KeysUpToAll();
    r := Success(result);
  }

  /** Each level table is empty when the level has no rows; otherwise its
      columns are the id and the prefixed available indicators in list
      order, and its ids are distinct. */
  lemma LevelTableShape(admin: Frame, regionCol: string, level: Level, show: real -> string)
    ensures LevelRows(admin.rows, regionCol, level, show) == [] ==> LevelTable(admin, regionCol, level, show) == Frame([], [])
    ensures LevelRows(admin.rows, regionCol, level, show) != [] ==>
              LevelTable(admin, regionCol, level, show).columns
              == [IdColumn(level)] + Prefixed(level.prefix, Available(admin.columns))
    ensures NoDuplicates(IdList(LevelTable(admin, regionCol, level, show).rows, IdColumn(level)))
  {
    var src := LevelRows(admin.rows, regionCol, level, show);
    if src != [] {
      DedupeDistinct(BuildRows(src, admin.columns, regionCol, level, show), IdColumn(level), {});
    }
  }

  lemma {:induction false} DedupeKeepsRows(rows: seq<Row>, col: string, seen: set<Cell>, x: Row)
    requires x in DedupeFrom(rows, col, seen)
    ensures x in rows
  {
    if rows != [] {
      var id := Get(rows[0], col);
      var seen' := if id in seen then seen else seen + {id};
      if x != rows[0] {
        DedupeKeepsRows(rows[1..], col, seen', x);
      }
    }
  }

  /** A level id is at least as wide as the level's width. */
  lemma LevelIdWide(row: Row, regionCol: string, level: Level, show: real -> string)
    ensures |LevelId(row, regionCol, level, show)| >= level.idLength
  {
    ZFillLength(RegionId(CleanCode(row, regionCol, show)), level.idLength);
  }

  /** A built row comes from an admin row of the level. */
  lemma BuiltRowOrigin(admin: Frame, regionCol: string, level: Level, show: real -> string, x: Row)
    requires x in BuildRows(LevelRows(admin.rows, regionCol, level, show), admin.columns, regionCol, level, show)
    ensures exists y :: y in admin.rows
              && RegionType(CleanCode(y, regionCol, show)) == Some(level.name)
              && x == LevelRow(y, admin.columns, regionCol, level, show)
              && |LevelId(y, regionCol, level, show)| >= level.idLength
  {
    var src := LevelRows(admin.rows, regionCol, level, show);
    var rows := BuildRows(src, admin.columns, regionCol, level, show);
    var j :| 0 <= j < |rows| && rows[j] == x;
    var row := src[j];
    assert row in src;
    assert row in admin.rows && RegionType(CleanCode(row, regionCol, show)) == Some(level.name);
    LevelIdWide(row, regionCol, level, show);
  }

  /** Every row of a level table is built from an admin row of that level,
      with an id at least as long as the level's width. */
  lemma LevelTableRows(admin: Frame, regionCol: string, level: Level, show: real -> string)
    ensures forall x :: x in LevelTable(admin, regionCol, level, show).rows ==>
              exists y :: y in admin.rows
                && RegionType(CleanCode(y, regionCol, show)) == Some(level.name)
                && x == LevelRow(y, admin.columns, regionCol, level, show)
                && |LevelId(y, regionCol, level, show)| >= level.idLength
  {
    var src := LevelRows(admin.rows, regionCol, level, show);
    if src != [] {
      var rows := BuildRows(src, admin.columns, regionCol, level, show);
      forall x | x in LevelTable(admin, regionCol, level, show).rows
        ensures exists y :: y in admin.rows
                  && RegionType(CleanCode(y, regionCol, show)) == Some(level.name)
                  && x == LevelRow(y, admin.columns, regionCol, level, show)
                  && |LevelId(y, regionCol, level, show)| >= level.idLength
      {
        DedupeKeepsRows(rows, IdColumn(level), {}, x);
        BuiltRowOrigin(admin, regionCol, level, show, x);
      }
    }
  }

  /** Within a level, the table has exactly one row for each id of that
      level's admin rows, and it is the row built from the first of them. */
  lemma LevelTableIds(admin: Frame, regionCol: string, level: Level, show: real -> string)
    ensures var src := LevelRows(admin.rows, regionCol, level, show);
            var rows := BuildRows(src, admin.columns, regionCol, level, show);
            Ids(LevelTable(admin, regionCol, level, show).rows, IdColumn(level)) == Ids(rows, IdColumn(level))
            && forall x :: x in LevelTable(admin, regionCol, level, show).rows ==>
                 exists i :: 0 <= i < |rows| && rows[i] == x
                             && forall j :: 0 <= j < i ==> Get(rows[j], IdColumn(level)) != Get(x, IdColumn(level))
  {
    var src := LevelRows(admin.rows, regionCol, level, show);
    var rows := BuildRows(src, admin.columns, regionCol, level, show);
    DedupeIds(rows, IdColumn(level), {});
    DedupeFirst(rows, IdColumn(level), {});
  }

  /** A row whose code has no level prefix appears in no level table. */
  lemma UntypedRowsDropped(admin: Frame, regionCol: string, show: real -> string, x: Row)
    requires x in admin.rows && RegionType(CleanCode(x, regionCol, show)).None?
    ensures forall l :: l in Levels ==> x !in LevelRows(admin.rows, regionCol, l, show)
  {
  }

  /** Every row of a level enters that level's rows. */
  lemma LevelRowsOfLevel(admin: Frame, regionCol: string, level: Level, show: real -> string, x: Row)
    requires x in admin.rows
    ensures x in LevelRows(admin.rows, regionCol, level, show)
            <==> RegionType(CleanCode(x, regionCol, show)) == Some(level.name)
  {
    if RegionType(CleanCode(x, regionCol, show)) == Some(level.name) {
      LevelRowsComplete(admin.rows, regionCol, level, show, x);
    }
  }
}
