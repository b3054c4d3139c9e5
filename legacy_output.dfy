/** The older `.xlsx` generator. It builds the same DATA rows as the `.xls`
    generator, but writes them through a DataFrame whose column header adds
    a `DATE` row on top. Its META table is a DataFrame whose missing columns
    are filled in place. Files are stamped with the month string minus its
    hyphen (`YYYYMM`). A written sheet is modelled as its grid of cells; the
    workbook bytes are not modelled. */
module LegacyOutput {
  import opened Wrappers
  import opened Table
  import opened Text
  import opened Calendar
  import opened Settings
  import opened Series
  import opened Parse
  import opened Sheet
  import opened DataLayout
  import opened Paths
  import opened XlsOutput

  /** `current_month.replace("-", "")`. */
  function MonthStamp(monthStr: string): (ts: string)
    ensures |ts| <= |monthStr|
    ensures forall i :: 0 <= i < |ts| ==> ts[i] != '-'
  {
    Without(monthStr, '-')
  }

  /** `os.path.join(OUTPUT_DIR, pattern.format(isin=..., timestamp=...))`
      with the hyphen-free month as timestamp. */
  function MonthPath(p: Pattern, dir: string, isin: string, monthStr: string): string {
    Join(dir, Format(p, isin, MonthStamp(monthStr)))
  }

  /** For a period label the legacy stamp is `YYYYMM`. */
  lemma MonthStampOfLabel(m: Month)
    requires ValidMonth(m)
    ensures MonthStamp(Label(m)) == Fixed(m.year, 4) + Fixed(m.month, 2)
  {
    var y, mm := Fixed(m.year, 4), Fixed(m.month, 2);
    DigitsHaveNoDash(y);
    DigitsHaveNoDash(mm);
    WithoutConcat(y + "-", mm, '-');
    WithoutConcat(y, "-", '-');
    WithoutAbsent(y, '-');
    WithoutAbsent(mm, '-');
    assert Without("-", '-') == "";
  }

  /** The `.xls` stamp of a label is the legacy stamp followed by the
      month's last day (every period but December 9999). */
  lemma StampsAgreeOnMonth(m: Month)
    requires ValidMonth(m) && !(m.year == 9999 && m.month == 12)
    ensures LastDayStamp(Label(m)) == Some(MonthStamp(Label(m)) + Fixed(DaysIn(m.year, m.month), 2))
  {
    MonthStampOfLabel(m);
    LastDayStampOfLabel(m);
  }

  /** Two labels give the same legacy file name only for the same
      identifier and month. */
  lemma MonthPathInjective(p: Pattern, dir: string, a: string, b: string, m1: Month, m2: Month)
    requires ValidMonth(m1) && ValidMonth(m2)
    requires NoSlash(p.head) && NoSlash(p.middle) && NoSlash(a) && NoSlash(b)
    requires MonthPath(p, dir, a, Label(m1)) == MonthPath(p, dir, b, Label(m2))
    ensures a == b && m1 == m2
  {
    var s, t := MonthStamp(Label(m1)), MonthStamp(Label(m2));
    MonthStampOfLabel(m1);
    MonthStampOfLabel(m2);
    SixDigitsRelative(p, a, s);
    SixDigitsRelative(p, b, t);
    JoinInjective(dir, Format(p, a, s), Format(p, b, t));
    FormatInjective(p, a, b, s, t);
    FixedPairInjective(m1.year, m2.year, m1.month, m2.month);
  }

  /** A four-digit and a two-digit field, side by side, determine both. */
  lemma FixedPairInjective(y1: nat, y2: nat, n1: nat, n2: nat)
    requires y1 < Pow10(4) && y2 < Pow10(4) && n1 < Pow10(2) && n2 < Pow10(2)
    requires Fixed(y1, 4) + Fixed(n1, 2) == Fixed(y2, 4) + Fixed(n2, 2)
    ensures y1 == y2 && n1 == n2
  {
    var s, t := Fixed(y1, 4) + Fixed(n1, 2), Fixed(y2, 4) + Fixed(n2, 2);
    assert Fixed(y1, 4) == s[..4] && Fixed(y2, 4) == t[..4];
    assert Fixed(n1, 2) == s[4..] && Fixed(n2, 2) == t[4..];
    FixedInjective(y1, y2, 4);
    FixedInjective(n1, n2, 2);
  }

  /** A name formatted from separator-free parts and a digit stamp is
      relative. */
  lemma SixDigitsRelative(p: Pattern, isin: string, ts: string)
    requires NoSlash(p.head) && NoSlash(p.middle) && NoSlash(isin)
    requires |ts| == 6 && AllDigits(ts)
    ensures Relative(Format(p, isin, ts))
  {
    var x := Format(p, isin, ts);
    var pre := p.head + isin + p.middle;
    assert x == pre + ts + p.tail;
    if pre == [] {
      assert x[0] == ts[0];
    } else {
      assert x[0] == pre[0];
      if p.head != [] { assert pre[0] == p.head[0]; }
      else if isin != [] { assert pre[0] == isin[0]; }
      else { assert pre[0] == p.middle[0]; }
    }
  }

  // ----- DATA -----

  /** The header row: `""` then the code of each metric, built by appends. */
  method BuildCodeRow(cfg: Config, isin: string) returns (row: seq<Out>)
    requires Valid(cfg)
    ensures row == CodeRow(cfg, isin)
  {
    row := [Text("")];
    var k := 0;
    while k < |cfg.order|
      invariant 0 <= k <= |cfg.order| && |row| == k + 1 && row[0] == Text("")
      invariant forall j :: 0 <= j < k ==> row[j + 1] == Text(Code(cfg, isin, cfg.order[j]))
    {
      row := row + [Text(Code(cfg, isin, cfg.order[k]))];
      k := k + 1;
    }
    forall j | 1 <= j <= |cfg.order| ensures row[j] == CodeRow(cfg, isin)[j] {
      HeaderCellsAt(cfg, isin, "", j - 1);
    }
  }

  /** The description row: `""` then the description of each metric. */
  method BuildDescriptionRow(cfg: Config, isin: string, description: string) returns (row: seq<Out>)
    requires Valid(cfg)
    ensures row == DescriptionRow(cfg, isin, description)
  {
    row := [Text("")];
    var k := 0;
    while k < |cfg.order|
      invariant 0 <= k <= |cfg.order| && |row| == k + 1 && row[0] == Text("")
      invariant forall j :: 0 <= j < k ==> row[j + 1] == Text(SeriesDescription(cfg, isin, description, cfg.order[j]))
    {
      row := row + [Text(SeriesDescription(cfg, isin, description, cfg.order[k]))];
      k := k + 1;
    }
    forall j | 1 <= j <= |cfg.order| ensures row[j] == DescriptionRow(cfg, isin, description)[j] {
      HeaderCellsAt(cfg, isin, description, j - 1);
    }
  }

  /** One date row: the date, then per metric the first matching value, or
      `""` for no match or a NaN value. */
  method BuildDateRow(series: map<string, seq<Point>>, cfg: Config, date: string) returns (row: seq<Out>)
    requires HasSeries(series, cfg)
    ensures row == DateRow(series, cfg, date)
  {
    row := [Text(date)];
    var k := 0;
    while k < |cfg.order|
      invariant 0 <= k <= |cfg.order| && |row| == k + 1 && row[0] == Text(date)
      invariant forall j :: 0 <= j < k ==> row[j + 1] == ValueCell(series[cfg.order[j]], date)
    {
      var tsDf := series[cfg.order[k]];
      var cell := LookupValue(tsDf, date);
      row := row + [cell];
      k := k + 1;
    }
    forall j | 1 <= j <= |cfg.order| ensures row[j] == DateRow(series, cfg, date)[j] {
      DateCellAt(series, cfg, date, j - 1);
    }
  }

  /** The `data_rows` of `create_data_file`: the two header rows, then one
      row per date, in the given order. */
  method BuildDataRows(cfg: Config, isin: string, series: map<string, seq<Point>>, description: string, dates: seq<string>)
    returns (dataRows: Grid)
    requires HasSeries(series, cfg)
    ensures dataRows == DataRows(cfg, isin, series, description, dates)
  {
    var headerRow := BuildCodeRow(cfg, isin);
    var descRow := BuildDescriptionRow(cfg, isin, description);
    dataRows := [headerRow, descRow];
    var n := 0;
    while n < |dates|
      invariant 0 <= n <= |dates| && |dataRows| == n + 2
      invariant dataRows[0] == CodeRow(cfg, isin) && dataRows[1] == DescriptionRow(cfg, isin, description)
      invariant forall i :: 0 <= i < n ==> dataRows[i + 2] == DateRow(series, cfg, dates[i])
    {
      var row := BuildDateRow(series, cfg, dates[n]);
      dataRows := dataRows + [row];
      n := n + 1;
    }
    ghost var g := DataRows(cfg, isin, series, description, dates);
    assert forall r :: 0 <= r < |g| ==> dataRows[r] == g[r] by {
      forall r | 0 <= r < |g| ensures dataRows[r] == g[r] {
        if r >= 2 { assert dataRows[r] == DateRow(series, cfg, dates[r - 2]); }
      }
    }
  }

  /** `["DATE"] + [f"{isin}.{suffix}" for ts_type in TIME_SERIES_ORDER]`. */
  function DataColumns(cfg: Config, isin: string): (cols: seq<string>)
    requires Valid(cfg)
    ensures |cols| == |cfg.order| + 1 && cols[0] == "DATE"
    ensures forall k :: 0 <= k < |cfg.order| ==> cols[k + 1] == Code(cfg, isin, cfg.order[k])
  {
    ["DATE"] + seq(|cfg.order|, k requires 0 <= k < |cfg.order| => Code(cfg, isin, cfg.order[k]))
  }

  /** The DATA sheet `to_excel(index=False)` writes: the column header,
      then the built rows. */
  function DataSheet(cfg: Config, isin: string, series: map<string, seq<Point>>, description: string, dates: seq<string>): (g: Grid)
    requires HasSeries(series, cfg)
    ensures |g| == |dates| + 3
  {
    [HeaderCells(DataColumns(cfg, isin))] + DataRows(cfg, isin, series, description, dates)
  }

  /** `create_data_file`: collects and sorts the dates, builds the rows,
      frames them under the column header and names the file after the
      hyphen-free month. */
  method CreateDataFile(isin: string, series: map<string, seq<Point>>, description: Cell, monthStr: string, cfg: Config)
    returns (sheet: Grid, dates: seq<string>, path: string)
    requires HasSeries(series, cfg)
    ensures Ascending(dates) && forall x :: x in dates <==> x in AllDates(series)
    ensures sheet == DataSheet(cfg, isin, series, Show(description), dates)
    ensures path == MonthPath(cfg.dataPattern, cfg.outputDir, isin, monthStr)
  {
    dates := SortedDates(series);
    var dataRows := BuildDataRows(cfg, isin, series, Show(description), dates);
    var columns := DataColumns(cfg, isin);
    sheet := [HeaderCells(columns)] + dataRows;
    path := MonthPath(cfg.dataPattern, cfg.outputDir, isin, monthStr);
  }

  /** Every built row has exactly one entry per column, so framing the
      rows under the column header cannot fail; the written sheet has
      `DATE` at A1 and the codes beside it, and below that exactly the
      grid the `.xls` generator writes. */
  lemma DataSheetLayout(cfg: Config, isin: string, series: map<string, seq<Point>>, description: string, dates: seq<string>)
    requires HasSeries(series, cfg)
    ensures var s := DataSheet(cfg, isin, series, description, dates);
      (forall r :: 0 <= r < |s| ==> |s[r]| == |DataColumns(cfg, isin)|) &&
      s[0][0] == Text("DATE") &&
      (forall k :: 0 <= k < |cfg.order| ==> s[0][k + 1] == Text(isin + "." + cfg.mapping[cfg.order[k]].suffix)) &&
      s[1..] == DataRows(cfg, isin, series, description, dates)
  {
    var s := DataSheet(cfg, isin, series, description, dates);
    DataRowsShape(cfg, isin, series, description, dates);
    assert s[1..] == DataRows(cfg, isin, series, description, dates);
  }

  /** The header row and the first built row carry the same codes: the
      legacy sheet repeats the codes in its first two rows, with `DATE`
      and `""` in column A. */
  lemma CodesRepeated(cfg: Config, isin: string, series: map<string, seq<Point>>, description: string, dates: seq<string>)
    requires HasSeries(series, cfg)
    ensures var s := DataSheet(cfg, isin, series, description, dates);
      s[1][0] == Text("") && s[1][1..] == s[0][1..]
  {
    var s := DataSheet(cfg, isin, series, description, dates);
    forall k | 1 <= k <= |cfg.order| ensures s[1][k] == s[0][k] {
      HeaderCellsAt(cfg, isin, description, k - 1);
    }
  }

  // ----- META -----

  /** `pd.DataFrame(metadata_rows)`: the union of the rows' keys as
      columns; a row lacking a column holds NaN (None) there. */
  function KeysOf(records: seq<map<string, MetaValue>>): (ks: set<string>)
    ensures forall c :: c in ks <==> exists i :: 0 <= i < |records| && c in records[i]
  {
    set i, c | 0 <= i < |records| && c in records[i] :: c
  }

  /** The value of column `c` in row `i` once every column of `cols` is
      present: the row's own value; NaN when only other rows have the key;
      `""` when no row has it (the column was added). */
  function Expected(records: seq<map<string, MetaValue>>, i: nat, c: string): Option<MetaValue>
    requires i < |records|
  {
    if c in records[i] then Some(records[i][c])
    else if c in KeysOf(records) then None
    else Some(MStr(""))
  }

  /** The META table `create_meta_file` writes: one row per record, one
      cell per column of `cols`, in that order. */
  function MetaTable(records: seq<map<string, MetaValue>>, cols: seq<string>): (t: seq<seq<Option<MetaValue>>>)
    ensures |t| == |records| && forall i :: 0 <= i < |t| ==> |t[i]| == |cols|
  {
    seq(|records|, i requires 0 <= i < |records| =>
      seq(|cols|, j requires 0 <= j < |cols| => Expected(records, i, cols[j])))
  }

  /** A DataFrame of metadata values: a set of column names (their order is
      discarded by the reordering) and, per row, a value or NaN for every
      column. */
  class MetaFrame {
    var columns: set<string>
    var rows: seq<map<string, Option<MetaValue>>>

    ghost predicate Valid()
      reads this
    {
      forall i :: 0 <= i < |rows| ==> rows[i].Keys == columns
    }

    /** `pd.DataFrame(metadata_rows)`. */
    constructor (records: seq<map<string, MetaValue>>)
      ensures Valid() && columns == KeysOf(records) && |rows| == |records|
      ensures forall i, c :: 0 <= i < |rows| && c in columns ==>
        rows[i][c] == (if c in records[i] then Some(records[i][c]) else None)
    {
      var ks := KeysOf(records);
      columns := ks;
      rows := seq(|records|, i requires 0 <= i < |records| =>
        map c | c in ks :: if c in records[i] then Some(records[i][c]) else None);
    }

    /** `meta_df[col] = ""`: a new column holding `""` in every row. */
    method AddColumn(col: string)
      requires Valid() && col !in columns
      modifies this
      ensures Valid() && columns == old(columns) + {col} && |rows| == |old(rows)|
      ensures forall i :: 0 <= i < |rows| ==> rows[i] == old(rows)[i][col := Some(MStr(""))]
    {
      var old_rows := rows;
      rows := seq(|old_rows|, i requires 0 <= i < |old_rows| => old_rows[i][col := Some(MStr(""))]);
      columns := columns + {col};
    }

    /** `meta_df[cols]`: the named columns, in that order. */
    function Select(cols: seq<string>): (t: seq<seq<Option<MetaValue>>>)
      reads this
      requires Valid() && forall c :: c in cols ==> c in columns
      ensures |t| == |rows| && forall i :: 0 <= i < |t| ==> |t[i]| == |cols|
      ensures forall i, j :: 0 <= i < |t| && 0 <= j < |cols| ==> t[i][j] == rows[i][cols[j]]
    {
      var rs := rows;
      seq(|rs|, i requires 0 <= i < |rs| =>
        seq(|cols|, j requires 0 <= j < |cols| => rs[i][cols[j]]))
    }
  }

  /** `create_meta_file`: frames the records, adds each missing required
      column filled with `""`, keeps the required columns in order and
      names the file after the hyphen-free month. */
  method CreateMetaFile(isin: string, records: seq<map<string, MetaValue>>, monthStr: string, cfg: Config)
    returns (table: seq<seq<Option<MetaValue>>>, path: string)
    ensures table == MetaTable(records, cfg.metaColumns)
    ensures path == MonthPath(cfg.metaPattern, cfg.outputDir, isin, monthStr)
  {
    var metaDf := new MetaFrame(records);
    AddMissingColumns(metaDf, records, cfg.metaColumns);
    table := metaDf.Select(cfg.metaColumns);
    MetaTableByCells(table, records, cfg.metaColumns);
    path := MonthPath(cfg.metaPattern, cfg.outputDir, isin, monthStr);
  }

  /** A table with the expected value in every cell is the META table. */
  lemma MetaTableByCells(t: seq<seq<Option<MetaValue>>>, records: seq<map<string, MetaValue>>, cols: seq<string>)
    requires |t| == |records| && forall i :: 0 <= i < |t| ==> |t[i]| == |cols|
    requires forall i, j :: 0 <= i < |t| && 0 <= j < |cols| ==> t[i][j] == Expected(records, i, cols[j])
    ensures t == MetaTable(records, cols)
  {
    var m := MetaTable(records, cols);
    forall i | 0 <= i < |t| ensures t[i] == m[i] {
      assert forall j :: 0 <= j < |cols| ==> t[i][j] == m[i][j];
    }
  }

  /** The frame holds the value each row is to show, for every column it
      has. */
  ghost predicate HoldsExpected(frame: MetaFrame, records: seq<map<string, MetaValue>>)
    reads frame
  {
    frame.Valid() && |frame.rows| == |records| &&
    forall i, c :: 0 <= i < |records| && c in frame.columns ==> frame.rows[i][c] == Expected(records, i, c)
  }

  /** The `for col in METADATA_COLUMNS` loop of `create_meta_file`. */
  method AddMissingColumns(metaDf: MetaFrame, records: seq<map<string, MetaValue>>, cols: seq<string>)
    requires HoldsExpected(metaDf, records) && metaDf.columns == KeysOf(records)
    modifies metaDf
    ensures HoldsExpected(metaDf, records)
    ensures forall c :: c in metaDf.columns <==> c in KeysOf(records) || c in cols
  {
    var k := 0;
    while k < |cols|
      invariant 0 <= k <= |cols| && HoldsExpected(metaDf, records)
      invariant forall c :: c in metaDf.columns <==> c in KeysOf(records) || c in cols[..k]
    {
      var col := cols[k];
      if col !in metaDf.columns {
        AddedColumnExpected(metaDf.rows, records, metaDf.columns, col);
        metaDf.AddColumn(col);
      }
      assert cols[..k + 1] == cols[..k] + [col];
      k := k + 1;
    }
    assert cols[..k] == cols;
  }

  /** Adding a column no record has keeps every row at its expected
      values: the new column is expected to hold `""`. */
  lemma AddedColumnExpected(rows: seq<map<string, Option<MetaValue>>>, records: seq<map<string, MetaValue>>, columns: set<string>, col: string)
    requires |rows| == |records| && KeysOf(records) <= columns && col !in columns
    requires forall i, c :: 0 <= i < |records| && c in columns ==> c in rows[i] && rows[i][c] == Expected(records, i, c)
    ensures forall i, c :: 0 <= i < |records| && c in columns + {col} ==>
      rows[i][col := Some(MStr(""))][c] == Expected(records, i, c)
  {
  }

  /** Rows that already hold every required column (as the parser's
      completed metadata rows do) are written unchanged: no NaN and no
      filler. */
  lemma CompleteRecordsUnchanged(records: seq<map<string, MetaValue>>, cols: seq<string>)
    requires forall i, j :: 0 <= i < |records| && 0 <= j < |cols| ==> cols[j] in records[i]
    ensures forall i, j :: 0 <= i < |records| && 0 <= j < |cols| ==>
      MetaTable(records, cols)[i][j] == Some(records[i][cols[j]])
  {
  }

  /** A cell is NaN exactly when its row lacks a column that another row
      has, and is the filler `""` from the column completion exactly when
      no row has that column. */
  lemma MetaTableGaps(records: seq<map<string, MetaValue>>, cols: seq<string>, i: nat, j: nat)
    requires i < |records| && j < |cols|
    ensures var t := MetaTable(records, cols);
      (t[i][j].None? <==> cols[j] !in records[i] && exists k :: 0 <= k < |records| && cols[j] in records[k]) &&
      ((forall k :: 0 <= k < |records| ==> cols[j] !in records[k]) ==> t[i][j] == Some(MStr("")))
  {
  }

  /** Where every row has every required column, the two generators fill
      their META sheets from the same values: the `.xls` cell is the
      value's boolean or `str` form, the legacy cell the value itself. */
  lemma MetaLayoutsAgree(records: seq<map<string, MetaValue>>, cols: seq<string>)
    requires forall i, j :: 0 <= i < |records| && 0 <= j < |cols| ==> cols[j] in records[i]
    ensures var t := MetaTable(records, cols); var g := MetaGrid(records, cols);
      |g| == |t| + 1 && g[0] == HeaderCells(cols) &&
      forall i, j :: 0 <= i < |records| && 0 <= j < |cols| ==>
        t[i][j].Some? && g[i + 1][j] == MetaCell(t[i][j])
  {
    CompleteRecordsUnchanged(records, cols);
  }

  // ----- all files -----

  /** The two paths `generate_files_for_isin` returns. */
  datatype LegacyPaths = LegacyPaths(metaFile: string, dataFile: string)

  /** The paths of one entry, named after its key. */
  function PathsFor(key: string, monthStr: string, cfg: Config): LegacyPaths {
    LegacyPaths(MonthPath(cfg.metaPattern, cfg.outputDir, key, monthStr), MonthPath(cfg.dataPattern, cfg.outputDir, key, monthStr))
  }

  /** `generate_files_for_isin(isin, isin_data)`. */
  method GenerateFilesForIsin(isin: string, e: Entry, cfg: Config) returns (paths: LegacyPaths)
    requires HasSeries(e.series, cfg)
    ensures paths == PathsFor(isin, e.monthStr, cfg)
  {
    var _, metaFile := CreateMetaFile(isin, e.metadata, e.monthStr, cfg);
    var _, _, dataFile := CreateDataFile(isin, e.series, e.description, e.monthStr, cfg);
    paths := LegacyPaths(metaFile, dataFile);
  }

  /** The expected result of `generate_all_files`: each key with the paths
      named after that key. */
  function AllPaths(parsed: Dict, cfg: Config): (r: seq<(string, LegacyPaths)>)
    ensures |r| == |parsed|
  {
    seq(|parsed|, i requires 0 <= i < |parsed| => (parsed[i].0, PathsFor(parsed[i].0, parsed[i].1.monthStr, cfg)))
  }

  /** `generate_all_files`: the key itself names the files (the entry's
      `isin` field is not consulted). */
  method GenerateAllFiles(parsed: Dict, cfg: Config) returns (filePaths: seq<(string, LegacyPaths)>)
    requires AllHaveSeries(parsed, cfg)
    ensures filePaths == AllPaths(parsed, cfg)
  {
    filePaths := [];
    var n := 0;
    while n < |parsed|
      invariant 0 <= n <= |parsed| && |filePaths| == n
      invariant forall i :: 0 <= i < n ==> filePaths[i] == (parsed[i].0, PathsFor(parsed[i].0, parsed[i].1.monthStr, cfg))
    {
      var (isin, isinData) := parsed[n];
      assert parsed[n] in parsed;
      var paths := GenerateFilesForIsin(isin, isinData, cfg);
      filePaths := filePaths + [(isin, paths)];
      n := n + 1;
    }
  }

  /** One result per key, in order, with the key's own meta and data
      paths; the run never fails, whatever the month strings are. */
  lemma AllPathsPerKey(parsed: Dict, cfg: Config)
    ensures var r := AllPaths(parsed, cfg);
      forall i :: 0 <= i < |parsed| ==>
        r[i].0 == parsed[i].0 &&
        r[i].1.metaFile == MonthPath(cfg.metaPattern, cfg.outputDir, parsed[i].0, parsed[i].1.monthStr) &&
        r[i].1.dataFile == MonthPath(cfg.dataPattern, cfg.outputDir, parsed[i].0, parsed[i].1.monthStr)
  {
  }

  /** Where an entry's `isin` field differs from its key (keys tagged with
      the month), the legacy files are named after the key and the `.xls`
      files after the field. */
  lemma LegacyNamesFollowKey(parsed: Dict, cfg: Config, zipPattern: Pattern, i: nat)
    requires i < |parsed| && parsed[i].1.isin.Some?
    requires FilesFor(IsinOf(parsed[i].0, parsed[i].1), parsed[i].1.monthStr, cfg, zipPattern).Some?
    ensures AllPaths(parsed, cfg)[i].1 == PathsFor(parsed[i].0, parsed[i].1.monthStr, cfg)
    ensures FilesFor(IsinOf(parsed[i].0, parsed[i].1), parsed[i].1.monthStr, cfg, zipPattern).value.isin == parsed[i].1.isin.value
  {
    FilesForSome(IsinOf(parsed[i].0, parsed[i].1), parsed[i].1.monthStr, cfg, zipPattern);
  }
}
