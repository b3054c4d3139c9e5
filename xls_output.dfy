/** The `.xls` generator: per parsed entry a META sheet, a DATA sheet and a
    ZIP holding both, named from the identifier and the last day of the
    entry's month. Workbook bytes and the archive's contents are not
    modelled: a sheet is its cell map, a ZIP its list of entry names. */
module XlsOutput {
  import opened Wrappers
  import opened Text
  import opened Calendar
  import opened Table
  import opened Settings
  import opened Series
  import opened Parse
  import opened Sheet
  import opened DataLayout
  import opened Paths

  /** Python truthiness of a metadata value. */
  predicate Truthy(v: MetaValue) {
    match v
    case MStr(s) => s != ""
    case MNum(x, _) => x != 0.0
    case MBool(b) => b
  }

  /** `value == 0`. */
  predicate IsZero(v: MetaValue) {
    match v
    case MStr(_) => false
    case MNum(x, _) => x == 0.0
    case MBool(b) => !b
  }

  /** `str(value)`. */
  function StrOf(v: MetaValue): string {
    match v
    case MStr(s) => s
    case MNum(_, shown) => shown
    case MBool(b) => if b then "True" else "False"
  }

  /** `metadata.get(col, '')`, with a missing key as None. */
  function Get(row: map<string, MetaValue>, col: string): Option<MetaValue> {
    if col in row then Some(row[col]) else None
  }

  /** One META cell: booleans unchanged, truthy or zero values as `str`,
      anything else (a missing key included) as an empty string. */
  function MetaCell(v: Option<MetaValue>): Out {
    match v
    case None => Text("")
    case Some(x) =>
      if x.MBool? then Bool(x.b)
      else if Truthy(x) || IsZero(x) then Text(StrOf(x))
      else Text("")
  }

  /** The empty-string fallback coincides with `str`: every non-boolean
      value is written as its string form and a missing key as `''`. */
  lemma MetaCellRendering(v: Option<MetaValue>)
    ensures v.None? ==> MetaCell(v) == Text("")
    ensures v.Some? && v.value.MBool? ==> MetaCell(v) == Bool(v.value.b)
    ensures v.Some? && !v.value.MBool? ==> MetaCell(v) == Text(StrOf(v.value))
  {
  }

  /** The header row of the META grid. */
  function HeaderCells(cols: seq<string>): (row: seq<Out>)
    ensures |row| == |cols|
  {
    seq(|cols|, j requires 0 <= j < |cols| => Text(cols[j]))
  }

  /** The row of one metadata dictionary. */
  function MetaCells(metadata: map<string, MetaValue>, cols: seq<string>): (row: seq<Out>)
    ensures |row| == |cols|
  {
    seq(|cols|, j requires 0 <= j < |cols| => MetaCell(Get(metadata, cols[j])))
  }

  /** The META grid: the column names, then one row per metadata row. */
  function MetaGrid(rows: seq<map<string, MetaValue>>, cols: seq<string>): (g: Grid)
    ensures |g| == |rows| + 1
  {
    [HeaderCells(cols)] + seq(|rows|, i requires 0 <= i < |rows| => MetaCells(rows[i], cols))
  }

  /** Row 0 holds the column names in order; row `i + 1` holds metadata
      row `i`, column by column, as its boolean, its string form, or `''`
      for a column the row lacks. */
  lemma MetaGridLayout(rows: seq<map<string, MetaValue>>, cols: seq<string>)
    ensures var g := MetaGrid(rows, cols);
      |g[0]| == |cols| && (forall j :: 0 <= j < |cols| ==> g[0][j] == Text(cols[j])) &&
      forall i, j :: 0 <= i < |rows| && 0 <= j < |cols| ==>
        |g[i + 1]| == |cols| &&
        g[i + 1][j] ==
          if cols[j] !in rows[i] then Text("")
          else if rows[i][cols[j]].MBool? then Bool(rows[i][cols[j]].b)
          else Text(StrOf(rows[i][cols[j]]))
  {
    forall i, j | 0 <= i < |rows| && 0 <= j < |cols| {
      MetaGridCell(rows, cols, i, j);
    }
  }

  lemma MetaGridCell(rows: seq<map<string, MetaValue>>, cols: seq<string>, i: nat, j: nat)
    requires i < |rows| && j < |cols|
    ensures var g := MetaGrid(rows, cols);
      |g[i + 1]| == |cols| &&
      g[i + 1][j] ==
        if cols[j] !in rows[i] then Text("")
        else if rows[i][cols[j]].MBool? then Bool(rows[i][cols[j]].b)
        else Text(StrOf(rows[i][cols[j]]))
  {
    MetaCellRendering(Get(rows[i], cols[j]));
  }

  /** `os.path.join(OUTPUT_DIR, pattern.format(isin=..., timestamp=...))`
      with the last-day timestamp; None where the timestamp raises. */
  function StampedPath(p: Pattern, dir: string, isin: string, monthStr: string): Option<string> {
    match LastDayStamp(monthStr)
    case Some(ts) => Some(Join(dir, Format(p, isin, ts)))
    case None => None
  }

  /** The header loop of `create_meta_file_xls`. */
  method WriteHeader(ws: Worksheet, ghost grid: Grid, cols: seq<string>)
    requires 0 < |grid| && grid[0] == HeaderCells(cols) && Holds(ws.cells, grid, 0, 0)
    modifies ws
    ensures Holds(ws.cells, grid, 1, 0)
  {
    var c := 0;
    while c < |cols|
      invariant 0 <= c <= |cols|
      invariant Holds(ws.cells, grid, 0, c)
    {
      WriteNext(ws, grid, 0, c, Text(cols[c]));
      c := c + 1;
    }
    HoldsRowDone(ws.cells, grid, 0);
  }

  /** The inner loop of `create_meta_file_xls`: one metadata row. */
  method WriteMetaRow(ws: Worksheet, ghost grid: Grid, r: nat, metadata: map<string, MetaValue>, cols: seq<string>)
    requires r < |grid| && grid[r] == MetaCells(metadata, cols) && Holds(ws.cells, grid, r, 0)
    modifies ws
    ensures Holds(ws.cells, grid, r + 1, 0)
  {
    var c := 0;
    while c < |cols|
      invariant 0 <= c <= |cols|
      invariant Holds(ws.cells, grid, r, c)
    {
      var value := Get(metadata, cols[c]);
      var cell: Out;
      if value.Some? && value.value.MBool? {
        cell := Bool(value.value.b);
      } else if value.Some? && (Truthy(value.value) || IsZero(value.value)) {
        cell := Text(StrOf(value.value));
      } else {
        cell := Text("");
      }
      WriteNext(ws, grid, r, c, cell);
      c := c + 1;
    }
    HoldsRowDone(ws.cells, grid, r);
  }

  /** `create_meta_file_xls`: writes the header row and then every
      metadata row, cell by cell. */
  method CreateMetaFileXls(isin: string, rows: seq<map<string, MetaValue>>, monthStr: string, cfg: Config)
    returns (ws: Worksheet, path: Option<string>)
    ensures fresh(ws) && ws.name == "META"
    ensures Shows(ws.cells, MetaGrid(rows, cfg.metaColumns))
    ensures path == StampedPath(cfg.metaPattern, cfg.outputDir, isin, monthStr)
  {
    ghost var grid := MetaGrid(rows, cfg.metaColumns);
    ws := new Worksheet("META");
    WriteHeader(ws, grid, cfg.metaColumns);
    var r := 1;
    while r <= |rows|
      invariant 1 <= r <= |rows| + 1
      invariant Holds(ws.cells, grid, r, 0)
    {
      WriteMetaRow(ws, grid, r, rows[r - 1], cfg.metaColumns);
      r := r + 1;
    }
    path := StampedPath(cfg.metaPattern, cfg.outputDir, isin, monthStr);
  }

  /** The two header rows of the DATA grid, cell by cell. */
  lemma HeaderRowCells(grid: Grid, cfg: Config, isin: string, series: map<string, seq<Point>>, description: string, dates: seq<string>)
    requires HasSeries(series, cfg) && grid == DataRows(cfg, isin, series, description, dates)
    ensures 1 < |grid| && |grid[0]| == |grid[1]| == |cfg.order| + 1 && grid[0][0] == grid[1][0] == Text("")
    ensures forall k :: 0 <= k < |cfg.order| ==> grid[0][k + 1] == Text(Code(cfg, isin, cfg.order[k]))
    ensures forall k :: 0 <= k < |cfg.order| ==> grid[1][k + 1] == Text(SeriesDescription(cfg, isin, description, cfg.order[k]))
  {
    DataRowsHeaders(cfg, isin, series, description, dates);
    DataRowsShape(cfg, isin, series, description, dates);
  }

  /** The code row of `create_data_file_xls`. */
  method WriteCodeRow(ws: Worksheet, ghost grid: Grid, cfg: Config, isin: string)
    requires Valid(cfg) && 0 < |grid| && |grid[0]| == |cfg.order| + 1 && grid[0][0] == Text("")
    requires forall k :: 0 <= k < |cfg.order| ==> grid[0][k + 1] == Text(Code(cfg, isin, cfg.order[k]))
    requires Holds(ws.cells, grid, 0, 0)
    modifies ws
    ensures Holds(ws.cells, grid, 1, 0)
  {
    WriteNext(ws, grid, 0, 0, Text(""));
    var k := 0;
    while k < |cfg.order|
      invariant 0 <= k <= |cfg.order|
      invariant Holds(ws.cells, grid, 0, k + 1)
    {
      WriteNext(ws, grid, 0, k + 1, Text(Code(cfg, isin, cfg.order[k])));
      k := k + 1;
    }
    HoldsRowDone(ws.cells, grid, 0);
  }

  /** The description row of `create_data_file_xls`. */
  method WriteDescriptionRow(ws: Worksheet, ghost grid: Grid, cfg: Config, isin: string, description: string)
    requires Valid(cfg) && 1 < |grid| && |grid[1]| == |cfg.order| + 1 && grid[1][0] == Text("")
    requires forall k :: 0 <= k < |cfg.order| ==> grid[1][k + 1] == Text(SeriesDescription(cfg, isin, description, cfg.order[k]))
    requires Holds(ws.cells, grid, 1, 0)
    modifies ws
    ensures Holds(ws.cells, grid, 2, 0)
  {
    WriteNext(ws, grid, 1, 0, Text(""));
    var k := 0;
    while k < |cfg.order|
      invariant 0 <= k <= |cfg.order|
      invariant Holds(ws.cells, grid, 1, k + 1)
    {
      WriteNext(ws, grid, 1, k + 1, Text(SeriesDescription(cfg, isin, description, cfg.order[k])));
      k := k + 1;
    }
    HoldsRowDone(ws.cells, grid, 1);
  }

  /** One date row of `create_data_file_xls`: the date, then per metric the
      first matching value, or `''` for no match or a NaN/None value. */
  method WriteDateRow(ws: Worksheet, ghost grid: Grid, r: nat, series: map<string, seq<Point>>, cfg: Config, date: string)
    requires HasSeries(series, cfg)
    requires r < |grid| && grid[r] == DateRow(series, cfg, date) && Holds(ws.cells, grid, r, 0)
    modifies ws
    ensures Holds(ws.cells, grid, r + 1, 0)
  {
    WriteNext(ws, grid, r, 0, Text(date));
    var k := 0;
    while k < |cfg.order|
      invariant 0 <= k <= |cfg.order|
      invariant Holds(ws.cells, grid, r, k + 1)
    {
      var tsDf := series[cfg.order[k]];
      var cell := LookupValue(tsDf, date);
      DateCellAt(series, cfg, date, k);
      WriteNext(ws, grid, r, k + 1, cell);
      k := k + 1;
    }
    HoldsRowDone(ws.cells, grid, r);
  }

  /** The date rows of `create_data_file_xls`, one per date in order. */
  method WriteDateRows(ws: Worksheet, ghost grid: Grid, cfg: Config, isin: string, series: map<string, seq<Point>>, description: string, dates: seq<string>)
    requires HasSeries(series, cfg) && grid == DataRows(cfg, isin, series, description, dates)
    requires Holds(ws.cells, grid, 2, 0)
    modifies ws
    ensures Shows(ws.cells, grid)
  {
    var i := 0;
    while i < |dates|
      invariant 0 <= i <= |dates|
      invariant Holds(ws.cells, grid, i + 2, 0)
    {
      assert grid[i + 2] == DateRow(series, cfg, dates[i]);
      WriteDateRow(ws, grid, i + 2, series, cfg, dates[i]);
      i := i + 1;
    }
  }

  /** `create_data_file_xls`: collects and sorts the dates, then writes the
      code row, the description row and one row per date, cell by cell. */
  method CreateDataFileXls(isin: string, series: map<string, seq<Point>>, description: Cell, monthStr: string, cfg: Config)
    returns (ws: Worksheet, dates: seq<string>, path: Option<string>)
    requires HasSeries(series, cfg)
    ensures fresh(ws) && ws.name == "DATA"
    ensures Ascending(dates) && forall x :: x in dates <==> x in AllDates(series)
    ensures Shows(ws.cells, DataRows(cfg, isin, series, Show(description), dates))
    ensures path == StampedPath(cfg.dataPattern, cfg.outputDir, isin, monthStr)
  {
    ws := new Worksheet("DATA");
    dates := SortedDates(series);
    ghost var grid := DataRows(cfg, isin, series, Show(description), dates);
    HeaderRowCells(grid, cfg, isin, series, Show(description), dates);
    WriteCodeRow(ws, grid, cfg, isin);
    WriteDescriptionRow(ws, grid, cfg, isin, Show(description));
    WriteDateRows(ws, grid, cfg, isin, series, Show(description), dates);
    path := StampedPath(cfg.dataPattern, cfg.outputDir, isin, monthStr);
  }

  /** The names a ZIP archive stores its two members under. */
  function ZipEntries(metaFile: string, dataFile: string): (names: seq<string>)
    ensures |names| == 2 && NoSlash(names[0]) && NoSlash(names[1])
  {
    [Basename(metaFile), Basename(dataFile)]
  }

  /** The paths generated for one entry. */
  datatype FilePaths = FilePaths(isin: string, metaFile: string, dataFile: string, zipFile: string, zipEntries: seq<string>)

  /** `create_zip_package`: the archive's path and the names of the META
      and DATA members, in that order. */
  method CreateZipPackage(isin: string, metaFile: string, dataFile: string, monthStr: string, cfg: Config, zipPattern: Pattern)
    returns (zipPath: Option<string>, entries: seq<string>)
    ensures zipPath == StampedPath(zipPattern, cfg.outputDir, isin, monthStr)
    ensures entries == ZipEntries(metaFile, dataFile)
  {
    zipPath := StampedPath(zipPattern, cfg.outputDir, isin, monthStr);
    entries := [];
    entries := entries + [Basename(metaFile)];
    entries := entries + [Basename(dataFile)];
  }

  /** What `generate_files_for_isin` returns for an identifier and month;
      None where the month has no timestamp (the source raises). */
  function FilesFor(isin: string, monthStr: string, cfg: Config, zipPattern: Pattern): Option<FilePaths> {
    match LastDayStamp(monthStr)
    case None => None
    case Some(ts) =>
      var meta := Join(cfg.outputDir, Format(cfg.metaPattern, isin, ts));
      var data := Join(cfg.outputDir, Format(cfg.dataPattern, isin, ts));
      Some(FilePaths(isin, meta, data, Join(cfg.outputDir, Format(zipPattern, isin, ts)), ZipEntries(meta, data)))
  }

  /** The archive holds the formatted META name, then the formatted DATA
      name, whenever those names contain no separator. */
  lemma ZipHoldsBothFiles(isin: string, monthStr: string, cfg: Config, zipPattern: Pattern)
    requires LastDayStamp(monthStr).Some?
    ensures var ts := LastDayStamp(monthStr).value; var r := FilesFor(isin, monthStr, cfg, zipPattern);
      NoSlash(Format(cfg.metaPattern, isin, ts)) && NoSlash(Format(cfg.dataPattern, isin, ts)) ==>
        r.Some? && r.value.zipEntries == [Format(cfg.metaPattern, isin, ts), Format(cfg.dataPattern, isin, ts)]
  {
    var ts := LastDayStamp(monthStr).value;
    var m, d := Format(cfg.metaPattern, isin, ts), Format(cfg.dataPattern, isin, ts);
    if NoSlash(m) && NoSlash(d) {
      BasenameJoin(cfg.outputDir, m);
      BasenameJoin(cfg.outputDir, d);
    }
  }

  /** The file names depend on the identifier and the month only, and
      differ for different identifiers or different stamps. */
  lemma FileNamesDistinct(a: string, b: string, m1: string, m2: string, cfg: Config, zipPattern: Pattern)
    requires FilesFor(a, m1, cfg, zipPattern).Some? && FilesFor(b, m2, cfg, zipPattern).Some?
    requires FilesFor(a, m1, cfg, zipPattern).value.dataFile == FilesFor(b, m2, cfg, zipPattern).value.dataFile
    requires NoSlash(cfg.dataPattern.head) && NoSlash(cfg.dataPattern.middle) && NoSlash(a) && NoSlash(b)
    ensures a == b && LastDayStamp(m1) == LastDayStamp(m2)
  {
    var s, t := LastDayStamp(m1).value, LastDayStamp(m2).value;
    var x, y := Format(cfg.dataPattern, a, s), Format(cfg.dataPattern, b, t);
    StampedNameRelative(cfg.dataPattern, a, s);
    StampedNameRelative(cfg.dataPattern, b, t);
    assert Join(cfg.outputDir, x) == Join(cfg.outputDir, y);
    JoinInjective(cfg.outputDir, x, y);
    FormatInjective(cfg.dataPattern, a, b, s, t);
  }

  /** A name formatted from separator-free parts and a stamp of digits
      does not start at the root. */
  lemma StampedNameRelative(p: Pattern, isin: string, ts: string)
    requires NoSlash(p.head) && NoSlash(p.middle) && NoSlash(isin)
    requires |ts| == 8 && AllDigits(ts)
    ensures Relative(Format(p, isin, ts))
  {
    var x := Format(p, isin, ts);
    var pre := p.head + isin + p.middle;
    assert x == pre + ts + p.tail;
    if pre == [] {
      assert x[0] == ts[0];
    } else {
      assert x[0] == pre[0];
      if p.head != [] { assert pre[0] == p.head[0]; }
      else if isin != [] { assert pre[0] == isin[0]; }
      else { assert pre[0] == p.middle[0]; }
    }
  }

  /** `generate_files_for_isin`. */
  method GenerateFilesForIsin(isin: string, e: Entry, cfg: Config, zipPattern: Pattern) returns (r: Option<FilePaths>)
    requires HasSeries(e.series, cfg)
    ensures r == FilesFor(isin, e.monthStr, cfg, zipPattern)
  {
    var _, metaFile := CreateMetaFileXls(isin, e.metadata, e.monthStr, cfg);
    var _, _, dataFile := CreateDataFileXls(isin, e.series, e.description, e.monthStr, cfg);
    if metaFile.None? || dataFile.None? {
      return None;
    }
    var zipFile, entries := CreateZipPackage(isin, metaFile.value, dataFile.value, e.monthStr, cfg, zipPattern);
    if zipFile.None? {
      return None;
    }
    r := Some(FilePaths(isin, metaFile.value, dataFile.value, zipFile.value, entries));
  }

  /** The identifier of an entry: its `isin` field when present, else its key. */
  function IsinOf(key: string, e: Entry): string {
    if e.isin.Some? then e.isin.value else key
  }

  /** Pairs each of the first `n` keys with its result; None as soon as one
      result is None (an exception ends the loop). */
  function Collect<T>(keys: seq<string>, rs: seq<Option<T>>, n: nat): (r: Option<seq<(string, T)>>)
    requires n <= |keys| && n <= |rs|
    ensures r.Some? ==> |r.value| == n
  {
    if n == 0 then Some([])
    else
      match Collect(keys, rs, n - 1)
      case None => None
      case Some(done) =>
        match rs[n - 1]
        case None => None
        case Some(v) => Some(done + [(keys[n - 1], v)])
  }

  lemma CollectStep<T>(keys: seq<string>, rs: seq<Option<T>>, n: nat, done: seq<(string, T)>, v: T)
    requires n < |keys| && n < |rs| && Collect(keys, rs, n) == Some(done) && rs[n] == Some(v)
    ensures Collect(keys, rs, n + 1) == Some(done + [(keys[n], v)])
  {
  }

  /** Once a result is None, the collection is None. */
  lemma {:induction false} CollectNoneSticks<T>(keys: seq<string>, rs: seq<Option<T>>, n: nat, m: nat)
    requires n <= m <= |keys| && m <= |rs| && Collect(keys, rs, n).None?
    ensures Collect(keys, rs, m).None?
  {
    if n < m {
      CollectNoneSticks(keys, rs, n, m - 1);
    }
  }

  /** A None result makes every longer collection None. */
  lemma CollectFails<T>(keys: seq<string>, rs: seq<Option<T>>, n: nat, m: nat)
    requires n < m <= |keys| && m <= |rs| && rs[n].None?
    ensures Collect(keys, rs, m).None?
  {
    CollectNoneSticks(keys, rs, n + 1, m);
  }

  /** The collection fails exactly when some result is None, and otherwise
      pairs every key with its result, in order. */
  lemma {:induction false} CollectPerKey<T>(keys: seq<string>, rs: seq<Option<T>>, n: nat)
    requires n <= |keys| && n <= |rs|
    ensures var r := Collect(keys, rs, n);
      (r.None? <==> exists i :: 0 <= i < n && rs[i].None?) &&
      (r.Some? ==> forall i :: 0 <= i < n ==> rs[i].Some? && r.value[i] == (keys[i], rs[i].value))
  {
    if n > 0 {
      CollectPerKey(keys, rs, n - 1);
    }
  }

  /** `f` applied to each of the first `n` elements of `s`. */
  function MapPrefix<A, B>(f: A -> B, s: seq<A>, n: nat): (r: seq<B>)
    requires n <= |s|
    ensures |r| == n
  {
    if n == 0 then [] else MapPrefix(f, s, n - 1) + [f(s[n - 1])]
  }

  lemma {:induction false} MapPrefixAt<A, B>(f: A -> B, s: seq<A>, n: nat, i: nat)
    requires i < n <= |s|
    ensures MapPrefix(f, s, n)[i] == f(s[i])
  {
    if i < n - 1 {
      MapPrefixAt(f, s, n - 1, i);
    }
  }

  /** The result of `generate_files_for_isin` for one entry of the parsed
      dictionary. */
  function EntryFiles(cfg: Config, zipPattern: Pattern): ((string, Entry)) -> Option<FilePaths> {
    (p: (string, Entry)) => FilesFor(IsinOf(p.0, p.1), p.1.monthStr, cfg, zipPattern)
  }

  /** The result of `generate_files_for_isin` for each entry, in order. */
  function FilesOf(parsed: Dict, cfg: Config, zipPattern: Pattern): (fs: seq<Option<FilePaths>>)
    ensures |fs| == |parsed|
  {
    MapPrefix(EntryFiles(cfg, zipPattern), parsed, |parsed|)
  }

  lemma FilesOfAt(parsed: Dict, i: nat, cfg: Config, zipPattern: Pattern)
    requires i < |parsed|
    ensures FilesOf(parsed, cfg, zipPattern)[i] ==
      FilesFor(IsinOf(parsed[i].0, parsed[i].1), parsed[i].1.monthStr, cfg, zipPattern)
  {
    MapPrefixAt(EntryFiles(cfg, zipPattern), parsed, |parsed|, i);
  }

  predicate AllHaveSeries(parsed: Dict, cfg: Config) {
    forall p :: p in parsed ==> HasSeries(p.1.series, cfg)
  }

  /** The body of the `generate_all_files` loop for one key: the
      identifier is the entry's `isin` field when present, else the key. */
  method GenerateEntryFiles(parsed: Dict, n: nat, cfg: Config, zipPattern: Pattern) returns (files: Option<FilePaths>)
    requires n < |parsed| && AllHaveSeries(parsed, cfg)
    ensures files == FilesOf(parsed, cfg, zipPattern)[n]
  {
    assert parsed[n] in parsed;
    FilesOfAt(parsed, n, cfg, zipPattern);
    var (dataKey, isinData) := parsed[n];
    var isin := if isinData.isin.Some? then isinData.isin.value else dataKey;
    files := GenerateFilesForIsin(isin, isinData, cfg, zipPattern);
  }

  /** `generate_all_files`: one result per key of the parsed dictionary
      (whose keys are distinct), in its order. */
  method GenerateAllFiles(parsed: Dict, cfg: Config, zipPattern: Pattern) returns (r: Option<seq<(string, FilePaths)>>)
    requires AllHaveSeries(parsed, cfg)
    ensures r == Collect(Keys(parsed), FilesOf(parsed, cfg, zipPattern), |parsed|)
  {
    ghost var keys, fs := Keys(parsed), FilesOf(parsed, cfg, zipPattern);
    var filePaths: seq<(string, FilePaths)> := [];
    var n := 0;
    while n < |parsed|
      invariant 0 <= n <= |parsed|
      invariant Collect(keys, fs, n) == Some(filePaths)
    {
      var files := GenerateEntryFiles(parsed, n, cfg, zipPattern);
      if files.None? {
        CollectFails(keys, fs, n, |parsed|);
        return None;
      }
      var key := parsed[n].0;
      assert keys[n] == key;
      CollectStep(keys, fs, n, filePaths, files.value);
      filePaths := filePaths + [(key, files.value)];
      n := n + 1;
    }
    r := Some(filePaths);
  }

  lemma FilesForSome(isin: string, monthStr: string, cfg: Config, zipPattern: Pattern)
    ensures FilesFor(isin, monthStr, cfg, zipPattern).Some? <==> LastDayStamp(monthStr).Some?
    ensures FilesFor(isin, monthStr, cfg, zipPattern).Some? ==> FilesFor(isin, monthStr, cfg, zipPattern).value.isin == isin
  {
  }

  /** The result of each entry is present exactly when its month has a
      timestamp, and then names the entry's identifier. */
  lemma FilesOfEntries(parsed: Dict, cfg: Config, zipPattern: Pattern)
    ensures var fs := FilesOf(parsed, cfg, zipPattern);
      forall i :: 0 <= i < |parsed| ==>
        (fs[i].Some? <==> LastDayStamp(parsed[i].1.monthStr).Some?) &&
        (fs[i].Some? ==> fs[i].value.isin == IsinOf(parsed[i].0, parsed[i].1))
  {
    var fs := FilesOf(parsed, cfg, zipPattern);
    forall i | 0 <= i < |parsed|
      ensures fs[i].Some? <==> LastDayStamp(parsed[i].1.monthStr).Some?
      ensures fs[i].Some? ==> fs[i].value.isin == IsinOf(parsed[i].0, parsed[i].1)
    {
      FilesOfAt(parsed, i, cfg, zipPattern);
      FilesForSome(IsinOf(parsed[i].0, parsed[i].1), parsed[i].1.monthStr, cfg, zipPattern);
    }
  }

  /** The run fails exactly when some entry's month has no timestamp. */
  lemma AllFilesFail(parsed: Dict, cfg: Config, zipPattern: Pattern)
    ensures Collect(Keys(parsed), FilesOf(parsed, cfg, zipPattern), |parsed|).None? <==>
      exists i :: 0 <= i < |parsed| && LastDayStamp(parsed[i].1.monthStr).None?
  {
    var fs := FilesOf(parsed, cfg, zipPattern);
    CollectPerKey(Keys(parsed), fs, |parsed|);
    if Collect(Keys(parsed), fs, |parsed|).None? {
      var i :| 0 <= i < |parsed| && fs[i].None?;
      FilesOfAt(parsed, i, cfg, zipPattern);
      FilesForSome(IsinOf(parsed[i].0, parsed[i].1), parsed[i].1.monthStr, cfg, zipPattern);
    }
    if exists i :: 0 <= i < |parsed| && LastDayStamp(parsed[i].1.monthStr).None? {
      var i :| 0 <= i < |parsed| && LastDayStamp(parsed[i].1.monthStr).None?;
      FilesOfAt(parsed, i, cfg, zipPattern);
      FilesForSome(IsinOf(parsed[i].0, parsed[i].1), parsed[i].1.monthStr, cfg, zipPattern);
    }
  }

  /** Every key gets its entry's files: one result per key, in order, named
      from the entry's identifier (its `isin` field, else the key) and
      its month. */
  lemma AllFilesPerKey(parsed: Dict, cfg: Config, zipPattern: Pattern)
    ensures var r := Collect(Keys(parsed), FilesOf(parsed, cfg, zipPattern), |parsed|);
      r.Some? ==> |r.value| == |parsed| && forall i :: 0 <= i < |parsed| ==>
        r.value[i].0 == parsed[i].0 &&
        Some(r.value[i].1) == FilesFor(IsinOf(parsed[i].0, parsed[i].1), parsed[i].1.monthStr, cfg, zipPattern)
  {
    var fs := FilesOf(parsed, cfg, zipPattern);
    var r := Collect(Keys(parsed), fs, |parsed|);
    CollectPerKey(Keys(parsed), fs, |parsed|);
    if r.Some? {
      forall i | 0 <= i < |parsed|
        ensures r.value[i].0 == parsed[i].0
        ensures Some(r.value[i].1) == FilesFor(IsinOf(parsed[i].0, parsed[i].1), parsed[i].1.monthStr, cfg, zipPattern)
      {
        assert r.value[i] == (Keys(parsed)[i], fs[i].value);
        FilesOfAt(parsed, i, cfg, zipPattern);
      }
    }
  }

  /** An entry whose month string is empty (a sheet without valid dates)
      makes the whole generation raise. */
  lemma UndatedEntryFails(parsed: Dict, cfg: Config, zipPattern: Pattern)
    requires exists i :: 0 <= i < |parsed| && parsed[i].1.monthStr == ""
    ensures Collect(Keys(parsed), FilesOf(parsed, cfg, zipPattern), |parsed|).None?
  {
    var i :| 0 <= i < |parsed| && parsed[i].1.monthStr == "";
    assert Split("", '-') == [""];
    assert LastDayStamp(parsed[i].1.monthStr).None?;
    AllFilesFail(parsed, cfg, zipPattern);
  }
}
