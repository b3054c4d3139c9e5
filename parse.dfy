/** `parse_auction_data` after the spreadsheet has been read: drop the three
    leading rows and the empty rows, clean the identifier column, select the
    month(s), and build one entry per identifier (per month in all-months
    mode) holding its description, five time series and five metadata rows.
    Every exception the source catches makes the result None. */
module Parse {
  import opened Wrappers
  import opened Text
  import opened Calendar
  import opened Table
  import opened Settings
  import opened IsinFilter
  import opened Months
  import opened Series

  /** One value of the parsed dictionary; `isin` is only stored in
      all-months mode. */
  datatype Entry = Entry(
    isin: Option<string>,
    description: Cell,
    series: map<string, seq<Point>>,
    metadata: seq<map<string, MetaValue>>,
    monthStr: string)

  /** A Python dict, in insertion order. */
  type Dict = seq<(string, Entry)>

  function Keys(d: Dict): (ks: seq<string>)
    ensures |ks| == |d| && forall i :: 0 <= i < |d| ==> ks[i] == d[i].0
  {
    seq(|d|, i requires 0 <= i < |d| => d[i].0)
  }

  function Find(d: Dict, k: string): (r: Option<nat>)
    ensures r.Some? ==> r.value < |d| && d[r.value].0 == k
    ensures r.None? ==> k !in Keys(d)
  {
    if d == [] then None
    else if d[0].0 == k then Some(0)
    else match Find(d[1..], k)
      case Some(i) => Some(i + 1)
      case None =>
        assert Keys(d) == [d[0].0] + Keys(d[1..]);
        None
  }

  /** `d.get(k)`. */
  function Lookup(d: Dict, k: string): Option<Entry> {
    match Find(d, k)
    case Some(i) => Some(d[i].1)
    case None => None
  }

  /** `d[k] = v`: replaces the value in place when the key exists, appends
      otherwise. */
  function Put(d: Dict, k: string, v: Entry): Dict {
    match Find(d, k)
    case Some(i) => d[i := (k, v)]
    case None => d + [(k, v)]
  }

  /** The dictionary laws: a stored key reads back its value and every
      other key reads as before. */
  lemma PutLookup(d: Dict, k: string, v: Entry)
    ensures Lookup(Put(d, k, v), k) == Some(v)
    ensures forall key :: key != k ==> Lookup(Put(d, k, v), key) == Lookup(d, key)
  {
    match Find(d, k) {
      case Some(i) => FindReplace(d, i, k, v);
      case None => FindAppend(d, k, v);
    }
  }

  /** Storing adds exactly its key, and never stores a key twice. */
  lemma PutKeys(d: Dict, k: string, v: Entry)
    ensures Distinct(Keys(d)) ==> Distinct(Keys(Put(d, k, v)))
    ensures forall key :: key in Keys(Put(d, k, v)) <==> key in Keys(d) || key == k
  {
    var r := Put(d, k, v);
    match Find(d, k) {
      case Some(i) =>
        assert Keys(r) == Keys(d);
      case None =>
        assert Keys(r) == Keys(d) + [k];
    }
  }

  /** Storing keeps the old pairs, except the one it replaces, and adds
      the new one. */
  lemma PutValues(d: Dict, k: string, v: Entry)
    ensures forall p :: p in Put(d, k, v) ==> p in d || p == (k, v)
  {
    match Find(d, k) {
      case Some(i) =>
        forall p | p in d[i := (k, v)] ensures p in d || p == (k, v) {
          var j :| 0 <= j < |d| && d[i := (k, v)][j] == p;
          if j != i { assert d[j] == p; }
        }
      case None =>
    }
  }

  lemma {:induction false} FindReplace(d: Dict, i: nat, k: string, v: Entry)
    requires Find(d, k) == Some(i)
    ensures forall key :: Find(d[i := (k, v)], key) == Find(d, key)
  {
    if i > 0 {
      FindReplace(d[1..], i - 1, k, v);
      assert d[i := (k, v)][1..] == d[1..][i - 1 := (k, v)];
    }
  }

  lemma {:induction false} FindAppend(d: Dict, k: string, v: Entry)
    requires k !in Keys(d)
    ensures Find(d + [(k, v)], k) == Some(|d|)
    ensures forall key :: key != k ==> Find(d + [(k, v)], key) == Find(d, key)
  {
    if d != [] {
      assert Keys(d) == [d[0].0] + Keys(d[1..]);
      assert (d + [(k, v)])[1..] == d[1..] + [(k, v)];
      FindAppend(d[1..], k, v);
    }
  }

  /** A frame whose date column holds valid dates. */
  predicate Dateable(g: Frame) {
    Rect(g) && IndexOf(g.headers, "data asta").Some? && AllDated(g.rows, IndexOf(g.headers, "data asta").value)
  }

  /** A frame the per-identifier steps can run on. */
  predicate Ready(g: Frame) {
    Dateable(g) && IndexOf(g.headers, "ISIN").Some?
  }

  /** The tagged frame and every period selection of it keep valid dates
      in the `data asta` column. */
  lemma TaggedDateable(df: Frame, k: nat)
    requires Rect(df) && DateColumn(df.headers) == Some(k) && Dated(df, k).rows != []
    ensures var w := WithMonth(Dated(df, k), k);
      Dateable(w) && Dateable(Frame(w.headers, [])) &&
      forall m :: Dateable(InMonth(w, IndexOf(w.headers, "month").value, m))
  {
    var h := Dated(df, k);
    var w := WithMonth(h, k);
    var mk := IndexOf(w.headers, "month").value;
    assert IndexOf(h.headers, "data asta") == Some(k) by {
      forall i | 0 <= i < k ensures h.headers[i] != "data asta" {
        assert h.headers[i] == df.headers[i];
      }
    }
    IndexOfPrefix(h.headers, w.headers, "data asta");
    assert Dateable(w);
    forall m ensures Dateable(InMonth(w, mk, m)) {
      var g := InMonth(w, mk, m);
      forall i | 0 <= i < |g.rows| ensures k < |g.rows[i]| && AsDate(g.rows[i][k]).Some? {
        assert g.rows[i] in g.rows;
        InMonthMember(w, mk, m, g.rows[i]);
      }
    }
  }

  /** Every frame `get_month_data` hands on has its valid-date column. */
  lemma MonthFramesDateable(df: Frame, target: Option<(int, int)>, processAll: bool)
    requires Rect(df)
    ensures match GetMonthData(df, target, processAll)
      case AllMonths(bs) => forall j :: 0 <= j < |bs| ==> Dateable(bs[j].1)
      case OneMonth(g, _) => |g.rows| > 0 && IndexOf(g.headers, "ISIN").Some? ==> Dateable(g)
      case Raised => true
  {
    if processAll {
      BucketsDateable(df, target);
    } else {
      SelectedDateable(df, target);
    }
  }

  lemma BucketsDateable(df: Frame, target: Option<(int, int)>)
    requires Rect(df)
    ensures var r := GetMonthData(df, target, true);
      r.AllMonths? && forall j :: 0 <= j < |r.buckets| ==> Dateable(r.buckets[j].1)
  {
    match DateColumn(df.headers) {
      case None =>
      case Some(k) =>
        var h := Dated(df, k);
        if h.rows != [] {
          TaggedDateable(df, k);
        }
    }
  }

  lemma SelectedDateable(df: Frame, target: Option<(int, int)>)
    requires Rect(df)
    ensures match GetMonthData(df, target, false)
      case OneMonth(g, _) => |g.rows| > 0 && IndexOf(g.headers, "ISIN").Some? ==> Dateable(g)
      case _ => true
  {
    match DateColumn(df.headers) {
      case None =>
      case Some(k) =>
        var h := Dated(df, k);
        if h.rows != [] {
          TaggedDateable(df, k);
        }
    }
  }

  function IsinCol(g: Frame): nat requires Ready(g) { IndexOf(g.headers, "ISIN").value }
  function DateCol(g: Frame): nat requires Ready(g) { IndexOf(g.headers, "data asta").value }

  /** The time series of all metrics, keyed by metric. */
  function SeriesMap(g: Frame, cfg: Config): (m: map<string, seq<Point>>)
    requires Rect(g) && IndexOf(g.headers, "date_str").Some? && Valid(cfg)
    ensures m.Keys == set t | t in cfg.order
  {
    map t | t in cfg.order :: SeriesFor(g, cfg, t)
  }

  /** The metadata rows of all metrics, in metric order. */
  function MetadataRows(cfg: Config, isin: string, description: string): (rows: seq<map<string, MetaValue>>)
    requires Valid(cfg)
    ensures |rows| == |cfg.order|
  {
    seq(|cfg.order|, n requires 0 <= n < |cfg.order| => MetadataRow(cfg, isin, description, cfg.order[n]))
  }

  /** The entry of one identifier of a month's frame. */
  function EntryFor(g: Frame, isin: Cell, monthStr: string, cfg: Config, tagged: bool): (e: Entry)
    requires Ready(g) && Valid(cfg) && isin in UniqueIsins(g, IsinCol(g))
    ensures e.monthStr == monthStr && e.series.Keys == (set t | t in cfg.order) && |e.metadata| == |cfg.order|
    ensures e.isin == if tagged then Some(Show(isin)) else None
  {
    var p := PrepareIsinData(g, IsinCol(g), DateCol(g), isin);
    Entry(if tagged then Some(Show(isin)) else None, p.description,
      SeriesMap(p.frame, cfg), MetadataRows(cfg, Show(isin), Show(p.description)), monthStr)
  }

  /** The dictionary key: the identifier, suffixed with `_` and the month in
      all-months mode. */
  function Key(isin: Cell, monthStr: string, tagged: bool): string {
    if tagged then Show(isin) + "_" + monthStr else Show(isin)
  }

  /** The distinct identifiers of a frame, in order of first appearance. */
  function Isins(g: Frame): seq<Cell>
    requires Ready(g)
  {
    UniqueIsins(g, IsinCol(g))
  }

  /** The keys of a frame's identifiers, in loop order. */
  function IsinKeys(g: Frame, monthStr: string, tagged: bool): (ks: seq<string>)
    requires Ready(g)
    ensures |ks| == |Isins(g)|
  {
    seq(|Isins(g)|, i requires 0 <= i < |Isins(g)| => Key(Isins(g)[i], monthStr, tagged))
  }

  /** What the identifier loop stores, in loop order: each identifier's key
      and entry. */
  function Entries(g: Frame, monthStr: string, cfg: Config, tagged: bool): (kvs: Dict)
    requires Ready(g) && Valid(cfg)
    ensures |kvs| == |Isins(g)|
  {
    seq(|Isins(g)|, i requires 0 <= i < |Isins(g)| =>
      (Key(Isins(g)[i], monthStr, tagged), EntryFor(g, Isins(g)[i], monthStr, cfg, tagged)))
  }


  lemma EntriesKeys(g: Frame, monthStr: string, cfg: Config, tagged: bool)
    requires Ready(g) && Valid(cfg)
    ensures Keys(Entries(g, monthStr, cfg, tagged)) == IsinKeys(g, monthStr, tagged)
  {
  }

  /** `for k, v in kvs[:n]: d[k] = v`. */
  function PutAll(d: Dict, kvs: Dict, n: nat): Dict
    requires n <= |kvs|
  {
    if n == 0 then d else Put(PutAll(d, kvs, n - 1), kvs[n - 1].0, kvs[n - 1].1)
  }

  /** Storing a list of pairs adds exactly their keys, and never stores a
      key twice. */
  lemma {:induction false} PutAllKeys(d: Dict, kvs: Dict, n: nat)
    requires n <= |kvs|
    ensures forall key :: key in Keys(PutAll(d, kvs, n)) <==> key in Keys(d) || key in Keys(kvs[..n])
    ensures Distinct(Keys(d)) ==> Distinct(Keys(PutAll(d, kvs, n)))
  {
    if n > 0 {
      PutAllKeys(d, kvs, n - 1);
      assert Keys(kvs[..n]) == Keys(kvs[..n - 1]) + [kvs[n - 1].0];
      PutKeys(PutAll(d, kvs, n - 1), kvs[n - 1].0, kvs[n - 1].1);
    }
  }

  /** With distinct keys nothing is overwritten: every stored pair reads
      back its own value. */
  lemma {:induction false} PutAllLookup(d: Dict, kvs: Dict, n: nat)
    requires n <= |kvs| && Distinct(Keys(kvs))
    ensures forall i :: 0 <= i < n ==> Lookup(PutAll(d, kvs, n), kvs[i].0) == Some(kvs[i].1)
  {
    if n > 0 {
      PutAllLookup(d, kvs, n - 1);
      PutLookup(PutAll(d, kvs, n - 1), kvs[n - 1].0, kvs[n - 1].1);
      forall i | 0 <= i < n - 1 ensures kvs[i].0 != kvs[n - 1].0 {
        assert Keys(kvs)[i] == kvs[i].0 && Keys(kvs)[n - 1] == kvs[n - 1].0;
      }
    }
  }

  /** Several lists of pairs stored one list after another. */
  function PutGroups(d: Dict, groups: seq<Dict>, n: nat): Dict
    requires n <= |groups|
  {
    if n == 0 then d else PutAll(PutGroups(d, groups, n - 1), groups[n - 1], |groups[n - 1]|)
  }

  /** Only the first `n` lists matter. */
  lemma {:induction false} PutGroupsPrefix(d: Dict, groups: seq<Dict>, other: seq<Dict>, n: nat)
    requires n <= |groups| && n <= |other| && groups[..n] == other[..n]
    ensures PutGroups(d, groups, n) == PutGroups(d, other, n)
  {
    if n > 0 {
      assert groups[n - 1] == groups[..n][n - 1] == other[n - 1];
      assert groups[..n - 1] == groups[..n][..n - 1];
      assert other[..n - 1] == other[..n][..n - 1];
      PutGroupsPrefix(d, groups, other, n - 1);
    }
  }

  /** Storing several lists adds exactly their keys, and never stores a key
      twice. */
  lemma {:induction false} PutGroupsKeys(d: Dict, groups: seq<Dict>, n: nat)
    requires n <= |groups|
    ensures forall key :: key in Keys(PutGroups(d, groups, n)) <==>
      key in Keys(d) || exists j :: 0 <= j < n && key in Keys(groups[j])
    ensures Distinct(Keys(d)) ==> Distinct(Keys(PutGroups(d, groups, n)))
  {
    if n > 0 {
      var prev := PutGroups(d, groups, n - 1);
      PutGroupsKeys(d, groups, n - 1);
      PutAllKeys(prev, groups[n - 1], |groups[n - 1]|);
      assert groups[n - 1][..|groups[n - 1]|] == groups[n - 1];
    }
  }

  /** Every pair a list of pairs leaves behind was there before or is one
      of the list's. */
  lemma {:induction false} PutAllValues(d: Dict, kvs: Dict, n: nat)
    requires n <= |kvs|
    ensures forall p :: p in PutAll(d, kvs, n) ==> p in d || p in kvs
  {
    if n > 0 {
      PutAllValues(d, kvs, n - 1);
      PutValues(PutAll(d, kvs, n - 1), kvs[n - 1].0, kvs[n - 1].1);
    }
  }

  /** Every pair several lists leave behind was there before or is one of a
      list's. */
  lemma {:induction false} PutGroupsValues(d: Dict, groups: seq<Dict>, n: nat)
    requires n <= |groups|
    ensures forall p :: p in PutGroups(d, groups, n) ==> p in d || exists j :: 0 <= j < n && p in groups[j]
  {
    if n > 0 {
      PutGroupsValues(d, groups, n - 1);
      PutAllValues(PutGroups(d, groups, n - 1), groups[n - 1], |groups[n - 1]|);
    }
  }

  /** One more round of the identifier loop stores the next identifier's
      entry under its key. */
  lemma PutAllStep(d: Dict, g: Frame, m: nat, monthStr: string, cfg: Config, tagged: bool)
    requires Ready(g) && Valid(cfg) && m < |Isins(g)|
    ensures PutAll(d, Entries(g, monthStr, cfg, tagged), m + 1) ==
      Put(PutAll(d, Entries(g, monthStr, cfg, tagged), m), Key(Isins(g)[m], monthStr, tagged), EntryFor(g, Isins(g)[m], monthStr, cfg, tagged))
  {
    assert Entries(g, monthStr, cfg, tagged)[m] == (Key(Isins(g)[m], monthStr, tagged), EntryFor(g, Isins(g)[m], monthStr, cfg, tagged));
  }

  /** The identifier loop over one frame. */
  function AddIsins(d: Dict, g: Frame, monthStr: string, cfg: Config, tagged: bool): Dict
    requires Ready(g) && Valid(cfg)
  {
    PutAll(d, Entries(g, monthStr, cfg, tagged), |Isins(g)|)
  }

  /** The identifier loop adds exactly the identifiers' keys, and never
      stores a key twice. */
  lemma AddIsinsKeys(d: Dict, g: Frame, monthStr: string, cfg: Config, tagged: bool)
    requires Ready(g) && Valid(cfg)
    ensures forall key :: key in Keys(AddIsins(d, g, monthStr, cfg, tagged)) <==>
      key in Keys(d) || key in IsinKeys(g, monthStr, tagged)
    ensures Distinct(Keys(d)) ==> Distinct(Keys(AddIsins(d, g, monthStr, cfg, tagged)))
  {
    var kvs := Entries(g, monthStr, cfg, tagged);
    EntriesKeys(g, monthStr, cfg, tagged);
    PutAllKeys(d, kvs, |kvs|);
    assert kvs[..|kvs|] == kvs;
  }

  /** When the identifiers' keys differ, each identifier's entry is found
      under its key. */
  lemma AddIsinsLookup(d: Dict, g: Frame, monthStr: string, cfg: Config, tagged: bool)
    requires Ready(g) && Valid(cfg) && Distinct(IsinKeys(g, monthStr, tagged))
    ensures forall i :: 0 <= i < |Isins(g)| ==>
      Lookup(AddIsins(d, g, monthStr, cfg, tagged), Key(Isins(g)[i], monthStr, tagged)) ==
      Some(EntryFor(g, Isins(g)[i], monthStr, cfg, tagged))
  {
    var kvs := Entries(g, monthStr, cfg, tagged);
    EntriesKeys(g, monthStr, cfg, tagged);
    PutAllLookup(d, kvs, |kvs|);
    var r := AddIsins(d, g, monthStr, cfg, tagged);
    forall i | 0 <= i < |Isins(g)|
      ensures Lookup(r, Key(Isins(g)[i], monthStr, tagged)) == Some(EntryFor(g, Isins(g)[i], monthStr, cfg, tagged))
    {
      assert kvs[i] == (Key(Isins(g)[i], monthStr, tagged), EntryFor(g, Isins(g)[i], monthStr, cfg, tagged));
    }
  }

  /** The first `n` buckets can be processed: each has its valid dates, and
      each with rows has an `ISIN` column. */
  predicate BucketsReady(bs: seq<(string, Frame)>, n: nat) {
    n <= |bs| &&
    forall j :: 0 <= j < n ==> Dateable(bs[j].1) && (|bs[j].1.rows| == 0 || IndexOf(bs[j].1.headers, "ISIN").Some?)
  }

  /** What each of the first `n` buckets stores: nothing when it has no
      rows, else its identifiers' entries keyed with its month. */
  function Groups(bs: seq<(string, Frame)>, n: nat, cfg: Config): (gs: seq<Dict>)
    requires BucketsReady(bs, n) && Valid(cfg)
    ensures |gs| == n
  {
    seq(n, j requires 0 <= j < n => if |bs[j].1.rows| == 0 then [] else Entries(bs[j].1, bs[j].0, cfg, true))
  }

  /** The loop over the month buckets after `n` rounds. */
  function AddBuckets(d: Dict, bs: seq<(string, Frame)>, n: nat, cfg: Config): Dict
    requires BucketsReady(bs, n) && Valid(cfg)
  {
    PutGroups(d, Groups(bs, n, cfg), n)
  }

  /** One more round of the bucket loop adds the next bucket's entries,
      unless it has no rows. */
  lemma AddBucketsStep(bs: seq<(string, Frame)>, j: nat, cfg: Config)
    requires Valid(cfg) && BucketsReady(bs, j) && j < |bs| && Dateable(bs[j].1)
    requires |bs[j].1.rows| == 0 || IndexOf(bs[j].1.headers, "ISIN").Some?
    ensures BucketsReady(bs, j + 1)
    ensures AddBuckets([], bs, j + 1, cfg) ==
      if |bs[j].1.rows| == 0 then AddBuckets([], bs, j, cfg) else AddIsins(AddBuckets([], bs, j, cfg), bs[j].1, bs[j].0, cfg, true)
  {
    var long, short := Groups(bs, j + 1, cfg), Groups(bs, j, cfg);
    assert long[..j] == short[..j];
    PutGroupsPrefix([], long, short, j);
    if |bs[j].1.rows| == 0 {
      assert long[j] == [];
    } else {
      assert long[j] == Entries(bs[j].1, bs[j].0, cfg, true);
    }
  }

  /** The all-months keys: every key is `identifier_month` for an identifier
      of a bucket with rows, no key is stored twice, and every identifier of
      every such bucket has its key. */
  lemma AddBucketsKeys(bs: seq<(string, Frame)>, n: nat, cfg: Config)
    requires BucketsReady(bs, n) && Valid(cfg)
    ensures Distinct(Keys(AddBuckets([], bs, n, cfg)))
    ensures forall key :: key in Keys(AddBuckets([], bs, n, cfg)) <==>
      exists j :: 0 <= j < n && |bs[j].1.rows| > 0 && key in IsinKeys(bs[j].1, bs[j].0, true)
  {
    var gs := Groups(bs, n, cfg);
    PutGroupsKeys([], gs, n);
    forall j | 0 <= j < n
      ensures Keys(gs[j]) == if |bs[j].1.rows| == 0 then [] else IsinKeys(bs[j].1, bs[j].0, true)
    {
      if |bs[j].1.rows| > 0 {
        EntriesKeys(bs[j].1, bs[j].0, cfg, true);
      }
    }
  }

  /** Every key of a bucket is one of its rows' identifiers, `_`, and the
      bucket's month. */
  lemma BucketKeyShape(g: Frame, monthStr: string, key: string)
    requires Ready(g) && key in IsinKeys(g, monthStr, true)
    ensures exists x :: x in g.rows && key == Show(x[IsinCol(g)]) + "_" + monthStr
  {
    var isins := Isins(g);
    var i :| 0 <= i < |isins| && IsinKeys(g, monthStr, true)[i] == key;
    assert isins[i] in isins;
    var r :| 0 <= r < |g.rows| && g.rows[r][IsinCol(g)] == isins[i];
    assert g.rows[r] in g.rows;
  }

  /** The frame after dropping the three leading rows and the empty rows
      and cleaning the identifier column. */
  function Cleaned(f: Frame): (df: Frame)
    requires Rect(f)
    ensures Rect(df)
  {
    var df := DropLeading(f, 3);
    assert Rect(df);
    CleanIsinColumn(DropEmptyRows(df))
  }

  /** The all-months result: `None` without buckets, or when a bucket with
      rows has no `ISIN` column (the `KeyError` the source catches),
      otherwise every bucket's entries. */
  function AllMonthsResult(bs: seq<(string, Frame)>, cfg: Config): Option<Dict>
    requires Valid(cfg) && forall j :: 0 <= j < |bs| ==> Dateable(bs[j].1)
  {
    if bs == [] then None
    else if exists j :: 0 <= j < |bs| && |bs[j].1.rows| > 0 && IndexOf(bs[j].1.headers, "ISIN").None? then None
    else Some(AddBuckets([], bs, |bs|, cfg))
  }

  /** `parse_auction_data` after the sheet is read: None when no row
      survives cleaning, when the target period raises, or when the chosen
      month frame has no rows, no `ISIN` column or no identifier; otherwise
      the dictionary the identifier loop builds. */
  function Parse(f: Frame, target: Option<(int, int)>, processAll: bool, cfg: Config): Option<Dict>
    requires Rect(f) && Valid(cfg)
  {
    var df := Cleaned(f);
    if |df.rows| == 0 then None
    else
      MonthFramesDateable(df, target, processAll);
      match GetMonthData(df, target, processAll)
      case Raised => None
      case AllMonths(bs) => AllMonthsResult(bs, cfg)
      case OneMonth(g, monthStr) =>
        if |g.rows| == 0 || IndexOf(g.headers, "ISIN").None? then None
        else
          if |Isins(g)| == 0 then None else Some(AddIsins([], g, monthStr, cfg, false))
  }

  /** The map `create_time_series_data` builds is the series map. */
  lemma SeriesMapOf(ts: map<string, seq<Point>>, g: Frame, cfg: Config)
    requires Rect(g) && IndexOf(g.headers, "date_str").Some? && Valid(cfg)
    requires ts.Keys == (set t | t in cfg.order) && forall t :: t in cfg.order ==> ts[t] == SeriesFor(g, cfg, t)
    ensures ts == SeriesMap(g, cfg)
  {
  }

  /** The rows `create_metadata_rows` builds are the metadata rows. */
  lemma MetadataRowsOf(rows: seq<map<string, MetaValue>>, cfg: Config, isin: string, description: string)
    requires Valid(cfg) && |rows| == |cfg.order|
    requires forall n :: 0 <= n < |rows| ==> rows[n] == MetadataRow(cfg, isin, description, cfg.order[n])
    ensures rows == MetadataRows(cfg, isin, description)
  {
  }

  /** One identifier: `prepare_isin_data`, `create_time_series_data` and
      `create_metadata_rows`, gathered into its dictionary value. */
  method ProcessIsin(g: Frame, isin: Cell, monthStr: string, cfg: Config, tagged: bool) returns (e: Entry)
    requires Ready(g) && Valid(cfg) && isin in UniqueIsins(g, IsinCol(g))
    ensures e == EntryFor(g, isin, monthStr, cfg, tagged)
  {
    var prepared := PrepareIsinData(g, IsinCol(g), DateCol(g), isin);
    var timeSeries := CreateTimeSeriesData(prepared.frame, cfg);
    var metadataRows := CreateMetadataRows(cfg, Show(isin), Show(prepared.description));
    SeriesMapOf(timeSeries, prepared.frame, cfg);
    MetadataRowsOf(metadataRows, cfg, Show(isin), Show(prepared.description));
    e := Entry(if tagged then Some(Show(isin)) else None, prepared.description, timeSeries, metadataRows, monthStr);
  }

  /** One round of the identifier loop: process the identifier and store
      its entry under its key. */
  method StoreIsin(r: Dict, g: Frame, isin: Cell, monthStr: string, cfg: Config, tagged: bool) returns (r': Dict)
    requires Ready(g) && Valid(cfg) && isin in Isins(g)
    ensures r' == Put(r, Key(isin, monthStr, tagged), EntryFor(g, isin, monthStr, cfg, tagged))
  {
    var entry := ProcessIsin(g, isin, monthStr, cfg, tagged);
    var dataKey := if tagged then Show(isin) + "_" + monthStr else Show(isin);
    r' := Put(r, dataKey, entry);
  }

  /** The loop over the identifiers of one frame. */
  method AddAll(d: Dict, g: Frame, monthStr: string, cfg: Config, tagged: bool) returns (r: Dict)
    requires Ready(g) && Valid(cfg)
    ensures r == AddIsins(d, g, monthStr, cfg, tagged)
  {
    var uniqueIsins := Isins(g);
    r := d;
    var m := 0;
    while m < |uniqueIsins|
      invariant 0 <= m <= |uniqueIsins|
      invariant r == PutAll(d, Entries(g, monthStr, cfg, tagged), m)
    {
      PutAllStep(d, g, m, monthStr, cfg, tagged);
      r := StoreIsin(r, g, uniqueIsins[m], monthStr, cfg, tagged);
      m := m + 1;
    }
  }

  /** The all-months branch: the loop over the month buckets. */
  method ParseAllMonths(bs: seq<(string, Frame)>, cfg: Config) returns (r: Option<Dict>)
    requires Valid(cfg) && forall j :: 0 <= j < |bs| ==> Dateable(bs[j].1)
    ensures r == AllMonthsResult(bs, cfg)
  {
    if bs == [] {
      return None;
    }
    var allParsedData: Dict := [];
    var j := 0;
    while j < |bs|
      invariant 0 <= j <= |bs|
      invariant BucketsReady(bs, j)
      invariant allParsedData == AddBuckets([], bs, j, cfg)
    {
      var monthStr := bs[j].0;
      var monthDf := bs[j].1;
      if |monthDf.rows| > 0 {
        if IndexOf(monthDf.headers, "ISIN").None? {
          // `month_df['ISIN']` raises KeyError
          return None;
        }
        allParsedData := AddAll(allParsedData, monthDf, monthStr, cfg, true);
      }
      AddBucketsStep(bs, j, cfg);
      j := j + 1;
    }
    return Some(allParsedData);
  }

  method ParseAuctionData(f: Frame, target: Option<(int, int)>, processAll: bool, cfg: Config) returns (r: Option<Dict>)
    requires Rect(f) && Valid(cfg)
    ensures r == Parse(f, target, processAll, cfg)
  {
    var df := DropLeading(f, 3);
    df := DropEmptyRows(df);
    var dfClean := CleanIsinColumn(df);
    if |dfClean.rows| == 0 {
      return None;
    }
    MonthFramesDateable(dfClean, target, processAll);
    var monthDataResult := GetMonthData(dfClean, target, processAll);
    match monthDataResult {
      case Raised =>
        return None;
      case AllMonths(bs) =>
        r := ParseAllMonths(bs, cfg);
      case OneMonth(currentMonthData, currentMonthStr) =>
        if |currentMonthData.rows| == 0 || IndexOf(currentMonthData.headers, "ISIN").None? {
          return None;
        }
        var uniqueIsins := Isins(currentMonthData);
        if |uniqueIsins| == 0 {
          return None;
        }
        var parsedData := AddAll([], currentMonthData, currentMonthStr, cfg, false);
        return Some(parsedData);
    }
  }

  /** A stored pair as the source builds it: the five series and five
      metadata rows of the metric order, and in all-months mode an `isin`
      field whose value, `_` and the month make up the key. */
  predicate Consistent(p: (string, Entry), cfg: Config, tagged: bool) {
    p.1.series.Keys == (set t | t in cfg.order) && |p.1.metadata| == |cfg.order| &&
    if tagged then p.1.isin.Some? && p.0 == p.1.isin.value + "_" + p.1.monthStr else p.1.isin.None?
  }

  /** Every series of an entry is NaN throughout. */
  predicate BlankSeries(e: Entry) {
    forall t, i :: t in e.series && 0 <= i < |e.series[t]| ==> e.series[t][i].value == Blank
  }

  /** Every entry of a frame is consistent with its key and its month. */
  lemma EntriesConsistent(g: Frame, monthStr: string, cfg: Config, tagged: bool)
    requires Ready(g) && Valid(cfg)
    ensures forall p :: p in Entries(g, monthStr, cfg, tagged) ==> Consistent(p, cfg, tagged) && p.1.monthStr == monthStr
  {
    var kvs := Entries(g, monthStr, cfg, tagged);
    forall p | p in kvs ensures Consistent(p, cfg, tagged) && p.1.monthStr == monthStr {
      var i :| 0 <= i < |kvs| && kvs[i] == p;
      assert p == (Key(Isins(g)[i], monthStr, tagged), EntryFor(g, Isins(g)[i], monthStr, cfg, tagged));
    }
  }

  /** With the shipped mapping, one identifier's series are all NaN. */
  lemma EntryForBlank(g: Frame, isin: Cell, monthStr: string, tagged: bool)
    requires Ready(g) && Valid(Shipped) && isin in Isins(g)
    ensures BlankSeries(EntryFor(g, isin, monthStr, Shipped, tagged))
  {
    var prepared := PrepareIsinData(g, IsinCol(g), DateCol(g), isin);
    assert EntryFor(g, isin, monthStr, Shipped, tagged).series == SeriesMap(prepared.frame, Shipped);
    ShippedSeriesAreBlank(prepared.frame);
  }

  /** With the shipped mapping, every entry of a frame has NaN series. */
  lemma EntriesBlank(g: Frame, monthStr: string, tagged: bool)
    requires Ready(g)
    ensures Valid(Shipped) && forall p :: p in Entries(g, monthStr, Shipped, tagged) ==> BlankSeries(p.1)
  {
    ShippedLookupMisses();
    var kvs := Entries(g, monthStr, Shipped, tagged);
    forall p | p in kvs ensures BlankSeries(p.1) {
      var i :| 0 <= i < |kvs| && kvs[i] == p;
      EntryForBlank(g, Isins(g)[i], monthStr, tagged);
    }
  }

  /** Every pair the bucket loop stores is an entry of some month's frame. */
  lemma BucketsFromEntries(bs: seq<(string, Frame)>, cfg: Config)
    requires BucketsReady(bs, |bs|) && Valid(cfg)
    ensures forall p :: p in AddBuckets([], bs, |bs|, cfg) ==> exists g, m :: Ready(g) && p in Entries(g, m, cfg, true)
  {
    var gs := Groups(bs, |bs|, cfg);
    PutGroupsValues([], gs, |bs|);
    forall p | p in AddBuckets([], bs, |bs|, cfg) ensures exists g, m :: Ready(g) && p in Entries(g, m, cfg, true) {
      var j :| 0 <= j < |bs| && p in gs[j];
      assert p in Entries(bs[j].1, bs[j].0, cfg, true);
    }
  }

  /** Every pair of a parse result is one of the entries of some month's
      frame. */
  lemma ParsedFromEntries(f: Frame, target: Option<(int, int)>, processAll: bool, cfg: Config)
    requires Rect(f) && Valid(cfg)
    ensures var r := Parse(f, target, processAll, cfg);
      r.Some? ==> forall p :: p in r.value ==> exists g, m :: Ready(g) && p in Entries(g, m, cfg, processAll)
  {
    var df := Cleaned(f);
    if |df.rows| > 0 {
      MonthFramesDateable(df, target, processAll);
      match GetMonthData(df, target, processAll) {
        case AllMonths(bs) =>
          if bs != [] && !exists j :: 0 <= j < |bs| && |bs[j].1.rows| > 0 && IndexOf(bs[j].1.headers, "ISIN").None? {
            assert BucketsReady(bs, |bs|);
            BucketsFromEntries(bs, cfg);
          }
        case OneMonth(g, monthStr) =>
          if |g.rows| > 0 && IndexOf(g.headers, "ISIN").Some? {
            OneMonthFromEntries(g, monthStr, cfg);
          }
        case Raised =>
      }
    }
  }

  /** Every pair the single-month loop stores is an entry of a frame. */
  lemma OneMonthFromEntries(g: Frame, monthStr: string, cfg: Config)
    requires Ready(g) && Valid(cfg)
    ensures forall p :: p in AddIsins([], g, monthStr, cfg, false) ==> exists h, m :: Ready(h) && p in Entries(h, m, cfg, false)
  {
    PutAllValues([], Entries(g, monthStr, cfg, false), |Isins(g)|);
    forall p | p in AddIsins([], g, monthStr, cfg, false) ensures exists h, m :: Ready(h) && p in Entries(h, m, cfg, false) {
      assert p in Entries(g, monthStr, cfg, false);
    }
  }

  /** Every stored entry has the metric order's series and metadata rows; in
      all-months mode its key is its identifier, `_` and its month, and in
      single-month mode it has no `isin` field. */
  lemma ParsedConsistent(f: Frame, target: Option<(int, int)>, processAll: bool, cfg: Config)
    requires Rect(f) && Valid(cfg)
    ensures var r := Parse(f, target, processAll, cfg);
      r.Some? ==> forall p :: p in r.value ==> Consistent(p, cfg, processAll)
  {
    var r := Parse(f, target, processAll, cfg);
    ParsedFromEntries(f, target, processAll, cfg);
    if r.Some? {
      forall p | p in r.value ensures Consistent(p, cfg, processAll) {
        var g, m :| Ready(g) && p in Entries(g, m, cfg, processAll);
        EntriesConsistent(g, m, cfg, processAll);
      }
    }
  }

  /** With the shipped configuration, whose metric sources name no column
      of the positional map, every series value of every entry is NaN. */
  lemma ShippedParseAllBlank(f: Frame, target: Option<(int, int)>, processAll: bool)
    requires Rect(f)
    ensures Valid(Shipped)
    ensures var r := Parse(f, target, processAll, Shipped);
      r.Some? ==> forall p :: p in r.value ==> BlankSeries(p.1)
  {
    ShippedLookupMisses();
    var r := Parse(f, target, processAll, Shipped);
    ParsedFromEntries(f, target, processAll, Shipped);
    if r.Some? {
      forall p | p in r.value ensures BlankSeries(p.1) {
        var g, m :| Ready(g) && p in Entries(g, m, Shipped, processAll);
        EntriesBlank(g, m, processAll);
      }
    }
  }

  /** The printed identifiers of a frame's rows. */
  function RowKeys(g: Frame): set<string>
    requires Ready(g)
  {
    set i | 0 <= i < |g.rows| :: Show(g.rows[i][IsinCol(g)])
  }

  /** A key of a frame's identifiers is the string of some row's
      identifier, and every row's identifier has its key. */
  lemma IsinKeysMember(g: Frame, monthStr: string, key: string)
    requires Ready(g)
    ensures key in IsinKeys(g, monthStr, false) <==> key in RowKeys(g)
  {
    var ks := IsinKeys(g, monthStr, false);
    var isins := Isins(g);
    if key in ks {
      var k :| 0 <= k < |ks| && ks[k] == key;
      assert isins[k] in isins;
    }
    if key in RowKeys(g) {
      var i :| 0 <= i < |g.rows| && key == Show(g.rows[i][IsinCol(g)]);
      var x := g.rows[i][IsinCol(g)];
      assert x in isins;
      var k :| 0 <= k < |isins| && isins[k] == x;
      assert ks[k] == key;
    }
  }

  /** Single-month mode: the keys are exactly the identifiers of the month's
      rows, none twice. */
  lemma SingleMonthKeys(g: Frame, monthStr: string, cfg: Config)
    requires Ready(g) && Valid(cfg)
    ensures var r := AddIsins([], g, monthStr, cfg, false);
      Distinct(Keys(r)) && forall key :: key in Keys(r) <==> key in RowKeys(g)
  {
    assert Keys([]) == [];
    AddIsinsKeys([], g, monthStr, cfg, false);
    IsinKeysRows(g, monthStr);
  }

  /** The single-month keys of a frame are its rows' printed identifiers. */
  lemma IsinKeysRows(g: Frame, monthStr: string)
    requires Ready(g)
    ensures forall key :: key in IsinKeys(g, monthStr, false) <==> key in RowKeys(g)
  {
    forall key ensures key in IsinKeys(g, monthStr, false) <==> key in RowKeys(g) {
      IsinKeysMember(g, monthStr, key);
    }
  }

  /** Single-month mode, when no two different identifiers print alike:
      each row's identifier finds its own entry. */
  lemma SingleMonthLookup(g: Frame, monthStr: string, cfg: Config)
    requires Ready(g) && Valid(cfg)
    requires forall a, b :: a in Isins(g) && b in Isins(g) && Show(a) == Show(b) ==> a == b
    ensures forall i :: 0 <= i < |g.rows| ==>
      g.rows[i][IsinCol(g)] in Isins(g) &&
      Lookup(AddIsins([], g, monthStr, cfg, false), Show(g.rows[i][IsinCol(g)])) ==
      Some(EntryFor(g, g.rows[i][IsinCol(g)], monthStr, cfg, false))
  {
    var isins := Isins(g);
    var ks := IsinKeys(g, monthStr, false);
    forall a, b | 0 <= a < b < |ks| ensures ks[a] != ks[b] {
      assert isins[a] in isins && isins[b] in isins;
    }
    AddIsinsLookup([], g, monthStr, cfg, false);
    forall i | 0 <= i < |g.rows|
      ensures g.rows[i][IsinCol(g)] in isins &&
        Lookup(AddIsins([], g, monthStr, cfg, false), Show(g.rows[i][IsinCol(g)])) ==
        Some(EntryFor(g, g.rows[i][IsinCol(g)], monthStr, cfg, false))
    {
      var x := g.rows[i][IsinCol(g)];
      assert x in isins;
      var k :| 0 <= k < |isins| && isins[k] == x;
    }
  }

  /** All-months keys never collide across months: the identifier and the
      month can be read back from the key. */
  lemma TaggedKeyInjective(a: string, b: string, m1: Month, m2: Month)
    requires ValidMonth(m1) && ValidMonth(m2)
    requires a + "_" + Label(m1) == b + "_" + Label(m2)
    ensures a == b && m1 == m2
  {
    var ka, kb := a + "_" + Label(m1), b + "_" + Label(m2);
    assert |a| == |b|;
    assert a == ka[..|a|] && b == kb[..|b|];
    assert Label(m1) == ka[|a| + 1..] && Label(m2) == kb[|b| + 1..];
    LabelInjective(m1, m2);
  }
}
