/** The per-identifier steps of the parser: the distinct identifiers of a
    frame, the rows of one identifier sorted by auction date, its five time
    series and its five metadata rows. */
module Series {
  import opened Wrappers
  import opened Text
  import opened Calendar
  import opened Table
  import opened Settings
  import opened Months

  /** The cells of column `c`. */
  function ColumnOf(rows: seq<Row>, c: nat): (col: seq<Cell>)
    requires forall i :: 0 <= i < |rows| ==> c < |rows[i]|
    ensures |col| == |rows| && forall i :: 0 <= i < |rows| ==> col[i] == rows[i][c]
  {
    seq(|rows|, i requires 0 <= i < |rows| => rows[i][c])
  }

  predicate Distinct<T(==)>(s: seq<T>) {
    forall i, j :: 0 <= i < j < |s| ==> s[i] != s[j]
  }

  /** The position of the first occurrence of `x`. */
  function FirstIndex(cells: seq<Cell>, x: Cell): (i: nat)
    requires x in cells
    ensures i < |cells| && cells[i] == x && forall j :: 0 <= j < i ==> cells[j] != x
  {
    if cells[0] == x then 0 else 1 + FirstIndex(cells[1..], x)
  }

  /** `Series.unique()`: each value once, in order of first appearance. */
  function Unique(cells: seq<Cell>): (r: seq<Cell>)
    ensures Distinct(r) && forall x :: x in r <==> x in cells
  {
    if cells == [] then []
    else
      var r := Unique(cells[..|cells| - 1]);
      var last := cells[|cells| - 1];
      assert forall x :: x in cells <==> x in cells[..|cells| - 1] || x == last by {
        assert cells == cells[..|cells| - 1] + [last];
      }
      if last in r then r else r + [last]
  }

  lemma FirstIndexPrefix(cells: seq<Cell>, n: nat, x: Cell)
    requires n <= |cells| && x in cells[..n]
    ensures FirstIndex(cells, x) == FirstIndex(cells[..n], x)
  {
    var i := FirstIndex(cells[..n], x);
    assert cells[i] == x;
    forall k | 0 <= k < i ensures cells[k] != x {
      assert cells[..n][k] == cells[k];
    }
  }

  /** The values of `r` come in the order of their first appearance in `cells`. */
  predicate FirstAppearanceOrder(cells: seq<Cell>, r: seq<Cell>)
    requires forall x :: x in r ==> x in cells
  {
    forall i, j :: 0 <= i < j < |r| ==> FirstIndex(cells, r[i]) < FirstIndex(cells, r[j])
  }

  /** The values of `Unique` come in the order of their first appearance. */
  lemma {:induction false} UniqueFirstAppearance(cells: seq<Cell>)
    ensures FirstAppearanceOrder(cells, Unique(cells))
  {
    if cells != [] {
      var n := |cells| - 1;
      var init := cells[..n];
      var last := cells[n];
      UniqueFirstAppearance(init);
      var q := Unique(init);
      assert Unique(cells) == if last in q then q else q + [last];
      PrefixFirstAppearance(cells, n, q);
      if last !in q {
        forall k | 0 <= k < n ensures cells[k] != last {
          assert init[k] == cells[k];
        }
        AppendFirstAppearance(cells, q);
      }
    }
  }

  /** An order by first appearance in a prefix is one in the whole sequence. */
  lemma PrefixFirstAppearance(cells: seq<Cell>, n: nat, q: seq<Cell>)
    requires n <= |cells| && (forall x :: x in q ==> x in cells[..n]) && FirstAppearanceOrder(cells[..n], q)
    ensures forall x :: x in q ==> x in cells && FirstIndex(cells, x) < n
    ensures FirstAppearanceOrder(cells, q)
  {
    forall x | x in q ensures x in cells && FirstIndex(cells, x) == FirstIndex(cells[..n], x) < n {
      FirstIndexPrefix(cells, n, x);
    }
  }

  lemma AppendFirstAppearance(cells: seq<Cell>, q: seq<Cell>)
    requires cells != [] && cells[|cells| - 1] !in q
    requires forall k :: 0 <= k < |cells| - 1 ==> cells[k] != cells[|cells| - 1]
    requires forall x :: x in q ==> x in cells && FirstIndex(cells, x) < |cells| - 1
    requires FirstAppearanceOrder(cells, q)
    ensures FirstAppearanceOrder(cells, q + [cells[|cells| - 1]])
  {
    var last := cells[|cells| - 1];
    var r := q + [last];
    assert FirstIndex(cells, last) == |cells| - 1;
    forall i, j | 0 <= i < j < |r| ensures FirstIndex(cells, r[i]) < FirstIndex(cells, r[j]) {
      assert r[i] == q[i] && q[i] in q;
      if j < |q| { assert r[j] == q[j]; }
    }
  }

  /** `get_unique_isins`: the distinct identifiers of column `ic`. */
  function UniqueIsins(f: Frame, ic: nat): (r: seq<Cell>)
    requires Rect(f) && ic < |f.headers|
    ensures Distinct(r)
    ensures forall x :: x in r <==> exists i :: 0 <= i < |f.rows| && f.rows[i][ic] == x
    ensures |f.rows| > 0 ==> |r| > 0
  {
    var col := ColumnOf(f.rows, ic);
    if |f.rows| == 0 then []
    else
      assert col[0] in col;
      Unique(col)
  }

  /** Every row has a valid date in column `dk`. */
  predicate AllDated(rows: seq<Row>, dk: nat) {
    forall i :: 0 <= i < |rows| ==> dk < |rows[i]| && AsDate(rows[i][dk]).Some?
  }

  /** The date of a row as a `yyyymmdd` number (0 for a row without one). */
  function DayOf(row: Row, dk: nat): int {
    if dk < |row| && row[dk].When? then DayKey(row[dk].d) else 0
  }

  /** Ascending by date. */
  predicate ByDate(rows: seq<Row>, dk: nat) {
    forall i, j :: 0 <= i < j < |rows| ==> DayOf(rows[i], dk) <= DayOf(rows[j], dk)
  }

  function InsertByDate(x: Row, rows: seq<Row>, dk: nat): (r: seq<Row>)
    ensures multiset(r) == multiset(rows) + multiset{x}
    ensures |r| > 0 && (r[0] == x || (rows != [] && r[0] == rows[0]))
  {
    if rows == [] then [x]
    else if DayOf(x, dk) <= DayOf(rows[0], dk) then [x] + rows
    else
      assert rows == [rows[0]] + rows[1..];
      [rows[0]] + InsertByDate(x, rows[1..], dk)
  }

  lemma ConsByDate(a: Row, rest: seq<Row>, dk: nat)
    requires ByDate(rest, dk) && (rest != [] ==> DayOf(a, dk) <= DayOf(rest[0], dk))
    ensures ByDate([a] + rest, dk)
  {
    var r := [a] + rest;
    forall i, j | 0 <= i < j < |r| ensures DayOf(r[i], dk) <= DayOf(r[j], dk) {
      if i == 0 && j > 1 { assert DayOf(rest[0], dk) <= DayOf(rest[j - 1], dk); }
    }
  }

  lemma {:induction false} InsertByDateSorted(x: Row, rows: seq<Row>, dk: nat)
    requires ByDate(rows, dk)
    ensures ByDate(InsertByDate(x, rows, dk), dk)
  {
    if rows != [] {
      if DayOf(x, dk) <= DayOf(rows[0], dk) {
        ConsByDate(x, rows, dk);
      } else {
        var tail := rows[1..];
        InsertByDateSorted(x, tail, dk);
        assert tail != [] ==> DayOf(rows[0], dk) <= DayOf(tail[0], dk);
        ConsByDate(rows[0], InsertByDate(x, tail, dk), dk);
      }
    }
  }

  /** Rearranging rows keeps every row dated. */
  lemma AllDatedPermutation(a: seq<Row>, b: seq<Row>, dk: nat)
    requires AllDated(a, dk) && multiset(a) == multiset(b)
    ensures AllDated(b, dk)
  {
    forall i | 0 <= i < |b| ensures dk < |b[i]| && AsDate(b[i][dk]).Some? {
      assert b[i] in multiset(b);
      var j :| 0 <= j < |a| && a[j] == b[i];
    }
  }

  /** `sort_values('data asta')`: ascending by date, same rows. */
  function SortByDate(rows: seq<Row>, dk: nat): (r: seq<Row>)
    ensures ByDate(r, dk) && multiset(r) == multiset(rows)
  {
    if rows == [] then []
    else
      assert rows == [rows[0]] + rows[1..];
      var rest := SortByDate(rows[1..], dk);
      InsertByDateSorted(rows[0], rest, dk);
      InsertByDate(rows[0], rest, dk)
  }

  function IsinMask(rows: seq<Row>, ic: nat, isin: Cell): (m: seq<bool>)
    requires forall i :: 0 <= i < |rows| ==> ic < |rows[i]|
    ensures |m| == |rows|
  {
    seq(|rows|, i requires 0 <= i < |rows| => rows[i][ic] == isin)
  }

  /** Reference filter: the rows whose column `ic` holds `isin`, in their order. */
  function KeepIsin(rows: seq<Row>, ic: nat, isin: Cell): seq<Row>
    requires forall i :: 0 <= i < |rows| ==> ic < |rows[i]|
  {
    if rows == [] then []
    else (if rows[0][ic] == isin then [rows[0]] else []) + KeepIsin(rows[1..], ic, isin)
  }

  lemma {:induction false} WhereIsinMask(rows: seq<Row>, ic: nat, isin: Cell)
    requires forall i :: 0 <= i < |rows| ==> ic < |rows[i]|
    ensures Where(rows, IsinMask(rows, ic, isin)) == KeepIsin(rows, ic, isin)
  {
    if rows != [] {
      assert IsinMask(rows, ic, isin)[1..] == IsinMask(rows[1..], ic, isin);
      WhereIsinMask(rows[1..], ic, isin);
    }
  }

  /** `df[df['ISIN'] == isin]`. */
  function Selected(f: Frame, ic: nat, isin: Cell): (r: seq<Row>)
    requires Rect(f) && ic < |f.headers|
    ensures forall x :: x in r <==> x in f.rows && x[ic] == isin
    ensures forall i :: 0 <= i < |r| ==> r[i] in f.rows
  {
    var sel := Where(f.rows, IsinMask(f.rows, ic, isin));
    assert forall x :: x in sel <==> x in f.rows && x[ic] == isin by {
      forall x ensures x in sel <==> x in f.rows && x[ic] == isin {
        WhereMember(f.rows, IsinMask(f.rows, ic, isin), x);
      }
    }
    sel
  }

  /** The selection keeps the matching rows in their original order and with
      their multiplicity. */
  lemma SelectedInOrder(f: Frame, ic: nat, isin: Cell)
    requires Rect(f) && ic < |f.headers|
    ensures Selected(f, ic, isin) == KeepIsin(f.rows, ic, isin)
  {
    WhereIsinMask(f.rows, ic, isin);
  }


  /** The rows of one identifier, ascending by date. */
  function IsinRows(f: Frame, ic: nat, dk: nat, isin: Cell): (r: seq<Row>)
    requires Rect(f) && ic < |f.headers| && AllDated(f.rows, dk)
    ensures AllDated(r, dk) && ByDate(r, dk)
    ensures multiset(r) == multiset(Selected(f, ic, isin))
  {
    var sel := Selected(f, ic, isin);
    assert AllDated(sel, dk);
    AllDatedPermutation(sel, SortByDate(sel, dk), dk);
    SortByDate(sel, dk)
  }

  /** The identifier's rows are exactly the input rows carrying it. */
  lemma IsinRowsMember(f: Frame, ic: nat, dk: nat, isin: Cell, x: Row)
    requires Rect(f) && ic < |f.headers| && AllDated(f.rows, dk)
    ensures x in IsinRows(f, ic, dk, isin) <==> x in f.rows && x[ic] == isin
  {
    var r := IsinRows(f, ic, dk, isin);
    assert x in r <==> x in multiset(r);
    assert x in Selected(f, ic, isin) <==> x in multiset(Selected(f, ic, isin));
  }

  /** The description column: the first whose label contains `descrizione`
      or `description` in any case, else the sixth column when there is one. */
  function DescriptionColumn(hs: seq<string>): (r: Option<nat>)
    ensures r.Some? ==> r.value < |hs|
    ensures FirstMentioning(hs, ["descrizione", "description"]).Some? ==> r == FirstMentioning(hs, ["descrizione", "description"])
    ensures FirstMentioning(hs, ["descrizione", "description"]).None? ==> (r.Some? <==> |hs| > 5) && (r.Some? ==> r.value == 5)
  {
    match FirstMentioning(hs, ["descrizione", "description"])
    case Some(j) => Some(j)
    case None => if |hs| > 5 then Some(5) else None
  }

  datatype Prepared = Prepared(frame: Frame, description: Cell)

  /** `strftime('%Y-%m-%d')` of each row's date. */
  function IsoDates(rs: seq<Row>, dk: nat): (col: seq<Cell>)
    requires AllDated(rs, dk)
    ensures |col| == |rs| && forall i :: 0 <= i < |rs| ==> col[i] == Str(Iso(AsDate(rs[i][dk]).value))
  {
    seq(|rs|, i requires 0 <= i < |rs| => Str(Iso(AsDate(rs[i][dk]).value)))
  }

  /** What `prepare_isin_data` needs of its frame: an `ISIN` column, a
      `data asta` column with a valid date in every row, and the identifier
      present in some row (the source reads the first selected row). */
  predicate CanPrepare(f: Frame, ic: nat, dk: nat, isin: Cell) {
    Rect(f) && IndexOf(f.headers, "ISIN") == Some(ic) && IndexOf(f.headers, "data asta") == Some(dk) &&
    AllDated(f.rows, dk) && exists i :: 0 <= i < |f.rows| && f.rows[i][ic] == isin
  }

  /** The identifier has as many rows as the input has rows carrying it, and at least one. */
  lemma IsinRowsCount(f: Frame, ic: nat, dk: nat, isin: Cell)
    requires CanPrepare(f, ic, dk, isin)
    ensures |IsinRows(f, ic, dk, isin)| == Count(IsinMask(f.rows, ic, isin)) > 0
    ensures forall i :: 0 <= i < |IsinRows(f, ic, dk, isin)| ==>
      |IsinRows(f, ic, dk, isin)[i]| == |f.headers| && IsinRows(f, ic, dk, isin)[i][ic] == isin
  {
    var rs := IsinRows(f, ic, dk, isin);
    var mask := IsinMask(f.rows, ic, isin);
    var i :| 0 <= i < |f.rows| && f.rows[i][ic] == isin;
    assert mask[i];
    CountPositive(mask);
    assert |rs| == |multiset(rs)| == |multiset(Where(f.rows, mask))|;
    forall i | 0 <= i < |rs| ensures |rs[i]| == |f.headers| && rs[i][ic] == isin {
      IsinRowsMember(f, ic, dk, isin, rs[i]);
    }
  }

  /** `prepare_isin_data`: the identifier's rows ascending by date, with a
      `date_str` column of ISO dates, and the description read from the
      first of them. */
  function PrepareIsinData(f: Frame, ic: nat, dk: nat, isin: Cell): (p: Prepared)
    requires CanPrepare(f, ic, dk, isin)
    ensures Rect(p.frame) && |p.frame.rows| == Count(IsinMask(f.rows, ic, isin)) > 0
    ensures |f.headers| <= |p.frame.headers| && p.frame.headers[..|f.headers|] == f.headers
    ensures IndexOf(p.frame.headers, "date_str").Some?
  {
    var rs := IsinRows(f, ic, dk, isin);
    IsinRowsCount(f, ic, dk, isin);
    var g := SetColumn(Frame(f.headers, rs), "date_str", IsoDates(rs, dk));
    var dc := DescriptionColumn(g.headers);
    var description := if dc.Some? && g.headers[dc.value] != "" then g.rows[0][dc.value] else Str("");
    Prepared(g, description)
  }

  /** The prepared frame is the identifier's sorted rows with the
      `date_str` column set. */
  lemma PreparedFrame(f: Frame, ic: nat, dk: nat, isin: Cell)
    requires CanPrepare(f, ic, dk, isin)
    ensures var rs := IsinRows(f, ic, dk, isin);
      Rect(Frame(f.headers, rs)) && f.headers[dk] == "data asta" && f.headers[ic] == "ISIN" &&
      PrepareIsinData(f, ic, dk, isin).frame == SetColumn(Frame(f.headers, rs), "date_str", IsoDates(rs, dk))
  {
    IsinRowsCount(f, ic, dk, isin);
  }

  /** The prepared rows are the identifier's rows, ascending by date, with
      only the `date_str` column set: every row carries the identifier. */
  lemma PreparedRows(f: Frame, ic: nat, dk: nat, isin: Cell)
    requires CanPrepare(f, ic, dk, isin)
    ensures var p := PrepareIsinData(f, ic, dk, isin); var rs := IsinRows(f, ic, dk, isin);
      |rs| == |p.frame.rows| &&
      (forall i, j :: 0 <= i < |rs| && 0 <= j < |f.headers| && f.headers[j] != "date_str" ==> p.frame.rows[i][j] == rs[i][j]) &&
      (forall i :: 0 <= i < |rs| ==> p.frame.rows[i][ic] == isin && p.frame.rows[i][dk] == rs[i][dk])
  {
    var rs := IsinRows(f, ic, dk, isin);
    IsinRowsCount(f, ic, dk, isin);
    PreparedFrame(f, ic, dk, isin);
    SetColumnCarries(Frame(f.headers, rs), "date_str", IsoDates(rs, dk), ic, dk, isin);
  }

  /** Setting a new column keeps the identifier and the date of every row. */
  lemma SetColumnCarries(g: Frame, name: string, col: seq<Cell>, ic: nat, dk: nat, isin: Cell)
    requires Rect(g) && |col| == |g.rows| && ic < |g.headers| && dk < |g.headers|
    requires g.headers[ic] != name && g.headers[dk] != name
    requires forall i :: 0 <= i < |g.rows| ==> g.rows[i][ic] == isin
    ensures var r := SetColumn(g, name, col);
      |g.rows| == |r.rows| &&
      (forall i, j :: 0 <= i < |g.rows| && 0 <= j < |g.headers| && g.headers[j] != name ==> r.rows[i][j] == g.rows[i][j]) &&
      (forall i :: 0 <= i < |g.rows| ==> r.rows[i][ic] == isin && r.rows[i][dk] == g.rows[i][dk])
  {
    SetColumnKeeps(g, name, col, ic);
    SetColumnKeeps(g, name, col, dk);
  }

  /** The `date_str` column holds each row's ISO date. */
  lemma PreparedDateStrings(f: Frame, ic: nat, dk: nat, isin: Cell)
    requires CanPrepare(f, ic, dk, isin)
    ensures var p := PrepareIsinData(f, ic, dk, isin); var rs := p.frame.rows;
      var ds := IndexOf(p.frame.headers, "date_str").value;
      AllDated(rs, dk) && forall i :: 0 <= i < |rs| ==> rs[i][ds] == Str(Iso(AsDate(rs[i][dk]).value))
  {
    PreparedRows(f, ic, dk, isin);
  }

  /** Rows ascending by date whose column `ds` holds their ISO dates read
      ascending there as strings. */
  lemma IsoAscending(rs: seq<Row>, dk: nat, ds: nat)
    requires AllDated(rs, dk) && ByDate(rs, dk)
    requires forall i :: 0 <= i < |rs| ==> ds < |rs[i]| && rs[i][ds] == Str(Iso(AsDate(rs[i][dk]).value))
    ensures forall i, j :: 0 <= i < j < |rs| ==> !StrLess(rs[j][ds].s, rs[i][ds].s)
  {
    forall i, j | 0 <= i < j < |rs| ensures !StrLess(rs[j][ds].s, rs[i][ds].s) {
      IsoOrder(AsDate(rs[j][dk]).value, AsDate(rs[i][dk]).value);
    }
  }

  /** The `date_str` column reads ascending as strings. */
  lemma PreparedDatesAscending(f: Frame, ic: nat, dk: nat, isin: Cell)
    requires CanPrepare(f, ic, dk, isin)
    ensures var p := PrepareIsinData(f, ic, dk, isin); var rs := p.frame.rows;
      var ds := IndexOf(p.frame.headers, "date_str").value;
      forall i, j :: 0 <= i < j < |rs| ==> !StrLess(rs[j][ds].s, rs[i][ds].s)
  {
    var p := PrepareIsinData(f, ic, dk, isin);
    var ds := IndexOf(p.frame.headers, "date_str").value;
    assert ByDate(p.frame.rows, dk) by {
      PreparedRows(f, ic, dk, isin);
      ByDateSameDates(p.frame.rows, IsinRows(f, ic, dk, isin), dk);
    }
    PreparedDateStrings(f, ic, dk, isin);
    IsoAscending(p.frame.rows, dk, ds);
  }

  /** Rows with the same dates as rows ascending by date are ascending too. */
  lemma ByDateSameDates(rs: seq<Row>, src: seq<Row>, dk: nat)
    requires |rs| == |src| && ByDate(src, dk)
    requires forall i :: 0 <= i < |rs| ==> dk < |rs[i]| && dk < |src[i]| && rs[i][dk] == src[i][dk]
    ensures ByDate(rs, dk)
  {
    assert forall i :: 0 <= i < |rs| ==> DayOf(rs[i], dk) == DayOf(src[i], dk);
  }

  /** The prepared rows are ascending by date; the first is an
      earliest-dated one. */
  lemma PreparedByDate(f: Frame, ic: nat, dk: nat, isin: Cell)
    requires CanPrepare(f, ic, dk, isin)
    ensures ByDate(PrepareIsinData(f, ic, dk, isin).frame.rows, dk)
  {
    var rs := IsinRows(f, ic, dk, isin);
    IsinRowsCount(f, ic, dk, isin);
    PreparedFrame(f, ic, dk, isin);
    SetColumnKeeps(Frame(f.headers, rs), "date_str", IsoDates(rs, dk), dk);
    ByDateSameDates(SetColumn(Frame(f.headers, rs), "date_str", IsoDates(rs, dk)).rows, rs, dk);
  }

  /** The description is the description cell of the first (earliest-dated)
      row, or empty when there is no usable description column. */
  lemma PreparedDescription(f: Frame, ic: nat, dk: nat, isin: Cell)
    requires CanPrepare(f, ic, dk, isin)
    ensures var p := PrepareIsinData(f, ic, dk, isin); var rs := p.frame.rows;
      var dc := DescriptionColumn(p.frame.headers);
      if dc.Some? && p.frame.headers[dc.value] != "" then p.description == rs[0][dc.value]
      else p.description == Str("")
  {
  }

  /** One observation of a time series: an ISO date and its value. */
  datatype Point = Point(date: string, value: Cell)

  /** The series of metric `t`: the value column found through the
      positional map when the metric's source column is a key of it and the
      position exists, NaN in every row otherwise. */
  function SeriesFor(g: Frame, cfg: Config, t: string): (s: seq<Point>)
    requires Rect(g) && IndexOf(g.headers, "date_str").Some? && t in cfg.mapping
    ensures |s| == |g.rows|
    ensures forall i :: 0 <= i < |s| ==> s[i].date == Show(g.rows[i][IndexOf(g.headers, "date_str").value])
    ensures var src := cfg.mapping[t].sourceColumn;
      forall i :: 0 <= i < |s| ==>
        s[i].value == (if src in cfg.positions && cfg.positions[src] < |g.headers| then g.rows[i][cfg.positions[src]] else Blank)
  {
    var ds := IndexOf(g.headers, "date_str").value;
    var src := cfg.mapping[t].sourceColumn;
    if src in cfg.positions && cfg.positions[src] < |g.headers| then
      seq(|g.rows|, i requires 0 <= i < |g.rows| => Point(Show(g.rows[i][ds]), g.rows[i][cfg.positions[src]]))
    else
      seq(|g.rows|, i requires 0 <= i < |g.rows| => Point(Show(g.rows[i][ds]), Blank))
  }

  /** `create_time_series_data`: one series per metric of the order. */
  method CreateTimeSeriesData(g: Frame, cfg: Config) returns (ts: map<string, seq<Point>>)
    requires Rect(g) && IndexOf(g.headers, "date_str").Some? && Valid(cfg)
    ensures ts.Keys == set t | t in cfg.order
    ensures forall t :: t in cfg.order ==> ts[t] == SeriesFor(g, cfg, t)
  {
    ts := map[];
    var ds := IndexOf(g.headers, "date_str").value;
    var dates := seq(|g.rows|, i requires 0 <= i < |g.rows| => Show(g.rows[i][ds]));
    var n := 0;
    while n < |cfg.order|
      invariant 0 <= n <= |cfg.order|
      invariant ts.Keys == set t | t in cfg.order[..n]
      invariant forall t :: t in ts ==> t in cfg.mapping && ts[t] == SeriesFor(g, cfg, t)
    {
      var tsType := cfg.order[n];
      var sourceColumn := cfg.mapping[tsType].sourceColumn;
      var series: seq<Point>;
      if sourceColumn in cfg.positions {
        var colIndex := cfg.positions[sourceColumn];
        if colIndex < |g.headers| {
          series := seq(|g.rows|, i requires 0 <= i < |g.rows| => Point(dates[i], g.rows[i][colIndex]));
        } else {
          series := seq(|g.rows|, i requires 0 <= i < |g.rows| => Point(dates[i], Blank));
        }
      } else {
        series := seq(|g.rows|, i requires 0 <= i < |g.rows| => Point(dates[i], Blank));
      }
      ts := ts[tsType := series];
      assert cfg.order[..n + 1] == cfg.order[..n] + [tsType];
      n := n + 1;
    }
    assert cfg.order[..n] == cfg.order;
  }

  /** With the shipped configuration no metric's source column is a key of
      the positional map, so every value of every series is NaN. */
  lemma ShippedSeriesAreBlank(g: Frame)
    requires Rect(g) && IndexOf(g.headers, "date_str").Some?
    ensures forall t, i :: t in Shipped.order && 0 <= i < |g.rows| ==> SeriesFor(g, Shipped, t)[i].value == Blank
  {
    ShippedLookupMisses();
  }

  /** The metadata row of metric `t`: the defaults, the code
      `isin.suffix`, the description `ISIN:isin;description:metric`, and
      an empty string for every other metadata column still missing. */
  function MetadataRow(cfg: Config, isin: string, description: string, t: string): (row: map<string, MetaValue>)
    requires t in cfg.mapping
    ensures forall k :: k in row <==> k in cfg.defaults || k == "CODE" || k == "DESCRIPTION" || k in cfg.metaColumns
    ensures row["CODE"] == MStr(Code(cfg, isin, t))
    ensures row["DESCRIPTION"] == MStr(SeriesDescription(cfg, isin, description, t))
    ensures forall k :: k in cfg.defaults && k != "CODE" && k != "DESCRIPTION" ==> row[k] == cfg.defaults[k]
    ensures forall k :: k in row && k !in cfg.defaults && k != "CODE" && k != "DESCRIPTION" ==> row[k] == MStr("")
  {
    var base := cfg.defaults["CODE" := MStr(Code(cfg, isin, t))]["DESCRIPTION" := MStr(SeriesDescription(cfg, isin, description, t))];
    Complete(base, cfg.metaColumns)
  }

  /** Adds an empty string under every column of `cols` not yet a key. */
  function Complete(row: map<string, MetaValue>, cols: seq<string>): (r: map<string, MetaValue>)
    ensures forall k :: k in r <==> k in row || k in cols
    ensures forall k :: k in row ==> r[k] == row[k]
    ensures forall k :: k in r && k !in row ==> r[k] == MStr("")
  {
    if cols == [] then row
    else
      var p := Complete(row, cols[..|cols| - 1]);
      var c := cols[|cols| - 1];
      assert forall k :: k in cols <==> k in cols[..|cols| - 1] || k == c by {
        assert cols == cols[..|cols| - 1] + [c];
      }
      if c in p then p else p[c := MStr("")]
  }

  /** The completion loop: every column of `cols` not yet a key is added
      with an empty string. */
  method CompleteRow(row: map<string, MetaValue>, cols: seq<string>) returns (r: map<string, MetaValue>)
    ensures r == Complete(row, cols)
  {
    r := row;
    var m := 0;
    while m < |cols|
      invariant 0 <= m <= |cols|
      invariant r == Complete(row, cols[..m])
    {
      var col := cols[m];
      if col !in r {
        r := r[col := MStr("")];
      }
      assert cols[..m + 1][..m] == cols[..m];
      m := m + 1;
    }
    assert cols[..m] == cols;
  }

  /** `create_metadata_rows`: one metadata row per metric of the order. */
  method CreateMetadataRows(cfg: Config, isin: string, description: string) returns (rows: seq<map<string, MetaValue>>)
    requires Valid(cfg)
    ensures |rows| == |cfg.order|
    ensures forall n :: 0 <= n < |rows| ==> rows[n] == MetadataRow(cfg, isin, description, cfg.order[n])
  {
    rows := [];
    var n := 0;
    while n < |cfg.order|
      invariant 0 <= n <= |cfg.order| && |rows| == n
      invariant forall i :: 0 <= i < n ==> rows[i] == MetadataRow(cfg, isin, description, cfg.order[i])
    {
      var mapping := cfg.mapping[cfg.order[n]];
      var code := isin + "." + mapping.suffix;
      var desc := "ISIN:" + isin + ";" + description + ":" + mapping.description;
      var metadataRow := cfg.defaults["CODE" := MStr(code)]["DESCRIPTION" := MStr(desc)];
      metadataRow := CompleteRow(metadataRow, cfg.metaColumns);
      rows := rows + [metadataRow];
      n := n + 1;
    }
  }
}
