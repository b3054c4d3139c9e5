/** The DATA grid both file generators build for one identifier: a row of
    codes and a row of descriptions (each after a blank first cell), then
    one row per distinct date of the series, ascending, holding the date
    and, per metric, the value of the first observation on that date. */
module DataLayout {
  import opened Wrappers
  import opened Text
  import opened Table
  import opened Settings
  import opened Series
  import opened Sheet

  /** Every date of every series (`all_dates`). */
  function AllDates(series: map<string, seq<Point>>): set<string> {
    set t, i | t in series && 0 <= i < |series[t]| :: series[t][i].date
  }

  /** Strictly ascending in Python's string order. */
  predicate Ascending(s: seq<string>) {
    forall i, j :: 0 <= i < j < |s| ==> StrLess(s[i], s[j])
  }

  /** `sorted(all_dates)` is determined by the set: two ascending sequences
      with the same elements are equal. */
  lemma {:induction false} AscendingUnique(a: seq<string>, b: seq<string>)
    requires Ascending(a) && Ascending(b)
    requires forall x :: x in a <==> x in b
    ensures a == b
  {
    if b != [] {
      assert b[0] in b;
    }
    if a != [] {
      assert a[0] in a;
      assert a[0] in b;
      var k :| 0 <= k < |b| && b[k] == a[0];
      assert b[0] in b;
      assert b[0] in a;
      var m :| 0 <= m < |a| && a[m] == b[0];
      if k > 0 {
        if m > 0 {
          StrLessAsymmetric(a[0], b[0]);
        } else {
          StrLessIrreflexive(b[0]);
        }
      }
      assert a[0] == b[0];
      forall x ensures x in a[1..] <==> x in b[1..] {
        if x in a[1..] {
          var i :| 1 <= i < |a| && a[i] == x;
          assert StrLess(a[0], x);
          StrLessIrreflexive(x);
          assert x in b;
        }
        if x in b[1..] {
          var i :| 1 <= i < |b| && b[i] == x;
          assert StrLess(b[0], x);
          StrLessIrreflexive(x);
          assert x in a;
        }
      }
      AscendingUnique(a[1..], b[1..]);
      assert a == [a[0]] + a[1..] && b == [b[0]] + b[1..];
    }
  }

  /** Inserts `x` at its place in an ascending sequence. */
  function Insert(s: seq<string>, x: string): (r: seq<string>)
    requires Ascending(s) && x !in s
    ensures Ascending(r)
    ensures forall y :: y in r <==> y in s || y == x
    ensures |r| == |s| + 1
  {
    if s == [] then [x]
    else if StrLess(x, s[0]) then
      assert forall j :: 0 <= j < |s| ==> StrLess(x, s[j]) by {
        forall j | 0 < j < |s| ensures StrLess(x, s[j]) {
          StrLessTransitive(x, s[0], s[j]);
        }
      }
      [x] + s
    else
      StrLessTotal(x, s[0]);
      var rest := Insert(s[1..], x);
      assert forall j :: 0 <= j < |rest| ==> StrLess(s[0], rest[j]) by {
        forall j | 0 <= j < |rest| ensures StrLess(s[0], rest[j]) {
          assert rest[j] in rest;
          if rest[j] != x {
            var i :| 1 <= i < |s| && s[i] == rest[j];
          }
        }
      }
      [s[0]] + rest
  }

  /** `sorted(all_dates)`: the dates of the set taken out one by one and
      inserted at their place. */
  method SortDates(dates: set<string>) returns (r: seq<string>)
    ensures Ascending(r) && forall x :: x in r <==> x in dates
  {
    r := [];
    var rest := dates;
    while rest != {}
      invariant rest <= dates && Ascending(r)
      invariant forall x :: x in r <==> x in dates && x !in rest
      decreases |rest|
    {
      var x :| x in rest;
      r := Insert(r, x);
      rest := rest - {x};
    }
  }

  /** The dates of the first `n` observations of a series. */
  function DatesOf(points: seq<Point>, n: nat): (r: set<string>)
    requires n <= |points|
    ensures forall x :: x in r <==> exists i :: 0 <= i < n && points[i].date == x
  {
    if n == 0 then {} else DatesOf(points, n - 1) + {points[n - 1].date}
  }

  /** The `all_dates.update(...)` loop followed by `sorted(all_dates)`. */
  method SortedDates(series: map<string, seq<Point>>) returns (dates: seq<string>)
    ensures Ascending(dates) && forall x :: x in dates <==> x in AllDates(series)
  {
    var all: set<string> := {};
    var todo := series.Keys;
    while todo != {}
      invariant todo <= series.Keys
      invariant forall x :: x in all <==> exists t, i :: t in series && t !in todo && 0 <= i < |series[t]| && series[t][i].date == x
      decreases |todo|
    {
      var t :| t in todo;
      all := all + DatesOf(series[t], |series[t]|);
      todo := todo - {t};
    }
    forall x | x in AllDates(series) ensures x in all {
      var t, i :| t in series && 0 <= i < |series[t]| && series[t][i].date == x;
    }
    dates := SortDates(all);
  }

  /** The first observation on `date` (`ts_df[ts_df['date'] == date].iloc[0]`). */
  function FirstOn(points: seq<Point>, date: string): (r: Option<nat>)
    ensures r.Some? ==> r.value < |points| && points[r.value].date == date
    ensures r.Some? ==> forall j :: 0 <= j < r.value ==> points[j].date != date
    ensures r.None? ==> forall j :: 0 <= j < |points| ==> points[j].date != date
  {
    if points == [] then None
    else if points[0].date == date then Some(0)
    else match FirstOn(points[1..], date)
      case Some(i) => Some(i + 1)
      case None => None
  }

  /** One value cell: the first match's value, or an empty string when no
      observation is on that date or its value is NaN/None. */
  function ValueCell(points: seq<Point>, date: string): Out {
    match FirstOn(points, date)
    case None => Text("")
    case Some(i) => if points[i].value == Blank then Text("") else Raw(points[i].value)
  }

  /** The lookup of one value cell: `ts_df[ts_df['date'] == date]`, then
      `""` when that is empty or its first value is NaN. */
  method LookupValue(tsDf: seq<Point>, date: string) returns (cell: Out)
    ensures cell == ValueCell(tsDf, date)
  {
    match FirstOn(tsDf, date) {
      case Some(i) =>
        if tsDf[i].value == Blank {
          cell := Text("");
        } else {
          cell := Raw(tsDf[i].value);
        }
      case None =>
        cell := Text("");
    }
  }

  predicate HasSeries(series: map<string, seq<Point>>, cfg: Config) {
    Valid(cfg) && forall t :: t in cfg.order ==> t in series
  }

  function CodeRow(cfg: Config, isin: string): (r: seq<Out>)
    requires Valid(cfg)
    ensures |r| == |cfg.order| + 1
  {
    [Text("")] + seq(|cfg.order|, k requires 0 <= k < |cfg.order| => Text(Code(cfg, isin, cfg.order[k])))
  }

  function DescriptionRow(cfg: Config, isin: string, description: string): (r: seq<Out>)
    requires Valid(cfg)
    ensures |r| == |cfg.order| + 1
  {
    [Text("")] + seq(|cfg.order|, k requires 0 <= k < |cfg.order| =>
      Text(SeriesDescription(cfg, isin, description, cfg.order[k])))
  }

  function DateRow(series: map<string, seq<Point>>, cfg: Config, date: string): (r: seq<Out>)
    requires HasSeries(series, cfg)
    ensures |r| == |cfg.order| + 1
  {
    [Text(date)] + seq(|cfg.order|, k requires 0 <= k < |cfg.order| => ValueCell(series[cfg.order[k]], date))
  }

  /** The cells of the two header rows, metric by metric. */
  lemma HeaderCellsAt(cfg: Config, isin: string, description: string, k: nat)
    requires Valid(cfg) && k < |cfg.order|
    ensures CodeRow(cfg, isin)[k + 1] == Text(Code(cfg, isin, cfg.order[k]))
    ensures DescriptionRow(cfg, isin, description)[k + 1] == Text(SeriesDescription(cfg, isin, description, cfg.order[k]))
  {
  }

  /** The cells of a date row, metric by metric. */
  lemma DateCellAt(series: map<string, seq<Point>>, cfg: Config, date: string, k: nat)
    requires HasSeries(series, cfg) && k < |cfg.order|
    ensures DateRow(series, cfg, date)[k + 1] == ValueCell(series[cfg.order[k]], date)
  {
  }

  /** The DATA grid for the given ascending dates. */
  function DataRows(cfg: Config, isin: string, series: map<string, seq<Point>>, description: string, dates: seq<string>): (g: Grid)
    requires HasSeries(series, cfg)
    ensures |g| == |dates| + 2
  {
    [CodeRow(cfg, isin), DescriptionRow(cfg, isin, description)] +
      seq(|dates|, i requires 0 <= i < |dates| => DateRow(series, cfg, dates[i]))
  }

  /** The two header rows: a blank first cell, then the code and the
      description of each metric in order. */
  lemma DataRowsHeaders(cfg: Config, isin: string, series: map<string, seq<Point>>, description: string, dates: seq<string>)
    requires HasSeries(series, cfg)
    ensures var g := DataRows(cfg, isin, series, description, dates);
      g[0][0] == Text("") && g[1][0] == Text("") &&
      forall k :: 0 <= k < |cfg.order| ==>
        g[0][k + 1] == Text(isin + "." + cfg.mapping[cfg.order[k]].suffix) &&
        g[1][k + 1] == Text("ISIN:" + isin + ";" + description + ":" + cfg.mapping[cfg.order[k]].description)
  {
  }

  /** Every row has one cell per metric plus the first column, and row
      `i + 2` carries the i-th date in its first cell. */
  lemma DataRowsShape(cfg: Config, isin: string, series: map<string, seq<Point>>, description: string, dates: seq<string>)
    requires HasSeries(series, cfg)
    ensures var g := DataRows(cfg, isin, series, description, dates);
      (forall r :: 0 <= r < |g| ==> |g[r]| == |cfg.order| + 1) &&
      forall i :: 0 <= i < |dates| ==> g[i + 2][0] == Text(dates[i])
  {
  }

  /** Observation `i` is the first one on `date`. */
  predicate FirstObservation(points: seq<Point>, date: string, i: int) {
    0 <= i < |points| && points[i].date == date && forall j :: 0 <= j < i ==> points[j].date != date
  }

  /** A value cell holds a value exactly when the first observation of the
      metric on that date has a non-NaN value; otherwise it is an empty
      string. */
  lemma ValueCellFirstMatch(points: seq<Point>, date: string, v: Cell)
    ensures ValueCell(points, date) == Raw(v) <==>
      v != Blank && exists i :: FirstObservation(points, date, i) && points[i].value == v
    ensures ValueCell(points, date) == Text("") || ValueCell(points, date).Raw?
  {
    var r := FirstOn(points, date);
    if v != Blank && exists i :: FirstObservation(points, date, i) && points[i].value == v {
      var i :| FirstObservation(points, date, i) && points[i].value == v;
      assert r.Some?;
      assert r.value == i;
    }
    if r.Some? {
      assert FirstObservation(points, date, r.value);
    }
  }

  /** A series whose values are all NaN leaves every value cell empty. */
  lemma BlankSeriesEmptyCells(cfg: Config, isin: string, series: map<string, seq<Point>>, description: string, dates: seq<string>)
    requires HasSeries(series, cfg)
    requires forall t, i :: t in series && 0 <= i < |series[t]| ==> series[t][i].value == Blank
    ensures var g := DataRows(cfg, isin, series, description, dates);
      forall r, c :: 2 <= r < |g| && 1 <= c < |g[r]| ==> g[r][c] == Text("")
  {
  }
}
