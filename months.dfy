/** `get_month_data`: find the auction-date column, drop rows without a valid
    date, tag each row with its monthly period and return either every month
    as its own bucket, the requested month, or the most recent one. */
module Months {
  import opened Wrappers
  import opened Text
  import opened Calendar
  import opened Table

  /** The date column: the one labelled `data asta`, else the first whose
      label contains `data` or `date` in any case, else the first column. */
  function DateColumn(hs: seq<string>): (r: Option<nat>)
    ensures r.Some? ==> r.value < |hs|
    ensures r.None? <==> hs == []
  {
    match IndexOf(hs, "data asta")
    case Some(i) => Some(i)
    case None =>
      match FirstMentioning(hs, ["data", "date"])
      case Some(j) => Some(j)
      case None => if |hs| > 0 then Some(0) else None
  }

  /** The date a cell holds; None is NaT. Parsing text is not modelled: only
      a timestamp cell holds a date. */
  function AsDate(c: Cell): (r: Option<Date>)
    ensures r.Some? ==> c == When(r.value) && ValidDate(r.value)
  {
    match c
    case When(d) => if ValidDate(d) then Some(d) else None
    case _ => None
  }

  /** `pd.to_datetime(..., errors='coerce')` on column `k`: a valid
      timestamp stays, anything else becomes NaT. */
  function CoerceDates(rows: seq<Row>, k: nat): (r: seq<Row>)
    requires forall i :: 0 <= i < |rows| ==> k < |rows[i]|
    ensures |r| == |rows|
    ensures forall i :: 0 <= i < |r| ==>
      r[i] == ReplaceAt(rows[i], k, if AsDate(rows[i][k]).Some? then rows[i][k] else Blank)
  {
    seq(|rows|, i requires 0 <= i < |rows| =>
      ReplaceAt(rows[i], k, if AsDate(rows[i][k]).Some? then rows[i][k] else Blank))
  }

  function ValidMask(rows: seq<Row>, k: nat): (m: seq<bool>)
    requires forall i :: 0 <= i < |rows| ==> k < |rows[i]|
    ensures |m| == |rows|
  {
    seq(|rows|, i requires 0 <= i < |rows| => AsDate(rows[i][k]).Some?)
  }

  /** The frame after renaming column `k` to `data asta`, coercing it to
      dates and keeping the rows whose date is valid. */
  function Dated(f: Frame, k: nat): (h: Frame)
    requires Rect(f) && k < |f.headers|
    ensures Rect(h) && h.headers == f.headers[k := "data asta"]
    ensures forall i :: 0 <= i < |h.rows| ==> AsDate(h.rows[i][k]).Some?
  {
    var rows := CoerceDates(f.rows, k);
    var h := Frame(f.headers[k := "data asta"], Where(rows, ValidMask(rows, k)));
    forall i | 0 <= i < |h.rows| ensures |h.rows[i]| == |h.headers| && AsDate(h.rows[i][k]).Some? {
      WhereMember(rows, ValidMask(rows, k), h.rows[i]);
    }
    h
  }

  /** Dropping invalid dates leaves exactly the input rows with a valid date,
      unchanged and in their order. */
  lemma {:induction false} DatedKeepsValidRows(f: Frame, k: nat)
    requires Rect(f) && k < |f.headers|
    ensures Dated(f, k).rows == Where(f.rows, ValidMask(f.rows, k))
  {
    var rows := CoerceDates(f.rows, k);
    KeepSame(f.rows, rows, k);
  }

  lemma {:induction false} KeepSame(orig: seq<Row>, rows: seq<Row>, k: nat)
    requires forall i :: 0 <= i < |orig| ==> k < |orig[i]|
    requires rows == CoerceDates(orig, k)
    ensures Where(rows, ValidMask(rows, k)) == Where(orig, ValidMask(orig, k))
  {
    if orig != [] {
      assert rows[1..] == CoerceDates(orig[1..], k);
      assert ValidMask(rows, k)[1..] == ValidMask(rows[1..], k);
      assert ValidMask(orig, k)[1..] == ValidMask(orig[1..], k);
      if AsDate(orig[0][k]).Some? { assert rows[0] == orig[0]; }
      KeepSame(orig[1..], rows[1..], k);
    }
  }

  function MonthOfRow(row: Row, k: nat): (m: Month)
    requires k < |row| && AsDate(row[k]).Some?
    ensures ValidMonth(m)
  {
    MonthOf(AsDate(row[k]).value)
  }

  /** The period of each row (`df['data asta'].dt.to_period('M')`). */
  function MonthsOf(rows: seq<Row>, k: nat): (ms: seq<Month>)
    requires forall i :: 0 <= i < |rows| ==> k < |rows[i]| && AsDate(rows[i][k]).Some?
    ensures |ms| == |rows|
    ensures forall i :: 0 <= i < |rows| ==> ms[i] == MonthOfRow(rows[i], k)
  {
    seq(|rows|, i requires 0 <= i < |rows| => MonthOfRow(rows[i], k))
  }

  /** `df['month'] = ...`: the frame with the period column set. */
  function WithMonth(h: Frame, k: nat): (w: Frame)
    requires Rect(h) && k < |h.headers| && h.headers[k] == "data asta"
    requires forall i :: 0 <= i < |h.rows| ==> AsDate(h.rows[i][k]).Some?
    ensures Rect(w) && |w.rows| == |h.rows| && k < |w.headers| && w.headers[k] == "data asta"
    ensures IndexOf(w.headers, "month").Some?
    ensures forall i :: 0 <= i < |w.rows| ==> w.rows[i][k] == h.rows[i][k]
    ensures forall i :: 0 <= i < |w.rows| ==>
      w.rows[i][IndexOf(w.headers, "month").value] == Period(MonthOfRow(h.rows[i], k))
  {
    var cells := seq(|h.rows|, i requires 0 <= i < |h.rows| => Period(MonthOfRow(h.rows[i], k)));
    var w := SetColumn(h, "month", cells);
    assert w.headers[..|h.headers|] == h.headers;
    assert w.headers[k] == h.headers[k];
    w
  }

  /** Strictly ascending periods. */
  predicate Ascending(ms: seq<Month>) {
    forall i, j :: 0 <= i < j < |ms| ==> MonthIndex(ms[i]) < MonthIndex(ms[j])
  }

  predicate AllValid(ms: seq<Month>) { forall i :: 0 <= i < |ms| ==> ValidMonth(ms[i]) }

  lemma MonthIndexInjective(a: Month, b: Month)
    requires ValidMonth(a) && ValidMonth(b) && MonthIndex(a) == MonthIndex(b)
    ensures a == b
  {
    assert a.year < b.year ==> a.year * 12 + 12 <= b.year * 12;
    assert b.year < a.year ==> b.year * 12 + 12 <= a.year * 12;
  }

  function InsertMonth(m: Month, ms: seq<Month>): (r: seq<Month>)
    requires ValidMonth(m) && AllValid(ms) && Ascending(ms)
    ensures AllValid(r) && Ascending(r)
    ensures forall x :: x in r <==> x == m || x in ms
  {
    if ms == [] then [m]
    else if m == ms[0] then ms
    else if MonthIndex(m) < MonthIndex(ms[0]) then [m] + ms
    else
      assert MonthIndex(ms[0]) < MonthIndex(m) by {
        if MonthIndex(ms[0]) == MonthIndex(m) { MonthIndexInjective(m, ms[0]); }
      }
      var rest := InsertMonth(m, ms[1..]);
      assert forall x :: x in ms[1..] ==> MonthIndex(ms[0]) < MonthIndex(x);
      assert forall i :: 0 <= i < |rest| ==> MonthIndex(ms[0]) < MonthIndex(rest[i]) by {
        forall i | 0 <= i < |rest| ensures MonthIndex(ms[0]) < MonthIndex(rest[i]) {
          assert rest[i] in rest;
        }
      }
      [ms[0]] + rest
  }

  /** `sorted(df['month'].unique())`. */
  function DistinctMonths(ms: seq<Month>): (r: seq<Month>)
    requires AllValid(ms)
    ensures AllValid(r) && Ascending(r)
    ensures forall x :: x in r <==> x in ms
  {
    if ms == [] then [] else InsertMonth(ms[0], DistinctMonths(ms[1..]))
  }

  /** `df['month'].max()`. */
  function Latest(ms: seq<Month>): (m: Month)
    requires AllValid(ms) && ms != []
    ensures m in ms && ValidMonth(m)
    ensures forall x :: x in ms ==> MonthIndex(x) <= MonthIndex(m)
  {
    var d := DistinctMonths(ms);
    assert ms[0] in d;
    var m := d[|d| - 1];
    assert forall x :: x in ms ==> MonthIndex(x) <= MonthIndex(m) by {
      forall x | x in ms ensures MonthIndex(x) <= MonthIndex(m) {
        var i :| 0 <= i < |d| && d[i] == x;
      }
    }
    m
  }

  function MonthMask(rows: seq<Row>, mk: nat, m: Month): (r: seq<bool>)
    requires forall i :: 0 <= i < |rows| ==> mk < |rows[i]|
    ensures |r| == |rows|
  {
    seq(|rows|, i requires 0 <= i < |rows| => rows[i][mk] == Period(m))
  }

  /** `df[df['month'] == m]`. */
  function InMonth(w: Frame, mk: nat, m: Month): (r: Frame)
    requires Rect(w) && mk < |w.headers|
    ensures Rect(r) && r.headers == w.headers
  {
    WhereRect(w, MonthMask(w.rows, mk, m));
    Frame(w.headers, Where(w.rows, MonthMask(w.rows, mk, m)))
  }

  lemma InMonthMember(w: Frame, mk: nat, m: Month, x: Row)
    requires Rect(w) && mk < |w.headers|
    ensures x in InMonth(w, mk, m).rows <==> x in w.rows && x[mk] == Period(m)
  {
    WhereMember(w.rows, MonthMask(w.rows, mk, m), x);
  }

  /** One `(str(month), rows)` entry per period, in the order given. */
  function Buckets(w: Frame, mk: nat, sm: seq<Month>): (bs: seq<(string, Frame)>)
    requires Rect(w) && mk < |w.headers| && AllValid(sm)
    ensures |bs| == |sm|
  {
    seq(|sm|, j requires 0 <= j < |sm| => (Label(sm[j]), InMonth(w, mk, sm[j])))
  }

  /** The all-months loop: one bucket per period, filled in ascending order. */
  method GroupByMonth(w: Frame, mk: nat, sm: seq<Month>) returns (buckets: seq<(string, Frame)>)
    requires Rect(w) && mk < |w.headers| && AllValid(sm)
    ensures buckets == Buckets(w, mk, sm)
  {
    buckets := [];
    var j := 0;
    while j < |sm|
      invariant 0 <= j <= |sm|
      invariant buckets == Buckets(w, mk, sm[..j])
    {
      var month := sm[j];
      var monthData := Frame(w.headers, Where(w.rows, MonthMask(w.rows, mk, month)));
      buckets := buckets + [(Label(month), monthData)];
      assert sm[..j + 1][..j] == sm[..j];
      j := j + 1;
    }
    assert sm[..|sm|] == sm;
  }

  datatype MonthData =
    | AllMonths(buckets: seq<(string, Frame)>)  // {month_str: month_data}
    | OneMonth(frame: Frame, monthStr: string)  // (month_data, month_str)
    | Raised                                    // an invalid target period: pd.Period raises

  function GetMonthData(f: Frame, target: Option<(int, int)>, processAll: bool): (r: MonthData)
    requires Rect(f)
    ensures r.AllMonths? <==> processAll
  {
    match DateColumn(f.headers)
    case None => if processAll then AllMonths([]) else OneMonth(f, "")
    case Some(k) =>
      var h := Dated(f, k);
      if |h.rows| == 0 then (if processAll then AllMonths([]) else OneMonth(h, ""))
      else
        var w := WithMonth(h, k);
        var mk := IndexOf(w.headers, "month").value;
        var months := MonthsOf(h.rows, k);
        if processAll then AllMonths(Buckets(w, mk, DistinctMonths(months)))
        else SelectOne(w, mk, months, target)
  }

  /** Single-month mode on the tagged frame: the requested period (an
      impossible one raises), or the latest one. */
  function SelectOne(w: Frame, mk: nat, months: seq<Month>, target: Option<(int, int)>): (r: MonthData)
    requires Rect(w) && mk < |w.headers| && AllValid(months) && months != []
    ensures !r.AllMonths?
  {
    match target
    case Some((y, m)) =>
      if !(1000 <= y <= 9999 && 1 <= m <= 12) then Raised
      else if Month(y, m) in months then OneMonth(InMonth(w, mk, Month(y, m)), Label(Month(y, m)))
      else OneMonth(Frame(w.headers, []), Label(Month(y, m)))
    case None =>
      var latest := Latest(months);
      OneMonth(InMonth(w, mk, latest), Label(latest))
  }

  /** The multiset union of the buckets' rows. */
  function Union(bs: seq<(string, Frame)>): multiset<Row> {
    if bs == [] then multiset{} else multiset(bs[0].1.rows) + Union(bs[1..])
  }

  function InMonthsMask(rows: seq<Row>, mk: nat, ms: seq<Month>): (r: seq<bool>)
    requires forall i :: 0 <= i < |rows| ==> mk < |rows[i]|
    ensures |r| == |rows|
  {
    seq(|rows|, i requires 0 <= i < |rows| => rows[i][mk].Period? && rows[i][mk].m in ms)
  }

  /** Buckets of distinct periods together hold exactly the rows tagged with
      one of those periods, each once. */
  lemma {:induction false} UnionOfBuckets(w: Frame, mk: nat, sm: seq<Month>)
    requires Rect(w) && mk < |w.headers| && AllValid(sm) && Ascending(sm)
    ensures Union(Buckets(w, mk, sm)) == multiset(Where(w.rows, InMonthsMask(w.rows, mk, sm)))
  {
    if sm == [] {
      WhereNone(w.rows, InMonthsMask(w.rows, mk, sm));
    } else {
      var rest := sm[1..];
      assert Buckets(w, mk, sm)[1..] == Buckets(w, mk, rest);
      UnionOfBuckets(w, mk, rest);
      forall i | 0 <= i < |rest| ensures rest[i] != sm[0] {
        assert rest[i] == sm[i + 1];
      }
      WhereSplit(w.rows, MonthMask(w.rows, mk, sm[0]), InMonthsMask(w.rows, mk, rest), InMonthsMask(w.rows, mk, sm));
    }
  }

  /** Keys in ascending string order. */
  predicate KeysAscending(bs: seq<(string, Frame)>) {
    forall j1, j2 :: 0 <= j1 < j2 < |bs| ==> StrLess(bs[j1].0, bs[j2].0)
  }

  /** Every bucket holds only rows of `w` whose period label is its key. */
  predicate KeysMatchRows(bs: seq<(string, Frame)>, w: Frame, k: nat) {
    forall j, x :: 0 <= j < |bs| && x in bs[j].1.rows ==>
      x in w.rows && k < |x| && AsDate(x[k]).Some? && Label(MonthOfRow(x, k)) == bs[j].0
  }

  /** The facts `Dated` establishes, as a precondition. */
  predicate DatedShape(h: Frame, k: nat) {
    Rect(h) && k < |h.headers| && h.headers[k] == "data asta" &&
    forall i :: 0 <= i < |h.rows| ==> AsDate(h.rows[i][k]).Some?
  }

  lemma BucketsAscending(w: Frame, mk: nat, sm: seq<Month>)
    requires Rect(w) && mk < |w.headers| && AllValid(sm) && Ascending(sm)
    ensures KeysAscending(Buckets(w, mk, sm))
  {
    var bs := Buckets(w, mk, sm);
    forall j1, j2 | 0 <= j1 < j2 < |bs| ensures StrLess(bs[j1].0, bs[j2].0) {
      LabelOrder(sm[j1], sm[j2]);
    }
  }

  lemma BucketsMatchRows(h: Frame, k: nat, sm: seq<Month>)
    requires DatedShape(h, k) && AllValid(sm)
    ensures var w := WithMonth(h, k);
      KeysMatchRows(Buckets(w, IndexOf(w.headers, "month").value, sm), w, k)
  {
    var w := WithMonth(h, k);
    var mk := IndexOf(w.headers, "month").value;
    var bs := Buckets(w, mk, sm);
    forall j, x | 0 <= j < |bs| && x in bs[j].1.rows
      ensures x in w.rows && k < |x| && AsDate(x[k]).Some? && Label(MonthOfRow(x, k)) == bs[j].0
    {
      InMonthMember(w, mk, sm[j], x);
      var i :| 0 <= i < |w.rows| && w.rows[i] == x;
      assert MonthOfRow(h.rows[i], k) == sm[j];
    }
  }

  lemma BucketsCoverAll(h: Frame, k: nat)
    requires DatedShape(h, k)
    ensures var w := WithMonth(h, k);
      Union(Buckets(w, IndexOf(w.headers, "month").value, DistinctMonths(MonthsOf(h.rows, k)))) == multiset(w.rows)
  {
    var w := WithMonth(h, k);
    var mk := IndexOf(w.headers, "month").value;
    var months := MonthsOf(h.rows, k);
    var sm := DistinctMonths(months);
    UnionOfBuckets(w, mk, sm);
    var all := InMonthsMask(w.rows, mk, sm);
    forall i | 0 <= i < |w.rows| ensures all[i] {
      assert months[i] in sm;
    }
    WhereAll(w.rows, all);
  }

  /** In all-months mode the buckets are keyed by period labels in ascending
      order, hold only rows of their own period, and together hold every
      valid-date row (tagged with its period) exactly once. */
  lemma AllMonthsPartition(f: Frame, k: nat, target: Option<(int, int)>)
    requires Rect(f) && DateColumn(f.headers) == Some(k)
    ensures var r := GetMonthData(f, target, true); var h := Dated(f, k);
      r.AllMonths? &&
      (h.rows == [] ==> r.buckets == []) &&
      (h.rows != [] ==>
        var w := WithMonth(h, k);
        KeysAscending(r.buckets) && KeysMatchRows(r.buckets, w, k) && Union(r.buckets) == multiset(w.rows))
  {
    var h := Dated(f, k);
    if h.rows != [] {
      var w := WithMonth(h, k);
      var mk := IndexOf(w.headers, "month").value;
      var sm := DistinctMonths(MonthsOf(h.rows, k));
      assert GetMonthData(f, target, true) == AllMonths(Buckets(w, mk, sm));
      BucketsAscending(w, mk, sm);
      BucketsMatchRows(h, k, sm);
      BucketsCoverAll(h, k);
    }
  }

  /** All-months mode wins over a requested period. */
  lemma AllMonthsIgnoresTarget(f: Frame, target: Option<(int, int)>)
    requires Rect(f)
    ensures GetMonthData(f, target, true) == GetMonthData(f, None, true)
    ensures GetMonthData(f, target, true).AllMonths?
  {
  }

  /** Selecting a period from the tagged frame keeps exactly the rows
      whose date falls in it. */
  lemma SelectMonth(h: Frame, k: nat, m: Month)
    requires DatedShape(h, k)
    ensures var w := WithMonth(h, k);
      forall x :: x in InMonth(w, IndexOf(w.headers, "month").value, m).rows <==>
        x in w.rows && MonthOfRow(x, k) == m
  {
    var w := WithMonth(h, k);
    var mk := IndexOf(w.headers, "month").value;
    forall x ensures x in InMonth(w, mk, m).rows <==> x in w.rows && MonthOfRow(x, k) == m {
      InMonthMember(w, mk, m, x);
      if x in w.rows {
        var i :| 0 <= i < |w.rows| && w.rows[i] == x;
      }
    }
  }

  /** Every row of the tagged frame has its period among `MonthsOf`. */
  lemma RowsMonthsPresent(h: Frame, k: nat)
    requires DatedShape(h, k)
    ensures forall x :: x in WithMonth(h, k).rows ==> k < |x| && AsDate(x[k]).Some? && MonthOfRow(x, k) in MonthsOf(h.rows, k)
  {
    var w := WithMonth(h, k);
    var months := MonthsOf(h.rows, k);
    forall x | x in w.rows ensures k < |x| && AsDate(x[k]).Some? && MonthOfRow(x, k) in months {
      var i :| 0 <= i < |w.rows| && w.rows[i] == x;
      assert months[i] == MonthOfRow(x, k);
    }
  }

  /** Single-month mode with no valid date: an empty frame labelled `""`. */
  lemma OneMonthNoDates(f: Frame, k: nat, target: Option<(int, int)>)
    requires Rect(f) && DateColumn(f.headers) == Some(k) && Dated(f, k).rows == []
    ensures var r := GetMonthData(f, target, false);
      r.OneMonth? && r.frame.rows == [] && r.monthStr == ""
  {
  }

  /** Single-month mode with a requested period: an impossible period
      raises; otherwise the result is labelled with it and holds exactly its
      rows, and is empty when no row falls in it. */
  lemma OneMonthTarget(f: Frame, k: nat, y: int, m: int)
    requires Rect(f) && DateColumn(f.headers) == Some(k) && Dated(f, k).rows != []
    ensures var r := GetMonthData(f, Some((y, m)), false); var w := WithMonth(Dated(f, k), k);
      if !(1000 <= y <= 9999 && 1 <= m <= 12) then r.Raised?
      else
        r.OneMonth? && r.monthStr == Label(Month(y, m)) &&
        (forall x :: x in r.frame.rows <==> x in w.rows && MonthOfRow(x, k) == Month(y, m)) &&
        ((forall x :: x in w.rows ==> MonthOfRow(x, k) != Month(y, m)) ==> r.frame.rows == [])
  {
    var h := Dated(f, k);
    var w := WithMonth(h, k);
    var months := MonthsOf(h.rows, k);
    if 1000 <= y <= 9999 && 1 <= m <= 12 {
      SelectMonth(h, k, Month(y, m));
      if Month(y, m) in months {
        var i :| 0 <= i < |months| && months[i] == Month(y, m);
        assert w.rows[i] in w.rows;
      }
    }
  }

  /** `r` is labelled with `latest`, no row of `w` is later, and `r` holds
      exactly the rows of that period. */
  ghost predicate LatestSelected(r: MonthData, w: Frame, k: nat, latest: Month)
    requires r.OneMonth?
  {
    ValidMonth(latest) && r.monthStr == Label(latest) &&
    (forall x :: x in w.rows ==> k < |x| && AsDate(x[k]).Some? && MonthIndex(MonthOfRow(x, k)) <= MonthIndex(latest)) &&
    (forall x :: x in r.frame.rows <==> x in w.rows && k < |x| && AsDate(x[k]).Some? && MonthOfRow(x, k) == latest)
  }

  /** Single-month mode with no requested period: the most recent period,
      labelled, with exactly its rows. */
  lemma OneMonthLatest(f: Frame, k: nat)
    requires Rect(f) && DateColumn(f.headers) == Some(k) && Dated(f, k).rows != []
    ensures var r := GetMonthData(f, None, false); var w := WithMonth(Dated(f, k), k);
      r.OneMonth? && exists latest :: LatestSelected(r, w, k, latest)
  {
    var h := Dated(f, k);
    var w := WithMonth(h, k);
    var mk := IndexOf(w.headers, "month").value;
    var latest := Latest(MonthsOf(h.rows, k));
    var r := GetMonthData(f, None, false);
    assert r == OneMonth(InMonth(w, mk, latest), Label(latest));
    SelectMonth(h, k, latest);
    RowsMonthsPresent(h, k);
    assert LatestSelected(r, w, k, latest);
  }
}
