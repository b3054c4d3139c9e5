/** The Gregorian calendar as Python's `datetime` knows it (years 1..9999),
    month periods, and the date renderings the pipeline writes:
    `YYYY-MM` (a pandas monthly period), `YYYY-MM-DD` (DATE_FORMAT_OUTPUT)
    and `YYYYMMDD` (the filename timestamp). */
module Calendar {
  import opened Wrappers
  import opened Text

  datatype Date = Date(year: int, month: int, day: int)

  /** A monthly period (`pd.Period(..., freq='M')`). */
  datatype Month = Month(year: int, month: int)

  predicate IsLeap(y: int) { y % 4 == 0 && (y % 100 != 0 || y % 400 == 0) }

  function DaysIn(y: int, m: int): (n: int)
    requires 1 <= m <= 12
    ensures 28 <= n <= 31
  {
    if m == 2 then (if IsLeap(y) then 29 else 28)
    else if m == 4 || m == 6 || m == 9 || m == 11 then 30
    else 31
  }

  /** The dates `datetime(year, month, day)` accepts. */
  predicate ValidDate(d: Date) {
    1 <= d.year <= 9999 && 1 <= d.month <= 12 && 1 <= d.day <= DaysIn(d.year, d.month)
  }

  predicate ValidMonth(m: Month) { 1 <= m.year <= 9999 && 1 <= m.month <= 12 }

  function MonthOf(d: Date): Month { Month(d.year, d.month) }

  /** Months counted from year 0; consecutive months have consecutive indices. */
  function MonthIndex(m: Month): int { m.year * 12 + m.month - 1 }

  /** An integer that orders valid dates chronologically. */
  function DayKey(d: Date): int { d.year * 10000 + d.month * 100 + d.day }

  /** `str(period)`: `YYYY-MM`. */
  function Label(m: Month): (s: string)
    requires ValidMonth(m)
    ensures |s| == 7 && s[4] == '-'
  {
    Fixed(m.year, 4) + "-" + Fixed(m.month, 2)
  }

  /** `strftime('%Y-%m-%d')`. */
  function Iso(d: Date): (s: string)
    requires ValidDate(d)
    ensures |s| == 10
  {
    Fixed(d.year, 4) + "-" + Fixed(d.month, 2) + "-" + Fixed(d.day, 2)
  }

  /** `strftime('%Y%m%d')`. */
  function Compact(d: Date): (s: string)
    requires ValidDate(d)
    ensures |s| == 8 && AllDigits(s)
  {
    Fixed(d.year, 4) + Fixed(d.month, 2) + Fixed(d.day, 2)
  }

  /** `d + timedelta(days=1)`; None where `datetime` overflows. */
  function NextDay(d: Date): (r: Option<Date>)
    requires ValidDate(d)
    ensures r.Some? ==> ValidDate(r.value)
  {
    if d.day < DaysIn(d.year, d.month) then Some(Date(d.year, d.month, d.day + 1))
    else if d.month < 12 then Some(Date(d.year, d.month + 1, 1))
    else if d.year < 9999 then Some(Date(d.year + 1, 1, 1))
    else None
  }

  /** `d - timedelta(days=1)`; None where `datetime` overflows. */
  function PrevDay(d: Date): (r: Option<Date>)
    requires ValidDate(d)
    ensures r.Some? ==> ValidDate(r.value)
  {
    if d.day > 1 then Some(Date(d.year, d.month, d.day - 1))
    else if d.month > 1 then Some(Date(d.year, d.month - 1, DaysIn(d.year, d.month - 1)))
    else if d.year > 1 then Some(Date(d.year - 1, 12, 31))
    else None
  }

  /** Going one day back and one day forward again returns to the start. */
  lemma NextPrevRoundTrip(d: Date)
    requires ValidDate(d)
    ensures PrevDay(d).Some? ==> NextDay(PrevDay(d).value) == Some(d)
    ensures NextDay(d).Some? ==> PrevDay(NextDay(d).value) == Some(d)
  {
  }

  /** `str.split(c)`. */
  function Split(s: string, c: char): (parts: seq<string>)
    ensures |parts| >= 1
    decreases |s|
  {
    var i := LastIndexOf(s, c);
    if i < 0 then [s] else Split(s[..i], c) + [s[i + 1..]]
  }

  /** `int(p)` restricted to canonical labels: Some exactly on a non-empty run
      of ASCII digits. Python's `int` also accepts surrounding whitespace, a
      sign, underscores between digits and non-ASCII decimal digits; those
      spellings give None here (the labels this model produces never hold
      them). */
  function ParseNat(p: string): (r: Option<nat>)
    ensures r.Some? <==> p != [] && AllDigits(p)
  {
    if p != [] && AllDigits(p) then Some(DigitsValue(p)) else None
  }

  /** `get_timestamp_from_month`: the `YYYYMMDD` rendering of the day before
      the first day of the following month. None wherever the source raises
      (a label that does not split into two integers, a month `datetime`
      refuses, a year past 9999). */
  function LastDayStamp(s: string): (r: Option<string>)
    ensures r.Some? ==> |r.value| == 8 && AllDigits(r.value)
  {
    var parts := Split(s, '-');
    if |parts| != 2 then None
    else
      match (ParseNat(parts[0]), ParseNat(parts[1]))
      case (Some(y), Some(m)) =>
        var next := if m == 12 then Date(y + 1, 1, 1) else Date(y, m + 1, 1);
        if !ValidDate(next) then None
        else (
          match PrevDay(next)
          case Some(last) => Some(Compact(last))
          case None => None)
      case _ => None
  }

  lemma SplitNoSeparator(s: string, c: char)
    requires forall i :: 0 <= i < |s| ==> s[i] != c
    ensures Split(s, c) == [s]
  {
  }

  lemma DigitsHaveNoDash(s: string)
    requires AllDigits(s)
    ensures forall i :: 0 <= i < |s| ==> s[i] != '-'
  {
  }

  /** Two dash-free parts joined by one dash split back into those parts. */
  lemma {:induction false} SplitAtDash(a: string, b: string)
    requires forall i :: 0 <= i < |a| ==> a[i] != '-'
    requires forall i :: 0 <= i < |b| ==> b[i] != '-'
    ensures Split(a + "-" + b, '-') == [a, b]
  {
    var s := a + "-" + b;
    assert LastIndexOf(s, '-') == |a| by {
      assert s[|a|] == '-';
      assert forall i :: |a| < i < |s| ==> s[i] == b[i - |a| - 1];
    }
    assert s[..|a|] == a && s[|a| + 1..] == b;
    SplitNoSeparator(a, '-');
  }

  /** A period label splits back into its year and month digits. */
  lemma SplitLabel(m: Month)
    requires ValidMonth(m)
    ensures Split(Label(m), '-') == [Fixed(m.year, 4), Fixed(m.month, 2)]
  {
    DigitsHaveNoDash(Fixed(m.year, 4));
    DigitsHaveNoDash(Fixed(m.month, 2));
    SplitAtDash(Fixed(m.year, 4), Fixed(m.month, 2));
  }

  /** Parsing a period label gives back the period. */
  lemma ParseLabel(m: Month)
    requires ValidMonth(m)
    ensures var parts := Split(Label(m), '-');
      |parts| == 2 && ParseNat(parts[0]) == Some(m.year) && ParseNat(parts[1]) == Some(m.month)
  {
    SplitLabel(m);
    FixedRoundTrip(m.year, 4);
    FixedRoundTrip(m.month, 2);
  }

  /** For every period but December 9999 the timestamp is the month's last
      day, which is a valid date of that month whose next day leaves it. */
  lemma LastDayStampOfLabel(m: Month)
    requires ValidMonth(m) && !(m.year == 9999 && m.month == 12)
    ensures var last := Date(m.year, m.month, DaysIn(m.year, m.month));
      ValidDate(last) && MonthOf(last) == m &&
      LastDayStamp(Label(m)) == Some(Compact(last)) &&
      NextDay(last).Some? && MonthOf(NextDay(last).value) != m
  {
    ParseLabel(m);
  }

  lemma TwoDigits()
    ensures Fixed(2, 2) == "02" && Fixed(12, 2) == "12"
    ensures Fixed(28, 2) == "28" && Fixed(29, 2) == "29" && Fixed(31, 2) == "31"
  {
    assert Fixed(0, 0) == "";
    assert Fixed(1, 1) == "1" && Fixed(2, 1) == "2" && Fixed(3, 1) == "3" && Fixed(0, 1) == "0";
  }

  /** December rolls over into January of the next year. */
  lemma DecemberStamp(y: int)
    requires 1 <= y < 9999
    ensures LastDayStamp(Label(Month(y, 12))) == Some(Fixed(y, 4) + "1231")
  {
    LastDayStampOfLabel(Month(y, 12));
    TwoDigits();
    var yy := Fixed(y, 4);
    assert Compact(Date(y, 12, 31)) == yy + "12" + "31";
    assert yy + "12" + "31" == yy + "1231";
  }

  /** February ends on the 29th exactly in leap years. */
  lemma FebruaryStamp(y: int)
    requires 1 <= y <= 9999
    ensures LastDayStamp(Label(Month(y, 2))) ==
      Some(Fixed(y, 4) + "02" + (if IsLeap(y) then "29" else "28"))
  {
    LastDayStampOfLabel(Month(y, 2));
    TwoDigits();
    var last := Date(y, 2, DaysIn(y, 2));
    assert Compact(last) == Fixed(y, 4) + "02" + Fixed(DaysIn(y, 2), 2);
  }

  /** December 9999 has no following month in `datetime`: the source raises. */
  lemma LastPeriodHasNoStamp()
    ensures LastDayStamp(Label(Month(9999, 12))) == None
  {
    ParseLabel(Month(9999, 12));
  }

  /** Month `00` is not rejected: it yields 31 December of the previous year. */
  lemma MonthZeroStamp(y: int)
    requires 2 <= y <= 9999
    ensures LastDayStamp(Fixed(y, 4) + "-00") == Some(Fixed(y - 1, 4) + "1231")
  {
    var yy := Fixed(y, 4);
    var s := yy + "-00";
    assert s == yy + "-" + "00";
    DigitsHaveNoDash(yy);
    SplitAtDash(yy, "00");
    FixedRoundTrip(y, 4);
    assert ParseNat(yy) == Some(y);
    ZeroZero();
    assert Split(s, '-') == [yy, "00"];
    var next := Date(y, 1, 1);
    assert ValidDate(next);
    assert PrevDay(next) == Some(Date(y - 1, 12, 31));
    TwoDigits();
    var prev := Fixed(y - 1, 4);
    assert Compact(Date(y - 1, 12, 31)) == prev + "12" + "31";
    assert prev + "12" + "31" == prev + "1231";
  }

  lemma ZeroZero()
    ensures ParseNat("00") == Some(0)
  {
    assert "00"[..1] == "0";
    assert DigitsValue("0") == 0 by { assert "0"[..0] == ""; }
  }

  /** Labels of distinct periods are distinct. */
  lemma LabelInjective(a: Month, b: Month)
    requires ValidMonth(a) && ValidMonth(b) && Label(a) == Label(b)
    ensures a == b
  {
    ParseLabel(a);
    ParseLabel(b);
  }

  /** ISO date strings sort (as Python strings) exactly as the dates do. */
  lemma IsoOrder(a: Date, b: Date)
    requires ValidDate(a) && ValidDate(b)
    ensures StrLess(Iso(a), Iso(b)) <==> DayKey(a) < DayKey(b)
  {
    var ma, mb := Fixed(a.month, 2), Fixed(b.month, 2);
    var da, db := Fixed(a.day, 2), Fixed(b.day, 2);
    assert Iso(a) == Fixed(a.year, 4) + ("-" + (ma + ("-" + da)));
    assert Iso(b) == Fixed(b.year, 4) + ("-" + (mb + ("-" + db)));
    FieldOrder(a.year, b.year, 4, ma + ("-" + da), mb + ("-" + db));
    FieldOrder(a.month, b.month, 2, da, db);
    FixedOrder(a.day, b.day, 2);
    DayKeyOrder(a, b);
  }

  /** The day key orders by year, then month, then day. */
  lemma DayKeyOrder(a: Date, b: Date)
    requires ValidDate(a) && ValidDate(b)
    ensures DayKey(a) < DayKey(b) <==>
      a.year < b.year || (a.year == b.year && (a.month < b.month || (a.month == b.month && a.day < b.day)))
  {
    assert a.year < b.year ==> a.year * 10000 + 10000 <= b.year * 10000;
    assert a.month < b.month ==> a.month * 100 + 100 <= b.month * 100;
  }

  /** Period labels sort (as Python strings) exactly as the periods do. */
  lemma LabelOrder(a: Month, b: Month)
    requires ValidMonth(a) && ValidMonth(b)
    ensures StrLess(Label(a), Label(b)) <==> MonthIndex(a) < MonthIndex(b)
  {
    assert Label(a) == Fixed(a.year, 4) + ("-" + Fixed(a.month, 2));
    assert Label(b) == Fixed(b.year, 4) + ("-" + Fixed(b.month, 2));
    FieldOrder(a.year, b.year, 4, Fixed(a.month, 2), Fixed(b.month, 2));
    FixedOrder(a.month, b.month, 2);
  }
}
