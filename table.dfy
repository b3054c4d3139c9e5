/** The spreadsheet as pandas holds it after `read_excel`: column labels and
    rows of loosely typed cells. Column renames and `df[name] = column`
    assignments are modelled literally, so positional lookups see exactly
    the columns pandas would. */
module Table {
  import opened Wrappers
  import opened Text
  import opened Calendar

  /** A cell: NaN/None, a string, a number (opaque; carried with its `str()`
      rendering), a timestamp, or a monthly period. */
  datatype Cell = Blank | Str(s: string) | Num(x: real, shown: string) | When(d: Date) | Period(m: Month)

  /** `str(value)` for a cell. */
  function Show(c: Cell): string {
    match c
    case Blank => "nan"
    case Str(s) => s
    case Num(_, shown) => shown
    case When(d) => if ValidDate(d) then Iso(d) + " 00:00:00" else "NaT"
    case Period(m) => if ValidMonth(m) then Label(m) else "NaT"
  }

  type Row = seq<Cell>

  datatype Frame = Frame(headers: seq<string>, rows: seq<Row>)

  /** Every row has one cell per column. */
  predicate Rect(f: Frame) {
    forall i :: 0 <= i < |f.rows| ==> |f.rows[i]| == |f.headers|
  }

  /** The position of the first column labelled `name` (`name in df.columns`). */
  function IndexOf(hs: seq<string>, name: string): (r: Option<nat>)
    ensures r.Some? ==> r.value < |hs| && hs[r.value] == name
    ensures r.Some? ==> forall j :: 0 <= j < r.value ==> hs[j] != name
    ensures r.None? ==> name !in hs
  {
    if hs == [] then None
    else if hs[0] == name then Some(0)
    else match IndexOf(hs[1..], name)
      case Some(i) => Some(i + 1)
      case None => None
  }

  /** The lower-cased label contains one of `subs` (`'x' in str(col).lower()`). */
  predicate Mentions(h: string, subs: seq<string>) {
    exists k :: 0 <= k < |subs| && Contains(Lower(h), subs[k])
  }

  /** The first column whose label mentions one of `subs`. */
  function FirstMentioning(hs: seq<string>, subs: seq<string>): (r: Option<nat>)
    ensures r.Some? ==> r.value < |hs| && Mentions(hs[r.value], subs)
    ensures r.Some? ==> forall j :: 0 <= j < r.value ==> !Mentions(hs[j], subs)
    ensures r.None? ==> forall j :: 0 <= j < |hs| ==> !Mentions(hs[j], subs)
  {
    if hs == [] then None
    else if Mentions(hs[0], subs) then Some(0)
    else match FirstMentioning(hs[1..], subs)
      case Some(i) => Some(i + 1)
      case None => None
  }

  function ReplaceAt(row: Row, i: nat, c: Cell): (r: Row)
    requires i < |row|
    ensures |r| == |row| && r[i] == c
    ensures forall j :: 0 <= j < |row| && j != i ==> r[j] == row[j]
  {
    row[i := c]
  }

  /** `df.rename(columns={old: name})` for the column at position `i`. */
  function Rename(f: Frame, i: nat, name: string): (r: Frame)
    requires i < |f.headers|
    ensures r.rows == f.rows && |r.headers| == |f.headers| && r.headers[i] == name
  {
    Frame(f.headers[i := name], f.rows)
  }

  /** `df[name] = col`: overwrites the column in place when the label exists,
      otherwise appends a new last column. */
  function SetColumn(f: Frame, name: string, col: seq<Cell>): (r: Frame)
    requires Rect(f) && |col| == |f.rows|
    ensures Rect(r) && |r.rows| == |f.rows|
    ensures IndexOf(r.headers, name).Some?
    ensures forall i :: 0 <= i < |r.rows| ==> r.rows[i][IndexOf(r.headers, name).value] == col[i]
    ensures |f.headers| <= |r.headers| && r.headers[..|f.headers|] == f.headers
    ensures forall i, j :: 0 <= i < |r.rows| && 0 <= j < |f.headers| && f.headers[j] != name ==>
      r.rows[i][j] == f.rows[i][j]
  {
    match IndexOf(f.headers, name)
    case Some(k) =>
      Frame(f.headers, seq(|f.rows|, i requires 0 <= i < |f.rows| => ReplaceAt(f.rows[i], k, col[i])))
    case None =>
      var r := Frame(f.headers + [name], seq(|f.rows|, i requires 0 <= i < |f.rows| => f.rows[i] + [col[i]]));
      assert IndexOf(r.headers, name) == Some(|f.headers|) by { IndexOfAppend(f.headers, name); }
      r
  }

  /** Setting one column leaves every other column of every row alone. */
  lemma SetColumnKeeps(f: Frame, name: string, col: seq<Cell>, j: nat)
    requires Rect(f) && |col| == |f.rows| && j < |f.headers| && f.headers[j] != name
    ensures var r := SetColumn(f, name, col);
      |r.rows| == |f.rows| && forall i :: 0 <= i < |r.rows| ==> j < |r.rows[i]| && r.rows[i][j] == f.rows[i][j]
  {
  }

  lemma IndexOfAppend(hs: seq<string>, name: string)
    requires name !in hs
    ensures IndexOf(hs + [name], name) == Some(|hs|)
  {
    if hs != [] {
      assert (hs + [name])[1..] == hs[1..] + [name];
      IndexOfAppend(hs[1..], name);
    }
  }

  /** A label found among the first columns is found at the same place once
      columns are appended after them. */
  lemma IndexOfPrefix(hs: seq<string>, ext: seq<string>, name: string)
    requires |hs| <= |ext| && ext[..|hs|] == hs && IndexOf(hs, name).Some?
    ensures IndexOf(ext, name) == IndexOf(hs, name)
  {
    var k := IndexOf(hs, name).value;
    assert ext[k] == hs[k];
    forall i | 0 <= i < k ensures ext[i] != name {
      assert ext[i] == hs[i];
    }
    IndexOfFirst(ext, name, k);
  }

  /** `IndexOf` finds the first occurrence. */
  lemma {:induction false} IndexOfFirst(hs: seq<string>, name: string, k: nat)
    requires k < |hs| && hs[k] == name && forall j :: 0 <= j < k ==> hs[j] != name
    ensures IndexOf(hs, name) == Some(k)
  {
    if k > 0 {
      assert hs[0] != name;
      IndexOfFirst(hs[1..], name, k - 1);
    }
  }

  /** The number of `true` entries of a boolean mask (`mask.sum()`). */
  function Count(mask: seq<bool>): (n: nat)
    ensures n <= |mask|
  {
    if mask == [] then 0 else (if mask[0] then 1 else 0) + Count(mask[1..])
  }

  /** `df[mask]`: the rows whose mask entry is true, in their original order. */
  function Where(rows: seq<Row>, mask: seq<bool>): (r: seq<Row>)
    requires |mask| == |rows|
    ensures |r| == Count(mask)
    ensures forall x :: x in r ==> x in rows
  {
    if rows == [] then [] else (if mask[0] then [rows[0]] else []) + Where(rows[1..], mask[1..])
  }

  lemma {:induction false} CountPositive(mask: seq<bool>)
    ensures Count(mask) > 0 <==> exists i :: 0 <= i < |mask| && mask[i]
  {
    if mask != [] {
      CountPositive(mask[1..]);
      if Count(mask[1..]) > 0 {
        var i :| 0 <= i < |mask[1..]| && mask[1..][i];
        assert mask[i + 1];
      }
      if !mask[0] && exists i :: 0 <= i < |mask| && mask[i] {
        var i :| 0 <= i < |mask| && mask[i];
        assert mask[1..][i - 1];
      }
    }
  }

  /** A row is kept by `df[mask]` exactly when some position holding it is set. */
  lemma {:induction false} WhereMember(rows: seq<Row>, mask: seq<bool>, x: Row)
    requires |mask| == |rows|
    ensures x in Where(rows, mask) <==> exists i :: 0 <= i < |rows| && mask[i] && rows[i] == x
  {
    if rows != [] {
      WhereMember(rows[1..], mask[1..], x);
      if x in Where(rows[1..], mask[1..]) {
        var i :| 0 <= i < |rows[1..]| && mask[1..][i] && rows[1..][i] == x;
        assert mask[i + 1] && rows[i + 1] == x;
      }
      if exists i :: 0 <= i < |rows| && mask[i] && rows[i] == x {
        var i :| 0 <= i < |rows| && mask[i] && rows[i] == x;
        if i > 0 { assert mask[1..][i - 1] && rows[1..][i - 1] == x; }
      }
    }
  }

  /** Two disjoint masks select, together, what their union selects. */
  lemma {:induction false} WhereSplit(rows: seq<Row>, a: seq<bool>, b: seq<bool>, c: seq<bool>)
    requires |a| == |rows| && |b| == |rows| && |c| == |rows|
    requires forall i :: 0 <= i < |rows| ==> (c[i] <==> a[i] || b[i]) && !(a[i] && b[i])
    ensures multiset(Where(rows, c)) == multiset(Where(rows, a)) + multiset(Where(rows, b))
  {
    if rows != [] {
      WhereSplit(rows[1..], a[1..], b[1..], c[1..]);
    }
  }

  lemma {:induction false} WhereAll(rows: seq<Row>, m: seq<bool>)
    requires |m| == |rows| && forall i :: 0 <= i < |m| ==> m[i]
    ensures Where(rows, m) == rows
  {
    if rows != [] {
      WhereAll(rows[1..], m[1..]);
    }
  }

  lemma {:induction false} WhereNone(rows: seq<Row>, m: seq<bool>)
    requires |m| == |rows| && forall i :: 0 <= i < |m| ==> !m[i]
    ensures Where(rows, m) == []
  {
    if rows != [] {
      WhereNone(rows[1..], m[1..]);
    }
  }

  lemma WhereRect(f: Frame, mask: seq<bool>)
    requires Rect(f) && |mask| == |f.rows|
    ensures Rect(Frame(f.headers, Where(f.rows, mask)))
  {
    var w := Where(f.rows, mask);
    forall i | 0 <= i < |w| ensures |w[i]| == |f.headers| {
      assert w[i] in f.rows;
    }
  }

  predicate AllBlank(row: Row) { forall j :: 0 <= j < |row| ==> row[j] == Blank }

  /** `df.iloc[n:]`. */
  function DropLeading(f: Frame, n: nat): (r: Frame)
    ensures r.headers == f.headers
    ensures |r.rows| == if n <= |f.rows| then |f.rows| - n else 0
    ensures forall i :: 0 <= i < |r.rows| ==> r.rows[i] == f.rows[n + i]
  {
    Frame(f.headers, if n <= |f.rows| then f.rows[n..] else [])
  }

  /** Reference filter: the rows holding at least one value, in their order. */
  function KeepNonBlank(rows: seq<Row>): seq<Row>
  {
    if rows == [] then []
    else (if AllBlank(rows[0]) then [] else [rows[0]]) + KeepNonBlank(rows[1..])
  }

  lemma {:induction false} WhereNonBlankMask(rows: seq<Row>, mask: seq<bool>)
    requires |mask| == |rows|
    requires forall i :: 0 <= i < |rows| ==> (mask[i] <==> !AllBlank(rows[i]))
    ensures Where(rows, mask) == KeepNonBlank(rows)
  {
    if rows != [] {
      WhereNonBlankMask(rows[1..], mask[1..]);
    }
  }

  /** `df.dropna(how='all')`: the rows that are not entirely blank, in their
      original order and with their multiplicity. */
  function DropEmptyRows(f: Frame): (r: Frame)
    requires Rect(f)
    ensures Rect(r) && r.headers == f.headers
    ensures r.rows == KeepNonBlank(f.rows)
    ensures forall x :: x in r.rows <==> x in f.rows && !AllBlank(x)
  {
    var mask := seq(|f.rows|, i requires 0 <= i < |f.rows| => !AllBlank(f.rows[i]));
    forall x ensures x in Where(f.rows, mask) <==> x in f.rows && !AllBlank(x) {
      WhereMember(f.rows, mask, x);
    }
    WhereRect(f, mask);
    WhereNonBlankMask(f.rows, mask);
    Frame(f.headers, Where(f.rows, mask))
  }
}
