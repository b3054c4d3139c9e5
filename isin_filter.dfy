/** `clean_isin_column`: find the identifier column, turn it into strings,
    and keep the rows of the first non-empty tier among a strict ISIN
    pattern, a relaxed "IT followed by digits" pattern and "non-empty". */
module IsinFilter {
  import opened Wrappers
  import opened Text
  import opened Table

  /** `re.match(r'^IT\d{11}$', s)`; `$` also matches before one final newline.
      `\d` is taken as an ASCII digit. */
  predicate IsStrict(s: string) {
    (|s| == 13 || (|s| == 14 && s[13] == '\n')) &&
    s[0] == 'I' && s[1] == 'T' && forall i :: 2 <= i < 13 ==> IsDigit(s[i])
  }

  /** `re.search(r'IT\d+', s)`: an `IT` followed by at least one (ASCII) digit, anywhere. */
  predicate IsRelaxed(s: string) {
    exists i :: 0 <= i && i + 3 <= |s| && s[i] == 'I' && s[i + 1] == 'T' && IsDigit(s[i + 2])
  }

  /** `notna() & (s != '') & (s != 'nan')` on the string column. */
  predicate IsNonEmpty(s: string) { s != "" && s != "nan" }

  datatype Tier = Strict | Relaxed | NonEmpty

  predicate Accepts(t: Tier, s: string) {
    match t
    case Strict => IsStrict(s)
    case Relaxed => IsRelaxed(s)
    case NonEmpty => IsNonEmpty(s)
  }

  /** Each tier accepts everything the tier before it accepts. */
  lemma TiersNest(s: string)
    ensures IsStrict(s) ==> IsRelaxed(s)
    ensures IsRelaxed(s) ==> IsNonEmpty(s)
  {
    if IsStrict(s) { assert 0 + 3 <= |s| && s[0] == 'I' && s[1] == 'T' && IsDigit(s[2]); }
    if IsRelaxed(s) {
      var i :| 0 <= i && i + 3 <= |s| && s[i] == 'I' && s[i + 1] == 'T' && IsDigit(s[i + 2]);
      assert s[i] == 'I';
    }
  }

  /** An identifier of `IT` and eleven letters passes neither pattern but is
      still kept by the non-empty tier. */
  lemma LettersOnlyFallThrough()
    ensures !IsStrict("ITABCDEFGHIJ") && !IsRelaxed("ITABCDEFGHIJ") && IsNonEmpty("ITABCDEFGHIJ")
  {
    var s := "ITABCDEFGHIJ";
    forall i | 0 <= i && i + 3 <= |s| && s[i] == 'I' && s[i + 1] == 'T' ensures !IsDigit(s[i + 2]) {
      assert i == 0;
    }
  }

  /** The identifier column: the one labelled `ISIN`, else the first whose
      label contains `isin` in any case, else the third column. */
  function IsinColumn(hs: seq<string>): (r: Option<nat>)
    ensures r.Some? ==> r.value < |hs|
    ensures r.None? <==> "ISIN" !in hs && FirstMentioning(hs, ["isin"]).None? && |hs| <= 2
  {
    match IndexOf(hs, "ISIN")
    case Some(i) => Some(i)
    case None =>
      match FirstMentioning(hs, ["isin"])
      case Some(j) => Some(j)
      case None => if |hs| > 2 then Some(2) else None
  }

  /** The rows with column `k` turned into its string form (`astype(str)`). */
  function AsStrings(rows: seq<Row>, k: nat): (r: seq<Row>)
    requires forall i :: 0 <= i < |rows| ==> k < |rows[i]|
    ensures |r| == |rows|
    ensures forall i :: 0 <= i < |r| ==> r[i] == ReplaceAt(rows[i], k, Str(Show(rows[i][k])))
  {
    seq(|rows|, i requires 0 <= i < |rows| => ReplaceAt(rows[i], k, Str(Show(rows[i][k]))))
  }

  /** The mask of a tier over column `k`. */
  function TierMask(rows: seq<Row>, k: nat, t: Tier): (m: seq<bool>)
    requires forall i :: 0 <= i < |rows| ==> k < |rows[i]|
    ensures |m| == |rows|
  {
    seq(|rows|, i requires 0 <= i < |rows| => Accepts(t, Show(rows[i][k])))
  }

  /** `clean_isin_column`: a frame without a recognisable ISIN column comes
      back untouched; otherwise the column is renamed `ISIN`, rendered as
      strings and the rows are filtered by the first tier that keeps any. */
  function CleanIsinColumn(f: Frame): (r: Frame)
    requires Rect(f)
    ensures Rect(r) && |r.headers| == |f.headers|
    ensures IsinColumn(f.headers).None? ==> r == f
  {
    match IsinColumn(f.headers)
    case None => f
    case Some(k) =>
      var rows := AsStrings(f.rows, k);
      var strict, relaxed, nonEmpty := TierMask(rows, k, Strict), TierMask(rows, k, Relaxed), TierMask(rows, k, NonEmpty);
      var mask :=
        if Count(strict) > 0 then strict
        else if Count(relaxed) > 0 then relaxed
        else if Count(nonEmpty) > 0 then nonEmpty
        else strict;
      var g := Frame(f.headers[k := "ISIN"], rows);
      WhereRect(g, mask);
      Frame(g.headers, Where(rows, mask))
  }

  /** Reference definition: the rows (in order) whose identifier a tier accepts. */
  function KeepTier(rows: seq<Row>, k: nat, t: Tier): (r: seq<Row>)
    requires forall i :: 0 <= i < |rows| ==> k < |rows[i]|
  {
    if rows == [] then []
    else (if Accepts(t, Show(rows[0][k])) then [rows[0]] else []) + KeepTier(rows[1..], k, t)
  }

  lemma {:induction false} WhereTierMask(rows: seq<Row>, k: nat, t: Tier)
    requires forall i :: 0 <= i < |rows| ==> k < |rows[i]|
    ensures Where(rows, TierMask(rows, k, t)) == KeepTier(rows, k, t)
  {
    if rows != [] {
      assert TierMask(rows, k, t)[1..] == TierMask(rows[1..], k, t);
      WhereTierMask(rows[1..], k, t);
    }
  }

  lemma {:induction false} KeepTierMember(rows: seq<Row>, k: nat, t: Tier, x: Row)
    requires forall i :: 0 <= i < |rows| ==> k < |rows[i]|
    ensures x in KeepTier(rows, k, t) <==> x in rows && Accepts(t, Show(x[k]))
  {
    if rows != [] {
      KeepTierMember(rows[1..], k, t, x);
      if x in rows && x != rows[0] {
        var i :| 0 <= i < |rows| && rows[i] == x;
        assert rows[1..][i - 1] == x;
      }
    }
  }

  lemma TierMaskCount(rows: seq<Row>, k: nat, t: Tier)
    requires forall i :: 0 <= i < |rows| ==> k < |rows[i]|
    ensures Count(TierMask(rows, k, t)) > 0 <==> exists i :: 0 <= i < |rows| && Accepts(t, Show(rows[i][k]))
  {
    var m := TierMask(rows, k, t);
    CountPositive(m);
    assert forall i :: 0 <= i < |rows| ==> (m[i] <==> Accepts(t, Show(rows[i][k])));
  }

  /** Some row's identifier is accepted by tier `t`. */
  predicate Hits(rows: seq<Row>, k: nat, t: Tier)
    requires forall i :: 0 <= i < |rows| ==> k < |rows[i]|
  {
    exists i :: 0 <= i < |rows| && Accepts(t, Show(rows[i][k]))
  }

  /** The tier-selection policy: with any strict match the result is exactly
      the strict rows in their input order; only with no strict match the
      relaxed rows; only with neither, the non-empty rows; else nothing. The
      identifier column is labelled `ISIN` and holds strings. */
  lemma CleanIsinColumnTiers(f: Frame, k: nat)
    requires Rect(f) && IsinColumn(f.headers) == Some(k)
    ensures var rows := AsStrings(f.rows, k); var r := CleanIsinColumn(f);
      r.headers == f.headers[k := "ISIN"] &&
      (Hits(rows, k, Strict) ==> r.rows == KeepTier(rows, k, Strict)) &&
      (!Hits(rows, k, Strict) && Hits(rows, k, Relaxed) ==> r.rows == KeepTier(rows, k, Relaxed)) &&
      (!Hits(rows, k, Strict) && !Hits(rows, k, Relaxed) && Hits(rows, k, NonEmpty) ==>
        r.rows == KeepTier(rows, k, NonEmpty)) &&
      (!Hits(rows, k, Strict) && !Hits(rows, k, Relaxed) && !Hits(rows, k, NonEmpty) ==> r.rows == [])
  {
    var rows := AsStrings(f.rows, k);
    TierMaskCount(rows, k, Strict);
    TierMaskCount(rows, k, Relaxed);
    TierMaskCount(rows, k, NonEmpty);
    WhereTierMask(rows, k, Strict);
    WhereTierMask(rows, k, Relaxed);
    WhereTierMask(rows, k, NonEmpty);
    if !Hits(rows, k, Strict) && !Hits(rows, k, Relaxed) && !Hits(rows, k, NonEmpty) {
      assert Count(TierMask(rows, k, Strict)) == 0;
    }
  }

  /** Every row of `AsStrings` holds a string in column `k`. */
  lemma AsStringsMember(rows: seq<Row>, k: nat, x: Row)
    requires forall i :: 0 <= i < |rows| ==> k < |rows[i]|
    requires x in AsStrings(rows, k)
    ensures k < |x| && x[k].Str?
  {
    var r := AsStrings(rows, k);
    var i :| 0 <= i < |r| && r[i] == x;
  }

  /** A row a tier keeps has an accepted, hence non-empty, identifier. */
  lemma KeptNonEmpty(rows: seq<Row>, k: nat, t: Tier, x: Row)
    requires forall i :: 0 <= i < |rows| ==> k < |rows[i]|
    requires x in KeepTier(rows, k, t)
    ensures x in rows && IsNonEmpty(Show(x[k]))
  {
    KeepTierMember(rows, k, t, x);
    TiersNest(Show(x[k]));
  }

  /** Every kept row carries its identifier as a string cell, and a row is
      kept only if some tier accepts that string. */
  lemma CleanIsinColumnKeepsStrings(f: Frame, k: nat)
    requires Rect(f) && IsinColumn(f.headers) == Some(k)
    ensures var r := CleanIsinColumn(f);
      forall x: Row :: x in r.rows ==> k < |x| && x[k].Str? && IsNonEmpty(x[k].s) && x in AsStrings(f.rows, k)
  {
    var rows := AsStrings(f.rows, k);
    var r := CleanIsinColumn(f);
    CleanIsinColumnTiers(f, k);
    var t := if Hits(rows, k, Strict) then Strict else if Hits(rows, k, Relaxed) then Relaxed else NonEmpty;
    assert r.rows == KeepTier(rows, k, t) || r.rows == [];
    forall x: Row | x in r.rows ensures k < |x| && x[k].Str? && IsNonEmpty(x[k].s) && x in rows {
      KeptNonEmpty(rows, k, t, x);
      AsStringsMember(f.rows, k, x);
    }
  }
}
