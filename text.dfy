/** Character-level helpers on strings: digits, ASCII case folding,
    substring search, fixed-width decimal rendering and the lexicographic
    order Python uses when it sorts strings. */
module Text {

  predicate IsDigit(c: char) { '0' <= c <= '9' }

  predicate AllDigits(s: string) { forall i :: 0 <= i < |s| ==> IsDigit(s[i]) }

  /** `str.lower()` restricted to ASCII letters. */
  function LowerChar(c: char): (r: char)
    ensures 'A' <= c <= 'Z' ==> 'a' <= r <= 'z'
    ensures !('A' <= c <= 'Z') ==> r == c
  {
    if 'A' <= c <= 'Z' then (c as int + 32) as char else c
  }

  function Lower(s: string): (r: string)
    ensures |r| == |s|
    ensures forall i :: 0 <= i < |s| ==> r[i] == LowerChar(s[i])
  {
    if s == [] then [] else [LowerChar(s[0])] + Lower(s[1..])
  }

  /** Python's `sub in s`. */
  predicate Contains(s: string, sub: string)
    decreases |s|
  {
    |sub| <= |s| && (s[..|sub|] == sub || (s != [] && Contains(s[1..], sub)))
  }

  function Pow10(n: nat): (r: nat)
    ensures r >= 1
  {
    if n == 0 then 1 else 10 * Pow10(n - 1)
  }

  function DigitChar(d: nat): (c: char)
    requires d < 10
    ensures IsDigit(c)
  {
    ('0' as int + d) as char
  }

  function DigitValue(c: char): (d: nat)
    requires IsDigit(c)
    ensures d < 10 && DigitChar(d) == c
  {
    c as int - '0' as int
  }

  /** `n` written with exactly `w` decimal digits, zero-padded on the left
      (the `%02d`, `%Y`, `%m` and `%d` renderings). */
  function Fixed(n: nat, w: nat): (s: string)
    requires n < Pow10(w)
    ensures |s| == w && AllDigits(s)
  {
    if w == 0 then "" else Fixed(n / 10, w - 1) + [DigitChar(n % 10)]
  }

  /** The value of a string of decimal digits (Python's `int(s)` on digits). */
  function DigitsValue(s: string): (n: nat)
    requires AllDigits(s)
    ensures n < Pow10(|s|)
  {
    if s == [] then 0 else 10 * DigitsValue(s[..|s| - 1]) + DigitValue(s[|s| - 1])
  }

  /** Reading back a fixed-width rendering gives the number rendered. */
  lemma {:induction false} FixedRoundTrip(n: nat, w: nat)
    requires n < Pow10(w)
    ensures DigitsValue(Fixed(n, w)) == n
  {
    if w > 0 {
      var s := Fixed(n, w);
      FixedRoundTrip(n / 10, w - 1);
      assert s[..|s| - 1] == Fixed(n / 10, w - 1);
      assert DigitValue(s[|s| - 1]) == n % 10;
    }
  }

  lemma FixedInjective(a: nat, b: nat, w: nat)
    requires a < Pow10(w) && b < Pow10(w)
    requires Fixed(a, w) == Fixed(b, w)
    ensures a == b
  {
    FixedRoundTrip(a, w);
    FixedRoundTrip(b, w);
  }

  /** `s` with every occurrence of `c` removed (`str.replace(c, "")`). */
  function Without(s: string, c: char): (r: string)
    ensures |r| <= |s|
    ensures forall i :: 0 <= i < |r| ==> r[i] != c
  {
    if s == [] then [] else (if s[0] == c then [] else [s[0]]) + Without(s[1..], c)
  }

  lemma WithoutConcat(a: string, b: string, c: char)
    ensures Without(a + b, c) == Without(a, c) + Without(b, c)
  {
    if a != [] {
      assert (a + b)[0] == a[0] && (a + b)[1..] == a[1..] + b;
      WithoutConcat(a[1..], b, c);
    } else {
      assert a + b == b;
    }
  }

  lemma WithoutAbsent(s: string, c: char)
    requires forall i :: 0 <= i < |s| ==> s[i] != c
    ensures Without(s, c) == s
  {
  }

  /** The position of the last `c` in `s`, if any. */
  function LastIndexOf(s: string, c: char): (r: int)
    ensures -1 <= r < |s|
    ensures r >= 0 ==> s[r] == c
    ensures forall i :: r < i < |s| ==> s[i] != c
  {
    if s == [] then -1
    else if s[|s| - 1] == c then |s| - 1
    else LastIndexOf(s[..|s| - 1], c)
  }

  /** Python's string comparison `a < b`: lexicographic on code points. */
  predicate StrLess(a: string, b: string) {
    if a == [] then b != []
    else b != [] && (a[0] < b[0] || (a[0] == b[0] && StrLess(a[1..], b[1..])))
  }

  lemma StrLessIrreflexive(a: string)
    ensures !StrLess(a, a)
  {
  }

  lemma {:induction false} StrLessTransitive(a: string, b: string, c: string)
    requires StrLess(a, b) && StrLess(b, c)
    ensures StrLess(a, c)
  {
    if a != [] && b != [] && c != [] && a[0] == b[0] == c[0] {
      StrLessTransitive(a[1..], b[1..], c[1..]);
    }
  }

  lemma {:induction false} StrLessTotal(a: string, b: string)
    ensures a == b || StrLess(a, b) || StrLess(b, a)
  {
    if a != [] && b != [] && a[0] == b[0] {
      StrLessTotal(a[1..], b[1..]);
      if a[1..] == b[1..] {
        assert a == [a[0]] + a[1..] && b == [b[0]] + b[1..];
      }
    }
  }

  lemma {:induction false} StrLessAsymmetric(a: string, b: string)
    requires StrLess(a, b)
    ensures !StrLess(b, a)
  {
    if a != [] && b != [] && a[0] == b[0] {
      StrLessAsymmetric(a[1..], b[1..]);
    }
  }

  /** Among strings of equal length, a common prefix decides nothing. */
  lemma {:induction false} StrLessSamePrefix(p: string, a: string, b: string)
    ensures StrLess(p + a, p + b) <==> StrLess(a, b)
  {
    if p != [] {
      assert (p + a)[0] == p[0] == (p + b)[0];
      assert (p + a)[1..] == p[1..] + a;
      assert (p + b)[1..] == p[1..] + b;
      StrLessSamePrefix(p[1..], a, b);
    } else {
      assert p + a == a && p + b == b;
    }
  }

  /** For prefixes of equal length, the first differing prefix decides. */
  lemma {:induction false} StrLessConcat(p: string, q: string, a: string, b: string)
    requires |p| == |q| && p != q
    ensures StrLess(p + a, q + b) <==> StrLess(p, q)
  {
    assert p != [] && q != [];
    assert (p + a)[0] == p[0] && (q + b)[0] == q[0];
    if p[0] == q[0] {
      assert (p + a)[1..] == p[1..] + a;
      assert (q + b)[1..] == q[1..] + b;
      assert p == [p[0]] + p[1..] && q == [q[0]] + q[1..];
      StrLessConcat(p[1..], q[1..], a, b);
    }
  }

  /** Fixed-width renderings sort as the numbers they render. */
  lemma {:induction false} FixedOrder(a: nat, b: nat, w: nat)
    requires a < Pow10(w) && b < Pow10(w)
    ensures StrLess(Fixed(a, w), Fixed(b, w)) <==> a < b
  {
    if w > 0 {
      var hiA, hiB := Fixed(a / 10, w - 1), Fixed(b / 10, w - 1);
      var loA, loB := [DigitChar(a % 10)], [DigitChar(b % 10)];
      FixedOrder(a / 10, b / 10, w - 1);
      if a / 10 == b / 10 {
        StrLessSamePrefix(hiA, loA, loB);
      } else {
        if hiA == hiB { FixedInjective(a / 10, b / 10, w - 1); }
        StrLessConcat(hiA, hiB, loA, loB);
      }
    }
  }

  /** A fixed-width number followed by a separator and a rest sorts first by
      the number, then by the rest. */
  lemma FieldOrder(x: nat, y: nat, w: nat, a: string, b: string)
    requires x < Pow10(w) && y < Pow10(w)
    ensures StrLess(Fixed(x, w) + ("-" + a), Fixed(y, w) + ("-" + b)) <==> x < y || (x == y && StrLess(a, b))
  {
    FixedOrder(x, y, w);
    if x != y {
      if Fixed(x, w) == Fixed(y, w) { FixedInjective(x, y, w); }
      StrLessConcat(Fixed(x, w), Fixed(y, w), "-" + a, "-" + b);
    } else {
      StrLessSamePrefix(Fixed(x, w) + "-", a, b);
      assert Fixed(x, w) + ("-" + a) == (Fixed(x, w) + "-") + a;
      assert Fixed(x, w) + ("-" + b) == (Fixed(x, w) + "-") + b;
    }
  }
}
