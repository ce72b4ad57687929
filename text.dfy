/**
 The string operations the application borrows from JavaScript's
 String.prototype (includes, endsWith, toLowerCase, split(c)[0],
 split(c).pop()) and the decimal rendering of a number in a template
 literal. Each is a recursive scan, and each carries the property that
 defines it.
 */
module Text {

  /** `p` occurs in `s` starting at index `i`. */
  predicate HasAt(s: string, i: nat, p: string) {
    i + |p| <= |s| && s[i..i + |p|] == p
  }

  /** Reference definition of "`p` is a substring of `s`". */
  ghost predicate Occurs(s: string, p: string) {
    exists i: nat :: HasAt(s, i, p)
  }

  /** `s.includes(p)`, scanning the start positions from `i` upwards. */
  function IncludesFrom(s: string, p: string, i: nat): (b: bool)
    requires i <= |s|
    ensures b <==> exists j: nat :: i <= j && HasAt(s, j, p)
    decreases |s| - i
  {
    HasAt(s, i, p) || (i < |s| && IncludesFrom(s, p, i + 1))
  }

  /** `s.includes(p)`. */
  function Includes(s: string, p: string): (b: bool)
    ensures b <==> Occurs(s, p)
  {
    IncludesFrom(s, p, 0)
  }

  /** The empty string is included in every string. */
  lemma IncludesEmpty(s: string)
    ensures Includes(s, "")
  {
    assert HasAt(s, 0, "");
  }

  /** If `q` occurs in `p` and `p` occurs in `s`, then `q` occurs in `s`. */
  lemma OccursWithin(s: string, i: nat, p: string, k: nat, q: string)
    requires HasAt(s, i, p) && HasAt(p, k, q)
    ensures HasAt(s, i + k, q) && Occurs(s, q)
  {
    assert forall m :: 0 <= m < |q| ==> s[i + k + m] == p[k + m] == q[m];
    assert s[i + k..i + k + |q|] == q;
    assert HasAt(s, i + k, q);
  }

  /** `p` occurs at `i` when it agrees with `s` character by character. */
  lemma HasAtByChars(s: string, i: nat, p: string)
    requires i + |p| <= |s|
    requires forall m :: 0 <= m < |p| ==> s[i + m] == p[m]
    ensures HasAt(s, i, p)
  {
    assert s[i..i + |p|] == p;
  }

  /** `p` occurs in `a + p + b` right after `a`. */
  lemma HasAtJoin(a: string, p: string, b: string)
    ensures HasAt(a + p + b, |a|, p)
  {
    assert (a + p + b)[|a|..|a| + |p|] == p;
  }

  /** A string in which some character of `p` never appears does not contain `p`. */
  lemma NotOccursWithoutChar(s: string, p: string, j: nat)
    requires j < |p| && p[j] !in s
    ensures !Occurs(s, p)
  {
    forall i: nat ensures !HasAt(s, i, p) {
      if i + |p| <= |s| {
        assert s[i..i + |p|][j] == s[i + j] && s[i + j] in s;
      }
    }
  }

  /** `s.endsWith(p)`; also what a regular expression anchored with `$` tests. */
  predicate EndsWith(s: string, p: string) {
    |p| <= |s| && s[|s| - |p|..] == p
  }

  /**
   `toLowerCase` restricted to ASCII: 'A'..'Z' map to 'a'..'z' and every
   other character is left as it is.
   */
  function LowerChar(c: char): char {
    if 'A' <= c <= 'Z' then (c as int - 'A' as int + 'a' as int) as char else c
  }

  function ToLower(s: string): (r: string)
    ensures |r| == |s|
    ensures forall i :: 0 <= i < |s| ==> r[i] == LowerChar(s[i])
  {
    if s == [] then [] else [LowerChar(s[0])] + ToLower(s[1..])
  }

  /** A lower-case letter appears in a lower-cased string only where it or its capital was. */
  lemma LowerAvoids(s: string, lo: char, up: char)
    requires 'a' <= lo <= 'z' && up as int == lo as int - 'a' as int + 'A' as int
    requires lo !in s && up !in s
    ensures lo !in ToLower(s)
  {
    forall k | 0 <= k < |s| ensures ToLower(s)[k] != lo {
      assert s[k] != lo && s[k] != up;
    }
  }

  /** Lower-casing twice is lower-casing once. */
  lemma ToLowerIdempotent(s: string)
    ensures ToLower(ToLower(s)) == ToLower(s)
  {
  }

  /**
   `s.split(c)[0]`: the text before the first `c`, or all of `s` when `s`
   has no `c`.
   */
  function BeforeFirst(s: string, c: char): (r: string)
    ensures |r| <= |s| && r == s[..|r|]
    ensures c !in r
    ensures |r| < |s| ==> s[|r|] == c
    ensures c !in s ==> r == s
  {
    if s == [] || s[0] == c then [] else [s[0]] + BeforeFirst(s[1..], c)
  }

  /**
   `s.split(c).pop()`: the text after the last `c`, or all of `s` when `s`
   has no `c`.
   */
  function AfterLast(s: string, c: char): (r: string)
    ensures |r| <= |s| && r == s[|s| - |r|..]
    ensures c !in r
    ensures |r| < |s| ==> s[|s| - |r| - 1] == c
    ensures c !in s ==> r == s
  {
    if s == [] || s[|s| - 1] == c then [] else AfterLast(s[..|s| - 1], c) + [s[|s| - 1]]
  }

  /** The last segment of `front + [c] + back` is `back` when `back` has no `c`. */
  lemma {:induction false} AfterLastOfJoin(front: string, c: char, back: string)
    requires c !in back
    ensures AfterLast(front + [c] + back, c) == back
  {
    var s := front + [c] + back;
    assert s[|s| - |back| - 1] == c;
    assert s[|s| - |back|..] == back;
    assert |AfterLast(s, c)| == |back|;
  }

  /** The first segment of `front + [c] + back` is `front` when `front` has no `c`. */
  lemma {:induction false} BeforeFirstOfJoin(front: string, c: char, back: string)
    requires c !in front
    ensures BeforeFirst(front + [c] + back, c) == front
  {
    var s := front + [c] + back;
    assert s[|front|] == c;
    assert s[..|front|] == front;
    assert |BeforeFirst(s, c)| == |front|;
  }

  /** A decimal digit character. */
  predicate IsDigit(c: char) {
    '0' <= c <= '9'
  }

  function DigitChar(d: nat): (c: char)
    requires d < 10
    ensures IsDigit(c)
  {
    ('0' as int + d) as char
  }

  function DigitValue(c: char): (d: nat)
    requires IsDigit(c)
    ensures d < 10 && DigitChar(d) == c
  {
    c as int - '0' as int
  }

  /** How a non-negative integer is rendered in a template literal: `${n}`. */
  function DecimalString(n: nat): (s: string)
    ensures |s| > 0
    ensures forall c :: c in s ==> IsDigit(c)
    ensures s[0] == '0' ==> n == 0
    decreases n
  {
    if n < 10 then [DigitChar(n)]
    else
      var front := DecimalString(n / 10);
      assert (front + [DigitChar(n % 10)])[0] == front[0];
      front + [DigitChar(n % 10)]
  }

  /** The value of a string of decimal digits. */
  function ParseDecimal(s: string): nat
    requires forall c :: c in s ==> IsDigit(c)
  {
    if s == [] then 0 else 10 * ParseDecimal(s[..|s| - 1]) + DigitValue(s[|s| - 1])
  }

  /** Rendering a number and reading it back gives the number. */
  lemma {:induction false} DecimalRoundTrip(n: nat)
    ensures ParseDecimal(DecimalString(n)) == n
  {
    var s := DecimalString(n);
    if n >= 10 {
      DecimalRoundTrip(n / 10);
      assert s[..|s| - 1] == DecimalString(n / 10);
      assert DigitValue(s[|s| - 1]) == n % 10;
    } else {
      assert DigitValue(s[0]) == n;
    }
  }
}
