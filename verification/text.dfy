/** String helpers shared by the model. Strings are `seq<char>`; only the ASCII
    behaviour of the browser's string and regular-expression functions is
    modelled: the digit class [0-9], upper-case A-Z, substring search,
    `String.prototype.substring` and the decimal rendering of a natural number
    inside a template literal. */
module Text {

  function Min(a: int, b: int): int { if a <= b then a else b }

  predicate IsDigit(c: char) { '0' <= c <= '9' }

  predicate AllDigits(s: string) { forall i :: 0 <= i < |s| ==> IsDigit(s[i]) }

  /** xs is obtained from ys by deleting elements, the rest kept in order. */
  predicate IsSubsequence<T(==)>(xs: seq<T>, ys: seq<T>)
    decreases |ys|
  {
    if xs == [] then true
    else if ys == [] then false
    else (xs[0] == ys[0] && IsSubsequence(xs[1..], ys[1..])) || IsSubsequence(xs, ys[1..])
  }

  /** The ASCII digits of s, in order: the net effect of deleting every match of
      /\s+/ and then of /[^0-9]/ (or of /[^0-9]/ alone). Every digit of s is kept
      and nothing else is. */
  function Digits(s: string): (r: string)
    ensures AllDigits(r)
    ensures |r| <= |s|
  {
    if s == [] then []
    else (if IsDigit(s[0]) then [s[0]] else []) + Digits(s[1..])
  }

  /** Every digit of s is kept, as often as it occurs, and nothing else is. */
  lemma {:induction false} DigitsKeepsEveryDigit(s: string)
    ensures forall c :: IsDigit(c) ==> multiset(Digits(s))[c] == multiset(s)[c]
    ensures forall c :: !IsDigit(c) ==> multiset(Digits(s))[c] == 0
  {
    if s != [] {
      DigitsKeepsEveryDigit(s[1..]);
      assert s == [s[0]] + s[1..];
    }
  }

  lemma {:induction false} DigitsAppend(a: string, b: string)
    ensures Digits(a + b) == Digits(a) + Digits(b)
  {
    if a == [] {
      assert a + b == b;
    } else {
      var keep := if IsDigit(a[0]) then [a[0]] else [];
      assert (a + b)[0] == a[0] && (a + b)[1..] == a[1..] + b;
      assert Digits(a + b) == keep + Digits(a[1..] + b);
      DigitsAppend(a[1..], b);
      assert keep + (Digits(a[1..]) + Digits(b)) == (keep + Digits(a[1..])) + Digits(b);
    }
  }

  /** A string is left unchanged by the digit filter exactly when it holds only
      digits; in particular the filter is idempotent. */
  lemma {:induction false} DigitsFixedPoint(s: string)
    ensures Digits(s) == s <==> AllDigits(s)
  {
    if s != [] {
      DigitsFixedPoint(s[1..]);
      if !IsDigit(s[0]) {
        assert |Digits(s)| <= |s[1..]| < |s|;
      }
    }
  }

  /** The digit filter keeps its characters in their original order. */
  lemma {:induction false} DigitsIsSubsequence(s: string)
    ensures IsSubsequence(Digits(s), s)
  {
    if s != [] {
      DigitsIsSubsequence(s[1..]);
      if IsDigit(s[0]) {
        assert Digits(s)[0] == s[0] && Digits(s)[1..] == Digits(s[1..]);
      } else {
        assert Digits(s) == Digits(s[1..]);
      }
    }
  }

  /** s with every space character removed. */
  function WithoutSpaces(s: string): (r: string)
    ensures ' ' !in r
    ensures |r| <= |s|
  {
    if s == [] then []
    else (if s[0] == ' ' then [] else [s[0]]) + WithoutSpaces(s[1..])
  }

  lemma {:induction false} WithoutSpacesAppend(a: string, b: string)
    ensures WithoutSpaces(a + b) == WithoutSpaces(a) + WithoutSpaces(b)
  {
    if a == [] {
      assert a + b == b;
    } else {
      var keep := if a[0] == ' ' then [] else [a[0]];
      assert (a + b)[0] == a[0] && (a + b)[1..] == a[1..] + b;
      assert WithoutSpaces(a + b) == keep + WithoutSpaces(a[1..] + b);
      WithoutSpacesAppend(a[1..], b);
      assert keep + (WithoutSpaces(a[1..]) + WithoutSpaces(b)) == (keep + WithoutSpaces(a[1..])) + WithoutSpaces(b);
    }
  }

  lemma {:induction false} WithoutSpacesOfDigits(s: string)
    requires AllDigits(s)
    ensures WithoutSpaces(s) == s
  {
    if s != [] {
      WithoutSpacesOfDigits(s[1..]);
    }
  }

  /** `String.prototype.substring(start, end)` for non-negative arguments: both
      ends are clamped to the length and swapped when out of order. */
  function Substring(s: string, start: nat, end: nat): string
  {
    var a := Min(start, |s|);
    var b := Min(end, |s|);
    if a <= b then s[a..b] else s[b..a]
  }

  /** ASCII part of `toLowerCase`: A-Z map to a-z, everything else is kept. */
  function LowerChar(c: char): char
  {
    if 'A' <= c <= 'Z' then (c as int + 32) as char else c
  }

  function ToLower(s: string): string
  {
    seq(|s|, i requires 0 <= i < |s| => LowerChar(s[i]))
  }

  predicate OccursAt(hay: string, needle: string, k: nat)
  {
    k + |needle| <= |hay| && hay[k..k + |needle|] == needle
  }

  /** `String.prototype.includes`: needle occurs somewhere in hay. */
  predicate Contains(hay: string, needle: string)
  {
    exists k: nat :: k <= |hay| && OccursAt(hay, needle, k)
  }

  /** ASCII part of `toUpperCase`: a-z map to A-Z, everything else is kept. */
  function UpperChar(c: char): char
  {
    if 'a' <= c <= 'z' then (c as int - 32) as char else c
  }

  function ToUpper(s: string): string
  {
    seq(|s|, i requires 0 <= i < |s| => UpperChar(s[i]))
  }

  /** Lower-casing forgets every ASCII case distinction: it is idempotent and
      erases an upper-casing. */
  lemma LowerForgetsCase(s: string)
    ensures ToLower(ToLower(s)) == ToLower(s)
    ensures ToLower(ToUpper(s)) == ToLower(s)
  {
  }

  /** Lower-casing commutes with taking a prefix. */
  lemma ToLowerPrefix(p: string, q: string)
    requires p <= q
    ensures ToLower(p) <= ToLower(q)
  {
  }

  /** Every string contains the empty string. */
  lemma ContainsEmpty(hay: string)
    ensures Contains(hay, "")
  {
    assert OccursAt(hay, "", 0);
  }

  /** A string containing q contains every prefix of q. */
  lemma ContainsPrefix(hay: string, p: string, q: string)
    requires p <= q && Contains(hay, q)
    ensures Contains(hay, p)
  {
    var k: nat :| k <= |hay| && OccursAt(hay, q, k);
    assert hay[k..k + |p|] == hay[k..k + |q|][..|p|];
    assert OccursAt(hay, p, k);
  }

  function DigitChar(d: nat): (c: char)
    requires d < 10
    ensures IsDigit(c)
  {
    ('0' as int + d) as char
  }

  /** Decimal rendering of n, as `${n}` produces it inside a template literal. */
  function NatToString(n: nat): (r: string)
    ensures AllDigits(r)
    ensures |r| >= 1
    ensures n < 10 <==> |r| == 1
  {
    if n < 10 then [DigitChar(n)] else NatToString(n / 10) + [DigitChar(n % 10)]
  }

  /** Different numbers render differently. */
  lemma {:induction false} NatToStringInjective(a: nat, b: nat)
    requires NatToString(a) == NatToString(b)
    ensures a == b
  {
    var ra, rb := NatToString(a), NatToString(b);
    if a >= 10 && b >= 10 {
      assert ra[|ra| - 1] == DigitChar(a % 10) && rb[|rb| - 1] == DigitChar(b % 10);
      assert ra[..|ra| - 1] == NatToString(a / 10);
      assert rb[..|rb| - 1] == NatToString(b / 10);
      NatToStringInjective(a / 10, b / 10);
    }
  }

  /** A string built around a fixed prefix and suffix determines its middle. */
  lemma CancelAround(p: string, x: string, y: string, q: string)
    requires p + x + q == p + y + q
    ensures x == y
  {
    assert |x| == |y|;
    assert x == (p + x + q)[|p|..|p| + |x|];
    assert y == (p + y + q)[|p|..|p| + |y|];
  }
}
