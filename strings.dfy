/**
 * The string operations the core's messages and keys are built from:
 * decimal rendering of numbers (template literals), `includes` and
 * prefix concatenation.
 */
module Strings {

  predicate IsDigit(c: char) {
    '0' <= c <= '9'
  }

  function DigitChar(d: nat): (c: char)
    requires d < 10
    ensures IsDigit(c)
  {
    ['0', '1', '2', '3', '4', '5', '6', '7', '8', '9'][d]
  }

  /** Decimal rendering of a natural number, as `${n}` renders it. */
  function NatToString(n: nat): (s: string)
    ensures |s| > 0
    ensures forall k | 0 <= k < |s| :: IsDigit(s[k])
    decreases n
  {
    if n < 10 then [DigitChar(n)] else NatToString(n / 10) + [DigitChar(n % 10)]
  }

  /** Decimal rendering of an integer, with a leading '-' when negative. */
  function IntToString(i: int): (s: string)
    ensures |s| > 0
    ensures forall k | 0 <= k < |s| :: IsDigit(s[k]) || s[k] == '-'
  {
    if i < 0 then "-" + NatToString(-i) else NatToString(i)
  }

  /** `s.includes(sub)`: some window of `s` equals `sub`. */
  predicate Contains(s: string, sub: string) {
    exists i | 0 <= i <= |s| - |sub| :: OccursAt(s, sub, i)
  }

  predicate OccursAt(s: string, sub: string, i: int) {
    0 <= i && i + |sub| <= |s| && s[i..i + |sub|] == sub
  }

  /** A string lacking one of the characters of `sub` cannot contain `sub`. */
  lemma MissingCharNotContained(s: string, sub: string, c: char)
    requires c in sub && c !in s
    ensures !Contains(s, sub)
  {
  }

  /** A string containing `sub` still contains it inside a larger string. */
  lemma ContainedInConcat(a: string, s: string, b: string, sub: string)
    requires Contains(s, sub)
    ensures Contains(a + s + b, sub)
  {
    var i :| 0 <= i <= |s| - |sub| && OccursAt(s, sub, i);
    assert 0 <= i && i + |sub| <= |s| && s[i..i + |sub|] == sub;
    var j := |a| + i;
    assert (a + s + b)[j..j + |sub|] == s[i..i + |sub|];
    assert OccursAt(a + s + b, sub, j);
  }

  /** Every character of a window holding `sub` is a character of `sub`. */
  lemma WindowChar(w: string, sub: string, i: int, k: int)
    ensures OccursAt(w, sub, i) && i <= k < i + |sub| ==> w[k] in sub
  {
    if OccursAt(w, sub, i) && i <= k < i + |sub| {
      assert w[k] == w[i..i + |sub|][k - i];
    }
  }

  /**
   * Between a prefix ending and a suffix starting with characters that
   * `sub` lacks, and neither containing `sub`, an occurrence of `sub` must
   * lie in the middle part.
   */
  lemma ContainedBetween(p: string, s: string, q: string, sub: string)
    requires |p| > 0 && p[|p| - 1] !in sub && !Contains(p, sub)
    requires |q| > 0 && q[0] !in sub && !Contains(q, sub)
    requires Contains(p + s + q, sub)
    ensures Contains(s, sub)
  {
    var w := p + s + q;
    var i :| 0 <= i <= |w| - |sub| && OccursAt(w, sub, i);
    var j := i - |p| - |s|;
    assert w[i..i + |sub|] == sub;
    assert w[|p| - 1] == p[|p| - 1] && w[|p| + |s|] == q[0];
    WindowChar(w, sub, i, |p| - 1);
    WindowChar(w, sub, i, |p| + |s|);
    assert i + |sub| <= |p| ==> p[i..i + |sub|] == w[i..i + |sub|];
    assert i + |sub| <= |p| ==> OccursAt(p, sub, i);
    assert 0 <= j ==> q[j..j + |sub|] == w[i..i + |sub|];
    assert 0 <= j ==> OccursAt(q, sub, j);
    assert |p| <= i && i + |sub| <= |p| + |s| ==> s[i - |p|..i - |p| + |sub|] == w[i..i + |sub|];
    assert OccursAt(s, sub, i - |p|);
  }

  /** A character missing from two strings is missing from their concatenation. */
  lemma AbsentFromPair(a: string, b: string, ch: char)
    requires ch !in a && ch !in b
    ensures ch !in a + b
  {
  }

  /** A character missing from three strings is missing from their concatenation. */
  lemma AbsentFromConcat(a: string, b: string, c: string, ch: char)
    requires ch !in a && ch !in b && ch !in c
    ensures ch !in a + b + c
  {
  }

  /** A natural number's rendering contains no letter. */
  lemma NaturalHasNoLetter(n: nat, c: char)
    requires !IsDigit(c)
    ensures c !in NatToString(n)
  {
  }

  /** A number rendering contains no letter. */
  lemma NumberHasNoLetter(i: int, c: char)
    requires !IsDigit(c) && c != '-'
    ensures c !in IntToString(i)
  {
  }

  /** Prefixing with a fixed string is injective. */
  lemma PrefixInjective(p: string, x: string, y: string)
    requires p + x == p + y
    ensures x == y
  {
    assert x == (p + x)[|p|..];
    assert y == (p + y)[|p|..];
  }
}
