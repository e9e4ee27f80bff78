/**
 * The string library operations the two core files rely on: Java's
 * `String.equalsIgnoreCase`, and JavaScript's `toLowerCase`, `trim` and
 * `includes`. Case folding is modelled on ASCII letters.
 */
module Text {

  function LowerChar(c: char): char {
    if 'A' <= c <= 'Z' then (c as int + 32) as char else c
  }

  /** `s.toLowerCase()`, on ASCII letters. */
  function Lower(s: string): string {
    seq(|s|, i requires 0 <= i < |s| => LowerChar(s[i]))
  }

  /** Java's `a.equalsIgnoreCase(b)`: same length, and equal character by character up to case. */
  predicate EqualsIgnoreCase(a: string, b: string) {
    |a| == |b| && Lower(a) == Lower(b)
  }

  lemma {:induction false} LowerIdempotent(s: string)
    ensures Lower(Lower(s)) == Lower(s)
  {
    forall i | 0 <= i < |s|
      ensures Lower(Lower(s))[i] == Lower(s)[i]
    {
      var c := s[i];
      if 'A' <= c <= 'Z' {
        assert 'a' <= LowerChar(c) <= 'z';
      }
    }
  }

  /** The characters JavaScript's `trim` removes: WhiteSpace and LineTerminator. */
  predicate IsWhiteSpace(c: char) {
    || c == '\t' || c == '\n' || c == '\U{000B}' || c == '\U{000C}' || c == '\r' || c == ' '
    || c == '\U{00A0}' || c == '\U{1680}' || ('\U{2000}' <= c <= '\U{200A}')
    || c == '\U{2028}' || c == '\U{2029}' || c == '\U{202F}' || c == '\U{205F}'
    || c == '\U{3000}' || c == '\U{FEFF}'
  }

  /** The first index at or after `i` that does not hold white space, or `|s|`. */
  function SkipWhiteSpace(s: string, i: nat): (e: nat)
    requires i <= |s|
    ensures i <= e <= |s|
    ensures forall j :: i <= j < e ==> IsWhiteSpace(s[j])
    ensures e < |s| ==> !IsWhiteSpace(s[e])
    decreases |s| - i
  {
    if i < |s| && IsWhiteSpace(s[i]) then SkipWhiteSpace(s, i + 1) else i
  }

  /** The last index at or before `j`, but not below `lo`, such that all of `s[e..j]` is white space. */
  function BackOverWhiteSpace(s: string, lo: nat, j: nat): (e: nat)
    requires lo <= j <= |s|
    ensures lo <= e <= j
    ensures forall m :: e <= m < j ==> IsWhiteSpace(s[m])
    ensures e > lo ==> !IsWhiteSpace(s[e - 1])
    decreases j
  {
    if j > lo && IsWhiteSpace(s[j - 1]) then BackOverWhiteSpace(s, lo, j - 1) else j
  }

  /**
   * `s.trim()`: the infix of `s` left after removing white space at both ends.
   * It starts right after the leading white space, everything after it is
   * white space, and it neither starts nor ends with white space, which fixes
   * it uniquely.
   */
  function Trim(s: string): (r: string)
    ensures var k := SkipWhiteSpace(s, 0);
      && k + |r| <= |s| && r == s[k..k + |r|]
      && (forall i :: 0 <= i < k ==> IsWhiteSpace(s[i]))
      && (forall i :: k + |r| <= i < |s| ==> IsWhiteSpace(s[i]))
    ensures r == [] <==> forall i :: 0 <= i < |s| ==> IsWhiteSpace(s[i])
    ensures r != [] ==> !IsWhiteSpace(r[0]) && !IsWhiteSpace(r[|r| - 1])
  {
    var k := SkipWhiteSpace(s, 0);
    var e := BackOverWhiteSpace(s, k, |s|);
    s[k..e]
  }

  /** `t` occurs in `s` starting at index `i`. */
  predicate OccursAt(s: string, t: string, i: int) {
    0 <= i && i + |t| <= |s| && s[i..i + |t|] == t
  }

  /** `s.includes(t)`. */
  function Includes(s: string, t: string): bool
    decreases |s|
  {
    if |t| > |s| then false
    else if s[..|t|] == t then true
    else Includes(s[1..], t)
  }

  /** `Includes` holds exactly when `t` occurs somewhere in `s`. */
  lemma {:induction false} IncludesIff(s: string, t: string)
    ensures Includes(s, t) <==> exists i :: OccursAt(s, t, i)
    decreases |s|
  {
    if |t| > |s| {
    } else if s[..|t|] == t {
      assert OccursAt(s, t, 0);
    } else {
      IncludesIff(s[1..], t);
      forall i | OccursAt(s[1..], t, i) ensures OccursAt(s, t, i + 1) {
        assert s[1..][i..i + |t|] == s[i + 1..i + 1 + |t|];
      }
      forall i | OccursAt(s, t, i) ensures OccursAt(s[1..], t, i - 1) {
        assert s[1..][i - 1..i - 1 + |t|] == s[i..i + |t|];
      }
    }
  }

  /** The empty string occurs in every string. */
  lemma IncludesEmpty(s: string)
    ensures Includes(s, "")
  {
    assert s[..0] == "";
  }
}
