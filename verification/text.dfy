/** String helpers shared by the search, filter and URL-routing code:
    ASCII lower-casing (`String.prototype.toLowerCase`), prefix tests
    (`startsWith`) and substring tests (`includes` / `contains`). */
module Text {

  predicate IsUpper(c: char) {
    'A' <= c <= 'Z'
  }

  /** Lower-cases one character; only the ASCII letters A-Z change. */
  function LowerChar(c: char): (r: char)
    ensures !IsUpper(r)
    ensures IsUpper(c) ==> r as int == c as int + 32
    ensures !IsUpper(c) ==> r == c
  {
    if IsUpper(c) then (c as int + 32) as char else c
  }

  /** `s.toLowerCase()` restricted to ASCII: same length, each upper-case
      letter replaced by its lower-case letter (32 code points further),
      no upper-case letter left, and every other character kept. */
  function Lower(s: string): (r: string)
    ensures |r| == |s|
    ensures forall i :: 0 <= i < |s| && IsUpper(s[i]) ==> r[i] as int == s[i] as int + 32
    ensures forall i :: 0 <= i < |r| ==> !IsUpper(r[i])
    ensures forall i :: 0 <= i < |s| && !IsUpper(s[i]) ==> r[i] == s[i]
  {
    seq(|s|, i requires 0 <= i < |s| => LowerChar(s[i]))
  }

  /** A string without upper-case letters is its own lower-case form. */
  lemma LowerKeepsLowerCase(s: string)
    requires forall i :: 0 <= i < |s| ==> !IsUpper(s[i])
    ensures Lower(s) == s
  {
  }

  /** Lower-casing twice is lower-casing once. */
  lemma LowerIdempotent(s: string)
    ensures Lower(Lower(s)) == Lower(s)
  {
  }

  /** `s.startsWith(prefix)`. */
  predicate StartsWith(s: string, prefix: string) {
    |prefix| <= |s| && s[..|prefix|] == prefix
  }

  /** A string that differs from `prefix` at some index does not start
      with it. */
  lemma DiffersFromPrefix(s: string, prefix: string, k: nat)
    requires k < |prefix| && (k >= |s| || s[k] != prefix[k])
    ensures !StartsWith(s, prefix)
  {
  }

  /** `sub` occurs in `s` beginning at index `i`. */
  predicate OccursAt(s: string, sub: string, i: int) {
    0 <= i && i + |sub| <= |s| && s[i..i + |sub|] == sub
  }

  /** `s.includes(sub)` / `s.contains(sub)`: some index of `s` starts an
      occurrence of `sub`. */
  predicate Contains(s: string, sub: string) {
    exists i | 0 <= i <= |s| - |sub| :: OccursAt(s, sub, i)
  }

  /** The naive left-to-right scan behind `includes`: it answers true
      exactly when `sub` occurs in `s`. */
  method Includes(s: string, sub: string) returns (found: bool)
    ensures found <==> Contains(s, sub)
  {
    var i := 0;
    while i + |sub| <= |s|
      invariant 0 <= i
      invariant forall j :: 0 <= j < i ==> !OccursAt(s, sub, j)
      decreases |s| - i
    {
      if s[i..i + |sub|] == sub {
        assert OccursAt(s, sub, i);
        return true;
      }
      i := i + 1;
    }
    return false;
  }

  /** Every string contains the empty string (`"abc".includes("")` is true). */
  lemma ContainsEmpty(s: string)
    ensures Contains(s, "")
  {
    assert OccursAt(s, "", 0);
  }

  /** Containing a longer string implies containing each of its prefixes. */
  lemma ContainsPrefixOf(s: string, p: string, q: string)
    requires Contains(s, p + q)
    ensures Contains(s, p)
  {
    var i :| 0 <= i <= |s| - |p + q| && OccursAt(s, p + q, i);
    assert s[i..i + |p|] == (p + q)[..|p|];
    assert OccursAt(s, p, i);
  }

  /** A string that lacks the first character of `sub` does not contain
      `sub`. */
  lemma MissingFirstCharNotContained(s: string, sub: string)
    requires |sub| > 0 && sub[0] !in s
    ensures !Contains(s, sub)
  {
  }

  /** A lower-cased string cannot contain a query whose first character
      no character of the original lower-cases to. */
  lemma AbsentLetterNotFound(s: string, q: string)
    requires |q| > 0
    requires forall i :: 0 <= i < |s| ==> LowerChar(s[i]) != q[0]
    ensures !Contains(Lower(s), q)
  {
    forall k | 0 <= k <= |s| - |q|
      ensures !OccursAt(Lower(s), q, k)
    {
      assert Lower(s)[k] == LowerChar(s[k]);
      assert Lower(s)[k..k + |q|][0] == Lower(s)[k];
    }
  }

  /** A lower-cased string cannot contain a query that starts with two
      lower-case letters when no occurrence of the first letter, in either
      case, is followed by the second letter, in either case. */
  lemma PairAbsentNotFound(s: string, q: string)
    requires |q| >= 2 && 'a' <= q[0] <= 'z' && 'a' <= q[1] <= 'z'
    requires forall i :: 0 <= i < |s| - 1 && (s[i] == q[0] || s[i] as int == q[0] as int - 32) ==>
      s[i + 1] != q[1] && s[i + 1] as int != q[1] as int - 32
    ensures !Contains(Lower(s), q)
  {
  }
}
