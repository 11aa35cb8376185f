/**
  Substring search, as `String.prototype.includes(q)` answers it when no start
  position is given: does `q` occur in `s` at some position?
 */
module Substring {

  /** `q` occurs in `s` starting at position `i`. */
  ghost predicate OccursAt(q: string, s: string, i: int) {
    0 <= i && i + |q| <= |s| && s[i..i + |q|] == q
  }

  /** `q` is a slice of `s` starting at some position. */
  ghost predicate IsSubstring(q: string, s: string) {
    exists i :: OccursAt(q, s, i)
  }

  /** `q` occurs in a non-empty `s` either at its first position or somewhere in `s[1..]`. */
  lemma IsSubstringUnfold(q: string, s: string)
    requires s != []
    ensures IsSubstring(q, s) <==> OccursAt(q, s, 0) || IsSubstring(q, s[1..])
  {
    if IsSubstring(q, s[1..]) {
      var i :| OccursAt(q, s[1..], i);
      assert s[i + 1..i + 1 + |q|] == s[1..][i..i + |q|];
      assert OccursAt(q, s, i + 1);
    }
    if IsSubstring(q, s) && !OccursAt(q, s, 0) {
      var i :| OccursAt(q, s, i);
      assert s[i..i + |q|] == s[1..][i - 1..i - 1 + |q|];
      assert OccursAt(q, s[1..], i - 1);
    }
  }

  /** `s.includes(q)`: true exactly when `q` is a slice of `s`. */
  function Includes(s: string, q: string): (r: bool)
    ensures r <==> IsSubstring(q, s)
  {
    if q <= s then
      assert OccursAt(q, s, 0);
      true
    else if s == [] then
      false
    else
      IsSubstringUnfold(q, s);
      Includes(s[1..], q)
  }

  /** The empty string occurs in every string. */
  lemma IncludesEmpty(s: string)
    ensures Includes(s, [])
  {
  }

  /** Occurrence is transitive: if `m` occurs in `s` and `q` occurs in `m`, `q` occurs in `s`. */
  lemma IncludesTransitive(s: string, m: string, q: string)
    requires Includes(s, m) && Includes(m, q)
    ensures Includes(s, q)
  {
  }

  /** A string occurs in every string it is a prefix of. */
  lemma IncludesPrefix(s: string, more: string)
    ensures Includes(s + more, s)
  {
  }
}
