/**
  Upper-casing of strings, as `String.prototype.toUpperCase` does it for the
  code points U+0000..U+00FF (Basic Latin and Latin-1 Supplement). Every other
  code point is taken to be its own upper-case form.
 */
module UpperCase {

  /** True for the lower-case letters whose upper-case form is one code point 0x20 below. */
  predicate ShiftsDown(c: char) {
    ('a' <= c <= 'z') || ('\U{E0}' <= c <= '\U{FE}' && c != '\U{F7}')
  }

  /** The upper-case form of one code point; `ß` is the one that widens, to "SS". */
  function UpperChar(c: char): (r: seq<char>)
    ensures 1 <= |r| <= 2
    ensures |r| == 2 <==> c == '\U{DF}'
    ensures !ShiftsDown(c) && c !in {'\U{DF}', '\U{FF}', '\U{B5}'} ==> r == [c]
  {
    if ShiftsDown(c) then [(c as int - 0x20) as char]
    else if c == '\U{DF}' then ['S', 'S']          // ß
    else if c == '\U{FF}' then ['\U{178}']         // ÿ -> Ÿ
    else if c == '\U{B5}' then ['\U{39C}']         // µ -> Greek capital mu
    else [c]
  }

  /** A code point that upper-casing leaves alone. */
  predicate IsUpperForm(c: char) {
    UpperChar(c) == [c]
  }

  /** Every code point that upper-casing produces is itself in upper-case form. */
  lemma UpperCharIsUpperForm(c: char)
    ensures forall k :: 0 <= k < |UpperChar(c)| ==> IsUpperForm(UpperChar(c)[k])
  {
  }

  /** `s.toUpperCase()`: the code points of `s` upper-cased one by one, in order. */
  function Upper(s: string): (r: string)
    ensures |s| <= |r|
    ensures forall k :: 0 <= k < |r| ==> IsUpperForm(r[k])
  {
    if s == [] then []
    else
      UpperCharIsUpperForm(s[0]);
      UpperChar(s[0]) + Upper(s[1..])
  }

  /** Upper-casing distributes over concatenation. */
  lemma {:induction false} UpperAppend(a: string, b: string)
    ensures Upper(a + b) == Upper(a) + Upper(b)
  {
    if a == [] {
      assert a + b == b;
    } else {
      assert (a + b)[0] == a[0];
      assert (a + b)[1..] == a[1..] + b;
      UpperAppend(a[1..], b);
    }
  }

  /** A string made only of upper-case forms is its own upper-case form. */
  lemma {:induction false} UpperOfUpperForms(s: string)
    requires forall k :: 0 <= k < |s| ==> IsUpperForm(s[k])
    ensures Upper(s) == s
  {
    if s != [] {
      UpperOfUpperForms(s[1..]);
    }
  }

  /** Upper-casing is idempotent: `s.toUpperCase().toUpperCase() == s.toUpperCase()`. */
  lemma UpperIdempotent(s: string)
    ensures Upper(Upper(s)) == Upper(s)
  {
    UpperOfUpperForms(Upper(s));
  }

  /** Upper-casing preserves length on Latin-1 strings without `ß`. */
  lemma {:induction false} UpperLength(s: string)
    requires forall k :: 0 <= k < |s| ==> s[k] <= '\U{FF}'
    requires '\U{DF}' !in s
    ensures |Upper(s)| == |s|
  {
    if s != [] {
      assert s[0] != '\U{DF}';
      assert s == [s[0]] + s[1..];
      UpperLength(s[1..]);
    }
  }
}
