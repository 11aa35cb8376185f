/**
  The country-list filter: the `filtered` view of the tracker's state, which
  keeps, in their original order, the countries whose upper-cased `location`
  includes the upper-cased search text.
 */
module CountryFilter {
  import opened UpperCase
  import opened Substring

  /** One row of the per-country statistics list. */
  datatype Country = Country(location: string, confirmed: int, deaths: int, recovered: int, active: int)

  /** The filter's predicate: `country.location.toUpperCase().includes(search.toUpperCase())`. */
  predicate Matches(c: Country, search: string)
    ensures Matches(c, search) <==> IsSubstring(Upper(search), Upper(c.location))
  {
    Includes(Upper(c.location), Upper(search))
  }

  /** `countries.filter(Matches)`: a new list of the matching countries, in their original order. */
  function Filter(countries: seq<Country>, search: string): (r: seq<Country>)
    ensures |r| <= |countries|
    ensures forall k :: 0 <= k < |r| ==> r[k] in countries && Matches(r[k], search)
  {
    if countries == [] then []
    else (if Matches(countries[0], search) then [countries[0]] else []) + Filter(countries[1..], search)
  }

  // ---------------------------------------------------------------------------
  // Subsequence: the result is picked out of the source, in increasing positions.

  ghost predicate Increasing(idx: seq<int>) {
    forall a, b :: 0 <= a < b < |idx| ==> idx[a] < idx[b]
  }

  /** `r` is `s` read at the increasing positions `idx`. */
  ghost predicate PicksFrom(r: seq<Country>, s: seq<Country>, idx: seq<int>) {
    && |idx| == |r|
    && Increasing(idx)
    && forall k :: 0 <= k < |idx| ==> 0 <= idx[k] < |s| && s[idx[k]] == r[k]
  }

  /** `r` is a subsequence of `s`: every element comes from `s` and their relative order is kept. */
  ghost predicate IsSubsequence(r: seq<Country>, s: seq<Country>) {
    exists idx :: PicksFrom(r, s, idx)
  }

  /** Every position moved one further on, as when an element is put in front of the source. */
  ghost function Shift(idx: seq<int>): (r: seq<int>)
    ensures |r| == |idx|
    ensures forall k :: 0 <= k < |idx| ==> r[k] == idx[k] + 1
  {
    seq(|idx|, k requires 0 <= k < |idx| => idx[k] + 1)
  }

  /** The positions of `countries` whose country matches `search`, in increasing order. */
  ghost function MatchPositions(countries: seq<Country>, search: string): (r: seq<int>)
    ensures forall k :: 0 <= k < |r| ==> 0 <= r[k] < |countries|
  {
    if countries == [] then []
    else (if Matches(countries[0], search) then [0] else []) + Shift(MatchPositions(countries[1..], search))
  }

  /** Putting `c` in front of the source, and optionally of the picked list, keeps the picking. */
  lemma PicksCons(c: Country, s: seq<Country>, r: seq<Country>, idx: seq<int>, keep: bool)
    requires PicksFrom(r, s, idx)
    ensures PicksFrom((if keep then [c] else []) + r, [c] + s, (if keep then [0] else []) + Shift(idx))
  {
  }

  /** The match positions are exactly the positions whose country matches. */
  lemma {:induction false} MatchPositionsExact(countries: seq<Country>, search: string)
    ensures forall j :: 0 <= j < |countries| ==> (j in MatchPositions(countries, search) <==> Matches(countries[j], search))
  {
    if countries != [] {
      var tail := countries[1..];
      MatchPositionsExact(tail, search);
      var rest := MatchPositions(tail, search);
      forall j | 0 <= j < |countries|
        ensures j in MatchPositions(countries, search) <==> Matches(countries[j], search)
      {
        if j == 0 {
          assert 0 !in Shift(rest);
        } else {
          assert countries[j] == tail[j - 1];
          assert j in Shift(rest) <==> j - 1 in rest;
        }
      }
    }
  }

  /**
    The result is the source read at exactly the positions whose country
    matches: a subsequence that drops every non-matching country and no other.
   */
  lemma {:induction false} FilterPicksMatches(countries: seq<Country>, search: string)
    ensures PicksFrom(Filter(countries, search), countries, MatchPositions(countries, search))
    ensures forall j :: 0 <= j < |countries| ==> (j in MatchPositions(countries, search) <==> Matches(countries[j], search))
  {
    MatchPositionsExact(countries, search);
    if countries != [] {
      var c, tail := countries[0], countries[1..];
      FilterPicksMatches(tail, search);
      PicksCons(c, tail, Filter(tail, search), MatchPositions(tail, search), Matches(c, search));
      assert [c] + tail == countries;
    }
  }

  /** The filtered list is a subsequence of the source list. */
  lemma FilterIsSubsequence(countries: seq<Country>, search: string)
    ensures IsSubsequence(Filter(countries, search), countries)
  {
    FilterPicksMatches(countries, search);
  }

  // ---------------------------------------------------------------------------
  // Membership, empty query, idempotence, case-insensitivity.

  /** A country is in the result if and only if it is in the source and its location matches. */
  lemma {:induction false} FilterMembership(countries: seq<Country>, search: string, c: Country)
    ensures c in Filter(countries, search) <==> c in countries && Matches(c, search)
  {
    if countries != [] {
      FilterMembership(countries[1..], search, c);
      assert countries == [countries[0]] + countries[1..];
    }
  }

  /** With the initial empty search every country is kept, in the original order. */
  lemma {:induction false} FilterEmptySearch(countries: seq<Country>)
    ensures Filter(countries, "") == countries
  {
    if countries != [] {
      IncludesEmpty(Upper(countries[0].location));
      FilterEmptySearch(countries[1..]);
    }
  }

  /** Filtering an already filtered list with the same search changes nothing. */
  lemma {:induction false} FilterIdempotent(countries: seq<Country>, search: string)
    ensures Filter(Filter(countries, search), search) == Filter(countries, search)
  {
    if countries != [] {
      FilterIdempotent(countries[1..], search);
      FilterAppend((if Matches(countries[0], search) then [countries[0]] else []), Filter(countries[1..], search), search);
    }
  }

  /** Filtering distributes over concatenation of the source list. */
  lemma {:induction false} FilterAppend(a: seq<Country>, b: seq<Country>, search: string)
    ensures Filter(a + b, search) == Filter(a, search) + Filter(b, search)
  {
    if a == [] {
      assert a + b == b;
    } else {
      assert (a + b)[0] == a[0];
      assert (a + b)[1..] == a[1..] + b;
      FilterAppend(a[1..], b, search);
    }
  }

  /** Two searches with the same upper-case form select the same countries. */
  lemma {:induction false} FilterCaseInsensitive(countries: seq<Country>, s1: string, s2: string)
    requires Upper(s1) == Upper(s2)
    ensures Filter(countries, s1) == Filter(countries, s2)
  {
    if countries != [] {
      FilterCaseInsensitive(countries[1..], s1, s2);
    }
  }

  /** Searching for the upper-cased text is the same as searching for the text. */
  lemma FilterUpperSearch(countries: seq<Country>, search: string)
    ensures Filter(countries, Upper(search)) == Filter(countries, search)
  {
    UpperIdempotent(search);
    FilterCaseInsensitive(countries, Upper(search), search);
  }

  /**
    A search whose upper-case form includes that of an earlier search can be
    run on the earlier result instead of on the whole list.
   */
  lemma {:induction false} FilterRefine(countries: seq<Country>, wide: string, narrow: string)
    requires Includes(Upper(narrow), Upper(wide))
    ensures Filter(Filter(countries, wide), narrow) == Filter(countries, narrow)
  {
    if countries != [] {
      var c := countries[0];
      if Matches(c, narrow) {
        IncludesTransitive(Upper(c.location), Upper(narrow), Upper(wide));
      }
      FilterRefine(countries[1..], wide, narrow);
      FilterAppend((if Matches(c, wide) then [c] else []), Filter(countries[1..], wide), narrow);
    }
  }

  /** Typing more characters after a search only narrows its result. */
  lemma FilterTypeAhead(countries: seq<Country>, search: string, more: string)
    ensures Filter(Filter(countries, search), search + more) == Filter(countries, search + more)
    ensures IsSubsequence(Filter(countries, search + more), Filter(countries, search))
  {
    UpperAppend(search, more);
    IncludesPrefix(Upper(search), Upper(more));
    FilterRefine(countries, search, search + more);
    FilterIsSubsequence(Filter(countries, search), search + more);
  }
}
