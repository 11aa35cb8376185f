# Coronavirus tracker: the country search filter

The tracker shows global totals and a table of per-country statistics. The
user types into a search box, and the table then shows only the countries
whose name contains the typed text, ignoring case. This project models that
filter and the small piece of reactive state behind it:

- `UpperCase` models `toUpperCase` one code point at a time.
- `Substring` models `String.prototype.includes`.
- `CountryFilter` holds the `Country` record, the filter predicate and the
  `filtered` list. It also holds the lemmas about them: the result is a
  subsequence of the source, a country is kept exactly when it matches, the
  empty search keeps everything, filtering twice changes nothing, the case of
  the search does not matter, and typing more text only narrows the result.
- `TrackerState.ViewState` holds the two inputs of the `filtered` getter.
  These are the country list (the value of the countries resource) and the
  search text (replaced on every input event).
- `FilterExamples` proves the results of concrete searches over small lists.

The upper-casing is exact for U+0000..U+00FF. This covers ASCII `a`–`z`,
Latin-1 `à`–`þ` (except `÷`), `ß` to `SS`, `ÿ` to `Ÿ` and `µ` to `Μ`. Every
other code point is treated as its own upper-case form. The filter lemmas use
two facts about upper-casing. First, it works code point by code point, so it
distributes over concatenation (`UpperAppend`, used by `FilterTypeAhead`).
Second, what it produces is left alone by a second upper-casing
(`UpperIdempotent`, used by `FilterUpperSearch`).

## Model

| member | source | states |
|---|---|---|
| UpperCase.UpperChar | src/index.tsx:52 | within U+0000..U+00FF, a code point upper-cases to one code point, or to two exactly for `ß`; code points above U+00FF map to themselves |
| UpperCase.Upper | src/index.tsx:52 | the upper-cased string is never shorter than the original, and every code point in it is already in upper-case form |
| UpperCase.UpperAppend | src/index.tsx:52 | upper-casing a concatenation is the concatenation of the upper-cased parts |
| UpperCase.UpperIdempotent | src/index.tsx:52 | upper-casing twice gives the same string as upper-casing once |
| UpperCase.UpperLength | src/index.tsx:52 | upper-casing keeps the length of any Latin-1 string without `ß` |
| Substring.Includes | src/index.tsx:52 | `s.includes(q)` is true exactly when `q` equals a slice of `s` starting at some position |
| Substring.IncludesEmpty | src/index.tsx:49-52 | the empty search text is included in every location |
| Substring.IncludesPrefix | src/index.tsx:52 | a string is included in every string it is a prefix of |
| Substring.IncludesTransitive | src/index.tsx:52 | if `m` occurs in `s` and `q` occurs in `m`, then `q` occurs in `s` |
| CountryFilter.Matches | src/index.tsx:51-52 | the filter callback holds exactly when the upper-cased search is a slice of the upper-cased location at some position |
| CountryFilter.Filter | src/index.tsx:50-54 | the result is never longer than the source, and every country in it comes from the source and matches the search |
| CountryFilter.FilterPicksMatches | src/index.tsx:51-53 | the result is the source read at increasing positions, and those positions are exactly the ones whose country matches |
| CountryFilter.FilterIsSubsequence | src/index.tsx:51-53 | the result is a subsequence of the source: its elements come from the source in their original relative order |
| CountryFilter.FilterMembership | src/index.tsx:51-53 | a country is in the result if and only if it is in the source and its upper-cased location includes the upper-cased search |
| CountryFilter.FilterEmptySearch | src/index.tsx:49-53 | with the initial empty search the result is the source list itself, same length and same order |
| CountryFilter.FilterIdempotent | src/index.tsx:51-53 | filtering the filtered list again with the same search gives the same list |
| CountryFilter.FilterAppend | src/index.tsx:51-53 | filtering a concatenated list is the concatenation of the filtered parts |
| CountryFilter.FilterCaseInsensitive | src/index.tsx:52 | two searches with the same upper-case form give identical results |
| CountryFilter.FilterUpperSearch | src/index.tsx:52 | searching for the upper-cased text gives the same result as searching for the text |
| CountryFilter.FilterRefine | src/index.tsx:51-53 | when the new search's upper-case form includes the old one's, filtering the old result gives the new result |
| CountryFilter.FilterTypeAhead | src/index.tsx:51-53 | after typing more characters, the new result is the old result filtered again, and is a subsequence of it |
| FilterExamples.UsaMissesCa | src/index.tsx:52 | the location "USA" does not match the search "ca" |
| FilterExamples.CanadaMatchesCa | src/index.tsx:52 | the location "Canada" matches the search "ca" once both are upper-cased |
| FilterExamples.SearchCaKeepsCanada | src/index.tsx:51-53 | searching "ca" in [USA, Canada] gives [Canada] only |
| FilterExamples.SearchUsFindsUsa | src/index.tsx:52 | lower-case "us" matches the location "USA" |
| FilterExamples.SearchLatinOneLetters | src/index.tsx:52 | "rÉu" matches "Réunion": Latin-1 letters are compared without case |
| TrackerState.ViewState.Filtered | src/index.tsx:50-54 | the derived view is the current list read at exactly the positions whose country matches, in increasing order; so it is a subsequence of the list, and it holds exactly the countries of that list that match the current search |
| TrackerState.ViewState.constructor | src/index.tsx:47-49 | at mount the list is empty, the search is empty and the view is empty |
| TrackerState.ViewState.CountriesLoaded | src/index.tsx:57 | a resolved fetch replaces only the list; the view is then the new list filtered by the unchanged search, and the whole list when the search is empty |
| TrackerState.ViewState.SetSearch | src/index.tsx:89 | an input event replaces only the search and leaves the list unchanged; the view is then the list filtered by the new text, the whole list for empty text, and the old view filtered again when the new text contains the old |

## Left out

- UpperCase.Upper, UpperCase.UpperChar: case mapping is modelled only for U+0000..U+00FF. UpperChar's length guarantee (at most two code points, two only for `ß`) holds only in that range; real `toUpperCase` also widens code points such as U+0149, U+0390 and U+FB03. Other code points map to themselves. Full Unicode `toUpperCase` (Greek, Cyrillic, ligatures, other multi-code-point expansions) is not modelled.
- Strings are sequences of Unicode code points. JavaScript strings are UTF-16 code units. `includes` on code units gives the same answer for well-formed strings, but lone surrogates are not modelled.
- The HTTP client, the two GET requests and the unwrapping of the response envelope (src/index.tsx:6-12) are left out: this is network I/O through a library. A resolved fetch enters the model only as the list passed to `CountriesLoaded`.
- The loading and error states of the resources and the concurrent fetches (src/index.tsx:41-47, 57-58) are left out: this is library behaviour and asynchronous scheduling. The global totals resource is not modelled, because the filter never reads it.
- Locale-aware number formatting with `Intl.NumberFormat` (src/index.tsx:13, 34, 176-185) is left out: it is foreign and locale-dependent. The four statistics are plain integers that the filter carries along unchanged.
- All JSX markup, the `ow` class maps and the DOM `render` call (src/index.tsx:15-38, 60-197) are left out: they are presentation only.
- A country record whose `location` is missing would make `toUpperCase` throw. This is not modelled: `location` is always a string here.
