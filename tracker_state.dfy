/**
  The tracker view's reactive state: the value of the countries resource, the
  search text typed by the user, and the `filtered` view derived from both.
 */
module TrackerState {
  import opened UpperCase
  import opened Substring
  import opened CountryFilter

  class ViewState {
    /** Current value of the countries resource: empty until the fetch resolves. */
    var countries: seq<Country>
    /** Text of the search box. */
    var search: string

    /** The `filtered` getter: recomputed from the current list and search on every read. */
    function Filtered(): (r: seq<Country>)
      reads this
      ensures PicksFrom(r, countries, MatchPositions(countries, search))
      ensures IsSubsequence(r, countries)
      ensures forall c :: c in r <==> c in countries && Matches(c, search)
    {
      FilterPicksMatches(countries, search);
      FilterIsSubsequence(countries, search);
      forall c ensures c in Filter(countries, search) <==> c in countries && Matches(c, search) {
        FilterMembership(countries, search, c);
      }
      Filter(countries, search)
    }

    /** State at mount: no countries yet, empty search. */
    constructor ()
      ensures countries == [] && search == ""
      ensures Filtered() == []
    {
      countries := [];
      search := "";
    }

    /** The countries resource resolves with `loaded`; the search text is kept. */
    method CountriesLoaded(loaded: seq<Country>)
      modifies this`countries
      ensures countries == loaded && search == old(search)
      ensures Filtered() == Filter(loaded, search)
      ensures search == "" ==> Filtered() == loaded
    {
      countries := loaded;
      if search == "" {
        FilterEmptySearch(loaded);
      }
    }

    /** An input event replaces the search text and nothing else. */
    method SetSearch(value: string)
      modifies this`search
      ensures search == value && countries == old(countries)
      ensures Filtered() == Filter(countries, value)
      ensures value == "" ==> Filtered() == countries
      ensures Includes(Upper(value), Upper(old(search))) ==> Filtered() == Filter(old(Filtered()), value)
    {
      search := value;
      if value == "" {
        FilterEmptySearch(countries);
      }
      if Includes(Upper(value), Upper(old(search))) {
        FilterRefine(countries, old(search), value);
      }
    }
  }
}
