/** Concrete searches over small country lists. */
module FilterExamples {
  import opened UpperCase
  import opened Substring
  import opened CountryFilter

  /** "USA" does not include "ca", whatever the case. */
  lemma UsaMissesCa()
    ensures !Matches(Country("USA", 100, 1, 90, 9), "ca")
  {
    assert Upper("ca") == "CA";
    assert Upper("USA") == "USA";
    assert !Includes("USA", "CA");
  }

  /** "Canada" includes "ca" once both are upper-cased. */
  lemma CanadaMatchesCa()
    ensures Matches(Country("Canada", 50, 2, 40, 8), "ca")
  {
    assert Upper("ca") == "CA";
    assert Upper("Canada") == "CANADA";
    assert Includes("CANADA", "CA");
  }

  /** Searching "ca" among USA and Canada keeps Canada only. */
  lemma SearchCaKeepsCanada()
    ensures Filter([Country("USA", 100, 1, 90, 9), Country("Canada", 50, 2, 40, 8)], "ca")
         == [Country("Canada", 50, 2, 40, 8)]
  {
    var usa, canada := Country("USA", 100, 1, 90, 9), Country("Canada", 50, 2, 40, 8);
    UsaMissesCa();
    CanadaMatchesCa();
    assert [usa, canada][1..] == [canada];
  }

  /** Lower-case "us" finds "USA": the comparison ignores case. */
  lemma SearchUsFindsUsa()
    ensures Matches(Country("USA", 0, 0, 0, 0), "us")
  {
    assert Upper("us") == "US";
    assert Upper("USA") == "USA";
  }

  /** Latin-1 letters are upper-cased too: "rÉu" finds "Réunion". */
  lemma SearchLatinOneLetters()
    ensures Matches(Country("R\U{E9}union", 0, 0, 0, 0), "r\U{C9}u")
  {
    assert Upper("r\U{C9}u") == "R\U{C9}U";
    assert Upper("R\U{E9}union") == "R\U{C9}UNION";
  }
}
