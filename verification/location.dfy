/**
 * Destination normalisation: a free-text city and country are trimmed, a
 * trailing ", <country>" in the city is taken as the country, country
 * aliases are resolved, and a US state code in place of the country is
 * promoted to "USA". Also the country-to-major-city table and the order in
 * which a missing country is looked up.
 */
module Location {
  import opened Text

  /** The 50 state codes and DC, in the order of the source table, in six rows. */
  const StateCodesRow1: seq<string> := ["AL", "AK", "AZ", "AR", "CA", "CO", "CT", "DE", "FL"]
  const StateCodesRow2: seq<string> := ["GA", "HI", "ID", "IL", "IN", "IA", "KS", "KY", "LA"]
  const StateCodesRow3: seq<string> := ["ME", "MD", "MA", "MI", "MN", "MS", "MO", "MT", "NE"]
  const StateCodesRow4: seq<string> := ["NV", "NH", "NJ", "NM", "NY", "NC", "ND", "OH", "OK"]
  const StateCodesRow5: seq<string> := ["OR", "PA", "RI", "SC", "SD", "TN", "TX", "UT", "VT"]
  const StateCodesRow6: seq<string> := ["VA", "WA", "WV", "WI", "WY", "DC"]
  const UsStateCodes: seq<string> :=
    StateCodesRow1 + StateCodesRow2 + StateCodesRow3 + StateCodesRow4 + StateCodesRow5 + StateCodesRow6

  /** `s` is one of `entries`, searched from the front. */
  predicate Listed(s: string, entries: seq<string>) {
    entries != [] && (entries[0] == s || Listed(s, entries[1..]))
  }

  /** `US_STATE_CODES.has(s)`. */
  predicate IsStateCode(s: string) {
    Listed(s, UsStateCodes)
  }

  /** `Listed` is sequence membership. */
  lemma {:induction false} ListedIsMember(s: string, entries: seq<string>)
    ensures Listed(s, entries) <==> s in entries
  {
    if entries != [] {
      ListedIsMember(s, entries[1..]);
      assert entries == [entries[0]] + entries[1..];
    }
  }

  /** A code of the right shape for the alias check: two letters, neither "UK" nor "US". */
  predicate PlainCode(s: string) {
    |s| == 2 && s != "UK" && s != "US"
  }

  lemma StateCodeRowsPlain1()
    ensures forall k :: 0 <= k < |StateCodesRow1| ==> PlainCode(StateCodesRow1[k])
    ensures forall k :: 0 <= k < |StateCodesRow2| ==> PlainCode(StateCodesRow2[k])
  {
  }

  lemma StateCodeRowsPlain2()
    ensures forall k :: 0 <= k < |StateCodesRow3| ==> PlainCode(StateCodesRow3[k])
    ensures forall k :: 0 <= k < |StateCodesRow4| ==> PlainCode(StateCodesRow4[k])
  {
  }

  lemma StateCodeRowsPlain3()
    ensures forall k :: 0 <= k < |StateCodesRow5| ==> PlainCode(StateCodesRow5[k])
    ensures forall k :: 0 <= k < |StateCodesRow6| ==> PlainCode(StateCodesRow6[k])
  {
  }

  /** A state code is two letters, and neither "UK" nor "US". */
  lemma StateCodeShape(s: string)
    ensures IsStateCode(s) ==> PlainCode(s)
  {
    ListedIsMember(s, UsStateCodes);
    StateCodeRowsPlain1();
    StateCodeRowsPlain2();
    StateCodeRowsPlain3();
  }

  /** Lower-case spellings and the country name they stand for. */
  const CountryAliases: map<string, string> := map[
    "uk" := "United Kingdom",
    "u.k." := "United Kingdom",
    "great britain" := "United Kingdom",
    "england" := "United Kingdom",
    "scotland" := "United Kingdom",
    "wales" := "United Kingdom",
    "u.s." := "USA",
    "us" := "USA",
    "united states" := "USA"
  ]

  datatype Destination = Destination(city: string, country: string)

  /** The non-empty trimmed comma pieces of `city`. */
  function Segments(city: string): seq<string> {
    NonEmpty(TrimAll(Split(city, ',')))
  }

  /** Step 1: with no country, the last of two or more comma pieces of the city becomes the country. */
  function CountryFromCity(city: string, country: string): string {
    if country == "" && ',' in city && |Segments(city)| > 1 then
      Segments(city)[|Segments(city)| - 1]
    else country
  }

  /** Step 2: an exact, case-insensitive alias match is replaced by the country it names. */
  function ResolveAlias(country: string): string {
    if Lower(country) in CountryAliases then CountryAliases[Lower(country)] else country
  }

  /** Step 3: a state code as country becomes "USA" and, unless the city mentions it, is appended to the city. */
  function PromoteStateCode(city: string, country: string): Destination {
    var code := Upper(country);
    if code != "" && IsStateCode(code) then
      if city != "" && !Contains(Upper(city), code) then Destination(city + ", " + code, "USA")
      else Destination(city, "USA")
    else Destination(city, country)
  }

  /** The upper-cased last (trimmed) comma piece of `city`, empty pieces included. */
  function LastPieceUpper(city: string): string {
    var parts := TrimAll(Split(city, ','));
    Upper(parts[|parts| - 1])
  }

  /** Step 4: still no country, and the city ends in ", <state code>": the country is "USA". */
  function CountryFromStateSuffix(city: string, country: string): string {
    if country == "" && ',' in city && IsStateCode(LastPieceUpper(city)) then "USA" else country
  }

  /** The normalised destination; each empty field falls back to the argument as given. */
  function NormalizedLocation(city: string, country: string): Destination {
    var city1 := Trim(city);
    var country2 := ResolveAlias(CountryFromCity(city1, Trim(country)));
    var promoted := PromoteStateCode(city1, country2);
    var country4 := CountryFromStateSuffix(promoted.city, promoted.country);
    Destination(if promoted.city != "" then promoted.city else city,
                if country4 != "" then country4 else country)
  }

  /** `normalizeLocation`: the two locals are rewritten stage by stage. */
  method NormalizeLocation(city: string, country: string) returns (r: Destination)
    ensures r == NormalizedLocation(city, country)
  {
    var normalizedCity := Trim(city);
    var normalizedCountry := Trim(country);
    if normalizedCountry == "" && ',' in normalizedCity {
      var parts := NonEmpty(TrimAll(Split(normalizedCity, ',')));
      if |parts| > 1 {
        normalizedCountry := parts[|parts| - 1];
      }
    }
    assert normalizedCountry == CountryFromCity(normalizedCity, Trim(country));
    var key := Lower(normalizedCountry);
    if key in CountryAliases {
      normalizedCountry := CountryAliases[key];
    }
    ghost var resolved := normalizedCountry;
    assert resolved == ResolveAlias(CountryFromCity(Trim(city), Trim(country)));
    var countryUpper := Upper(normalizedCountry);
    if countryUpper != "" && IsStateCode(countryUpper) {
      normalizedCountry := "USA";
      if normalizedCity != "" && !Contains(Upper(normalizedCity), countryUpper) {
        normalizedCity := normalizedCity + ", " + countryUpper;
      }
    }
    assert Destination(normalizedCity, normalizedCountry) == PromoteStateCode(Trim(city), resolved);
    if normalizedCountry == "" && ',' in normalizedCity {
      var parts := TrimAll(Split(normalizedCity, ','));
      var lastPart := Upper(parts[|parts| - 1]);
      if IsStateCode(lastPart) {
        normalizedCountry := "USA";
      }
    }
    r := Destination(if normalizedCity != "" then normalizedCity else city,
                     if normalizedCountry != "" then normalizedCountry else country);
  }

  /** The country a trailing comma piece ends up as once aliases and state codes are applied. */
  function CountryNamedBy(piece: string): string {
    var resolved := ResolveAlias(piece);
    if IsStateCode(Upper(resolved)) then "USA" else resolved
  }

  /** Alias values are full names; the only two-letter aliases are "uk" and "us". */
  lemma AliasShape(key: string)
    ensures key in CountryAliases ==> |CountryAliases[key]| > 2
    ensures key in CountryAliases && |key| == 2 ==> key == "uk" || key == "us"
  {
  }

  /** A stage-3 result with a non-empty country passes stage 4 unchanged. */
  lemma CountryKept(city: string, country: string)
    requires country != ""
    ensures CountryFromStateSuffix(city, country) == country
  {
  }

  /** Two or more comma pieces: stage 1 takes the last one, which is not empty. */
  lemma LastPieceTaken(c: string)
    requires |Segments(c)| > 1
    ensures CountryFromCity(c, "") == Segments(c)[|Segments(c)| - 1] != ""
  {
    SplitWithoutSeparator(c, ',');
    assert |NonEmpty(TrimAll([c]))| <= 1;
    assert ',' in c;
    NonEmptyMembers(TrimAll(Split(c, ',')));
    assert Segments(c)[|Segments(c)| - 1] in Segments(c);
  }

  /** Alias resolution never empties a country. */
  lemma ResolvedNotEmpty(country: string)
    requires country != ""
    ensures ResolveAlias(country) != ""
  {
    if Lower(country) in CountryAliases {
      AliasShape(Lower(country));
    }
  }

  /** Stage 3 on a non-empty country: the country named, and a city that only grows. */
  lemma PromotionExtendsCity(c: string, country: string)
    requires country != ""
    ensures PromoteStateCode(c, country).country == (if IsStateCode(Upper(country)) then "USA" else country)
    ensures StartsWith(PromoteStateCode(c, country).city, c)
    ensures !IsStateCode(Upper(country)) ==> PromoteStateCode(c, country).city == c
  {
    StartsWithItself(c);
    var code := Upper(country);
    if IsStateCode(code) && c != "" && !Contains(Upper(c), code) {
      StartsWithConcat(c, ", " + code, c);
      assert c + ", " + code == c + (", " + code);
    }
  }

  /**
   * With no country, the last of two or more comma pieces of the city decides
   * the country, and the city keeps all of its text.
   */
  lemma TrailingPieceBecomesCountry(city: string, country: string)
    requires Trim(country) == "" && |Segments(Trim(city))| > 1
    ensures var pieces := Segments(Trim(city));
      NormalizedLocation(city, country).country == CountryNamedBy(pieces[|pieces| - 1])
    ensures StartsWith(NormalizedLocation(city, country).city, Trim(city))
    ensures var pieces := Segments(Trim(city));
      !IsStateCode(Upper(ResolveAlias(pieces[|pieces| - 1]))) ==> NormalizedLocation(city, country).city == Trim(city)
  {
    var c := Trim(city);
    var pieces := Segments(c);
    var last := pieces[|pieces| - 1];
    LastPieceTaken(c);
    ResolvedNotEmpty(last);
    var resolved := ResolveAlias(last);
    PromotionExtendsCity(c, resolved);
    var promoted := PromoteStateCode(c, resolved);
    CountryKept(promoted.city, promoted.country);
    StartsWithIsPrefix(promoted.city, c);
    assert promoted.city != "" || c == "";
  }

  /** A country given in full is resolved through the alias table only by an exact match. */
  lemma AliasResolvedExactly(city: string, country: string)
    requires Lower(Trim(country)) in CountryAliases
    ensures NormalizedLocation(city, country).country == CountryAliases[Lower(Trim(country))]
    ensures NormalizedLocation(city, country).city == if Trim(city) != "" then Trim(city) else city
  {
    var t := Trim(country);
    assert t != "" by {
      assert Lower("") == "";
      AliasShape(Lower(t));
    }
    var resolved := CountryAliases[Lower(t)];
    AliasShape(Lower(t));
    assert ResolveAlias(CountryFromCity(Trim(city), t)) == resolved;
    if IsStateCode(Upper(resolved)) {
      StateCodeShape(Upper(resolved));
    }
    assert PromoteStateCode(Trim(city), resolved) == Destination(Trim(city), resolved);
    CountryKept(Trim(city), resolved);
  }

  /** A country that is neither an alias nor a state code passes through, trimmed. */
  lemma UnknownCountryPassesThrough(city: string, country: string)
    requires Trim(country) != ""
    requires Lower(Trim(country)) !in CountryAliases
    requires !IsStateCode(Upper(Trim(country)))
    ensures NormalizedLocation(city, country) ==
      Destination(if Trim(city) != "" then Trim(city) else city, Trim(country))
  {
  }

  /** Upper-casing a lower-cased string is the same as upper-casing it. */
  lemma UpperOfLower(s: string)
    ensures Upper(Lower(s)) == Upper(s)
  {
    LowerAt(s);
    UpperAt(s);
    UpperAt(Lower(s));
  }

  /**
   * A state code as the country (in any case) becomes "USA", and the code is
   * appended to a non-empty city that does not already mention it.
   */
  lemma StateCodePromoted(city: string, country: string)
    requires IsStateCode(Upper(Trim(country)))
    ensures NormalizedLocation(city, country).country == "USA"
    ensures var code := Upper(Trim(country));
      Trim(city) != "" ==>
        NormalizedLocation(city, country).city ==
          if Contains(Upper(Trim(city)), code) then Trim(city) else Trim(city) + ", " + code
  {
    var t := Trim(country);
    StateCodeShape(Upper(t));
    AliasShape(Lower(t));
    UpperOfLower(t);
    assert Upper("uk") == "UK" && Upper("us") == "US";
    assert Lower(t) !in CountryAliases;
    assert CountryFromCity(Trim(city), t) == t;
    assert ResolveAlias(t) == t;
    var promoted := PromoteStateCode(Trim(city), t);
    assert promoted.country == "USA";
    CountryKept(promoted.city, promoted.country);
  }

  /** With no country at all, a city ending in ", <state code>" is placed in the USA. */
  lemma StateSuffixGivesUsa(city: string, country: string)
    requires Trim(country) == "" && |Segments(Trim(city))| <= 1
    requires ',' in Trim(city) && IsStateCode(LastPieceUpper(Trim(city)))
    ensures NormalizedLocation(city, country) == Destination(Trim(city), "USA")
  {
    var c := Trim(city);
    assert Lower("") == "" && Upper("") == "";
    assert CountryFromCity(c, "") == "";
    assert "" !in CountryAliases;
    assert ResolveAlias("") == "";
    assert PromoteStateCode(c, "") == Destination(c, "");
    assert CountryFromStateSuffix(c, "") == "USA";
    assert c != "";
  }

  /** A field left empty by every stage is returned exactly as it was passed in. */
  lemma EmptyFieldsFallBack(city: string, country: string)
    ensures Trim(city) == "" ==> NormalizedLocation(city, country).city == city
    ensures Trim(country) == "" && ',' !in Trim(city) ==> NormalizedLocation(city, country).country == country
  {
    if Trim(city) == "" {
      assert Upper("") == "";
    }
    if Trim(country) == "" && ',' !in Trim(city) {
      assert Lower("") == "" && Upper("") == "";
      assert "" !in CountryAliases;
      assert PromoteStateCode(Trim(city), "") == Destination(Trim(city), "");
    }
  }

  /** With a country given, stage 1 and stage 4 change nothing. */
  lemma NormalizedWithCountry(city: string, country: string)
    requires Trim(country) != ""
    ensures var p := PromoteStateCode(Trim(city), ResolveAlias(Trim(country)));
      NormalizedLocation(city, country) == Destination(if p.city != "" then p.city else city, p.country)
  {
    var t := Trim(country);
    assert CountryFromCity(Trim(city), t) == t;
    ResolvedNotEmpty(t);
    PromotionExtendsCity(Trim(city), ResolveAlias(t));
    var p := PromoteStateCode(Trim(city), ResolveAlias(t));
    CountryKept(p.city, p.country);
  }

  lemma LondonSplit()
    ensures Split("London, UK", ',') == ["London", " UK"]
  {
    assert "London, UK" == "London" + [','] + " UK";
    SplitWithoutSeparator("London", ',');
    SplitWithoutSeparator(" UK", ',');
    SplitAfterPiece("London", ',', " UK");
  }

  lemma LondonTrimmed()
    ensures TrimAll(["London", " UK"]) == ["London", "UK"]
  {
    assert Trim(" UK") == "UK";
    assert Trim("London") == "London";
  }

  /** "London, UK" splits into two pieces. */
  lemma LondonPieces()
    ensures Segments("London, UK") == ["London", "UK"]
  {
    LondonSplit();
    LondonTrimmed();
    assert NonEmpty(["London", "UK"]) == ["London", "UK"];
  }

  /** No alias resolves to a state code. */
  lemma AliasIsNoStateCode(key: string)
    requires key in CountryAliases
    ensures !IsStateCode(Upper(CountryAliases[key]))
  {
    AliasShape(key);
    StateCodeShape(Upper(CountryAliases[key]));
  }

  /** "UK" names the United Kingdom. */
  lemma UkNamesUnitedKingdom()
    ensures ResolveAlias("UK") == CountryAliases["uk"] == "United Kingdom"
    ensures !IsStateCode(Upper(ResolveAlias("UK")))
  {
    assert Lower("UK") == "uk";
    AliasIsNoStateCode("uk");
  }

  /** "London, UK" keeps its city text and is placed in the United Kingdom. */
  lemma LondonExample()
    ensures NormalizedLocation("London, UK", "") == Destination("London, UK", "United Kingdom")
  {
    LondonUntrimmed();
    LondonPieces();
    UkNamesUnitedKingdom();
    TrailingPieceBecomesCountry("London, UK", "");
  }

  /** "London, UK" has no whitespace to trim. */
  lemma LondonUntrimmed()
    ensures Trim("London, UK") == "London, UK"
  {
    TrimPadded([], "London, UK", []);
    assert [] + "London, UK" + [] == "London, UK";
  }

  /** "TX" is a state code. */
  lemma TexasIsStateCode()
    ensures IsStateCode("TX")
  {
    assert StateCodesRow5[6] == "TX";
    assert UsStateCodes[42] == "TX";
    ListedIsMember("TX", UsStateCodes);
  }

  /** "OR" is a state code. */
  lemma OregonIsStateCode()
    ensures IsStateCode("OR")
  {
    assert StateCodesRow5[0] == "OR";
    assert UsStateCodes[36] == "OR";
    ListedIsMember("OR", UsStateCodes);
  }

  /** "TX" does not occur in "AUSTIN". */
  lemma AustinLacksTexas()
    ensures !Contains(Upper("Austin"), "TX")
  {
    assert Upper("Austin") == "AUSTIN";
    assert "TIN"[1..] == "IN";
    assert "STIN"[1..] == "TIN";
    assert "USTIN"[1..] == "STIN";
    assert "AUSTIN"[1..] == "USTIN";
  }

  /** The inputs of the Austin example need no trimming, and "tx" upper-cases to "TX". */
  lemma AustinInputs()
    ensures Trim("tx") == "tx" && Trim("Austin") == "Austin"
    ensures Upper("tx") == "TX"
  {
    TrimPadded([], "tx", []);
    assert [] + "tx" + [] == "tx";
    TrimPadded([], "Austin", []);
    assert [] + "Austin" + [] == "Austin";
  }

  /** A lower-case state code is promoted and appended to the city. */
  lemma AustinExample()
    ensures NormalizedLocation("Austin", "tx") == Destination("Austin, TX", "USA")
  {
    AustinInputs();
    TexasIsStateCode();
    StateCodePromoted("Austin", "tx");
    AustinLacksTexas();
  }

  /**
   * The state-code test on the city is a plain substring test: "OR" occurs in
   * "PORTLAND", so the city is not given a ", OR" suffix.
   */
  lemma PortlandExample()
    ensures NormalizedLocation("Portland", "OR") == Destination("Portland", "USA")
  {
    assert Trim("OR") == "OR" && Trim("Portland") == "Portland";
    assert Upper("OR") == "OR";
    OregonIsStateCode();
    StateCodePromoted("Portland", "OR");
    PortlandHoldsOregon();
  }

  /** "OR" occurs in "PORTLAND". */
  lemma PortlandHoldsOregon()
    ensures Contains(Upper("Portland"), "OR")
  {
    var u := Upper("Portland");
    UpperAt("Portland");
    assert u[1] == 'O' && u[2] == 'R';
    assert u[1..3] == "OR";
    ContainsFromOccurrence(u, "OR", 1);
  }

  /** A country that is not an alias or a state code is kept. */
  lemma ParisExample()
    ensures NormalizedLocation("Paris", "France") == Destination("Paris", "France")
  {
    assert Trim("France") == "France" && Trim("Paris") == "Paris";
    assert Lower("France") == "france";
    assert "france" !in CountryAliases;
    if IsStateCode(Upper("France")) {
      StateCodeShape(Upper("France"));
    }
    UnknownCountryPassesThrough("Paris", "France");
  }

  /**
   * Lower-case country names and the city searched in their place, in the
   * order of the table in `findMajorCityInCountry` (which lists "thailand" twice, with the same
   * city; it appears once here), in rows of eight.
   */
  const MajorCitiesRow1: seq<(string, string)> := [
    ("thailand", "Bangkok"),
    ("vietnam", "Ho Chi Minh City"),
    ("cambodia", "Phnom Penh"),
    ("laos", "Vientiane"),
    ("philippines", "Manila"),
    ("indonesia", "Jakarta"),
    ("malaysia", "Kuala Lumpur"),
    ("singapore", "Singapore")
  ]
  const MajorCitiesRow2: seq<(string, string)> := [
    ("japan", "Tokyo"),
    ("south korea", "Seoul"),
    ("korea", "Seoul"),
    ("china", "Beijing"),
    ("india", "Delhi"),
    ("bangladesh", "Dhaka"),
    ("pakistan", "Islamabad"),
    ("sri lanka", "Colombo")
  ]
  const MajorCitiesRow3: seq<(string, string)> := [
    ("nepal", "Kathmandu"),
    ("myanmar", "Yangon"),
    ("burma", "Yangon"),
    ("mongolia", "Ulaanbaatar"),
    ("taiwan", "Taipei"),
    ("hong kong", "Hong Kong"),
    ("italy", "Rome"),
    ("france", "Paris")
  ]
  const MajorCitiesRow4: seq<(string, string)> := [
    ("spain", "Barcelona"),
    ("germany", "Berlin"),
    ("united kingdom", "London"),
    ("portugal", "Lisbon"),
    ("greece", "Athens"),
    ("switzerland", "Zurich"),
    ("austria", "Vienna"),
    ("netherlands", "Amsterdam")
  ]
  const MajorCitiesRow5: seq<(string, string)> := [
    ("belgium", "Brussels"),
    ("czech republic", "Prague"),
    ("czechia", "Prague"),
    ("poland", "Warsaw"),
    ("sweden", "Stockholm"),
    ("norway", "Oslo"),
    ("denmark", "Copenhagen"),
    ("ireland", "Dublin")
  ]
  const MajorCitiesRow6: seq<(string, string)> := [
    ("hungary", "Budapest"),
    ("croatia", "Dubrovnik"),
    ("iceland", "Reykjavik"),
    ("slovenia", "Ljubljana"),
    ("romania", "Bucharest"),
    ("united states", "New York"),
    ("united arab emirates", "Dubai"),
    ("uae", "Dubai")
  ]
  const MajorCitiesRow7: seq<(string, string)> := [
    ("saudi arabia", "Riyadh"),
    ("qatar", "Doha"),
    ("oman", "Muscat"),
    ("jordan", "Amman"),
    ("lebanon", "Beirut"),
    ("israel", "Tel Aviv"),
    ("turkey", "Istanbul"),
    ("australia", "Sydney")
  ]
  const MajorCitiesRow8: seq<(string, string)> := [
    ("argentina", "Buenos Aires"),
    ("brazil", "S\U{00E3}o Paulo"),
    ("chile", "Santiago"),
    ("colombia", "Bogot\U{00E1}"),
    ("ecuador", "Quito"),
    ("peru", "Lima"),
    ("venezuela", "Caracas"),
    ("bolivia", "La Paz")
  ]
  const MajorCitiesRow9: seq<(string, string)> := [
    ("paraguay", "Asunci\U{00F3}n"),
    ("uruguay", "Montevideo"),
    ("guyana", "Georgetown"),
    ("suriname", "Paramaribo"),
    ("mexico", "Mexico City"),
    ("costa rica", "San Jos\U{00E9}"),
    ("panama", "Panama City"),
    ("honduras", "Tegucigalpa")
  ]
  const MajorCitiesRow10: seq<(string, string)> := [
    ("guatemala", "Guatemala City"),
    ("el salvador", "San Salvador"),
    ("nicaragua", "Managua"),
    ("belize", "Belize City")
  ]
  const MajorCities: seq<(string, string)> :=
    MajorCitiesRow1 + MajorCitiesRow2 + MajorCitiesRow3 + MajorCitiesRow4 + MajorCitiesRow5 + MajorCitiesRow6 + MajorCitiesRow7 + MajorCitiesRow8 + MajorCitiesRow9 + MajorCitiesRow10

  /** The city paired with `key` in the first row of `table` that has it. */
  function LookupCity(key: string, table: seq<(string, string)>): (city: string)
    ensures city == "" || exists k :: 0 <= k < |table| && table[k] == (key, city)
  {
    if table == [] then ""
    else if table[0].0 == key then table[0].1
    else
      var city := LookupCity(key, table[1..]);
      assert city != "" ==> exists k :: 0 <= k < |table| && table[k] == (key, city) by {
        if city != "" {
          var k :| 0 <= k < |table| - 1 && table[1..][k] == (key, city);
          assert table[k + 1] == (key, city);
        }
      }
      city
  }

  /** Every key and every city in a row is non-empty. */
  predicate NonEmptyRow(row: seq<(string, string)>) {
    forall k :: 0 <= k < |row| ==> row[k].0 != "" && row[k].1 != ""
  }

  lemma MajorCityRowsNonEmpty1()
    ensures NonEmptyRow(MajorCitiesRow1)
    ensures NonEmptyRow(MajorCitiesRow2)
    ensures NonEmptyRow(MajorCitiesRow3)
  {
  }

  lemma MajorCityRowsNonEmpty2()
    ensures NonEmptyRow(MajorCitiesRow4)
    ensures NonEmptyRow(MajorCitiesRow5)
    ensures NonEmptyRow(MajorCitiesRow6)
  {
  }

  lemma MajorCityRowsNonEmpty3()
    ensures NonEmptyRow(MajorCitiesRow7)
    ensures NonEmptyRow(MajorCitiesRow8)
    ensures NonEmptyRow(MajorCitiesRow9)
  {
  }

  lemma MajorCityRowsNonEmpty4()
    ensures NonEmptyRow(MajorCitiesRow10)
  {
  }

  /** Concatenated rows with non-empty entries have non-empty entries. */
  lemma NonEmptyRows(a: seq<(string, string)>, b: seq<(string, string)>)
    requires NonEmptyRow(a) && NonEmptyRow(b)
    ensures NonEmptyRow(a + b)
  {
    forall k | 0 <= k < |a + b|
      ensures (a + b)[k].0 != "" && (a + b)[k].1 != ""
    {
      if k < |a| { assert (a + b)[k] == a[k]; } else { assert (a + b)[k] == b[k - |a|]; }
    }
  }

  /** No key and no city of the table is empty. */
  lemma MajorCitiesNonEmpty()
    ensures NonEmptyRow(MajorCities)
  {
    MajorCityRowsNonEmpty1();
    MajorCityRowsNonEmpty2();
    MajorCityRowsNonEmpty3();
    MajorCityRowsNonEmpty4();
    NonEmptyRows(MajorCitiesRow1, MajorCitiesRow2);
    NonEmptyRows(MajorCitiesRow1 + MajorCitiesRow2, MajorCitiesRow3);
    NonEmptyRows(MajorCitiesRow1 + MajorCitiesRow2 + MajorCitiesRow3, MajorCitiesRow4);
    NonEmptyRows(MajorCitiesRow1 + MajorCitiesRow2 + MajorCitiesRow3 + MajorCitiesRow4, MajorCitiesRow5);
    NonEmptyRows(MajorCitiesRow1 + MajorCitiesRow2 + MajorCitiesRow3 + MajorCitiesRow4 + MajorCitiesRow5, MajorCitiesRow6);
    NonEmptyRows(MajorCitiesRow1 + MajorCitiesRow2 + MajorCitiesRow3 + MajorCitiesRow4 + MajorCitiesRow5 + MajorCitiesRow6, MajorCitiesRow7);
    NonEmptyRows(MajorCitiesRow1 + MajorCitiesRow2 + MajorCitiesRow3 + MajorCitiesRow4 + MajorCitiesRow5 + MajorCitiesRow6 + MajorCitiesRow7, MajorCitiesRow8);
    NonEmptyRows(MajorCitiesRow1 + MajorCitiesRow2 + MajorCitiesRow3 + MajorCitiesRow4 + MajorCitiesRow5 + MajorCitiesRow6 + MajorCitiesRow7 + MajorCitiesRow8, MajorCitiesRow9);
    NonEmptyRows(MajorCitiesRow1 + MajorCitiesRow2 + MajorCitiesRow3 + MajorCitiesRow4 + MajorCitiesRow5 + MajorCitiesRow6 + MajorCitiesRow7 + MajorCitiesRow8 + MajorCitiesRow9, MajorCitiesRow10);
  }

  /** `findMajorCityInCountry`: the table's city for the lower-cased country, or the country itself. */
  function MajorCityFor(country: string): (city: string)
    ensures city == country || (Lower(country), city) in MajorCities
    ensures city != "" <==> country != ""
  {
    var found := LookupCity(Lower(country), MajorCities);
    MajorCitiesNonEmpty();
    if found != "" then
      assert country != "" by {
        var k :| 0 <= k < |MajorCities| && MajorCities[k] == (Lower(country), found);
      }
      found
    else country
  }

  /** "Thailand" is searched through Bangkok, in any case. */
  lemma ThailandExample()
    ensures MajorCityFor("Thailand") == "Bangkok"
  {
    assert Lower("Thailand") == "thailand";
    assert MajorCities[0] == ("thailand", "Bangkok");
  }

  /** The capitalised spelling finds the same city. */
  lemma ThailandCapitalsExample()
    ensures MajorCityFor("THAILAND") == "Bangkok"
  {
    assert Lower("THAILAND") == "thailand";
    assert MajorCities[0] == ("thailand", "Bangkok");
  }

  /**
   * Where the search ends up looking: the normalised destination; with no
   * country, first the raw city is checked for being a country name (and the
   * table's city is searched in it), then the country of the city is looked up.
   * `isCountry` and `countryOf` are the two lookups' answers ("" for none).
   */
  function ResolvedDestination(city: string, country: string,
                               isCountry: string -> bool, countryOf: string -> string): Destination
  {
    var n := NormalizedLocation(city, country);
    var checked := if n.country == "" && isCountry(city) then Destination(MajorCityFor(city), city) else n;
    if checked.country == "" && countryOf(checked.city) != "" then Destination(checked.city, countryOf(checked.city))
    else checked
  }

  /** A known country skips both lookups. */
  lemma KnownCountryIsKept(city: string, country: string, isCountry: string -> bool, countryOf: string -> string)
    requires NormalizedLocation(city, country).country != ""
    ensures ResolvedDestination(city, country, isCountry, countryOf) == NormalizedLocation(city, country)
  {
  }

  /** A city argument that names a country is searched through that country's major city. */
  lemma CountryNameSearchedByMajorCity(city: string, country: string, isCountry: string -> bool, countryOf: string -> string)
    requires NormalizedLocation(city, country).country == "" && isCountry(city) && city != ""
    ensures ResolvedDestination(city, country, isCountry, countryOf) == Destination(MajorCityFor(city), city)
  {
  }

  /** The search goes without a country only when no stage and neither lookup supplies one. */
  lemma NoCountryOnlyWhenAllFail(city: string, country: string, isCountry: string -> bool, countryOf: string -> string)
    ensures var n := NormalizedLocation(city, country);
      ResolvedDestination(city, country, isCountry, countryOf).country == "" <==>
        n.country == "" && (city == "" || !isCountry(city)) && countryOf(n.city) == ""
  {
  }
}
