/**
 * The static catalog the server falls back on: `slugify`, the catalog built
 * from 50 US cities and ten lodging variants plus five international
 * entries, country-name normalisation, and `basicHotelSearch`.
 */
module Catalog {
  import opened Wrappers
  import opened Text
  import opened Uri
  import opened Records

  /** Drops the leading code points that `slugify` does not keep. */
  function DropRun(s: string): (r: string)
    ensures |r| <= |s|
    ensures r == [] || LowerAlnum(r[0])
  {
    if s == [] || LowerAlnum(s[0]) then s else DropRun(s[1..])
  }

  /** `.replace(/[^a-z0-9]+/g, "-")`: each maximal run of other code points becomes one '-'. */
  function Dashed(s: string): (r: string)
    ensures |r| <= |s|
    decreases |s|
  {
    if s == [] then []
    else if LowerAlnum(s[0]) then [s[0]] + Dashed(s[1..])
    else "-" + Dashed(DropRun(s[1..]))
  }

  /** `.replace(/(^-|-$)/g, "")`: one '-' is removed at each end. */
  function StripDashes(t: string): string {
    var a := if |t| > 0 && t[0] == '-' then t[1..] else t;
    if |a| > 0 && a[|a| - 1] == '-' then a[..|a| - 1] else a
  }

  /** `slugify`. */
  function Slugify(value: string): string {
    StripDashes(Dashed(Lower(value)))
  }

  /** A text made of kept code points and single dashes. */
  predicate DashSeparated(r: string) {
    && (forall i :: 0 <= i < |r| ==> LowerAlnum(r[i]) || r[i] == '-')
    && (forall i :: 0 <= i < |r| - 1 && r[i] == '-' ==> LowerAlnum(r[i + 1]))
  }

  /** `Dashed` keeps only kept code points and dashes, and never puts two dashes side by side. */
  lemma {:induction false} DashedShape(s: string)
    ensures DashSeparated(Dashed(s))
    ensures s != [] && LowerAlnum(s[0]) ==> Dashed(s)[0] == s[0]
    decreases |s|
  {
    if s != [] {
      if LowerAlnum(s[0]) {
        DashedShape(s[1..]);
        assert Dashed(s) == [s[0]] + Dashed(s[1..]);
      } else {
        var t := DropRun(s[1..]);
        DashedShape(t);
        assert Dashed(s) == "-" + Dashed(t);
      }
    }
  }

  /**
   * A slug holds only [a-z0-9-], does not start or end with '-', and has no
   * two adjacent dashes.
   */
  lemma SlugShape(value: string)
    ensures var slug := Slugify(value);
      && DashSeparated(slug)
      && (slug != [] ==> slug[0] != '-' && slug[|slug| - 1] != '-')
  {
    DashedShape(Lower(value));
    StripDashesShape(Dashed(Lower(value)));
  }

  /** A slice of a dash-separated text is dash-separated. */
  lemma DashSeparatedSlice(r: string, i: nat, j: nat)
    requires DashSeparated(r) && i <= j <= |r|
    ensures DashSeparated(r[i..j])
  {
    var s := r[i..j];
    assert forall k :: 0 <= k < |s| ==> s[k] == r[i + k];
  }

  /** Removing the end dashes of a dash-separated text leaves one that neither starts nor ends with '-'. */
  lemma StripDashesShape(t: string)
    requires DashSeparated(t)
    ensures var s := StripDashes(t);
      && DashSeparated(s)
      && (s != [] ==> s[0] != '-' && s[|s| - 1] != '-')
  {
    var a := if |t| > 0 && t[0] == '-' then t[1..] else t;
    if |t| > 0 && t[0] == '-' {
      DashSeparatedSlice(t, 1, |t|);
    }
    assert a != [] ==> a[0] != '-';
    if |a| > 0 && a[|a| - 1] == '-' {
      DashSeparatedSlice(a, 0, |a| - 1);
    }
  }

  /** One of the 50 US cities of the catalog; the state only appears in the description. */
  datatype UsCity = UsCity(city: string, state: string, lat: real, lon: real)

  const UsCitiesRow1: seq<UsCity> := [
    UsCity("New York", "NY", 40.7128, -74.0060),
    UsCity("Los Angeles", "CA", 34.0522, -118.2437),
    UsCity("Chicago", "IL", 41.8781, -87.6298),
    UsCity("Houston", "TX", 29.7604, -95.3698),
    UsCity("Phoenix", "AZ", 33.4484, -112.0740),
    UsCity("Philadelphia", "PA", 39.9526, -75.1652),
    UsCity("San Antonio", "TX", 29.4241, -98.4936),
    UsCity("San Diego", "CA", 32.7157, -117.1611),
    UsCity("Dallas", "TX", 32.7767, -96.7970),
    UsCity("San Jose", "CA", 37.3382, -121.8863)
  ]
  const UsCitiesRow2: seq<UsCity> := [
    UsCity("Austin", "TX", 30.2672, -97.7431),
    UsCity("Jacksonville", "FL", 30.3322, -81.6557),
    UsCity("Fort Worth", "TX", 32.7555, -97.3308),
    UsCity("Columbus", "OH", 39.9612, -82.9988),
    UsCity("Charlotte", "NC", 35.2271, -80.8431),
    UsCity("San Francisco", "CA", 37.7749, -122.4194),
    UsCity("Indianapolis", "IN", 39.7684, -86.1581),
    UsCity("Seattle", "WA", 47.6062, -122.3321),
    UsCity("Denver", "CO", 39.7392, -104.9903),
    UsCity("Washington", "DC", 38.9072, -77.0369)
  ]
  const UsCitiesRow3: seq<UsCity> := [
    UsCity("Boston", "MA", 42.3601, -71.0589),
    UsCity("El Paso", "TX", 31.7619, -106.4850),
    UsCity("Nashville", "TN", 36.1627, -86.7816),
    UsCity("Detroit", "MI", 42.3314, -83.0458),
    UsCity("Oklahoma City", "OK", 35.4676, -97.5164),
    UsCity("Portland", "OR", 45.5152, -122.6784),
    UsCity("Las Vegas", "NV", 36.1699, -115.1398),
    UsCity("Memphis", "TN", 35.1495, -90.0490),
    UsCity("Louisville", "KY", 38.2527, -85.7585),
    UsCity("Baltimore", "MD", 39.2904, -76.6122)
  ]
  const UsCitiesRow4: seq<UsCity> := [
    UsCity("Milwaukee", "WI", 43.0389, -87.9065),
    UsCity("Albuquerque", "NM", 35.0844, -106.6504),
    UsCity("Tucson", "AZ", 32.2226, -110.9747),
    UsCity("Fresno", "CA", 36.7378, -119.7871),
    UsCity("Mesa", "AZ", 33.4152, -111.8315),
    UsCity("Sacramento", "CA", 38.5816, -121.4944),
    UsCity("Atlanta", "GA", 33.7490, -84.3880),
    UsCity("Kansas City", "MO", 39.0997, -94.5786),
    UsCity("Colorado Springs", "CO", 38.8339, -104.8214),
    UsCity("Miami", "FL", 25.7617, -80.1918)
  ]
  const UsCitiesRow5: seq<UsCity> := [
    UsCity("Raleigh", "NC", 35.7796, -78.6382),
    UsCity("Omaha", "NE", 41.2565, -95.9345),
    UsCity("Long Beach", "CA", 33.7701, -118.1937),
    UsCity("Virginia Beach", "VA", 36.8529, -75.9780),
    UsCity("Oakland", "CA", 37.8044, -122.2711),
    UsCity("Minneapolis", "MN", 44.9778, -93.2650),
    UsCity("Tulsa", "OK", 36.1540, -95.9928),
    UsCity("Arlington", "TX", 32.7357, -97.1081),
    UsCity("Tampa", "FL", 27.9506, -82.4572),
    UsCity("New Orleans", "LA", 29.9511, -90.0715)
  ]

  const BasicUsCities: seq<UsCity> := UsCitiesRow1 + UsCitiesRow2 + UsCitiesRow3 + UsCitiesRow4 + UsCitiesRow5

  /** One of the ten lodging variants every US city gets. */
  datatype Variant = Variant(suffix: string, amenities: seq<string>, stars: int, latOffset: real, lonOffset: real)

  const Variants: seq<Variant> := [
    Variant("Eco Stay", ["energy", "recycling"], 4, 0.01, 0.01),
    Variant("Green Suites", ["water conservation", "led lighting"], 3, -0.01, 0.008),
    Variant("Solar Lodge", ["solar", "ev charging"], 4, 0.006, -0.009),
    Variant("Low Carbon Hotel", ["low carbon", "recycling"], 4, 0.014, -0.002),
    Variant("Renewable Inn", ["renewable", "energy"], 3, -0.012, 0.012),
    Variant("Eco Loft", ["led lighting", "energy"], 3, 0.004, 0.015),
    Variant("Green Key Hotel", ["green key", "recycling"], 4, -0.015, -0.004),
    Variant("Sustainable House", ["sustainable", "water conservation"], 3, 0.018, 0.005),
    Variant("Urban Eco Hotel", ["energy", "low carbon"], 4, -0.006, -0.014),
    Variant("Eco Residence", ["solar", "organic"], 4, 0.009, -0.016)
  ]

  /** `basic-us-<slug>-<n>`. */
  function UsId(slug: string, n: nat): string {
    "basic-us-" + slug + "-" + NatToString(n)
  }

  /** The catalog entry for variant `v` (counted from 0) of a US city. */
  function UsHotel(c: UsCity, v: nat): Candidate
    requires v < |Variants|
  {
    var variant := Variants[v];
    Candidate(
      id := Str(UsId(Slugify(c.city), v + 1)),
      name := c.city + " " + variant.suffix,
      city := c.city,
      country := "USA",
      lat := Some(c.lat + variant.latOffset),
      lon := Some(c.lon + variant.lonOffset),
      description := "Sustainable stay in " + c.city + ", " + c.state,
      stars := variant.stars,
      amenities := variant.amenities,
      leed := false,
      image := "",
      website := MapsSearch + EncodeURIComponent(c.city + " " + variant.suffix),
      osmId := 0)
  }

  /** The `flatMap` over the cities: the ten variants of the first city, then of the second, and so on. */
  function UsHotels(cities: seq<UsCity>): seq<Candidate> {
    seq(10 * |cities|, i requires 0 <= i < 10 * |cities| => UsHotel(cities[i / 10], i % 10))
  }

  /** An international catalog entry (these carry no `leed` and no image). */
  function IntlHotel(id: string, name: string, city: string, country: string, lat: real, lon: real,
                     description: string, stars: int, amenities: seq<string>, website: string): Candidate {
    Candidate(Str(id), name, city, country, Some(lat), Some(lon), description, stars, amenities, false, "", website, 0)
  }

  const BasicIntlHotels: seq<Candidate> := [
    IntlHotel("basic-paris-1", "Green Haven Hotel", "Paris", "France", 48.8566, 2.3522,
              "Eco-chic hotel with bike rental", 4, ["bike rental", "organic food"],
              "https://www.google.com/maps/search/Green+Haven+Hotel+Paris"),
    IntlHotel("basic-london-1", "River Green Hotel", "London", "United Kingdom", 51.5074, -0.1278,
              "City hotel with renewable energy features", 4, ["renewable", "energy", "recycling"],
              "https://www.google.com/maps/search/River+Green+Hotel+London"),
    IntlHotel("basic-tokyo-1", "Green Tokyo Inn", "Tokyo", "Japan", 35.6762, 139.6503,
              "Modern eco hotel", 4, ["led lighting", "recycling"],
              "https://www.google.com/maps/search/Green+Tokyo+Inn+Tokyo"),
    IntlHotel("basic-singapore-1", "Earth Hotel Singapore", "Singapore", "Singapore", 1.3521, 103.8198,
              "Award-winning green building", 5, ["solar", "ev charging", "organic"],
              "https://www.google.com/maps/search/Earth+Hotel+Singapore"),
    IntlHotel("basic-dubai-1", "Desert Eco Suites", "Dubai", "United Arab Emirates", 25.2048, 55.2708,
              "Sustainable suites with water conservation", 4, ["water conservation", "energy"],
              "https://www.google.com/maps/search/Desert+Eco+Suites+Dubai")
  ]

  /** `buildBasicHotels` for a list of cities: the US entries, then the international ones. */
  function BuildBasicHotels(cities: seq<UsCity>): seq<Candidate> {
    UsHotels(cities) + BasicIntlHotels
  }

  /** `BASIC_HOTELS`. */
  function BasicHotels(): seq<Candidate> {
    BuildBasicHotels(BasicUsCities)
  }

  /** A US id determines its slug and its variant number. */
  lemma UsIdInjective(s1: string, n1: nat, s2: string, n2: nat)
    ensures UsId(s1, n1) == UsId(s2, n2) ==> s1 == s2 && n1 == n2
  {
    var x := UsId(s1, n1);
    var d1, d2 := NatToString(n1), NatToString(n2);
    UsIdTail(s1, n1);
    UsIdTail(s2, n2);
    if x == UsId(s2, n2) {
      assert |d1| == |d2|;
      assert d1 == x[|x| - |d1|..] == d2;
      NatToStringInjective(n1, n2);
      assert s1 == x[9..|x| - |d1| - 1] == s2;
    }
  }

  /** A US id ends with a dash followed by the digits of the variant number, and nothing but digits. */
  lemma UsIdTail(slug: string, n: nat)
    ensures var x, d := UsId(slug, n), NatToString(n);
      && |x| == 9 + |slug| + 1 + |d|
      && x[|x| - |d| - 1] == '-'
      && x[|x| - |d|..] == d
      && x[9..|x| - |d| - 1] == slug
      && forall j :: |x| - |d| <= j < |x| ==> IsDigit(x[j])
  {
    var x, d := UsId(slug, n), NatToString(n);
    assert x == "basic-us-" + slug + "-" + d;
    assert forall j :: |x| - |d| <= j < |x| ==> x[j] == d[j - (|x| - |d|)];
  }

  /** No two cities of the list share a slug. */
  predicate SlugsDistinct(cities: seq<UsCity>) {
    forall i, j :: 0 <= i < j < |cities| ==> Slugify(cities[i].city) != Slugify(cities[j].city)
  }

  /**
   * The US part of the catalog: ten entries per city, in city order; entry
   * `i` is variant `i % 10` of city `i / 10`, with the id
   * `basic-us-<slug>-<variant + 1>` and the country "USA".
   */
  lemma UsHotelsShape(cities: seq<UsCity>)
    ensures var hotels := UsHotels(cities);
      && |hotels| == 10 * |cities|
      && forall i :: 0 <= i < |hotels| ==>
        && hotels[i].id == Str(UsId(Slugify(cities[i / 10].city), i % 10 + 1))
        && hotels[i].country == "USA"
        && hotels[i].city == cities[i / 10].city
        && hotels[i].name == cities[i / 10].city + " " + Variants[i % 10].suffix
        && 1 <= i % 10 + 1 <= 10
  {
  }

  /** With distinct slugs, the ids of the US entries are pairwise distinct. */
  lemma UsIdsDistinct(cities: seq<UsCity>)
    requires SlugsDistinct(cities)
    ensures var hotels := UsHotels(cities);
      forall i, j :: 0 <= i < j < |hotels| ==> hotels[i].id != hotels[j].id
  {
    var hotels := UsHotels(cities);
    forall i, j | 0 <= i < j < |hotels|
      ensures hotels[i].id != hotels[j].id
    {
      UsIdInjective(Slugify(cities[i / 10].city), i % 10 + 1, Slugify(cities[j / 10].city), j % 10 + 1);
      assert i / 10 <= j / 10;
      if i / 10 == j / 10 {
        assert i % 10 != j % 10;
      }
    }
  }

  /** The five international ids, none of which starts like a US id. */
  lemma IntlIds()
    ensures |BasicIntlHotels| == 5
    ensures forall k :: 0 <= k < 5 ==> BasicIntlHotels[k].id.Str? && |BasicIntlHotels[k].id.s| >= 9
    ensures forall k :: 0 <= k < 5 ==> BasicIntlHotels[k].id.s[..9] != "basic-us-"
    ensures forall k, l :: 0 <= k < l < 5 ==> BasicIntlHotels[k].id != BasicIntlHotels[l].id
  {
    var ids := IntlIdTexts();
    assert forall k :: 0 <= k < 5 ==> ids[k][..9][6] == ids[k][6] != 'u';
  }

  /** The texts of the five international ids; the seventh code point tells them apart. */
  lemma IntlIdTexts() returns (ids: seq<string>)
    ensures |ids| == 5 && |BasicIntlHotels| == 5
    ensures forall k :: 0 <= k < 5 ==> BasicIntlHotels[k].id == Str(ids[k]) && |ids[k]| >= 9
    ensures forall k :: 0 <= k < 5 ==> ids[k][6] == "pltsd"[k]
  {
    ids := ["basic-paris-1", "basic-london-1", "basic-tokyo-1", "basic-singapore-1", "basic-dubai-1"];
    assert ids[0][6] == 'p' && ids[1][6] == 'l' && ids[2][6] == 't' && ids[3][6] == 's' && ids[4][6] == 'd';
  }

  /**
   * The catalog has ten entries per city and the five international ones;
   * with distinct city slugs all of its ids are distinct.
   */
  lemma CatalogIdsDistinct(cities: seq<UsCity>)
    requires SlugsDistinct(cities)
    ensures var hotels := BuildBasicHotels(cities);
      && |hotels| == 10 * |cities| + 5
      && forall i, j :: 0 <= i < j < |hotels| ==> hotels[i].id != hotels[j].id
  {
    var us := UsHotels(cities);
    var hotels := BuildBasicHotels(cities);
    UsIdsDistinct(cities);
    IntlIds();
    forall i, j | 0 <= i < j < |hotels|
      ensures hotels[i].id != hotels[j].id
    {
      if j >= |us| && i < |us| {
        var k := j - |us|;
        assert hotels[j] == BasicIntlHotels[k];
        assert hotels[i].id.s[..9] == "basic-us-";
      } else if i >= |us| {
        assert hotels[i] == BasicIntlHotels[i - |us|];
        assert hotels[j] == BasicIntlHotels[j - |us|];
      }
    }
  }

  /** The catalog is built from 50 cities: 505 entries, the first 500 of them in the USA. */
  lemma BasicHotelsSize()
    ensures |BasicUsCities| == 50
    ensures |BasicHotels()| == 505
    ensures forall i :: 0 <= i < 500 ==> BasicHotels()[i].country == "USA"
    ensures BasicHotels()[500..] == BasicIntlHotels
  {
    UsHotelsShape(BasicUsCities);
  }

  /** The catalog's country aliases, all in lower case. */
  const CatalogAliases: map<string, string> := map[
    "uk" := "united kingdom",
    "u.k." := "united kingdom",
    "great britain" := "united kingdom",
    "england" := "united kingdom",
    "scotland" := "united kingdom",
    "wales" := "united kingdom",
    "u.s." := "usa",
    "us" := "usa",
    "united states" := "usa"
  ]

  /** `normalizeCountryName`: trimmed and lower-cased, then an alias is replaced by its canonical name. */
  function NormalizeCountryName(value: string): string {
    var key := Lower(Trim(value));
    if key in CatalogAliases then CatalogAliases[key] else key
  }

  /** Every alias maps to "united kingdom" or "usa". */
  lemma AliasTargets(key: string)
    requires key in CatalogAliases
    ensures CatalogAliases[key] == "united kingdom" || CatalogAliases[key] == "usa"
  {
  }

  /**
   * The result is the trimmed, lower-cased value unless that is an alias,
   * and an alias becomes "united kingdom" or "usa".
   */
  lemma NormalizeCountryNameCases(value: string)
    ensures var key := Lower(Trim(value));
      && (key !in CatalogAliases ==> NormalizeCountryName(value) == key)
      && (key in CatalogAliases ==> NormalizeCountryName(value) in {"united kingdom", "usa"})
  {
    var key := Lower(Trim(value));
    if key in CatalogAliases {
      AliasTargets(key);
    }
  }

  /** "uk" with surrounding blanks normalises to "united kingdom". */
  lemma UkAlias()
    ensures NormalizeCountryName(" uk ") == "united kingdom"
  {
    TrimPadded(" ", "uk", " ");
    assert " " + "uk" + " " == " uk ";
    assert Lower("uk") == "uk";
    assert "uk" in CatalogAliases;
  }

  /** "US" in capitals normalises to "usa". */
  lemma UsAlias()
    ensures NormalizeCountryName("US") == "usa"
  {
    TrimIsSlice("US");
    assert Lower("US") == "us";
  }

  /** `(city || "").split(",")[0].trim().toLowerCase()`. */
  function CityNeedle(city: string): string {
    Lower(Trim(Split(city, ',')[0]))
  }

  /** An entry matches when each non-empty needle occurs in its lower-cased field. */
  predicate MatchesNeedles(h: Candidate, cityNeedle: string, countryNeedle: string) {
    && (cityNeedle == "" || Contains(Lower(h.city), cityNeedle))
    && (countryNeedle == "" || Contains(Lower(h.country), countryNeedle))
  }

  /** The entries that match, in order. */
  function MatchingHotels(hotels: seq<Candidate>, cityNeedle: string, countryNeedle: string): (kept: seq<Candidate>)
    ensures |kept| <= |hotels|
  {
    if hotels == [] then []
    else (if MatchesNeedles(hotels[0], cityNeedle, countryNeedle) then [hotels[0]] else [])
         + MatchingHotels(hotels[1..], cityNeedle, countryNeedle)
  }

  /** `basicHotelSearch`. */
  function BasicHotelSearch(city: string, country: string): seq<Candidate> {
    MatchingHotels(BasicHotels(), CityNeedle(city), NormalizeCountryName(country))
  }

  /** The search keeps the entries that match and only those, as a subsequence of its input. */
  lemma {:induction false} MatchingHotelsSelects(hotels: seq<Candidate>, cityNeedle: string, countryNeedle: string)
    ensures IsSubsequence(MatchingHotels(hotels, cityNeedle, countryNeedle), hotels)
    ensures forall h :: h in MatchingHotels(hotels, cityNeedle, countryNeedle) <==>
      h in hotels && MatchesNeedles(h, cityNeedle, countryNeedle)
  {
    if hotels != [] {
      MatchingHotelsSelects(hotels[1..], cityNeedle, countryNeedle);
      assert hotels == [hotels[0]] + hotels[1..];
      var rest := MatchingHotels(hotels[1..], cityNeedle, countryNeedle);
      if MatchesNeedles(hotels[0], cityNeedle, countryNeedle) {
        assert MatchingHotels(hotels, cityNeedle, countryNeedle) == [hotels[0]] + rest;
        assert ([hotels[0]] + rest)[1..] == rest;
      } else {
        assert MatchingHotels(hotels, cityNeedle, countryNeedle) == rest;
      }
    }
  }

  /** Empty needles match every entry. */
  lemma {:induction false} EmptyNeedlesKeepAll(hotels: seq<Candidate>)
    ensures MatchingHotels(hotels, "", "") == hotels
  {
    if hotels != [] {
      EmptyNeedlesKeepAll(hotels[1..]);
      assert hotels == [hotels[0]] + hotels[1..];
    }
  }

  /** The city needle is the first comma piece only: anything after the first comma is ignored. */
  lemma CityNeedleIgnoresRest(first: string, rest: string)
    requires ',' !in first
    ensures CityNeedle(first + "," + rest) == Lower(Trim(first))
  {
    SplitAfterPiece(first, ',', rest);
  }

  /** With no city and no country the whole catalog comes back. */
  lemma EmptySearchIsCatalog()
    ensures BasicHotelSearch("", "") == BasicHotels()
  {
    assert CityNeedle("") == "";
    assert NormalizeCountryName("") == "";
    EmptyNeedlesKeepAll(BasicHotels());
  }

  /** A search for Paris, France finds the catalog's Paris entry. */
  lemma ParisIsFound()
    ensures exists h :: h in BasicHotelSearch("Paris", "France") && h.id == Str("basic-paris-1")
  {
    var paris := BasicIntlHotels[0];
    BasicHotelsSize();
    assert BasicHotels()[500] == paris;
    ParisCityNeedle();
    FranceCountryNeedle();
    ParisEntryFields();
    assert MatchesNeedles(paris, "paris", "france") by {
      StartsWithItself("paris");
      StartsWithItself("france");
    }
    MatchingHotelsSelects(BasicHotels(), "paris", "france");
  }

  /** The city needle of the Paris search. */
  lemma ParisCityNeedle()
    ensures CityNeedle("Paris") == "paris"
  {
    SplitWithoutSeparator("Paris", ',');
    TrimPadded([], "Paris", []);
    assert [] + "Paris" + [] == "Paris";
    ParisLower();
  }

  /** The country needle of the Paris search: "france" is not an alias. */
  lemma FranceCountryNeedle()
    ensures NormalizeCountryName("France") == "france"
  {
    TrimPadded([], "France", []);
    assert [] + "France" + [] == "France";
    FranceLower();
  }

  /** The Paris entry's fields, lower-cased. */
  lemma ParisEntryFields()
    ensures Lower(BasicIntlHotels[0].city) == "paris"
    ensures Lower(BasicIntlHotels[0].country) == "france"
  {
    assert BasicIntlHotels[0].city == "Paris" && BasicIntlHotels[0].country == "France";
    ParisLower();
    FranceLower();
  }

  lemma ParisLower()
    ensures Lower("Paris") == "paris"
  {
  }

  lemma FranceLower()
    ensures Lower("France") == "france"
  {
  }
}
