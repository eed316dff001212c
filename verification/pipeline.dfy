/**
 * `searchOpenSourceHotels`: the destination is normalised and resolved, the
 * city is geocoded, the primary Overpass source is asked, and the fallback
 * search runs when the primary source gives nothing.
 */
module Pipeline {
  import opened Wrappers
  import opened Text
  import opened Records
  import opened Location
  import opened Overpass
  import opened Fallback

  /**
   * The answers of the outside services, each a function of the request it
   * gets, and the draws and number conversions the search uses.
   */
  datatype Services = Services(
    isCountry: string -> bool,
    countryOf: string -> string,
    geocode: (string, string) -> Reply<seq<GeoHit>>,
    overpass: GeoHit -> Option<seq<Element>>,
    reverse: ReverseLookup,
    regeocode: (string, string) -> Reply<seq<GeoHit>>,
    namedQuery: GeoHit -> Reply<seq<Element>>,
    textSearch: string -> Reply<seq<Place>>,
    showNumber: real -> string,
    parseNumber: string -> Option<real>,
    rolls: Rolls)

  /** The primary source's records for a destination whose geocode found `hit`. */
  function PrimaryHotels(d: Destination, hit: GeoHit, s: Services): seq<Candidate> {
    OverpassHotels(s.overpass(hit), d.city, d.country, s.showNumber, s.reverse, s.rolls)
  }

  /** The fallback search's records for a destination. */
  function FallbackHotels(d: Destination, s: Services): seq<Candidate> {
    FallbackSearch(d.city, d.country, s.regeocode(d.city, d.country), s.namedQuery, s.textSearch, s.parseNumber)
  }

  /** What `searchOpenSourceHotels` returns. */
  function SearchResult(city: string, country: string, s: Services): seq<Candidate> {
    var d := ResolvedDestination(city, country, s.isCountry, s.countryOf);
    var geo := s.geocode(d.city, d.country);
    if !geo.Ok? || |geo.body| == 0 then []
    else if PrimaryHotels(d, geo.body[0], s) != [] then PrimaryHotels(d, geo.body[0], s)
    else FallbackHotels(d, s)
  }

  /**
   * `searchOpenSourceHotels`: `finalCity` and `finalCountry` are reassigned
   * as each lookup answers, then `hotels` holds the primary list and is
   * replaced by the fallback list when it is empty.
   */
  method SearchOpenSourceHotels(city: string, country: string, s: Services) returns (hotels: seq<Candidate>)
    ensures hotels == SearchResult(city, country, s)
  {
    var normalized := NormalizeLocation(city, country);
    var finalCity := normalized.city;
    var finalCountry := normalized.country;
    if finalCountry == "" {
      if s.isCountry(city) {
        finalCountry := city;
        finalCity := MajorCityFor(finalCountry);
      }
    }
    if finalCountry == "" {
      var detected := s.countryOf(finalCity);
      if detected != "" {
        finalCountry := detected;
      }
    }
    assert Destination(finalCity, finalCountry) == ResolvedDestination(city, country, s.isCountry, s.countryOf);
    var geo := s.geocode(finalCity, finalCountry);
    if !geo.Ok? || |geo.body| == 0 {
      return [];
    }
    hotels := QueryOverpass(s.overpass(geo.body[0]), finalCity, finalCountry, s.showNumber, s.reverse, s.rolls);
    if |hotels| == 0 {
      hotels := FallbackSearch(finalCity, finalCountry, s.regeocode(finalCity, finalCountry), s.namedQuery, s.textSearch, s.parseNumber);
    }
  }

  /**
   * Every record the search returns is for the resolved destination, has a
   * name, the fixed amenities and `leed`, a star rating and an http(s) link.
   */
  lemma SearchRecordsDelivered(city: string, country: string, s: Services)
    ensures var d := ResolvedDestination(city, country, s.isCountry, s.countryOf);
      forall h :: h in SearchResult(city, country, s) ==>
        && h.city == d.city && h.country == d.country
        && FallbackShape(h)
  {
    var d := ResolvedDestination(city, country, s.isCountry, s.countryOf);
    var geo := s.geocode(d.city, d.country);
    if geo.Ok? && |geo.body| > 0 {
      var hit := geo.body[0];
      PrimaryRecordsNamed(s.overpass(hit), d.city, d.country, s.showNumber, s.reverse, s.rolls);
      var primary := PrimaryHotels(d, hit, s);
      forall h | h in primary
        ensures h.name != ""
      {
        var k :| 0 <= k < |primary| && primary[k] == h;
        assert !IsBlank(primary[k].name);
      }
      FallbackOutcome(d.city, d.country, s.regeocode(d.city, d.country), s.namedQuery, s.textSearch, s.parseNumber);
    }
  }

  /** The sustainability filter removes nothing from a search result. */
  lemma SearchResultAllSustainable(city: string, country: string, s: Services)
    ensures FilterSustainableHotels(SearchResult(city, country, s)) == SearchResult(city, country, s)
  {
    SearchRecordsDelivered(city, country, s);
    FilterKeepsLiveRecords(SearchResult(city, country, s));
  }

  /**
   * A failed or empty geocode gives nothing; otherwise a non-empty primary
   * list is the answer, and the fallback list is used only when the primary
   * list is empty.
   */
  lemma PrimaryBeforeFallback(city: string, country: string, s: Services)
    ensures var d := ResolvedDestination(city, country, s.isCountry, s.countryOf);
      var geo := s.geocode(d.city, d.country);
      var result := SearchResult(city, country, s);
      && (!geo.Ok? || |geo.body| == 0 ==> result == [])
      && (geo.Ok? && |geo.body| > 0 && PrimaryHotels(d, geo.body[0], s) != [] ==> result == PrimaryHotels(d, geo.body[0], s))
      && (geo.Ok? && |geo.body| > 0 && PrimaryHotels(d, geo.body[0], s) == [] ==> result == FallbackHotels(d, s))
  {
  }
}
