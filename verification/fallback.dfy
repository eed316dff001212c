/**
 * `fallbackNominatimSearch`: the search used when the primary Overpass query
 * finds nothing. Strategy 1 re-geocodes the destination and asks Overpass for
 * named lodgings; when that does not give elements, strategy 2 runs a
 * Nominatim text search and keeps the places that look like lodgings.
 */
module Fallback {
  import opened Wrappers
  import opened Text
  import opened Records
  import opened Overpass

  /** The outcome of a request: it threw, it answered with a non-ok status, or it answered with a body. */
  datatype Reply<T> = Threw | NotOk | Ok(body: T)

  /** The first hit of a geocoding answer; its coordinates are the raw text Nominatim sends. */
  datatype GeoHit = GeoHit(lat: string, lon: string)

  /** Strategy 1 keeps an element with a name and a truthy latitude (its own, or its center's). */
  predicate NamedAndPlaced(e: Element) {
    e.tags.name != "" && (Truthy(e.lat) || (e.center.Some? && Truthy(e.center.value.lat)))
  }

  /** The elements strategy 1 keeps, in order. */
  function NamedElements(elements: seq<Element>): (kept: seq<Element>)
    ensures |kept| <= |elements|
  {
    if elements == [] then []
    else (if NamedAndPlaced(elements[0]) then [elements[0]] else []) + NamedElements(elements[1..])
  }

  /** Strategy 1 keeps, in input order, exactly the named elements with a latitude. */
  lemma {:induction false} NamedElementsMembers(elements: seq<Element>)
    ensures IsSubsequence(NamedElements(elements), elements)
    ensures forall e :: e in NamedElements(elements) <==> e in elements && NamedAndPlaced(e)
  {
    if elements != [] {
      NamedElementsMembers(elements[1..]);
      assert elements == [elements[0]] + elements[1..];
      var rest := NamedElements(elements[1..]);
      if NamedAndPlaced(elements[0]) {
        assert NamedElements(elements) == [elements[0]] + rest;
        assert ([elements[0]] + rest)[1..] == rest;
      } else {
        assert NamedElements(elements) == rest;
        if rest != [] {
          assert IsSubsequence(rest, elements[1..]);
        }
      }
    }
  }

  /** A strategy 1 element as a candidate: a web search link when there is no website tag, and no `osm_id`. */
  function NamedToCandidate(e: Element, idx: nat, city: string, country: string): Candidate {
    Candidate(
      id := if e.id != 0 then Num(e.id) else Str("osm-" + NatToString(idx)),
      name := e.tags.name,
      city := city,
      country := country,
      lat := ElementLat(e),
      lon := ElementLon(e),
      description := if e.tags.description != "" then e.tags.description else "Hotel in " + city,
      stars := StarsOrDefault(e.tags.stars),
      amenities := SustainableAmenities,
      leed := true,
      image := DefaultImage,
      website := if e.tags.website != "" then WithScheme(e.tags.website) else SearchLink(WebSearch, e.tags.name, city, country),
      osmId := 0)
  }

  function MapNamedElements(elements: seq<Element>, city: string, country: string): seq<Candidate> {
    var kept := NamedElements(elements);
    seq(|kept|, k requires 0 <= k < |kept| => NamedToCandidate(kept[k], k, city, country))
  }

  /** What every record of either strategy carries. */
  predicate FallbackShape(h: Candidate) {
    && h.name != ""
    && h.amenities == SustainableAmenities
    && h.leed
    && h.image == DefaultImage
    && h.stars != 0
    && StartsWith(h.website, "http")
  }

  /**
   * Strategy 1 keeps one record per named element with a latitude, in
   * order, with its name and id, the destination, its website tag made
   * absolute or a web search link, the stars tag or 3, and the description
   * tag or "Hotel in <city>".
   */
  lemma NamedRecords(elements: seq<Element>, city: string, country: string)
    ensures var hotels := MapNamedElements(elements, city, country);
      && |hotels| == |NamedElements(elements)|
      && forall k :: 0 <= k < |hotels| ==>
        var e := NamedElements(elements)[k];
        && FallbackShape(hotels[k])
        && hotels[k].name == e.tags.name
        && hotels[k].id == (if e.id != 0 then Num(e.id) else Str("osm-" + NatToString(k)))
        && hotels[k].city == city && hotels[k].country == country
        && (e.tags.website != "" ==> hotels[k].website == WithScheme(e.tags.website))
        && (e.tags.website == "" ==> StartsWith(hotels[k].website, WebSearch))
        && (e.tags.stars.Some? && e.tags.stars.value != 0 ==> hotels[k].stars == e.tags.stars.value)
        && (e.tags.stars.None? || e.tags.stars.value == 0 ==> hotels[k].stars == 3)
        && (e.tags.description != "" ==> hotels[k].description == e.tags.description)
        && (e.tags.description == "" ==> hotels[k].description == "Hotel in " + city)
  {
    var hotels := MapNamedElements(elements, city, country);
    NamedElementsMembers(elements);
    forall k | 0 <= k < |hotels|
      ensures StartsWith(hotels[k].website, "http")
    {
      var e := NamedElements(elements)[k];
      if e.tags.website == "" {
        SearchLinkIsHttp(WebSearch, e.tags.name, city, country);
      }
    }
  }

  /**
   * A place of a Nominatim text search. Absent fields are ""; `lat` and
   * `lon` are the raw text; `website` is the extratags website.
   */
  datatype Place = Place(osmId: nat, name: string, lat: string, lon: string,
                         placeType: string, placeClass: string, website: string, road: string)

  const LodgingTypes: seq<string> := ["hotel", "guest_house", "alpine_hut", "hostel", "apartment"]
  const LodgingWords: seq<string> := ["hotel", "resort", "inn", "hostel"]

  /** The type or class marks a lodging, or the lower-cased name contains a lodging word. */
  predicate LodgingKind(p: Place) {
    || p.placeType in LodgingTypes
    || p.placeClass == "tourism"
    || p.placeClass == "amenity"
    || exists k :: 0 <= k < |LodgingWords| && Contains(Lower(p.name), LodgingWords[k])
  }

  /** The strategy 2 filter. */
  predicate LooksLikeLodging(p: Place) {
    && |p.name| >= 3
    && Lower(p.name) != "hotel"
    && p.lat != "" && p.lon != ""
    && LodgingKind(p)
  }

  /** The places strategy 2 keeps, in order; there is no cap on their number. */
  function LodgingPlaces(places: seq<Place>): (kept: seq<Place>)
    ensures |kept| <= |places|
  {
    if places == [] then []
    else (if LooksLikeLodging(places[0]) then [places[0]] else []) + LodgingPlaces(places[1..])
  }

  /** Strategy 2 keeps, in input order, exactly the places that pass every part of the heuristic. */
  lemma {:induction false} LodgingPlacesMembers(places: seq<Place>)
    ensures IsSubsequence(LodgingPlaces(places), places)
    ensures forall p :: p in LodgingPlaces(places) <==>
      && p in places
      && |p.name| >= 3 && Lower(p.name) != "hotel"
      && p.lat != "" && p.lon != ""
      && LodgingKind(p)
  {
    if places != [] {
      LodgingPlacesMembers(places[1..]);
      assert places == [places[0]] + places[1..];
      var rest := LodgingPlaces(places[1..]);
      if LooksLikeLodging(places[0]) {
        assert LodgingPlaces(places) == [places[0]] + rest;
        assert ([places[0]] + rest)[1..] == rest;
      } else {
        assert LodgingPlaces(places) == rest;
        if rest != [] {
          assert IsSubsequence(rest, places[1..]);
        }
      }
    }
  }

  /** A list whose places all pass the heuristic is kept whole and in order. */
  lemma {:induction false} LodgingPlacesAllKept(places: seq<Place>)
    requires forall p :: p in places ==> LooksLikeLodging(p)
    ensures LodgingPlaces(places) == places
  {
    if places != [] {
      LodgingPlacesAllKept(places[1..]);
      assert places == [places[0]] + places[1..];
    }
  }

  /** A strategy 2 place as a candidate: the Nominatim id or the position, the road or a default, 3 stars. */
  function PlaceToCandidate(p: Place, idx: nat, city: string, country: string, parseNumber: string -> Option<real>): Candidate {
    Candidate(
      id := if p.osmId != 0 then Num(p.osmId) else Num(idx),
      name := p.name,
      city := city,
      country := country,
      lat := parseNumber(p.lat),
      lon := parseNumber(p.lon),
      description := if p.road != "" then p.road else "Hotel in " + city,
      stars := 3,
      amenities := SustainableAmenities,
      leed := true,
      image := DefaultImage,
      website := if p.website != "" then WithScheme(p.website) else SearchLink(MapsSearch, p.name, city, country),
      osmId := 0)
  }

  function MapPlaces(places: seq<Place>, city: string, country: string, parseNumber: string -> Option<real>): seq<Candidate> {
    var kept := LodgingPlaces(places);
    seq(|kept|, k requires 0 <= k < |kept| => PlaceToCandidate(kept[k], k, city, country, parseNumber))
  }

  /** Strategy 2 gives one three-star record per kept place, in order, each with a name of at least 3 characters. */
  lemma PlaceRecords(places: seq<Place>, city: string, country: string, parseNumber: string -> Option<real>)
    ensures var hotels := MapPlaces(places, city, country, parseNumber);
      && |hotels| == |LodgingPlaces(places)|
      && forall k :: 0 <= k < |hotels| ==>
        && FallbackShape(hotels[k])
        && hotels[k].name == LodgingPlaces(places)[k].name
        && |hotels[k].name| >= 3
        && hotels[k].stars == 3
  {
    var hotels := MapPlaces(places, city, country, parseNumber);
    LodgingPlacesMembers(places);
    forall k | 0 <= k < |hotels|
      ensures StartsWith(hotels[k].website, "http") && |hotels[k].name| >= 3
    {
      var p := LodgingPlaces(places)[k];
      assert p in LodgingPlaces(places);
      if p.website == "" {
        SearchLinkIsHttp(MapsSearch, p.name, city, country);
      }
    }
  }

  /** The text of the strategy 2 query: `hotel <city>[, <country>]`. */
  function TextQuery(city: string, country: string): string {
    "hotel " + PlaceText(city, country)
  }

  /** Strategy 1 answers when the re-geocode found the destination and the named query returned elements. */
  predicate NamedQueryAnswers(regeocode: Reply<seq<GeoHit>>, namedQuery: GeoHit -> Reply<seq<Element>>) {
    && regeocode.Ok? && |regeocode.body| > 0
    && namedQuery(regeocode.body[0]).Ok? && |namedQuery(regeocode.body[0]).body| > 0
  }

  /**
   * `fallbackNominatimSearch`. A re-geocode that throws ends the search with
   * nothing; strategy 1 answers when it can (even with an empty list after
   * its filter); otherwise the text search, where anything but an answer
   * gives nothing.
   */
  function FallbackSearch(city: string, country: string, regeocode: Reply<seq<GeoHit>>,
                          namedQuery: GeoHit -> Reply<seq<Element>>, textSearch: string -> Reply<seq<Place>>,
                          parseNumber: string -> Option<real>): seq<Candidate> {
    if regeocode.Threw? then []
    else if NamedQueryAnswers(regeocode, namedQuery) then
      MapNamedElements(namedQuery(regeocode.body[0]).body, city, country)
    else match textSearch(TextQuery(city, country))
      case Ok(places) => MapPlaces(places, city, country, parseNumber)
      case _ => []
  }

  /** Which strategy produced the answer, and that every record carries the fallback shape. */
  lemma FallbackOutcome(city: string, country: string, regeocode: Reply<seq<GeoHit>>,
                        namedQuery: GeoHit -> Reply<seq<Element>>, textSearch: string -> Reply<seq<Place>>,
                        parseNumber: string -> Option<real>)
    ensures var hotels := FallbackSearch(city, country, regeocode, namedQuery, textSearch, parseNumber);
      && (regeocode.Threw? ==> hotels == [])
      && (!regeocode.Threw? && NamedQueryAnswers(regeocode, namedQuery) ==>
            |hotels| == |NamedElements(namedQuery(regeocode.body[0]).body)|)
      && (!regeocode.Threw? && !NamedQueryAnswers(regeocode, namedQuery) ==>
            match textSearch(TextQuery(city, country))
            case Ok(places) => |hotels| == |LodgingPlaces(places)|
            case _ => hotels == [])
      && forall h :: h in hotels ==> FallbackShape(h) && h.city == city && h.country == country
  {
    if !regeocode.Threw? {
      if NamedQueryAnswers(regeocode, namedQuery) {
        NamedRecords(namedQuery(regeocode.body[0]).body, city, country);
      } else if textSearch(TextQuery(city, country)).Ok? {
        PlaceRecords(textSearch(TextQuery(city, country)).body, city, country, parseNumber);
      }
    }
  }
}
