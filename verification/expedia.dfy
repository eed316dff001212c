/**
 * The normalisation of an Expedia property into the application's hotel
 * schema, with the region inferred from the ISO country code.
 */
module Expedia {
  import opened Wrappers
  import opened Text
  import opened Records

  /**
   * An Expedia property as far as normalisation reads it. `rawId` is the text
   * of its `id`; `countryCode` is `None` when the address or its code is
   * missing; `web` and `shortDescription` are "" when missing.
   */
  datatype Property = Property(
    rawId: string,
    name: string,
    countryCode: Option<string>,
    web: string,
    latitude: Option<real>,
    longitude: Option<real>,
    shortDescription: string)

  /** The application's hotel schema. */
  datatype Hotel = Hotel(
    id: string,
    name: string,
    region: string,
    country: string,
    certifications: seq<string>,
    co2Rating: string,
    affiliateUrl: string,
    lat: Option<real>,
    lon: Option<real>,
    notes: string,
    source: string)

  const IdPrefix: string := "expedia-"

  const UsCodes: seq<string> := ["US", "CA"]
  const EuCodes: seq<string> := ["FR", "DE", "IT", "ES", "NL"]
  const MiddleEastCodes: seq<string> := ["AE", "OM", "QA"]
  const AsiaCodes: seq<string> := ["JP", "TH", "SG", "IN"]

  /** `inferRegion`: the first code list that holds the code decides; a missing code is in none. */
  function InferRegion(code: Option<string>): string {
    if code.Some? && code.value in UsCodes then "US"
    else if code.Some? && code.value in EuCodes then "EU"
    else if code.Some? && code.value in MiddleEastCodes then "Middle East"
    else if code.Some? && code.value in AsiaCodes then "Asia"
    else "Other"
  }

  /** `x || null` on a coordinate: a missing or zero coordinate becomes null. */
  function Coordinate(x: Option<real>): Option<real> {
    if Truthy(x) then x else None
  }

  /** `normalizeExpediaHotel`. */
  function NormalizeExpediaHotel(p: Property): Hotel {
    Hotel(
      id := IdPrefix + p.rawId,
      name := p.name,
      region := InferRegion(p.countryCode),
      country := if p.countryCode.Some? then p.countryCode.value else "",
      certifications := [],
      co2Rating := "Unknown",
      affiliateUrl := if p.web != "" then p.web else "#",
      lat := Coordinate(p.latitude),
      lon := Coordinate(p.longitude),
      notes := p.shortDescription,
      source := "expedia")
  }

  /**
   * The region is one of five names, and each name is given for exactly its
   * own codes; every other code, and a missing one, gives "Other".
   */
  lemma InferRegionCases(code: Option<string>)
    ensures var r := InferRegion(code);
      && r in {"US", "EU", "Middle East", "Asia", "Other"}
      && (r == "US" <==> code in {Some("US"), Some("CA")})
      && (r == "EU" <==> code in {Some("FR"), Some("DE"), Some("IT"), Some("ES"), Some("NL")})
      && (r == "Middle East" <==> code in {Some("AE"), Some("OM"), Some("QA")})
      && (r == "Asia" <==> code in {Some("JP"), Some("TH"), Some("SG"), Some("IN")})
  {
  }

  /** Codes are matched exactly: a lower-case code is not recognised. */
  lemma LowerCaseCodeIsOther()
    ensures InferRegion(Some("us")) == "Other"
    ensures InferRegion(None) == "Other"
  {
  }

  /**
   * A normalised hotel: its id is the prefix followed by the source id, so
   * distinct source ids give distinct ids; its country is the code or "";
   * its certifications, rating and source are constant; its link is the web
   * link or "#"; a coordinate is kept exactly when it is present and not
   * zero; its notes are the short description.
   */
  lemma NormalizedShape(p: Property)
    ensures var h := NormalizeExpediaHotel(p);
      && StartsWith(h.id, IdPrefix) && h.id[|IdPrefix|..] == p.rawId
      && h.name == p.name
      && h.region == InferRegion(p.countryCode)
      && (p.countryCode.None? ==> h.country == "")
      && (p.countryCode.Some? ==> h.country == p.countryCode.value)
      && h.certifications == [] && h.co2Rating == "Unknown" && h.source == "expedia"
      && h.affiliateUrl != ""
      && (p.web != "" ==> h.affiliateUrl == p.web)
      && (p.web == "" ==> h.affiliateUrl == "#")
      && (h.lat.Some? <==> Truthy(p.latitude)) && (h.lat.Some? ==> h.lat == p.latitude)
      && (h.lon.Some? <==> Truthy(p.longitude)) && (h.lon.Some? ==> h.lon == p.longitude)
      && h.notes == p.shortDescription
  {
    var h := NormalizeExpediaHotel(p);
    StartsWithItself(IdPrefix);
    StartsWithConcat(IdPrefix, p.rawId, IdPrefix);
    assert h.id[|IdPrefix|..] == p.rawId;
  }

  /** Two properties with different ids never share a normalised id. */
  lemma DistinctIds(p: Property, q: Property)
    requires p.rawId != q.rawId
    ensures NormalizeExpediaHotel(p).id != NormalizeExpediaHotel(q).id
  {
    var a := NormalizeExpediaHotel(p).id;
    var b := NormalizeExpediaHotel(q).id;
    assert a[|IdPrefix|..] == p.rawId;
    assert b[|IdPrefix|..] == q.rawId;
  }
}
