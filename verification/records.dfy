/**
 * The lodging record every source produces (a "candidate"), its identifier,
 * and the link shapes shared by the live sources and the static catalog.
 */
module Records {
  import opened Wrappers
  import opened Text
  import opened Uri

  /** A candidate's `id`: a number (an OpenStreetMap id or a list position) or a text id. */
  datatype Id = Num(n: nat) | Str(s: string)

  /** `String(id)`: the key the request handler deduplicates on. */
  function IdKey(id: Id): string {
    match id
    case Num(n) => NatToString(n)
    case Str(s) => s
  }

  /**
   * One lodging record. A text field that the source leaves out, or sets to
   * `null`, is "" (both are falsy there); `leed` absent is false; `osmId` 0
   * stands for an absent `osm_id`. Coordinates are `None` when missing or NaN.
   */
  datatype Candidate = Candidate(
    id: Id,
    name: string,
    city: string,
    country: string,
    lat: Option<real>,
    lon: Option<real>,
    description: string,
    stars: int,
    amenities: seq<string>,
    leed: bool,
    image: string,
    website: string,
    osmId: nat)

  /** A coordinate that is present and not 0 (the source tests `!lat`). */
  predicate Truthy(x: Option<real>) {
    x.Some? && x.value != 0.0
  }

  /** The amenity labels every live record carries. */
  const SustainableAmenities: seq<string> := ["eco-friendly", "sustainable"]
  const DefaultImage: string := "images/bg_1.jpg"
  const MapsSearch: string := "https://www.google.com/maps/search/"
  const WebSearch: string := "https://www.google.com/search?q="

  /** `city + (country ? ', ' + country : '')`. */
  function PlaceText(city: string, country: string): string {
    city + (if country != "" then ", " + country else "")
  }

  /** A website tag made absolute: "https://" is put in front unless it starts with "http". */
  function WithScheme(website: string): (url: string)
    ensures StartsWith(url, "http")
    ensures StartsWith(website, "http") ==> url == website
    ensures !StartsWith(website, "http") ==> url == "https://" + website
  {
    if StartsWith(website, "http") then website
    else
      StartsWithConcat("https://", website, "http");
      "https://" + website
  }

  /** A search deep link: `base + encodeURIComponent(title) + '+' + encodeURIComponent(place)`. */
  function SearchLink(base: string, title: string, city: string, country: string): (url: string)
    ensures StartsWith(url, base)
  {
    StartsWithItself(base);
    StartsWithConcat(base, EncodeURIComponent(title) + "+" + EncodeURIComponent(PlaceText(city, country)), base);
    base + (EncodeURIComponent(title) + "+" + EncodeURIComponent(PlaceText(city, country)))
  }

  /** Every search link is an http(s) URL. */
  lemma SearchLinkIsHttp(base: string, title: string, city: string, country: string)
    requires base == MapsSearch || base == WebSearch
    ensures StartsWith(SearchLink(base, title, city, country), "http")
  {
    var url := SearchLink(base, title, city, country);
    StartsWithIsPrefix(url, base);
    StartsWithIsPrefix(url, "http");
    assert url[..4] == base[..4];
  }

  /** `small` is `big` with some elements left out, the rest in their order. */
  predicate IsSubsequence<T(==)>(small: seq<T>, big: seq<T>)
    decreases |big|
  {
    if small == [] then true
    else if big == [] then false
    else (small[0] == big[0] && IsSubsequence(small[1..], big[1..])) || IsSubsequence(small, big[1..])
  }
}
