/**
 * The primary live source: OpenStreetMap elements from an Overpass query are
 * turned into candidates, nameless ones are given names (by reverse lookups
 * of at most 20 of them, or by generated names), and the keyword filter that
 * recognises sustainable lodgings.
 */
module Overpass {
  import opened Wrappers
  import opened Text
  import opened Records

  datatype Center = Center(lat: Option<real>, lon: Option<real>)

  /**
   * The tags of an element that the mapping reads. An absent tag is "";
   * `stars` is what `parseInt` makes of the stars tag (`None` for NaN).
   */
  datatype Tags = Tags(name: string, website: string, stars: Option<int>, description: string, street: string)

  /** An Overpass element; `id` 0 stands for a missing id, `center` is present on ways. */
  datatype Element = Element(id: nat, lat: Option<real>, lon: Option<real>, center: Option<Center>, tags: Tags)

  /** The element's latitude: the center's when there is a center. */
  function ElementLat(e: Element): Option<real> {
    if e.center.Some? then e.center.value.lat else e.lat
  }

  /** The element's longitude: the center's when there is a center. */
  function ElementLon(e: Element): Option<real> {
    if e.center.Some? then e.center.value.lon else e.lon
  }

  /** The mapping keeps an element only when both coordinates are truthy. */
  predicate HasCoordinates(e: Element) {
    Truthy(ElementLat(e)) && Truthy(ElementLon(e))
  }

  /** The elements with coordinates, in their order. */
  function Located(elements: seq<Element>): (kept: seq<Element>)
    ensures |kept| <= |elements|
  {
    if elements == [] then []
    else (if HasCoordinates(elements[0]) then [elements[0]] else []) + Located(elements[1..])
  }

  /** The kept elements are in input order; no element with coordinates is lost and none without is kept. */
  lemma {:induction false} LocatedMembers(elements: seq<Element>)
    ensures IsSubsequence(Located(elements), elements)
    ensures forall e :: e in Located(elements) <==> e in elements && HasCoordinates(e)
  {
    if elements != [] {
      LocatedMembers(elements[1..]);
      assert elements == [elements[0]] + elements[1..];
      var rest := Located(elements[1..]);
      if HasCoordinates(elements[0]) {
        assert Located(elements) == [elements[0]] + rest;
        assert ([elements[0]] + rest)[1..] == rest;
      } else {
        assert Located(elements) == rest;
        if rest != [] {
          assert IsSubsequence(rest, elements[1..]);
        }
      }
    }
  }

  /** Every kept element has coordinates. */
  lemma LocatedHaveCoordinates(elements: seq<Element>)
    ensures forall k :: 0 <= k < |Located(elements)| ==> HasCoordinates(Located(elements)[k])
  {
    LocatedMembers(elements);
  }

  /** `parseInt(tags.stars) || 3`. */
  function StarsOrDefault(parsed: Option<int>): int {
    if parsed.Some? && parsed.value != 0 then parsed.value else 3
  }

  /** The text searched for a nameless element: `hotel <lat> <lon>`. */
  function NamelessLabel(e: Element, showNumber: real -> string): string
    requires HasCoordinates(e)
  {
    "hotel " + showNumber(ElementLat(e).value) + " " + showNumber(ElementLon(e).value)
  }

  /** The website tag with a scheme, or else a maps search for the name (or the coordinates) and the place. */
  function ElementWebsite(e: Element, city: string, country: string, showNumber: real -> string): string
    requires HasCoordinates(e)
  {
    if e.tags.website != "" then WithScheme(e.tags.website)
    else SearchLink(MapsSearch, if e.tags.name != "" then e.tags.name else NamelessLabel(e, showNumber), city, country)
  }

  /** One kept element, at position `idx` of the kept list, as a candidate. */
  function ToCandidate(e: Element, idx: nat, city: string, country: string, showNumber: real -> string): Candidate
    requires HasCoordinates(e)
  {
    Candidate(
      id := if e.id != 0 then Num(e.id) else Str("osm-" + NatToString(idx)),
      name := e.tags.name,
      city := city,
      country := country,
      lat := ElementLat(e),
      lon := ElementLon(e),
      description := if e.tags.description != "" then e.tags.description
                     else if e.tags.street != "" then e.tags.street
                     else "Hotel in " + city,
      stars := StarsOrDefault(e.tags.stars),
      amenities := SustainableAmenities,
      leed := true,
      image := DefaultImage,
      website := ElementWebsite(e, city, country, showNumber),
      osmId := e.id)
  }

  /** The filter-then-map chain over the elements of an Overpass answer. */
  function MapElements(elements: seq<Element>, city: string, country: string, showNumber: real -> string): seq<Candidate> {
    var kept := Located(elements);
    LocatedMembers(elements);
    seq(|kept|, k requires 0 <= k < |kept| => ToCandidate(kept[k], k, city, country, showNumber))
  }

  /** What every mapped record carries. */
  predicate LiveShape(h: Candidate) {
    && h.amenities == SustainableAmenities
    && h.leed
    && h.image == DefaultImage
    && h.stars != 0
    && Truthy(h.lat) && Truthy(h.lon)
    && StartsWith(h.website, "http")
  }

  /**
   * The mapping keeps one record per element with coordinates, in order,
   * with the element's name, its id or `osm-<position>`, the website tag
   * made absolute (or a maps search link), the stars tag or 3, and the fixed
   * amenities, `leed` and image.
   */
  lemma MappedRecords(elements: seq<Element>, city: string, country: string, showNumber: real -> string)
    ensures var hotels := MapElements(elements, city, country, showNumber);
      && |hotels| == |Located(elements)|
      && forall k :: 0 <= k < |hotels| ==>
        var e := Located(elements)[k];
        && LiveShape(hotels[k])
        && hotels[k].name == e.tags.name
        && hotels[k].id == (if e.id != 0 then Num(e.id) else Str("osm-" + NatToString(k)))
        && hotels[k].city == city && hotels[k].country == country
        && (e.tags.website != "" ==> hotels[k].website == WithScheme(e.tags.website))
        && (e.tags.website == "" ==> StartsWith(hotels[k].website, MapsSearch))
        && (e.tags.stars.Some? && e.tags.stars.value != 0 ==> hotels[k].stars == e.tags.stars.value)
        && (e.tags.stars.None? || e.tags.stars.value == 0 ==> hotels[k].stars == 3)
  {
    var hotels := MapElements(elements, city, country, showNumber);
    LocatedHaveCoordinates(elements);
    forall k | 0 <= k < |hotels|
      ensures StartsWith(hotels[k].website, "http")
    {
      var e := Located(elements)[k];
      if e.tags.website == "" {
        var title := if e.tags.name != "" then e.tags.name else NamelessLabel(e, showNumber);
        SearchLinkIsHttp(MapsSearch, title, city, country);
      }
    }
  }

  /** `${city} Hotel #${n}`: the names the source makes up. */
  function GeneratedName(city: string, n: nat): (name: string)
    ensures !IsBlank(name)
  {
    var name := city + " Hotel #" + NatToString(n);
    assert name[|city| + 1] == 'H';
    NotBlank(name, |city| + 1);
    name
  }

  /** Enrichment is skipped when more than this many records have no name. */
  const EnrichmentLimit: nat := 20

  /** `hotels.filter(h => !h.name).length`. */
  function CountUnnamed(hotels: seq<Candidate>): (n: nat)
    ensures n <= |hotels|
  {
    if hotels == [] then 0 else (if hotels[0].name == "" then 1 else 0) + CountUnnamed(hotels[1..])
  }

  /**
   * `applyFallbackHotelNames`: every blank name becomes a generated one;
   * `roll(i)` is the random draw for record `i`, giving a suffix in 1000..9999.
   */
  function ApplyFallbackHotelNames(hotels: seq<Candidate>, city: string, roll: nat -> nat): seq<Candidate> {
    seq(|hotels|, i requires 0 <= i < |hotels| =>
      if IsBlank(hotels[i].name) then hotels[i].(name := GeneratedName(city, 1000 + roll(i) % 9000)) else hotels[i])
  }

  /**
   * The bulk naming keeps the length and order, leaves every record with a
   * name alone, only renames the others, and leaves no name blank.
   */
  lemma FallbackNamesComplete(hotels: seq<Candidate>, city: string, roll: nat -> nat)
    ensures var named := ApplyFallbackHotelNames(hotels, city, roll);
      && |named| == |hotels|
      && (forall i :: 0 <= i < |hotels| && !IsBlank(hotels[i].name) ==> named[i] == hotels[i])
      && (forall i :: 0 <= i < |hotels| ==> named[i] == hotels[i].(name := named[i].name))
      && (forall i :: 0 <= i < |hotels| ==> !IsBlank(named[i].name))
      && (forall i :: 0 <= i < |hotels| && IsBlank(hotels[i].name) ==>
            exists n :: 1000 <= n <= 9999 && named[i].name == GeneratedName(city, n))
  {
    var named := ApplyFallbackHotelNames(hotels, city, roll);
    forall i | 0 <= i < |hotels| && IsBlank(hotels[i].name)
      ensures exists n :: 1000 <= n <= 9999 && named[i].name == GeneratedName(city, n)
    {
      var n := 1000 + roll(i) % 9000;
      assert named[i].name == GeneratedName(city, n);
    }
  }

  /** The fields of a reverse-lookup answer the enrichment reads ("" when absent). */
  datatype ReverseAddress = ReverseAddress(hotel: string, accommodation: string, building: string, shop: string, name: string)

  /**
   * The name a successful reverse lookup gives: the first non-empty of
   * hotel, accommodation, building, shop and the place's own name; failing
   * all, a generated name with a suffix below 1000 from the draw.
   */
  function LookedUpName(a: ReverseAddress, city: string, draw: nat): (name: string)
    ensures name != ""
    ensures a.hotel != "" ==> name == a.hotel
    ensures a.hotel == "" && a.accommodation != "" ==> name == a.accommodation
    ensures a.hotel == "" && a.accommodation == "" && a.building != "" ==> name == a.building
    ensures a.hotel == "" && a.accommodation == "" && a.building == "" && a.shop != "" ==> name == a.shop
    ensures a.hotel == "" && a.accommodation == "" && a.building == "" && a.shop == "" && a.name != "" ==> name == a.name
    ensures a.hotel == "" && a.accommodation == "" && a.building == "" && a.shop == "" && a.name == "" ==>
      exists n :: 0 <= n < 1000 && name == GeneratedName(city, n)
  {
    if a.hotel != "" then a.hotel
    else if a.accommodation != "" then a.accommodation
    else if a.building != "" then a.building
    else if a.shop != "" then a.shop
    else if a.name != "" then a.name
    else
      var n := draw % 1000;
      assert !IsBlank(GeneratedName(city, n));
      assert GeneratedName(city, n) != "";
      GeneratedName(city, n)
  }

  /** The indices, from `from` on, of the records without a name, in increasing order. */
  function UnnamedFrom(hotels: seq<Candidate>, from: nat): (indices: seq<nat>)
    requires from <= |hotels|
    ensures forall k :: 0 <= k < |indices| ==> from <= indices[k] < |hotels| && hotels[indices[k]].name == ""
    ensures forall k, l :: 0 <= k < l < |indices| ==> indices[k] < indices[l]
    ensures forall i :: from <= i < |hotels| && hotels[i].name == "" ==> i in indices
    decreases |hotels| - from
  {
    if from == |hotels| then []
    else if hotels[from].name == "" then [from] + UnnamedFrom(hotels, from + 1)
    else UnnamedFrom(hotels, from + 1)
  }

  /** `hotels.filter(h => !h.name).slice(0, 20)`, as indices into `hotels`. */
  function EnrichmentTargets(hotels: seq<Candidate>): seq<nat> {
    var unnamed := UnnamedFrom(hotels, 0);
    if |unnamed| <= EnrichmentLimit then unnamed else unnamed[..EnrichmentLimit]
  }

  /**
   * At most 20 records are looked up; each is one without a name; they come
   * in order; and a record without a name is left out only when 20 earlier
   * ones were taken.
   */
  lemma TargetsAreFirstUnnamed(hotels: seq<Candidate>)
    ensures var targets := EnrichmentTargets(hotels);
      && |targets| <= EnrichmentLimit
      && (forall k :: 0 <= k < |targets| ==> targets[k] < |hotels| && hotels[targets[k]].name == "")
      && (forall k, l :: 0 <= k < l < |targets| ==> targets[k] < targets[l])
      && (forall i :: 0 <= i < |hotels| && hotels[i].name == "" && i !in targets ==>
            |targets| == EnrichmentLimit && targets[EnrichmentLimit - 1] < i)
  {
    var unnamed := UnnamedFrom(hotels, 0);
    var targets := EnrichmentTargets(hotels);
    TargetsArePrefix(hotels);
    forall i | 0 <= i < |hotels| && hotels[i].name == "" && i !in targets
      ensures |targets| == EnrichmentLimit && targets[EnrichmentLimit - 1] < i
    {
      var k :| 0 <= k < |unnamed| && unnamed[k] == i;
      assert EnrichmentLimit <= k < |unnamed|;
      assert targets[EnrichmentLimit - 1] == unnamed[EnrichmentLimit - 1] < unnamed[k];
    }
  }

  /** The targets are the first unnamed indices, at most 20 of them. */
  lemma TargetsArePrefix(hotels: seq<Candidate>)
    ensures var unnamed, targets := UnnamedFrom(hotels, 0), EnrichmentTargets(hotels);
      && |targets| == (if |unnamed| <= EnrichmentLimit then |unnamed| else EnrichmentLimit)
      && forall m :: 0 <= m < |targets| ==> targets[m] == unnamed[m]
  {
  }

  /** The random draws: for the bulk naming, a lookup with no name field, and the final sweep, per record. */
  datatype Rolls = Rolls(bulk: nat -> nat, lookup: nat -> nat, sweep: nat -> nat)

  /** The reverse lookup: the answer for a position, or `None` when the request fails. */
  type ReverseLookup = (Option<real>, Option<real>) -> Option<ReverseAddress>

  /** The name record `h` (at index `i`) has after the lookup loop. */
  function EnrichedName(h: Candidate, i: nat, targeted: bool, city: string, reverse: ReverseLookup, rolls: Rolls): string {
    if targeted && reverse(h.lat, h.lon).Some? then LookedUpName(reverse(h.lat, h.lon).value, city, rolls.lookup(i))
    else h.name
  }

  /** The name after the final sweep: a blank name is replaced by a generated one with a suffix in 1000..10998. */
  function SweptName(name: string, i: nat, city: string, rolls: Rolls): (swept: string)
    ensures !IsBlank(swept)
  {
    if IsBlank(name) then GeneratedName(city, 1000 + rolls.sweep(i) % 9999) else name
  }

  /** `enrichHotelNames` on a list of records, as a value. */
  function EnrichedRecords(hotels: seq<Candidate>, city: string, reverse: ReverseLookup, rolls: Rolls): seq<Candidate> {
    var targets := EnrichmentTargets(hotels);
    seq(|hotels|, i requires 0 <= i < |hotels| =>
      hotels[i].(name := SweptName(EnrichedName(hotels[i], i, i in targets, city, reverse, rolls), i, city, rolls)))
  }

  /**
   * Enrichment keeps every record, in order, changes only names, leaves no
   * name blank, keeps a non-blank name of a record it did not look up, and
   * takes the answer of a successful lookup unless that answer is blank.
   */
  lemma EnrichmentComplete(hotels: seq<Candidate>, city: string, reverse: ReverseLookup, rolls: Rolls)
    ensures var enriched := EnrichedRecords(hotels, city, reverse, rolls);
      && |enriched| == |hotels|
      && (forall i :: 0 <= i < |hotels| ==> enriched[i] == hotels[i].(name := enriched[i].name))
      && (forall i :: 0 <= i < |hotels| ==> !IsBlank(enriched[i].name))
      && (forall i :: 0 <= i < |hotels| && hotels[i].name != "" && !IsBlank(hotels[i].name) ==> enriched[i] == hotels[i])
      && (forall i :: 0 <= i < |hotels| && i in EnrichmentTargets(hotels) && reverse(hotels[i].lat, hotels[i].lon).Some? ==>
            var answer := LookedUpName(reverse(hotels[i].lat, hotels[i].lon).value, city, rolls.lookup(i));
            !IsBlank(answer) ==> enriched[i].name == answer)
  {
    var enriched := EnrichedRecords(hotels, city, reverse, rolls);
    var targets := EnrichmentTargets(hotels);
    TargetsAreFirstUnnamed(hotels);
    forall i | 0 <= i < |hotels| && hotels[i].name != "" && !IsBlank(hotels[i].name)
      ensures enriched[i] == hotels[i]
    {
      assert i !in targets;
    }
  }

  /** The records after the first `k` lookups of `targets`. */
  ghost function AfterLookups(hotels: seq<Candidate>, targets: seq<nat>, k: nat, city: string,
                              reverse: ReverseLookup, rolls: Rolls): seq<Candidate>
    requires k <= |targets|
  {
    seq(|hotels|, j requires 0 <= j < |hotels| =>
      hotels[j].(name := EnrichedName(hotels[j], j, j in targets[..k], city, reverse, rolls)))
  }

  /** One more lookup renames only the looked-up record, and only when the lookup succeeds. */
  lemma LookupStep(hotels: seq<Candidate>, targets: seq<nat>, k: nat, city: string, reverse: ReverseLookup, rolls: Rolls)
    requires k < |targets| && targets[k] < |hotels| && targets[k] !in targets[..k]
    ensures var i := targets[k];
      var before := AfterLookups(hotels, targets, k, city, reverse, rolls);
      var answer := reverse(before[i].lat, before[i].lon);
      AfterLookups(hotels, targets, k + 1, city, reverse, rolls) ==
        if answer.Some? then before[i := before[i].(name := LookedUpName(answer.value, city, rolls.lookup(i)))] else before
  {
    assert targets[..k + 1] == targets[..k] + [targets[k]];
  }

  /** The records with the first `n` swept. */
  ghost function SweptUpTo(hotels: seq<Candidate>, n: nat, city: string, rolls: Rolls): seq<Candidate> {
    seq(|hotels|, j requires 0 <= j < |hotels| =>
      if j < n then hotels[j].(name := SweptName(hotels[j].name, j, city, rolls)) else hotels[j])
  }

  /** Looking up all targets and then sweeping everything is the enrichment. */
  lemma LookupsThenSweep(hotels: seq<Candidate>, city: string, reverse: ReverseLookup, rolls: Rolls)
    ensures var targets := EnrichmentTargets(hotels);
      SweptUpTo(AfterLookups(hotels, targets, |targets|, city, reverse, rolls), |hotels|, city, rolls)
        == EnrichedRecords(hotels, city, reverse, rolls)
  {
    var targets := EnrichmentTargets(hotels);
    assert targets[..|targets|] == targets;
  }

  /** Each target is a position of the list and appears once. */
  lemma TargetsDistinct(hotels: seq<Candidate>)
    ensures var targets := EnrichmentTargets(hotels);
      forall k :: 0 <= k < |targets| ==> targets[k] < |hotels| && targets[k] !in targets[..k]
  {
    TargetsAreFirstUnnamed(hotels);
  }

  /** The lookup loop of `enrichHotelNames`: each target with a successful lookup is renamed in place. */
  method LookUpNames(hotels: array<Candidate>, targets: seq<nat>, city: string, reverse: ReverseLookup, rolls: Rolls)
    requires forall k :: 0 <= k < |targets| ==> targets[k] < hotels.Length && targets[k] !in targets[..k]
    modifies hotels
    ensures hotels[..] == AfterLookups(old(hotels[..]), targets, |targets|, city, reverse, rolls)
  {
    ghost var original := hotels[..];
    var k := 0;
    while k < |targets|
      invariant 0 <= k <= |targets|
      invariant hotels[..] == AfterLookups(original, targets, k, city, reverse, rolls)
    {
      var i := targets[k];
      LookupStep(original, targets, k, city, reverse, rolls);
      var answer := reverse(hotels[i].lat, hotels[i].lon);
      if answer.Some? {
        hotels[i] := hotels[i].(name := LookedUpName(answer.value, city, rolls.lookup(i)));
      }
      k := k + 1;
    }
  }

  /** The final sweep of `enrichHotelNames`: every name still blank is replaced in place. */
  method SweepBlankNames(hotels: array<Candidate>, city: string, rolls: Rolls)
    modifies hotels
    ensures hotels[..] == SweptUpTo(old(hotels[..]), hotels.Length, city, rolls)
  {
    ghost var original := hotels[..];
    var n := 0;
    while n < hotels.Length
      invariant 0 <= n <= hotels.Length
      invariant hotels[..] == SweptUpTo(original, n, city, rolls)
    {
      assert SweptUpTo(original, n + 1, city, rolls)
        == SweptUpTo(original, n, city, rolls)[n := original[n].(name := SweptName(original[n].name, n, city, rolls))];
      if IsBlank(hotels[n].name) {
        hotels[n] := hotels[n].(name := GeneratedName(city, 1000 + rolls.sweep(n) % 9999));
      }
      n := n + 1;
    }
  }

  /**
   * `enrichHotelNames`: the looked-up records are renamed in place in the
   * shared array, then a sweep over the whole array names what is still blank.
   * Returns the positions that were looked up.
   */
  method EnrichHotelNames(hotels: array<Candidate>, city: string, reverse: ReverseLookup, rolls: Rolls)
    returns (looked: seq<nat>)
    modifies hotels
    ensures looked == EnrichmentTargets(old(hotels[..]))
    ensures hotels[..] == EnrichedRecords(old(hotels[..]), city, reverse, rolls)
  {
    looked := EnrichmentTargets(hotels[..]);
    TargetsDistinct(hotels[..]);
    LookupsThenSweep(hotels[..], city, reverse, rolls);
    LookUpNames(hotels, looked, city, reverse, rolls);
    SweepBlankNames(hotels, city, rolls);
  }

  /**
   * The records `queryOverpassAPI` returns for an Overpass answer (`None`
   * for a failed request): the mapped records, named in bulk when more than
   * 20 lack a name and enriched otherwise.
   */
  function OverpassHotels(response: Option<seq<Element>>, city: string, country: string,
                          showNumber: real -> string, reverse: ReverseLookup, rolls: Rolls): seq<Candidate> {
    match response
    case None => []
    case Some(elements) =>
      var mapped := MapElements(elements, city, country, showNumber);
      if CountUnnamed(mapped) > EnrichmentLimit then ApplyFallbackHotelNames(mapped, city, rolls.bulk)
      else EnrichedRecords(mapped, city, reverse, rolls)
  }

  /** `queryOverpassAPI` once the Overpass answer is in; enrichment renames the records of a fresh array in place. */
  method QueryOverpass(response: Option<seq<Element>>, city: string, country: string,
                       showNumber: real -> string, reverse: ReverseLookup, rolls: Rolls)
    returns (hotels: seq<Candidate>)
    ensures hotels == OverpassHotels(response, city, country, showNumber, reverse, rolls)
  {
    if response.None? {
      return [];
    }
    var mapped := MapElements(response.value, city, country, showNumber);
    if CountUnnamed(mapped) > EnrichmentLimit {
      return ApplyFallbackHotelNames(mapped, city, rolls.bulk);
    }
    var records := new Candidate[|mapped|](i requires 0 <= i < |mapped| => mapped[i]);
    assert records[..] == mapped;
    var _ := EnrichHotelNames(records, city, reverse, rolls);
    hotels := records[..];
  }

  /**
   * Whatever the answer, every record the primary source returns has a
   * non-blank name, has coordinates, carries the live record shape and the
   * destination; an answer gives one record per element with coordinates.
   */
  lemma PrimaryRecordsNamed(response: Option<seq<Element>>, city: string, country: string,
                            showNumber: real -> string, reverse: ReverseLookup, rolls: Rolls)
    ensures var hotels := OverpassHotels(response, city, country, showNumber, reverse, rolls);
      && (response.None? ==> hotels == [])
      && (response.Some? ==> |hotels| == |Located(response.value)|)
      && forall k :: 0 <= k < |hotels| ==>
           !IsBlank(hotels[k].name) && LiveShape(hotels[k]) && hotels[k].city == city && hotels[k].country == country
  {
    if response.Some? {
      var mapped := MapElements(response.value, city, country, showNumber);
      MappedRecords(response.value, city, country, showNumber);
      FallbackNamesComplete(mapped, city, rolls.bulk);
      EnrichmentComplete(mapped, city, reverse, rolls);
    }
  }

  /** The words `filterSustainableHotels` looks for. */
  const SustainabilityKeywords: seq<string> := [
    "eco", "green", "sustainable", "carbon", "leed", "earthcheck",
    "green key", "green globe", "energy", "solar", "renewable"
  ]

  /** Name, description, website and amenities, joined by spaces and lower-cased. */
  function Haystack(h: Candidate): string {
    Lower(Join([h.name, h.description, h.website, Join(h.amenities, " ")], " "))
  }

  predicate MentionsSustainability(h: Candidate) {
    exists k :: 0 <= k < |SustainabilityKeywords| && Contains(Haystack(h), SustainabilityKeywords[k])
  }

  /** `filterSustainableHotels`. */
  function FilterSustainableHotels(hotels: seq<Candidate>): (kept: seq<Candidate>)
    ensures |kept| <= |hotels|
  {
    if hotels == [] then []
    else (if MentionsSustainability(hotels[0]) then [hotels[0]] else []) + FilterSustainableHotels(hotels[1..])
  }

  /** The filter keeps exactly the records whose text mentions a keyword. */
  lemma {:induction false} SustainableMembers(hotels: seq<Candidate>)
    ensures forall h :: h in FilterSustainableHotels(hotels) <==> h in hotels && MentionsSustainability(h)
  {
    if hotels != [] {
      SustainableMembers(hotels[1..]);
      assert hotels == [hotels[0]] + hotels[1..];
    }
  }

  /** Joining four pieces. */
  lemma JoinFour(a: string, b: string, c: string, d: string, sep: string)
    ensures Join([a, b, c, d], sep) == a + sep + b + sep + c + sep + d
  {
    assert [c, d][1..] == [d];
    assert Join([c, d], sep) == c + sep + d;
    assert [b, c, d][1..] == [c, d];
    assert Join([b, c, d], sep) == b + sep + (c + sep + d);
    assert [a, b, c, d][1..] == [b, c, d];
    assert Join([a, b, c, d], sep) == a + sep + (b + sep + (c + sep + d));
  }

  /** A record with the live amenities always mentions "eco". */
  lemma LiveRecordIsSustainable(h: Candidate)
    requires h.amenities == SustainableAmenities
    ensures MentionsSustainability(h)
  {
    var amenities := Join(SustainableAmenities, " ");
    var front := h.name + " " + h.description + " " + h.website + " ";
    LiveHaystack(h);
    AmenitiesMentionEco();
    ContainsInContext(Lower(front), Lower(amenities), [], "eco");
    assert Lower(front) + Lower(amenities) + [] == Haystack(h);
    assert SustainabilityKeywords[0] == "eco";
  }

  /** The haystack of a live record ends with its amenities. */
  lemma LiveHaystack(h: Candidate)
    requires h.amenities == SustainableAmenities
    ensures Haystack(h) == Lower(h.name + " " + h.description + " " + h.website + " ") + Lower(Join(SustainableAmenities, " "))
  {
    var amenities := Join(SustainableAmenities, " ");
    var front := h.name + " " + h.description + " " + h.website + " ";
    JoinFour(h.name, h.description, h.website, amenities, " ");
    assert Join([h.name, h.description, h.website, amenities], " ") == front + amenities;
    LowerConcat(front, amenities);
  }

  /** The live amenities mention "eco". */
  lemma AmenitiesMentionEco()
    ensures Contains(Lower(Join(SustainableAmenities, " ")), "eco")
  {
    var amenities := Join(SustainableAmenities, " ");
    var first := SustainableAmenities[0];
    assert amenities == first + " " + SustainableAmenities[1];
    assert first[0] == 'e' && first[1] == 'c' && first[2] == 'o';
    LowerAt(amenities);
    var l := Lower(amenities);
    assert l[0] == 'e' && l[1] == 'c' && l[2] == 'o';
    assert l[0..3] == "eco";
    ContainsFromOccurrence(l, "eco", 0);
  }

  /** Every live record passes the filter, so filtering live records removes nothing. */
  lemma {:induction false} FilterKeepsLiveRecords(hotels: seq<Candidate>)
    requires forall h :: h in hotels ==> h.amenities == SustainableAmenities
    ensures FilterSustainableHotels(hotels) == hotels
  {
    if hotels != [] {
      LiveRecordIsSustainable(hotels[0]);
      FilterKeepsLiveRecords(hotels[1..]);
      assert hotels == [hotels[0]] + hotels[1..];
    }
  }
}
