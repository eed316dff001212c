# Sustainable hotel search — a Dafny model

This project models the core of a small hotel-search web application. The
application finds hotels near a destination through free OpenStreetMap
services and presents them as "sustainable" choices. The model covers:

- **the live search** (`server/opendata.js`). The destination typed by the
  user is normalised: country aliases are resolved, US state codes are
  promoted to "USA", and a country named in place of a city is replaced by
  that country's major city. The city is then geocoded. Overpass returns the
  lodgings around it; each element becomes a hotel record, and names that are
  missing are looked up by reverse geocoding (at most 20) or generated. When
  Overpass finds nothing, a two-strategy Nominatim fallback runs. The
  sustainability filter is applied at the end only to count the sustainable
  records for a log line; the search returns the unfiltered list (and the
  model proves the filter would remove nothing from it).
- **the HTTP handlers** (`server/server.js`):
  - the static catalog of 505 basic hotels (ten variants for each of 50 US
    cities, plus five international entries), with its slugged ids and its
    city and country search;
  - the search handler, which appends to a short live list the catalog
    entries whose `String(id)` has not been seen yet; the live list itself is
    not deduplicated;
  - the post-booking feed, which answers 400, 422 or 202 depending on the
    shape of what it receives.
- **the browser search** (`js/search.js`): text normalisation,
  tokenisation, relevance scoring, destination parsing, and the submit
  handler's marking, LEED filter and price filter.
- **the Expedia normalisation** (`server/normalize.js`): an Expedia property
  becomes the application's hotel schema, with its region inferred from the
  country code.

## How the model is built

Modules follow the program's structure:

| module | what it holds |
|---|---|
| `Wrappers` | the `Option` datatype |
| `Text` | JavaScript string behaviour: `trim`, case mapping, `split`, `join`, `includes`, `startsWith`, integer text |
| `Uri` | `encodeURIComponent` |
| `Records` | the hotel record and its identifiers |
| `Location` | `normalizeLocation`, and the resolution of the destination |
| `Overpass` | the primary source, name enrichment and the sustainability filter |
| `Fallback` | `fallbackNominatimSearch` |
| `Pipeline` | `searchOpenSourceHotels` |
| `Catalog` | the static catalog and its search |
| `Handler` | the two request handlers |
| `Client` | the browser module |
| `Expedia` | the Expedia normalisation |

Network access, clocks and randomness become parameters:

- **Network calls.** Every outside service is a function from the request
  to its outcome. `Reply` distinguishes a request that threw, a non-ok
  status, and a body.
- **Random draws.** `Math.random` draws are functions of the record's
  position.
- **Numbers.** `parseFloat` and number-to-text conversion are functions.
- **Missing values.** JavaScript's falsy values are written out: a missing
  string is "", and a coordinate is "truthy" when it is present and not
  zero.

Code that changes state step by step is modelled as methods whose
`ensures` tie their result to a specification function:

- `normalizeLocation` reassigns its variables;
- `enrichHotelNames` updates records in place, on an `array`;
- the merge loop of the search handler;
- `scoreItem`;
- the submit handler.

The properties are proved about those specification functions.

## Where the code and its documentation differ

This model follows the code in each of these cases:

- A city such as "London, UK" keeps its full text as the city. Only the
  country is taken from the trailing piece.
- Star ratings are `parseInt(tag) || 3` and are not clamped to 1..5.
- No 50- or 100-record caps are applied to the live lists.
- Fallback strategy 1 returns its filtered list, even an empty one, whenever
  the named-lodging query returned elements.
- Identifiers are not unique within every response. The merge checks only
  the appended catalog entries against the keys already seen. Live records
  sharing an id all stay, in the merged list and in a live list of 10 or
  more. Such ids can arise because nodes and ways have separate id numberings,
  and because strategy 2 falls back to the position.

## Model

| member | source | states |
|---|---|---|
| Uri.EncodeURIComponent | server/opendata.js:398-399 | every character of the encoding is an unreserved character or part of a `%XX` escape |
| Records.WithScheme | server/opendata.js:392-396 | the link starts with "http"; a tag already starting with "http" is kept, any other gets "https://" in front |
| Records.SearchLink | server/opendata.js:397-401 | a generated link starts with the search base it was built on |
| Records.SearchLinkIsHttp | server/opendata.js:572-575 | links generated on either search base are absolute http links |
| Location.StateCodeShape | server/opendata.js:15-19 | every US state code has two letters and is neither "UK" nor "US" |
| Location.AliasShape | server/opendata.js:21-31 | every alias names a country by more than two letters; the only two-letter alias keys are "uk" and "us" |
| Location.AliasIsNoStateCode | server/opendata.js:21-31 | no alias resolves to something that reads as a state code |
| Location.NormalizeLocation | server/opendata.js:33-66 | the method computes `NormalizedLocation`, the four stages in order, with the inputs kept when a stage empties them |
| Location.LastPieceTaken | server/opendata.js:37-42 | with no country and several non-empty comma pieces, the last piece becomes the country and is not empty |
| Location.TrailingPieceBecomesCountry | server/opendata.js:37-63 | with a blank country, the country is named by the last piece of the city (alias resolved, state code promoted to "USA"); the city is kept, plus a code suffix only when promoted |
| Location.AliasResolvedExactly | server/opendata.js:44-47 | a country that is an alias key, in any case and padding, becomes the alias target; the city is only trimmed |
| Location.UnknownCountryPassesThrough | server/opendata.js:44-65 | a country that is neither alias nor state code comes back trimmed and unchanged |
| Location.StateCodePromoted | server/opendata.js:49-55 | a state-code country becomes "USA"; the code is appended to the city exactly when the upper-cased city does not contain it |
| Location.StateSuffixGivesUsa | server/opendata.js:57-63 | a city ending in ", <state code>" with no country gets "USA" and keeps its text |
| Location.EmptyFieldsFallBack | server/opendata.js:65 | a city that trims to nothing comes back as given; so does a blank country when the city has no comma |
| Location.NormalizedWithCountry | server/opendata.js:44-65 | with a country given, the result is the alias resolution followed by state-code promotion, and nothing else |
| Location.PromotionExtendsCity | server/opendata.js:49-55 | promotion only ever appends to the city, and changes the country to "USA" exactly for state codes |
| Location.LondonExample | server/opendata.js:37-47 | "London, UK" with no country gives city "London, UK" and country "United Kingdom" |
| Location.AustinExample | server/opendata.js:49-55 | "Austin" with "tx" gives "Austin, TX", "USA" |
| Location.PortlandExample | server/opendata.js:49-55 | "Portland" with "OR" gives "Portland", "USA": the substring test finds "OR" inside "PORTLAND" |
| Location.ParisExample | server/opendata.js:33-66 | "Paris" with "France" is unchanged |
| Location.LookupCity | server/opendata.js:288-289 | the table lookup gives "" or a city paired with the key in the table |
| Location.MajorCitiesNonEmpty | server/opendata.js:202-286 | every country key and every city of the major-city table is non-empty |
| Location.MajorCityFor | server/opendata.js:288-289 | the city for a country is its table entry under the lower-cased name, or the name itself; it is empty exactly when the name is |
| Location.ThailandExample | server/opendata.js:202-289 | "Thailand" gives "Bangkok" |
| Location.ThailandCapitalsExample | server/opendata.js:202-289 | "THAILAND" gives "Bangkok": the lookup ignores case |
| Location.KnownCountryIsKept | server/opendata.js:81-98 | once normalisation has a country, neither the country check nor the city detection changes the destination |
| Location.CountryNameSearchedByMajorCity | server/opendata.js:81-89 | a country typed as the city is searched as its major city, with the typed name as the country |
| Location.NoCountryOnlyWhenAllFail | server/opendata.js:81-98 | the destination has no country exactly when normalisation found none, the city is not a country, and city detection found none |
| Overpass.Located | server/opendata.js:369-376 | the filter keeps at most as many elements as it is given |
| Overpass.LocatedMembers | server/opendata.js:369-376 | the kept elements are a subsequence of the input, in its order; an element is kept exactly when it has a truthy latitude and longitude |
| Overpass.MappedRecords | server/opendata.js:377-418 | one record per located element, in order, with its name, its id or `osm-<index>`, the destination, its website made absolute or a maps search link, and its stars tag or 3 |
| Overpass.GeneratedName | server/opendata.js:446 | a generated name is never blank |
| Overpass.FallbackNamesComplete | server/opendata.js:443-450 | bulk naming keeps length and order, keeps named records, renames only blank ones to `<city> Hotel #n` with n in 1000..9999, and leaves no name blank |
| Overpass.LookedUpName | server/opendata.js:472-491 | the reverse-geocoded name prefers hotel, then accommodation, building, shop, the place name, and finally a generated name |
| Overpass.UnnamedFrom | server/opendata.js:455 | exactly the indices of the nameless records, in increasing order |
| Overpass.TargetsAreFirstUnnamed | server/opendata.js:455 | at most 20 records are looked up, all nameless, in order; a nameless record is skipped only when 20 earlier ones were taken |
| Overpass.SweptName | server/opendata.js:500-505 | the final sweep leaves no name blank |
| Overpass.EnrichmentComplete | server/opendata.js:452-512 | enrichment keeps every record and its order, changes only names, leaves none blank, keeps a record it did not need to touch, and takes a successful lookup's non-blank answer |
| Overpass.LookUpNames | server/opendata.js:459-497 | the lookup loop, on the array, leaves the records `AfterLookups` gives, one lookup per target |
| Overpass.SweepBlankNames | server/opendata.js:500-505 | the sweep loop, on the array, gives every blank name a generated one and changes nothing else |
| Overpass.EnrichHotelNames | server/opendata.js:452-512 | the method looks up exactly the targets and leaves the array as `EnrichedRecords` of its old contents |
| Overpass.QueryOverpass | server/opendata.js:324-441 | the method's list is `OverpassHotels` of the Overpass answer |
| Overpass.PrimaryRecordsNamed | server/opendata.js:324-441 | no answer gives no records; otherwise one record per located element, each named, carrying the destination and the live record's fixed fields |
| Overpass.FilterSustainableHotels | server/opendata.js:146-171 | the filter keeps at most as many records as it is given |
| Overpass.SustainableMembers | server/opendata.js:146-171 | a record is kept exactly when it mentions a sustainability keyword |
| Overpass.LiveRecordIsSustainable | server/opendata.js:146-171 | a record carrying the fixed amenities "eco-friendly" and "sustainable" always passes the filter |
| Overpass.FilterKeepsLiveRecords | server/opendata.js:137-138 | the filter returns every such list whole and in order |
| Fallback.NamedElements | server/opendata.js:561 | strategy 1 keeps at most as many elements as it is given |
| Fallback.NamedElementsMembers | server/opendata.js:561 | strategy 1 keeps, as a subsequence in input order, exactly the elements with a name and a truthy latitude |
| Fallback.NamedRecords | server/opendata.js:562-592 | one record per kept element, in order, with its name and id, the destination, its website tag made absolute or else a web search link, its non-zero stars tag or else 3, and its description tag or else "Hotel in <city>" |
| Fallback.LodgingPlaces | server/opendata.js:620-638 | strategy 2 keeps at most as many places as it is given |
| Fallback.LodgingPlacesMembers | server/opendata.js:620-638 | the kept places are a subsequence of the input, in its order; a place is kept exactly when its name has at least 3 characters and is not "hotel", it has coordinates, and its type, class or name marks a lodging |
| Fallback.LodgingPlacesAllKept | server/opendata.js:620-638 | places that all pass the heuristic are kept whole and in order |
| Fallback.PlaceRecords | server/opendata.js:639-670 | one three-star record per kept place, in order, with its name |
| Fallback.FallbackOutcome | server/opendata.js:514-679 | a re-geocode that throws gives nothing; strategy 1 answers when it has elements; otherwise the text search decides; every record has the fallback shape and the destination |
| Pipeline.SearchOpenSourceHotels | server/opendata.js:68-144 | the method's list is `SearchResult`, the composed search |
| Pipeline.PrimaryBeforeFallback | server/opendata.js:103-135 | a failed geocode gives nothing; a non-empty primary list is the answer; otherwise the fallback list is |
| Pipeline.SearchRecordsDelivered | server/opendata.js:68-144 | every record found carries the resolved destination and the fixed sustainable fields |
| Pipeline.SearchResultAllSustainable | server/opendata.js:137-138 | the final sustainability filter removes nothing from the search result |
| Catalog.DashedShape | server/server.js:133-135 | the replacement leaves only `[a-z0-9]` and single dashes between them |
| Catalog.SlugShape | server/server.js:133-135 | a slug is made of `[a-z0-9]` runs separated by single dashes, with no dash at either end |
| Catalog.UsHotelsShape | server/server.js:151-165 | ten entries per city in city order; entry i is variant i % 10 of city i / 10 with id `basic-us-<slug>-<variant+1>` and country "USA" |
| Catalog.UsIdInjective | server/server.js:154 | equal US ids come from equal slugs and equal variant numbers |
| Catalog.UsIdsDistinct | server/server.js:151-165 | with distinct city slugs, the US ids are pairwise distinct |
| Catalog.IntlIds | server/server.js:70-131 | the five international ids are distinct and none starts with "basic-us-" |
| Catalog.CatalogIdsDistinct | server/server.js:137-168 | with distinct city slugs, the whole catalog has 10 entries per city plus 5, with pairwise distinct ids |
| Catalog.BasicHotelsSize | server/server.js:17-168 | the catalog holds 505 entries: 500 US ones, then the international list |
| Catalog.AliasTargets | server/server.js:172-182 | every catalog alias maps to "united kingdom" or "usa" |
| Catalog.NormalizeCountryNameCases | server/server.js:184-187 | the country is trimmed and lower-cased, then replaced by its alias target when it has one |
| Catalog.UkAlias | server/server.js:172-187 | " uk " normalises to "united kingdom" |
| Catalog.UsAlias | server/server.js:172-187 | "US" normalises to "usa" |
| Catalog.MatchingHotels | server/server.js:189-198 | the search keeps at most as many entries as it is given |
| Catalog.MatchingHotelsSelects | server/server.js:189-198 | the search keeps, in order, exactly the entries whose city and country contain the needles |
| Catalog.EmptyNeedlesKeepAll | server/server.js:189-198 | empty needles keep every entry |
| Catalog.CityNeedleIgnoresRest | server/server.js:190 | only the text before the first comma of the city is searched |
| Catalog.EmptySearchIsCatalog | server/server.js:189-198 | an empty city and country return the whole catalog |
| Catalog.ParisIsFound | server/server.js:70-84 | searching "Paris", "France" finds `basic-paris-1` |
| Handler.MergeResults | server/server.js:219-235 | the merge loop gives the live list followed by the catalog entries whose keys are unseen |
| Handler.UnseenShape | server/server.js:224-233 | what is appended is a subsequence of the catalog list, with new, pairwise distinct keys, and no catalog key is lost |
| Handler.MergedShape | server/server.js:219-235 | the merged list starts with the live list unchanged; no appended entry repeats an earlier key; every catalog key appears |
| Handler.LiveDuplicatesKept | server/server.js:219-235 | two live records with the same key both stay, first and second, in the merged list: the live list is not deduplicated |
| Handler.DisjointCatalogAllAppended | server/server.js:224-233 | catalog entries with distinct, new keys are all appended |
| Handler.ThreePlusFiveIsEight | server/server.js:219-235 | three live records and five new catalog entries merge into eight |
| Handler.SearchHotels | server/server.js:212-242 | no live records give the catalog search; fewer than 10 give the merge; 10 or more give the live list; each with its source label |
| Handler.InvalidCount | server/server.js:259 | at most every element is counted invalid |
| Handler.InvalidCountZero | server/server.js:259 | no element is invalid exactly when every element has an id and a status |
| Handler.PostBookingOutcome | server/server.js:245-275 | 400 exactly for a missing or empty array; 422 with the invalid count exactly when an element lacks an id or a status; 202 with the length otherwise |
| Client.NormalizeShape | js/search.js:4 | a normalised text has no capital letter, no whitespace at either end, and is its own normalisation |
| Client.PiecesAlnum | js/search.js:5 | every piece of the split holds only `[a-z0-9]` |
| Client.TokensShape | js/search.js:5 | every token is non-empty and made of `[a-z0-9]` only |
| Client.ScoreItem | js/search.js:7-18 | the loop adds up the token points and then the stars |
| Client.NameHitIsHaystackHit | js/search.js:9-13 | a token found in the name is found in the whole haystack too |
| Client.CityHitIsHaystackHit | js/search.js:9-14 | a token found in the city is found in the whole haystack too |
| Client.TokenPointsValues | js/search.js:11-15 | one token scores 0, 10, 13, 15 or 18 |
| Client.ScoreBounds | js/search.js:7-18 | the score lies between the stars and the stars plus 18 per token |
| Client.ParseDestination | js/search.js:27-34 | the method gives `DestinationParts`, the parsed city and country |
| Client.DestinationWithoutComma | js/search.js:27-30 | without a comma the whole text is the city and the country is empty |
| Client.DestinationWithComma | js/search.js:30-34 | "a,b" gives the trimmed a and b |
| Client.DestinationIgnoresLaterPieces | js/search.js:30-34 | pieces after the second are ignored |
| Client.Submit | js/search.js:85-126 | the method's outcome is `SubmitResult`: a warning, or the marked and filtered list |
| Client.WarnedIffBlank | js/search.js:87-96 | the warning is shown exactly when the trimmed destination is empty |
| Client.MarkedShape | js/search.js:109-113 | marking sets `leed` and fills an empty description, and changes nothing else |
| Client.LeedOnly | js/search.js:116 | the LEED filter keeps at most as many hotels as it is given |
| Client.LeedOnlyKeepsLeed | js/search.js:116 | hotels that are all LEED are kept whole |
| Client.LeedFilterRemovesNothing | js/search.js:107-121 | after marking, checking "LEED only" changes nothing |
| Client.PriceFiltered | js/search.js:119-121 | the price filter keeps at most as many hotels as it is given |
| Client.PriceFilterSelects | js/search.js:119-121 | the price filter keeps, in order, exactly the hotels without a price or within the limit |
| Client.NoLimitNoPriceFilter | js/search.js:119 | a missing or non-positive limit applies no price filter |
| Expedia.InferRegionCases | server/normalize.js:17-23 | the region is one of five names, each given for exactly its own codes |
| Expedia.LowerCaseCodeIsOther | server/normalize.js:17-23 | codes are matched exactly: "us" and a missing code give "Other" |
| Expedia.NormalizedShape | server/normalize.js:1-15 | the id is "expedia-" plus the source id; the country is the code or ""; the constants are set; the link is the web link, or "#" when there is none; a coordinate is kept exactly when it is truthy |
| Expedia.DistinctIds | server/normalize.js:3 | distinct source ids give distinct normalised ids |

## Left out

- Network I/O, `fetchWithTimeout`, the time-limit race in the search
  handler, HTTP framing and logging are not modelled. Each request's outcome
  is a parameter; the handler receives whatever the race produced.
- The `receivedAt` timestamp of the post-booking reply is left out, because
  it comes from the clock.
- `Math.random` is modelled as given draws (`Rolls`), because the values
  themselves are not predictable.
- Floating point is not modelled:
  - coordinates are exact reals;
  - `parseFloat` and number-to-text conversion are parameters;
  - `parseInt` of the stars tag arrives already parsed;
  - a NaN coordinate is modelled as missing.
- Case mapping covers ASCII letters only. String length counts code points,
  not UTF-16 units.
- JavaScript object-prototype keys (such as "constructor") are treated as
  absent from the alias and city tables.
- The city table in `findMajorCityInCountry` lists "thailand" twice, both
  times with "Bangkok". The model lists it once, which gives the same
  lookup.
- `isCountry` and `detectCountryFromCity` are Nominatim lookups; they are
  parameters of the model.
- Catalog.CatalogIdsDistinct: assumes that the 50 US city slugs are pairwise
  distinct rather than computing all 50 slugs.
- Fallback.NamedElements: strategy 1 checks only the latitude (own or
  center), as the code does. A record may therefore lack a longitude.
- Overpass.EnrichmentComplete: states only that a non-blank lookup answer is
  kept. A blank answer is replaced by the sweep, as the code does.
- Client.ScoreItem: missing name, city or amenities are modelled as "" and
  [], which is what `|| ''` and `|| []` give. Missing stars count as 0.
- The `.toString()` of `normalize` is not modelled: every input is already
  text.
- The Expedia `id` is modelled as its text.
- Rendering and the DOM (`render`, the result cards) are not modelled.
  Neither is `loadData`, which is not used by the submit handler.
- `server/expedia.js` (an outside API client) and `server/test-api.js` (a
  manual script) are not part of this model.
