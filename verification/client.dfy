/**
 * The browser side of the search: text normalisation and tokens, the
 * relevance score, the parsing of a "City, Country" destination, and the
 * filters the submit handler applies to the list it receives.
 */
module Client {
  import opened Wrappers
  import opened Text
  import opened Records

  /** `normalize`: lower-cased, then trimmed; a missing value is "". */
  function Normalize(s: string): string {
    Trim(Lower(s))
  }

  /**
   * A normalised text has no capital letter and no whitespace at either end,
   * and normalising it again changes nothing.
   */
  lemma NormalizeShape(s: string)
    ensures var n := Normalize(s);
      && HasNoUpper(n)
      && (n == [] || (!IsSpace(n[0]) && !IsSpace(n[|n| - 1])))
      && Normalize(n) == n
  {
    var l := Lower(s);
    var n := Normalize(s);
    LowerHasNoUpper(s);
    TrimIsSlice(l);
    assert HasNoUpper(n) by {
      forall i | 0 <= i < |n|
        ensures !('A' <= n[i] <= 'Z')
      {
        assert n[i] == l[TrimOffset(l) + i];
      }
    }
    LowerOfNoUpper(n);
    if n != [] {
      TrimPadded([], n, []);
      assert [] + n + [] == n;
    }
  }

  /** Every code point of `s` is in `[a-z0-9]`. */
  predicate AllLowerAlnum(s: string) {
    forall i :: 0 <= i < |s| ==> LowerAlnum(s[i])
  }

  /**
   * The pieces between the code points outside `[a-z0-9]`. Once empty pieces
   * are dropped this is the same as splitting on maximal runs of them.
   */
  function Pieces(s: string): (r: seq<string>)
    ensures |r| >= 1
  {
    if s == [] then [""]
    else
      var rest := Pieces(s[1..]);
      if LowerAlnum(s[0]) then [[s[0]] + rest[0]] + rest[1..] else [""] + rest
  }

  /** Every piece is made of `[a-z0-9]`. */
  lemma {:induction false} PiecesAlnum(s: string)
    ensures forall k :: 0 <= k < |Pieces(s)| ==> AllLowerAlnum(Pieces(s)[k])
  {
    if s != [] {
      PiecesAlnum(s[1..]);
      var rest := Pieces(s[1..]);
      if LowerAlnum(s[0]) {
        assert AllLowerAlnum([s[0]] + rest[0]);
        forall k | 1 <= k < |Pieces(s)|
          ensures AllLowerAlnum(Pieces(s)[k])
        {
          assert Pieces(s)[k] == rest[k];
        }
      } else {
        forall k | 1 <= k < |Pieces(s)|
          ensures AllLowerAlnum(Pieces(s)[k])
        {
          assert Pieces(s)[k] == rest[k - 1];
        }
      }
    }
  }

  /** `tokenize`: the non-empty `[a-z0-9]` pieces of the normalised text. */
  function Tokenize(s: string): seq<string> {
    NonEmpty(Pieces(Normalize(s)))
  }

  /** Every token is non-empty and made of `[a-z0-9]` only. */
  lemma TokensShape(s: string)
    ensures forall t :: t in Tokenize(s) ==> t != "" && AllLowerAlnum(t)
  {
    var pieces := Pieces(Normalize(s));
    NonEmptyMembers(pieces);
    PiecesAlnum(Normalize(s));
    forall t | t in Tokenize(s)
      ensures AllLowerAlnum(t)
    {
      var k :| 0 <= k < |pieces| && pieces[k] == t;
    }
  }

  /** A token starts and ends with something that is not whitespace. */
  lemma TokenEndsNotSpace(t: string)
    requires t != "" && AllLowerAlnum(t)
    ensures !IsSpace(t[0]) && !IsSpace(t[|t| - 1])
  {
    assert LowerAlnum(t[0]) && LowerAlnum(t[|t| - 1]);
  }

  /** The text a record is scored against: name, city, country, description and amenities, normalised. */
  function Haystack(h: Candidate): string {
    Normalize(Join([h.name, h.city, h.country, h.description, Join(h.amenities, " ")], " "))
  }

  /** What one token adds: 10 for the haystack, 5 for the name, 3 for the city. */
  function TokenPoints(t: string, h: Candidate): nat {
    (if Contains(Haystack(h), t) then 10 else 0)
    + (if Contains(Lower(h.name), t) then 5 else 0)
    + (if Contains(Lower(h.city), t) then 3 else 0)
  }

  /** The points of all tokens. */
  function TokensScore(tokens: seq<string>, h: Candidate): nat {
    if tokens == [] then 0 else TokensScore(tokens[..|tokens| - 1], h) + TokenPoints(tokens[|tokens| - 1], h)
  }

  /** `scoreItem`: the tokens' points plus the stars (0 when missing). */
  function Score(tokens: seq<string>, h: Candidate): int {
    TokensScore(tokens, h) + h.stars
  }

  /** `scoreItem`: `score` accumulates each token's points, then the stars are added. */
  method ScoreItem(tokens: seq<string>, item: Candidate) returns (score: int)
    ensures score == Score(tokens, item)
  {
    score := 0;
    var i := 0;
    while i < |tokens|
      invariant 0 <= i <= |tokens|
      invariant score == TokensScore(tokens[..i], item)
    {
      var t := tokens[i];
      assert tokens[..i + 1][..i] == tokens[..i];
      if Contains(Haystack(item), t) {
        score := score + 10;
      }
      if Contains(Lower(item.name), t) {
        score := score + 5;
      }
      if Contains(Lower(item.city), t) {
        score := score + 3;
      }
      i := i + 1;
    }
    assert tokens[..i] == tokens;
    score := score + item.stars;
  }

  /** The haystack before trimming, with the name and the city as pieces of it. */
  lemma HaystackPieces(h: Candidate)
    ensures var rest := Join([h.country, h.description, Join(h.amenities, " ")], " ");
      Lower(Join([h.name, h.city, h.country, h.description, Join(h.amenities, " ")], " "))
        == Lower(h.name) + (Lower(" ") + (Lower(h.city) + Lower(" " + rest)))
  {
    var rest := Join([h.country, h.description, Join(h.amenities, " ")], " ");
    var five := [h.name, h.city, h.country, h.description, Join(h.amenities, " ")];
    assert five[1..] == [h.city, h.country, h.description, Join(h.amenities, " ")];
    assert five[1..][1..] == [h.country, h.description, Join(h.amenities, " ")];
    assert Join(five, " ") == h.name + " " + (h.city + " " + rest);
    assert h.name + " " + (h.city + " " + rest) == h.name + (" " + (h.city + (" " + rest)));
    LowerConcat(h.name, " " + (h.city + (" " + rest)));
    LowerConcat(" ", h.city + (" " + rest));
    LowerConcat(h.city, " " + rest);
  }

  /** A token found in the name is found in the haystack too. */
  lemma NameHitIsHaystackHit(t: string, h: Candidate)
    requires t != "" && AllLowerAlnum(t)
    ensures Contains(Lower(h.name), t) ==> Contains(Haystack(h), t)
  {
    var rest := Join([h.country, h.description, Join(h.amenities, " ")], " ");
    var joined := Lower(Join([h.name, h.city, h.country, h.description, Join(h.amenities, " ")], " "));
    HaystackPieces(h);
    TokenEndsNotSpace(t);
    if Contains(Lower(h.name), t) {
      var tail := Lower(" ") + (Lower(h.city) + Lower(" " + rest));
      ContainsInContext([], Lower(h.name), tail, t);
      assert [] + (Lower(h.name) + tail) == joined;
      ContainsSurvivesTrim(joined, t);
    }
  }

  /** A token found in the city is found in the haystack too. */
  lemma CityHitIsHaystackHit(t: string, h: Candidate)
    requires t != "" && AllLowerAlnum(t)
    ensures Contains(Lower(h.city), t) ==> Contains(Haystack(h), t)
  {
    var rest := Join([h.country, h.description, Join(h.amenities, " ")], " ");
    var joined := Lower(Join([h.name, h.city, h.country, h.description, Join(h.amenities, " ")], " "));
    HaystackPieces(h);
    TokenEndsNotSpace(t);
    if Contains(Lower(h.city), t) {
      ContainsInContext(Lower(" "), Lower(h.city), Lower(" " + rest), t);
      var tail := Lower(" ") + (Lower(h.city) + Lower(" " + rest));
      ContainsInContext(Lower(h.name), tail, [], t);
      assert Lower(h.name) + (tail + []) == joined;
      ContainsSurvivesTrim(joined, t);
    }
  }

  /** A token scores 0, 10, 13, 15 or 18: a name or city hit never comes without the haystack hit. */
  lemma TokenPointsValues(t: string, h: Candidate)
    requires t != "" && AllLowerAlnum(t)
    ensures TokenPoints(t, h) in {0, 10, 13, 15, 18}
  {
    NameHitIsHaystackHit(t, h);
    CityHitIsHaystackHit(t, h);
  }

  /** The score lies between the stars and the stars plus 18 per token. */
  lemma {:induction false} ScoreBounds(tokens: seq<string>, h: Candidate)
    ensures h.stars <= Score(tokens, h) <= h.stars + 18 * |tokens|
  {
    if tokens != [] {
      ScoreBounds(tokens[..|tokens| - 1], h);
    }
  }

  /** The city and country `searchHotelsFromAPI` sends for a destination. */
  function DestinationParts(destination: string): (string, string) {
    if ',' in destination then
      var parts := TrimAll(Split(destination, ','));
      (parts[0], if |parts| > 1 then parts[1] else "")
    else (destination, "")
  }

  /** The destination parsing of `searchHotelsFromAPI`: `city` and `country` are reassigned when there is a comma. */
  method ParseDestination(destination: string) returns (city: string, country: string)
    ensures (city, country) == DestinationParts(destination)
  {
    city := destination;
    country := "";
    if ',' in destination {
      var parts := TrimAll(Split(destination, ','));
      city := parts[0];
      country := if |parts| > 1 then parts[1] else "";
    }
  }

  /** Without a comma the whole destination is the city and there is no country. */
  lemma DestinationWithoutComma(destination: string)
    requires ',' !in destination
    ensures DestinationParts(destination) == (destination, "")
  {
  }

  /** With a comma the trimmed first piece is the city and the trimmed second piece the country. */
  lemma DestinationWithComma(a: string, b: string)
    requires ',' !in a && ',' !in b
    ensures DestinationParts(a + "," + b) == (Trim(a), Trim(b))
  {
    SplitAfterPiece(a, ',', b);
    SplitWithoutSeparator(b, ',');
    assert (a + "," + b)[|a|] == ',';
  }

  /** Pieces after the second are ignored. */
  lemma DestinationIgnoresLaterPieces(a: string, b: string, c: string)
    requires ',' !in a && ',' !in b
    ensures DestinationParts(a + "," + b + "," + c) == (Trim(a), Trim(b))
  {
    assert a + "," + b + "," + c == a + [','] + (b + [','] + c);
    SplitAfterPiece(a, ',', b + [','] + c);
    SplitAfterPiece(b, ',', c);
    assert (a + "," + b + "," + c)[|a|] == ',';
  }

  /** A record as the browser holds it: the server's record and its nightly price (0 when there is none). */
  datatype Item = Item(hotel: Candidate, price: real)

  const DefaultDescription: string := "Sustainable hotel from OpenStreetMap"

  /** Every item marked LEED, and given a description when it has none. */
  function Marked(list: seq<Item>): seq<Item> {
    seq(|list|, k requires 0 <= k < |list| =>
      var h := list[k].hotel;
      list[k].(hotel := h.(leed := true, description := if h.description != "" then h.description else DefaultDescription)))
  }

  /** `list.filter(h => h.leed)`. */
  function LeedOnly(list: seq<Item>): (kept: seq<Item>)
    ensures |kept| <= |list|
  {
    if list == [] then []
    else (if list[0].hotel.leed then [list[0]] else []) + LeedOnly(list[1..])
  }

  /** An item within the limit: it has no price, or its price is at most the limit. */
  predicate WithinPrice(item: Item, limit: int) {
    item.price == 0.0 || item.price <= limit as real
  }

  /** `list.filter(h => !h.price_per_night || h.price_per_night <= priceLimit)`. */
  function PriceFiltered(list: seq<Item>, limit: int): (kept: seq<Item>)
    ensures |kept| <= |list|
  {
    if list == [] then []
    else (if WithinPrice(list[0], limit) then [list[0]] else []) + PriceFiltered(list[1..], limit)
  }

  /**
   * The list the submit handler shows: an empty list stays empty; otherwise
   * the items are marked, then the LEED filter applies when asked for, then
   * the price filter when the limit is a positive number (`None` for a
   * missing or unparsable limit).
   */
  function Filtered(list: seq<Item>, leedOnly: bool, priceLimit: Option<int>): seq<Item> {
    if list == [] then []
    else
      var marked := Marked(list);
      var leed := if leedOnly then LeedOnly(marked) else marked;
      if priceLimit.Some? && priceLimit.value > 0 then PriceFiltered(leed, priceLimit.value) else leed
  }

  /** The outcome of a submitted search: a warning, or the list that is rendered. */
  datatype SubmitOutcome = Warned | Shown(list: seq<Item>)

  /** What the submit handler does with the input text; `fetch` is the answer of `searchHotelsFromAPI`. */
  function SubmitResult(input: string, leedOnly: bool, priceLimit: Option<int>,
                        fetch: (string, string) -> seq<Item>): SubmitOutcome {
    var destination := Trim(input);
    if destination == "" then Warned
    else
      var parts := DestinationParts(destination);
      Shown(Filtered(fetch(parts.0, parts.1), leedOnly, priceLimit))
  }

  /** The submit handler: `list` is reassigned through the marking and the filters. */
  method Submit(input: string, leedOnly: bool, priceLimit: Option<int>, fetch: (string, string) -> seq<Item>)
    returns (outcome: SubmitOutcome)
    ensures outcome == SubmitResult(input, leedOnly, priceLimit, fetch)
  {
    var destination := Trim(input);
    if destination == "" {
      return Warned;
    }
    var city, country := ParseDestination(destination);
    var list := fetch(city, country);
    if |list| > 0 {
      list := Marked(list);
      if leedOnly {
        list := LeedOnly(list);
      }
      if priceLimit.Some? && priceLimit.value > 0 {
        list := PriceFiltered(list, priceLimit.value);
      }
    }
    outcome := Shown(list);
  }

  /** A blank destination gives a warning and no search; any other gives a search. */
  lemma WarnedIffBlank(input: string, leedOnly: bool, priceLimit: Option<int>, fetch: (string, string) -> seq<Item>)
    ensures SubmitResult(input, leedOnly, priceLimit, fetch).Warned? <==> IsBlank(input)
  {
  }

  /** Marked items are all LEED and all described; nothing else about them changes. */
  lemma MarkedShape(list: seq<Item>)
    ensures var marked := Marked(list);
      && |marked| == |list|
      && forall k :: 0 <= k < |list| ==>
        && marked[k].hotel.leed && marked[k].hotel.description != ""
        && marked[k].price == list[k].price
        && marked[k].hotel.(leed := list[k].hotel.leed, description := list[k].hotel.description) == list[k].hotel
  {
  }

  /** A list whose items are all LEED passes the LEED filter whole. */
  lemma {:induction false} LeedOnlyKeepsLeed(list: seq<Item>)
    requires forall k :: 0 <= k < |list| ==> list[k].hotel.leed
    ensures LeedOnly(list) == list
  {
    if list != [] {
      LeedOnlyKeepsLeed(list[1..]);
      assert list == [list[0]] + list[1..];
    }
  }

  /** So after marking, the LEED-only filter removes nothing. */
  lemma LeedFilterRemovesNothing(list: seq<Item>, priceLimit: Option<int>)
    ensures Filtered(list, true, priceLimit) == Filtered(list, false, priceLimit)
  {
    if list != [] {
      MarkedShape(list);
      LeedOnlyKeepsLeed(Marked(list));
    }
  }

  /** The price filter keeps, in order, exactly the items with no price or a price within the limit. */
  lemma {:induction false} PriceFilterSelects(list: seq<Item>, limit: int)
    ensures IsSubsequence(PriceFiltered(list, limit), list)
    ensures forall item :: item in PriceFiltered(list, limit) <==> item in list && WithinPrice(item, limit)
  {
    if list != [] {
      PriceFilterSelects(list[1..], limit);
      assert list == [list[0]] + list[1..];
      var rest := PriceFiltered(list[1..], limit);
      if WithinPrice(list[0], limit) {
        assert PriceFiltered(list, limit) == [list[0]] + rest;
        assert ([list[0]] + rest)[1..] == rest;
      } else {
        assert PriceFiltered(list, limit) == rest;
        if rest != [] {
          assert IsSubsequence(rest, list[1..]);
        }
      }
    }
  }

  /** Without a positive limit the price filter does not apply. */
  lemma NoLimitNoPriceFilter(list: seq<Item>, leedOnly: bool, priceLimit: Option<int>)
    requires priceLimit.None? || priceLimit.value <= 0
    ensures Filtered(list, leedOnly, priceLimit) == (if list == [] then [] else if leedOnly then LeedOnly(Marked(list)) else Marked(list))
  {
  }
}
