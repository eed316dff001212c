/**
 * The two request handlers of the server: the hotel search, which merges the
 * live list with the static catalog, and the post-booking feed, which only
 * checks the shape of what it receives.
 */
module Handler {
  import opened Wrappers
  import opened Records
  import opened Catalog

  /** Below this many live records the catalog's matches are appended. */
  const MinLive: nat := 10

  const LiveSource: string := "OpenStreetMap (Sustainability filter)"
  const BasicSource: string := "Basic (Local)"
  const MergedSource: string := "OpenStreetMap + Basic (Local)"

  /** The `String(id)` keys of a list. */
  function Keys(hotels: seq<Candidate>): set<string> {
    set h | h in hotels :: IdKey(h.id)
  }

  /**
   * The catalog entries appended after the live ones: each entry whose key
   * has not been seen, the key then counting as seen.
   */
  function Unseen(fallback: seq<Candidate>, seen: set<string>): seq<Candidate> {
    if fallback == [] then []
    else if IdKey(fallback[0].id) in seen then Unseen(fallback[1..], seen)
    else [fallback[0]] + Unseen(fallback[1..], seen + {IdKey(fallback[0].id)})
  }

  /** The merged list: the live records in order, then the catalog entries with unseen keys. */
  function Merged(live: seq<Candidate>, fallback: seq<Candidate>): seq<Candidate> {
    live + Unseen(fallback, Keys(live))
  }

  /** The merge loop of the search handler: entries are pushed onto `merged` and their keys added to `seen`. */
  method MergeResults(live: seq<Candidate>, fallback: seq<Candidate>) returns (merged: seq<Candidate>)
    ensures merged == Merged(live, fallback)
  {
    merged := live;
    var seen := set h | h in live :: IdKey(h.id);
    var i := 0;
    while i < |fallback|
      invariant 0 <= i <= |fallback|
      invariant merged + Unseen(fallback[i..], seen) == Merged(live, fallback)
    {
      var hotel := fallback[i];
      var key := IdKey(hotel.id);
      assert fallback[i..] == [hotel] + fallback[i + 1..];
      if key !in seen {
        seen := seen + {key};
        merged := merged + [hotel];
      }
      i := i + 1;
    }
  }

  /**
   * What `Unseen` appends: entries of the catalog list, in its order, whose
   * keys are pairwise distinct and outside `seen`; and no catalog key is lost.
   */
  lemma {:induction false} UnseenShape(fallback: seq<Candidate>, seen: set<string>)
    ensures var added := Unseen(fallback, seen);
      && IsSubsequence(added, fallback)
      && (forall k :: 0 <= k < |added| ==> IdKey(added[k].id) !in seen)
      && (forall k, l :: 0 <= k < l < |added| ==> IdKey(added[k].id) != IdKey(added[l].id))
      && (forall h :: h in fallback ==> IdKey(h.id) in seen || IdKey(h.id) in Keys(added))
  {
    if fallback != [] {
      var h := fallback[0];
      var key := IdKey(h.id);
      assert fallback == [h] + fallback[1..];
      if key in seen {
        UnseenShape(fallback[1..], seen);
      } else {
        var rest := Unseen(fallback[1..], seen + {key});
        UnseenShape(fallback[1..], seen + {key});
        var added := [h] + rest;
        assert added[1..] == rest;
        forall k, l | 0 <= k < l < |added|
          ensures IdKey(added[k].id) != IdKey(added[l].id)
        {
          if k == 0 {
            assert added[l] == rest[l - 1];
          } else {
            assert added[k] == rest[k - 1] && added[l] == rest[l - 1];
          }
        }
        forall g | g in fallback
          ensures IdKey(g.id) in seen || IdKey(g.id) in Keys(added)
        {
          if g != h {
            assert g in fallback[1..];
            if IdKey(g.id) in Keys(rest) {
              var r :| r in rest && IdKey(r.id) == IdKey(g.id);
              assert r in added;
            }
          } else {
            assert h in added;
          }
        }
      }
    }
  }

  /**
   * The merged list starts with the live list unchanged; every entry after it
   * is a catalog entry whose key no earlier entry has; and every catalog key
   * appears in it.
   */
  lemma MergedShape(live: seq<Candidate>, fallback: seq<Candidate>)
    ensures var merged := Merged(live, fallback);
      && merged[..|live|] == live
      && IsSubsequence(merged[|live|..], fallback)
      && (forall i, j :: 0 <= i < j < |merged| && |live| <= j ==> IdKey(merged[i].id) != IdKey(merged[j].id))
      && (forall h :: h in fallback ==> IdKey(h.id) in Keys(merged))
  {
    var merged := Merged(live, fallback);
    var added := Unseen(fallback, Keys(live));
    UnseenShape(fallback, Keys(live));
    assert merged[|live|..] == added;
    forall i, j | 0 <= i < j < |merged| && |live| <= j
      ensures IdKey(merged[i].id) != IdKey(merged[j].id)
    {
      assert merged[j] == added[j - |live|];
      if i < |live| {
        assert merged[i] in live;
      } else {
        assert merged[i] == added[i - |live|];
      }
    }
    forall h | h in fallback
      ensures IdKey(h.id) in Keys(merged)
    {
      if IdKey(h.id) in Keys(live) {
        var g :| g in live && IdKey(g.id) == IdKey(h.id);
        assert g in merged;
      } else {
        var g :| g in added && IdKey(g.id) == IdKey(h.id);
        assert g in merged;
      }
    }
  }

  /** With catalog entries whose keys are distinct and all new, every one of them is appended. */
  lemma {:induction false} DisjointCatalogAllAppended(fallback: seq<Candidate>, seen: set<string>)
    requires forall k :: 0 <= k < |fallback| ==> IdKey(fallback[k].id) !in seen
    requires forall k, l :: 0 <= k < l < |fallback| ==> IdKey(fallback[k].id) != IdKey(fallback[l].id)
    ensures Unseen(fallback, seen) == fallback
  {
    if fallback != [] {
      var key := IdKey(fallback[0].id);
      forall k | 0 <= k < |fallback[1..]|
        ensures IdKey(fallback[1..][k].id) !in seen + {key}
      {
        assert fallback[1..][k] == fallback[k + 1];
      }
      DisjointCatalogAllAppended(fallback[1..], seen + {key});
      assert fallback == [fallback[0]] + fallback[1..];
    }
  }

  /** Three live records and five catalog entries with new, distinct keys merge into eight. */
  lemma ThreePlusFiveIsEight(live: seq<Candidate>, fallback: seq<Candidate>)
    requires |live| == 3 && |fallback| == 5
    requires forall k :: 0 <= k < |fallback| ==> IdKey(fallback[k].id) !in Keys(live)
    requires forall k, l :: 0 <= k < l < |fallback| ==> IdKey(fallback[k].id) != IdKey(fallback[l].id)
    ensures |Merged(live, fallback)| == 8
  {
    DisjointCatalogAllAppended(fallback, Keys(live));
  }

  /**
   * Only catalog entries are checked against the keys seen: two live records
   * that share a key both stay in the merged list.
   */
  lemma LiveDuplicatesKept(h: Candidate, g: Candidate, fallback: seq<Candidate>)
    requires IdKey(h.id) == IdKey(g.id)
    ensures var merged := Merged([h, g], fallback);
      && |merged| >= 2 && merged[0] == h && merged[1] == g
      && IdKey(merged[0].id) == IdKey(merged[1].id)
  {
  }

  /** The search handler's answer. */
  datatype SearchAnswer = SearchAnswer(hotels: seq<Candidate>, source: string)

  /**
   * `GET /api/hotels/search`. `cityParam` is the query's city (`None` when
   * absent, then "Rome"), `countryParam` the country (then ""); `timed` is
   * what the live search gave within its time limit (`None` when it timed
   * out or gave no list).
   */
  method SearchHotels(cityParam: Option<string>, countryParam: Option<string>, timed: Option<seq<Candidate>>)
    returns (answer: SearchAnswer)
    ensures var city := cityParam.GetOr("Rome");
      var country := countryParam.GetOr("");
      var live := if timed.Some? then timed.value else [];
      && (|live| == 0 ==> answer == SearchAnswer(BasicHotelSearch(city, country), BasicSource))
      && (0 < |live| < MinLive ==> answer == SearchAnswer(Merged(live, BasicHotelSearch(city, country)), MergedSource))
      && (MinLive <= |live| ==> answer == SearchAnswer(live, LiveSource))
  {
    var city := cityParam.GetOr("Rome");
    var country := countryParam.GetOr("");
    var hotels := if timed.Some? then timed.value else [];
    var source := LiveSource;
    if |hotels| == 0 {
      hotels := BasicHotelSearch(city, country);
      source := BasicSource;
    } else if |hotels| < MinLive {
      var fallback := BasicHotelSearch(city, country);
      hotels := MergeResults(hotels, fallback);
      source := MergedSource;
    }
    answer := SearchAnswer(hotels, source);
  }

  /**
   * One element of the `bookings` array: `None` for a value that is not an
   * object; otherwise whether its `id` and its `status` are truthy.
   */
  datatype Booking = Booking(hasId: bool, hasStatus: bool)

  predicate ValidBooking(b: Option<Booking>) {
    b.Some? && b.value.hasId && b.value.hasStatus
  }

  /** `bookings.filter(b => !b || !b.id || !b.status).length`. */
  function InvalidCount(bookings: seq<Option<Booking>>): (n: nat)
    ensures n <= |bookings|
  {
    if bookings == [] then 0
    else (if ValidBooking(bookings[0]) then 0 else 1) + InvalidCount(bookings[1..])
  }

  /** The outcome of a post-booking request; the timestamp it carries is left out. */
  datatype BookingReply = NoBookings | MissingFields(invalidCount: nat) | Accepted(bookingCount: nat)

  /** The HTTP status of a reply. */
  function Status(r: BookingReply): nat {
    match r
    case NoBookings => 400
    case MissingFields(_) => 422
    case Accepted(_) => 202
  }

  /** `POST /api/bookings/post-booking`; `bookings` is `None` when the payload has no array under `bookings`. */
  function PostBooking(bookings: Option<seq<Option<Booking>>>): BookingReply {
    var list := if bookings.Some? then bookings.value else [];
    if |list| == 0 then NoBookings
    else if InvalidCount(list) > 0 then MissingFields(InvalidCount(list))
    else Accepted(|list|)
  }

  /** No invalid element is counted exactly when every element is valid. */
  lemma {:induction false} InvalidCountZero(bookings: seq<Option<Booking>>)
    ensures InvalidCount(bookings) == 0 <==> forall k :: 0 <= k < |bookings| ==> ValidBooking(bookings[k])
  {
    if bookings != [] {
      InvalidCountZero(bookings[1..]);
      assert forall k :: 1 <= k < |bookings| ==> bookings[k] == bookings[1..][k - 1];
    }
  }

  /**
   * 400 exactly for a missing or empty array; 422 with the number of invalid
   * elements exactly when some element lacks an id or a status; 202 with the
   * array's length otherwise.
   */
  lemma PostBookingOutcome(bookings: Option<seq<Option<Booking>>>)
    ensures var list := if bookings.Some? then bookings.value else [];
      var reply := PostBooking(bookings);
      && (Status(reply) == 400 <==> |list| == 0)
      && (Status(reply) == 422 <==> |list| > 0 && exists k :: 0 <= k < |list| && !ValidBooking(list[k]))
      && (reply.MissingFields? ==> reply.invalidCount == InvalidCount(list) && 0 < reply.invalidCount <= |list|)
      && (Status(reply) == 202 <==> |list| > 0 && forall k :: 0 <= k < |list| ==> ValidBooking(list[k]))
      && (reply.Accepted? ==> reply.bookingCount == |list|)
  {
    var list := if bookings.Some? then bookings.value else [];
    InvalidCountZero(list);
  }
}
