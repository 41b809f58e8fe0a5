/**
 * `search_venues` and `search_artists`: a row matches when the search term
 * occurs, ignoring case, in its name, its city's name or its state's name
 * (`ILIKE '%term%'` over the join of the row with City and State).
 */
module Search {
  import opened Wrappers
  import opened Seqs
  import opened Records
  import opened Views

  /** ASCII lower-casing of one character. */
  function Lower(c: char): (r: char)
    ensures 'A' <= c <= 'Z' ==> r as int == c as int + 32
    ensures !('A' <= c <= 'Z') ==> r == c
  {
    if 'A' <= c <= 'Z' then (c as int + 32) as char else c
  }

  function LowerString(s: string): (r: string)
    ensures |r| == |s|
    ensures forall i :: 0 <= i < |s| ==> r[i] == Lower(s[i])
  {
    seq(|s|, i requires 0 <= i < |s| => Lower(s[i]))
  }

  /** Whether `pattern` occurs as a contiguous run of `s`, tried from the left. */
  function Contains(s: string, pattern: string): bool
    decreases |s|
  {
    pattern <= s || (|s| > 0 && Contains(s[1..], pattern))
  }

  /** `pattern` occurs in `s` starting at position `i`. */
  predicate OccursAt(s: string, pattern: string, i: int) {
    0 <= i && i + |pattern| <= |s| && s[i..i + |pattern|] == pattern
  }

  /** A match found by `Contains` is at a position of `s` that starts a copy of `pattern`. */
  lemma {:induction false} ContainsWitness(s: string, pattern: string) returns (i: int)
    requires Contains(s, pattern)
    ensures OccursAt(s, pattern, i)
    decreases |s|
  {
    if pattern <= s {
      i := 0;
    } else {
      var j := ContainsWitness(s[1..], pattern);
      assert s[j + 1..j + 1 + |pattern|] == s[1..][j..j + |pattern|];
      i := j + 1;
    }
  }

  /** `Contains` finds every copy of `pattern` in `s`. */
  lemma {:induction false} OccursContains(s: string, pattern: string, i: int)
    requires OccursAt(s, pattern, i)
    ensures Contains(s, pattern)
    decreases i
  {
    if i > 0 {
      assert s[1..][i - 1..i - 1 + |pattern|] == s[i..i + |pattern|];
      OccursContains(s[1..], pattern, i - 1);
    }
  }

  /** `Contains` agrees with its reference definition: some position of `s` starts a copy of `pattern`. */
  lemma ContainsIff(s: string, pattern: string)
    ensures Contains(s, pattern) <==> exists i :: OccursAt(s, pattern, i)
  {
    if Contains(s, pattern) {
      var i := ContainsWitness(s, pattern);
    }
    if i :| OccursAt(s, pattern, i) {
      OccursContains(s, pattern, i);
    }
  }

  /** `value ILIKE '%term%'`, for a term without the wildcards `%` and `_`: the term occurs somewhere in the value, ignoring ASCII case. */
  function ILike(value: string, term: string): (r: bool)
    ensures r <==> exists i :: OccursAt(LowerString(value), LowerString(term), i)
  {
    ContainsIff(LowerString(value), LowerString(term));
    Contains(LowerString(value), LowerString(term))
  }

  /** The condition of the search query for one venue: the inner join must find its city and the city's state. */
  predicate VenueMatches(t: Tables, v: Venue, term: string) {
    match CityById(t.cities, v.cityId)
    case None => false
    case Some(c) =>
      match StateById(t.states, c.stateId)
      case None => false
      case Some(st) => ILike(v.name, term) || ILike(c.name, term) || ILike(st.name, term)
  }

  predicate ArtistMatches(t: Tables, a: Artist, term: string) {
    match CityById(t.cities, a.cityId)
    case None => false
    case Some(c) =>
      match StateById(t.states, c.stateId)
      case None => false
      case Some(st) => ILike(a.name, term) || ILike(c.name, term) || ILike(st.name, term)
  }

  /** `venues_found`: the matching venues, in table order. */
  function MatchingVenues(t: Tables, venues: seq<Venue>, term: string): (r: seq<Venue>)
    ensures forall v :: v in r <==> v in venues && VenueMatches(t, v, term)
    ensures multiset(r) <= multiset(venues)
  {
    if |venues| == 0 then []
    else
      assert venues == [venues[0]] + venues[1..];
      if VenueMatches(t, venues[0], term) then [venues[0]] + MatchingVenues(t, venues[1..], term)
      else MatchingVenues(t, venues[1..], term)
  }

  /** `artists_found`: the matching artists, in table order. */
  function MatchingArtists(t: Tables, artists: seq<Artist>, term: string): (r: seq<Artist>)
    ensures forall a :: a in r <==> a in artists && ArtistMatches(t, a, term)
    ensures multiset(r) <= multiset(artists)
  {
    if |artists| == 0 then []
    else
      assert artists == [artists[0]] + artists[1..];
      if ArtistMatches(t, artists[0], term) then [artists[0]] + MatchingArtists(t, artists[1..], term)
      else MatchingArtists(t, artists[1..], term)
  }

  /** The response of the venue search: a count and the serialised venues. */
  datatype VenueSearch = VenueSearch(count: nat, data: seq<VenueSummary>)

  /** The response of the artist search, whose `data` holds the artist rows themselves. */
  datatype ArtistSearch = ArtistSearch(count: nat, data: seq<Artist>)

  /** `search_venues`: serialise each venue found, then count the list. */
  method SearchVenues(t: Tables, term: string, now: Timestamp) returns (response: VenueSearch)
    ensures response.count == |response.data| == |MatchingVenues(t, t.venues, term)|
    ensures forall i :: 0 <= i < |response.data| ==>
      response.data[i] == SerializeVenue(t.shows, MatchingVenues(t, t.venues, term)[i], now)
  {
    var found := MatchingVenues(t, t.venues, term);
    var venuesList: seq<VenueSummary> := [];
    for i := 0 to |found|
      invariant |venuesList| == i
      invariant forall k :: 0 <= k < i ==> venuesList[k] == SerializeVenue(t.shows, found[k], now)
    {
      venuesList := venuesList + [SerializeVenue(t.shows, found[i], now)];
    }
    response := VenueSearch(|venuesList|, venuesList);
  }

  /**
   * `search_artists`: the serialised list is built only to be counted; the
   * response's `data` is the list of artist rows found.
   */
  method SearchArtists(t: Tables, term: string) returns (response: ArtistSearch)
    ensures response.data == MatchingArtists(t, t.artists, term)
    ensures response.count == |response.data|
  {
    var found := MatchingArtists(t, t.artists, term);
    var artistsList: seq<ArtistSummary> := [];
    for i := 0 to |found|
      invariant |artistsList| == i
    {
      artistsList := artistsList + [SerializeArtist(found[i])];
    }
    response := ArtistSearch(|artistsList|, found);
  }

  /** The venues found keep their order in the table. */
  lemma {:induction false} MatchingVenuesInTableOrder(t: Tables, venues: seq<Venue>, term: string)
    ensures SubsequenceOf(MatchingVenues(t, venues, term), venues)
  {
    if |venues| > 0 {
      MatchingVenuesInTableOrder(t, venues[1..], term);
    }
  }

  /** The artists found keep their order in the table. */
  lemma {:induction false} MatchingArtistsInTableOrder(t: Tables, artists: seq<Artist>, term: string)
    ensures SubsequenceOf(MatchingArtists(t, artists, term), artists)
  {
    if |artists| > 0 {
      MatchingArtistsInTableOrder(t, artists[1..], term);
    }
  }

  /** The search ignores case: two terms equal up to case match the same venues. */
  lemma {:induction false} VenueSearchIgnoresCase(t: Tables, venues: seq<Venue>, term1: string, term2: string)
    requires LowerString(term1) == LowerString(term2)
    ensures MatchingVenues(t, venues, term1) == MatchingVenues(t, venues, term2)
  {
    if |venues| > 0 {
      VenueSearchIgnoresCase(t, venues[1..], term1, term2);
    }
  }

  lemma {:induction false} ArtistSearchIgnoresCase(t: Tables, artists: seq<Artist>, term1: string, term2: string)
    requires LowerString(term1) == LowerString(term2)
    ensures MatchingArtists(t, artists, term1) == MatchingArtists(t, artists, term2)
  {
    if |artists| > 0 {
      ArtistSearchIgnoresCase(t, artists[1..], term1, term2);
    }
  }

  /** The empty term matches every venue whose city and state exist, so it lists the whole table of a consistent database. */
  lemma {:induction false} EmptyTermListsAll(t: Tables, venues: seq<Venue>)
    requires forall v :: v in venues ==> CityById(t.cities, v.cityId).Some?
    requires forall c :: c in t.cities ==> StateById(t.states, c.stateId).Some?
    ensures MatchingVenues(t, venues, "") == venues
  {
    if |venues| > 0 {
      assert venues[0] in venues;
      assert ILike(venues[0].name, "");
      EmptyTermListsAll(t, venues[1..]);
    }
  }
}
