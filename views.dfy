/**
 * The read side of the model classes: the show queries behind
 * `num_upcoming_shows` and `serialize_details`, the summary and detail
 * projections, `City.get_venues`, and the listing pages built from them.
 * `datetime.now()` is the parameter `now`.
 */
module Views {
  import opened Wrappers
  import opened Seqs
  import opened Records

  /** The foreign key a show query filters on: `Show.venue_id == id` or `Show.artist_id == id`. */
  datatype Owner = OfVenue(venueId: Id) | OfArtist(artistId: Id)

  /** The time condition of a show query: none, `start_time < now` or `start_time >= now`. */
  datatype Period = AnyTime | Past(now: Timestamp) | Upcoming(now: Timestamp)

  datatype ShowQuery = ShowQuery(owner: Owner, period: Period)

  predicate BelongsTo(sh: Show, owner: Owner) {
    match owner
    case OfVenue(id) => sh.venueId == id
    case OfArtist(id) => sh.artistId == id
  }

  predicate InPeriod(sh: Show, period: Period) {
    match period
    case AnyTime => true
    case Past(now) => sh.startTime < now
    case Upcoming(now) => sh.startTime >= now
  }

  predicate Matches(sh: Show, q: ShowQuery) {
    BelongsTo(sh, q.owner) && InPeriod(sh, q.period)
  }

  /** `Show.query.filter(...).all()`: the matching rows, in table order. */
  function Select(shows: seq<Show>, q: ShowQuery): (r: seq<Show>)
    ensures forall sh :: sh in r <==> sh in shows && Matches(sh, q)
    ensures multiset(r) <= multiset(shows)
  {
    if |shows| == 0 then []
    else
      assert shows == [shows[0]] + shows[1..];
      if Matches(shows[0], q) then [shows[0]] + Select(shows[1..], q)
      else Select(shows[1..], q)
  }

  /** A query lists its rows in table order. */
  lemma {:induction false} SelectInTableOrder(shows: seq<Show>, q: ShowQuery)
    ensures SubsequenceOf(Select(shows, q), shows)
  {
    if |shows| > 0 {
      SelectInTableOrder(shows[1..], q);
    }
  }

  /** `Show.query.filter(...).count()`: a tally of the matching rows. */
  function Count(shows: seq<Show>, q: ShowQuery): nat {
    if |shows| == 0 then 0
    else (if Matches(shows[0], q) then 1 else 0) + Count(shows[1..], q)
  }

  /** The count query and the list query agree: a count is the length of the list. */
  lemma {:induction false} CountIsLength(shows: seq<Show>, q: ShowQuery)
    ensures Count(shows, q) == |Select(shows, q)|
  {
    if |shows| > 0 {
      CountIsLength(shows[1..], q);
    }
  }

  /** One step of a query: the first row, when it matches, and the matches among the rest. */
  lemma SelectStep(shows: seq<Show>, q: ShowQuery)
    requires |shows| > 0
    ensures multiset(Select(shows, q)) ==
      (if Matches(shows[0], q) then multiset{shows[0]} else multiset{}) + multiset(Select(shows[1..], q))
  {
    if Matches(shows[0], q) {
      assert Select(shows, q) == [shows[0]] + Select(shows[1..], q);
    }
  }

  /** The multiset step of the partition: one row joins exactly one side and the whole. */
  lemma PartitionStep(sh: Show, p: multiset<Show>, u: multiset<Show>, a: multiset<Show>, inPast: bool, inUpcoming: bool, inAll: bool)
    requires p + u == a
    requires inAll == (inPast || inUpcoming) && !(inPast && inUpcoming)
    ensures (if inPast then multiset{sh} else multiset{}) + p + ((if inUpcoming then multiset{sh} else multiset{}) + u)
         == (if inAll then multiset{sh} else multiset{}) + a
  {
  }

  /**
   * Splitting an owner's shows at `now` loses none and duplicates none: the
   * past and the upcoming lists together are exactly the owner's shows.
   */
  lemma {:induction false} PastUpcomingPartition(shows: seq<Show>, owner: Owner, now: Timestamp)
    ensures multiset(Select(shows, ShowQuery(owner, Past(now)))) + multiset(Select(shows, ShowQuery(owner, Upcoming(now))))
         == multiset(Select(shows, ShowQuery(owner, AnyTime)))
  {
    if |shows| > 0 {
      var past, upcoming, all := ShowQuery(owner, Past(now)), ShowQuery(owner, Upcoming(now)), ShowQuery(owner, AnyTime);
      PastUpcomingPartition(shows[1..], owner, now);
      SelectStep(shows, past);
      SelectStep(shows, upcoming);
      SelectStep(shows, all);
      PartitionStep(shows[0], multiset(Select(shows[1..], past)), multiset(Select(shows[1..], upcoming)),
        multiset(Select(shows[1..], all)), Matches(shows[0], past), Matches(shows[0], upcoming), Matches(shows[0], all));
    }
  }

  /** No show is both past and upcoming. */
  lemma PastUpcomingDisjoint(shows: seq<Show>, owner: Owner, now: Timestamp)
    ensures multiset(Select(shows, ShowQuery(owner, Past(now)))) !! multiset(Select(shows, ShowQuery(owner, Upcoming(now))))
  {
    var past := Select(shows, ShowQuery(owner, Past(now)));
    var upcoming := Select(shows, ShowQuery(owner, Upcoming(now)));
    forall sh | sh in multiset(past) ensures sh !in multiset(upcoming) {
      assert sh in past;
    }
  }

  // Projections of a show

  datatype ShowSummary = ShowSummary(artistId: Id, artistName: string, artistImageLink: string, startTime: Timestamp)

  datatype ShowDetail = ShowDetail(
    venueId: Id, venueName: string,
    artistId: Id, artistName: string, artistImageLink: string,
    startTime: Timestamp)

  /** `Show.serialize`: fails (None) when the artist row is missing. */
  function SerializeShow(artists: seq<Artist>, sh: Show): (r: Option<ShowSummary>)
    ensures r.Some? <==> ArtistById(artists, sh.artistId).Some?
    ensures r.Some? ==> r.value.artistId == sh.artistId && r.value.startTime == sh.startTime
    ensures r.Some? ==> r.value.artistName == ArtistById(artists, sh.artistId).value.name
    ensures r.Some? ==> r.value.artistImageLink == ArtistById(artists, sh.artistId).value.imageLink
  {
    match ArtistById(artists, sh.artistId)
    case None => None
    case Some(a) => Some(ShowSummary(a.id, a.name, a.imageLink, sh.startTime))
  }

  /** `Show.serialize_details`: fails when the venue or the artist row is missing. */
  function SerializeShowDetail(t: Tables, sh: Show): (r: Option<ShowDetail>)
    ensures r.Some? <==> VenueById(t.venues, sh.venueId).Some? && ArtistById(t.artists, sh.artistId).Some?
  {
    match (VenueById(t.venues, sh.venueId), ArtistById(t.artists, sh.artistId))
    case (Some(v), Some(a)) => Some(ShowDetail(sh.venueId, v.name, sh.artistId, a.name, a.imageLink, sh.startTime))
    case _ => None
  }

  /** The detail view carries every field of the summary view, plus the venue's id and name. */
  lemma ShowDetailExtendsSummary(t: Tables, sh: Show)
    requires SerializeShowDetail(t, sh).Some?
    ensures SerializeShow(t.artists, sh).Some?
    ensures var d, s := SerializeShowDetail(t, sh).value, SerializeShow(t.artists, sh).value;
      && d.artistId == s.artistId && d.artistName == s.artistName
      && d.artistImageLink == s.artistImageLink && d.startTime == s.startTime
      && d.venueId == sh.venueId && d.venueName == VenueById(t.venues, sh.venueId).value.name
  {
  }

  /** `[show.serialize() for show in shows]`: fails when any show's artist is missing. */
  function SerializeShows(artists: seq<Artist>, shows: seq<Show>): (r: Option<seq<ShowSummary>>)
    ensures r.Some? <==> forall sh :: sh in shows ==> ArtistById(artists, sh.artistId).Some?
    ensures r.Some? ==> |r.value| == |shows|
    ensures r.Some? ==> forall i :: 0 <= i < |shows| ==> Some(r.value[i]) == SerializeShow(artists, shows[i])
  {
    if |shows| == 0 then Some([])
    else
      match (SerializeShow(artists, shows[0]), SerializeShows(artists, shows[1..]))
      case (Some(first), Some(others)) => Some([first] + others)
      case _ =>
        assert shows[0] in shows;
        None
  }

  // The past/upcoming split of `serialize_details`

  /** The four derived fields of a detail view. */
  datatype ShowListing = ShowListing(
    pastShows: seq<ShowSummary>,
    upcomingShows: seq<ShowSummary>,
    pastShowsCount: nat,
    upcomingShowsCount: nat)

  /** Serialising keeps each show's start time at its position. */
  lemma SerializedStartTimes(artists: seq<Artist>, shows: seq<Show>)
    requires SerializeShows(artists, shows).Some?
    ensures var views := SerializeShows(artists, shows).value;
      forall i :: 0 <= i < |views| ==> views[i].startTime == shows[i].startTime
  {
  }

  /** Every serialised past show started before `now`. */
  lemma SerializedPast(artists: seq<Artist>, shows: seq<Show>, owner: Owner, now: Timestamp)
    requires SerializeShows(artists, Select(shows, ShowQuery(owner, Past(now)))).Some?
    ensures var views := SerializeShows(artists, Select(shows, ShowQuery(owner, Past(now)))).value;
      forall i :: 0 <= i < |views| ==> views[i].startTime < now
  {
    var selected := Select(shows, ShowQuery(owner, Past(now)));
    SerializedStartTimes(artists, selected);
    assert forall i :: 0 <= i < |selected| ==> selected[i] in selected;
  }

  /** Every serialised upcoming show starts at or after `now`. */
  lemma SerializedUpcoming(artists: seq<Artist>, shows: seq<Show>, owner: Owner, now: Timestamp)
    requires SerializeShows(artists, Select(shows, ShowQuery(owner, Upcoming(now)))).Some?
    ensures var views := SerializeShows(artists, Select(shows, ShowQuery(owner, Upcoming(now)))).value;
      forall i :: 0 <= i < |views| ==> views[i].startTime >= now
  {
    var selected := Select(shows, ShowQuery(owner, Upcoming(now)));
    SerializedStartTimes(artists, selected);
    assert forall i :: 0 <= i < |selected| ==> selected[i] in selected;
  }

  /** An owner's show is either past or upcoming. */
  lemma PastOrUpcoming(shows: seq<Show>, owner: Owner, now: Timestamp, sh: Show)
    requires sh in shows && BelongsTo(sh, owner)
    ensures sh in Select(shows, ShowQuery(owner, Past(now))) || sh in Select(shows, ShowQuery(owner, Upcoming(now)))
  {
    assert Matches(sh, ShowQuery(owner, Past(now))) || Matches(sh, ShowQuery(owner, Upcoming(now)));
  }

  /** When both lists serialise, every show of the owner has its artist. */
  lemma SerializedBothHaveArtists(artists: seq<Artist>, shows: seq<Show>, owner: Owner, now: Timestamp)
    requires SerializeShows(artists, Select(shows, ShowQuery(owner, Past(now)))).Some?
    requires SerializeShows(artists, Select(shows, ShowQuery(owner, Upcoming(now)))).Some?
    ensures forall sh :: sh in shows && BelongsTo(sh, owner) ==> ArtistById(artists, sh.artistId).Some?
  {
    forall sh | sh in shows && BelongsTo(sh, owner) ensures ArtistById(artists, sh.artistId).Some? {
      PastOrUpcoming(shows, owner, now, sh);
    }
  }

  /** The past and upcoming shows of one venue or artist, as lists and as counts. */
  function ListShows(t: Tables, owner: Owner, now: Timestamp): (r: Option<ShowListing>)
    ensures r.Some? <==> forall sh :: sh in t.shows && BelongsTo(sh, owner) ==> ArtistById(t.artists, sh.artistId).Some?
    ensures r.Some? ==> r.value.pastShowsCount == |r.value.pastShows|
    ensures r.Some? ==> r.value.upcomingShowsCount == |r.value.upcomingShows|
    ensures r.Some? ==> r.value.pastShowsCount + r.value.upcomingShowsCount == |Select(t.shows, ShowQuery(owner, AnyTime))|
    ensures r.Some? ==> forall i :: 0 <= i < |r.value.pastShows| ==> r.value.pastShows[i].startTime < now
    ensures r.Some? ==> forall i :: 0 <= i < |r.value.upcomingShows| ==> r.value.upcomingShows[i].startTime >= now
    ensures r.Some? ==> Some(r.value.pastShows) == SerializeShows(t.artists, Select(t.shows, ShowQuery(owner, Past(now))))
    ensures r.Some? ==> Some(r.value.upcomingShows) == SerializeShows(t.artists, Select(t.shows, ShowQuery(owner, Upcoming(now))))
  {
    var pastQuery, upcomingQuery := ShowQuery(owner, Past(now)), ShowQuery(owner, Upcoming(now));
    var past, upcoming := Select(t.shows, pastQuery), Select(t.shows, upcomingQuery);
    CountIsLength(t.shows, pastQuery);
    CountIsLength(t.shows, upcomingQuery);
    PastUpcomingPartition(t.shows, owner, now);
    match (SerializeShows(t.artists, past), SerializeShows(t.artists, upcoming))
    case (Some(pastViews), Some(upcomingViews)) =>
      SerializedPast(t.artists, t.shows, owner, now);
      SerializedUpcoming(t.artists, t.shows, owner, now);
      SerializedBothHaveArtists(t.artists, t.shows, owner, now);
      Some(ShowListing(pastViews, upcomingViews, Count(t.shows, pastQuery), Count(t.shows, upcomingQuery)))
    case _ =>
      None
  }

  /** Every show of the owner is serialised into the past or the upcoming list of its detail view. */
  lemma OwnersShowsAreListed(t: Tables, owner: Owner, now: Timestamp, sh: Show)
    requires ListShows(t, owner, now).Some?
    requires sh in t.shows && BelongsTo(sh, owner)
    ensures SerializeShow(t.artists, sh).Some?
    ensures var s, l := SerializeShow(t.artists, sh).value, ListShows(t, owner, now).value;
      s in l.pastShows || s in l.upcomingShows
  {
    var l := ListShows(t, owner, now).value;
    var past, upcoming := Select(t.shows, ShowQuery(owner, Past(now))), Select(t.shows, ShowQuery(owner, Upcoming(now)));
    PastOrUpcoming(t.shows, owner, now, sh);
    if sh in past {
      var k :| 0 <= k < |past| && past[k] == sh;
      assert l.pastShows[k] in l.pastShows;
    } else {
      var k :| 0 <= k < |upcoming| && upcoming[k] == sh;
      assert l.upcomingShows[k] in l.upcomingShows;
    }
  }

  /** Every entry of the two lists of a detail view is the serialisation of one of the owner's shows. */
  lemma ListedShowsAreOwners(t: Tables, owner: Owner, now: Timestamp, s: ShowSummary)
    requires ListShows(t, owner, now).Some?
    requires s in ListShows(t, owner, now).value.pastShows || s in ListShows(t, owner, now).value.upcomingShows
    ensures exists sh :: sh in t.shows && BelongsTo(sh, owner) && SerializeShow(t.artists, sh) == Some(s)
  {
    var l := ListShows(t, owner, now).value;
    var past, upcoming := Select(t.shows, ShowQuery(owner, Past(now))), Select(t.shows, ShowQuery(owner, Upcoming(now)));
    if s in l.pastShows {
      var k :| 0 <= k < |l.pastShows| && l.pastShows[k] == s;
      assert past[k] in past;
    } else {
      var k :| 0 <= k < |l.upcomingShows| && l.upcomingShows[k] == s;
      assert upcoming[k] in upcoming;
    }
  }

  // Venue and artist projections

  datatype VenueSummary = VenueSummary(id: Id, name: string, numUpcomingShows: nat)

  datatype ArtistSummary = ArtistSummary(id: Id, name: string)

  /** `Venue.num_upcoming_shows`: how many of the venue's shows start at or after `now`. */
  function NumUpcomingShows(shows: seq<Show>, v: Venue, now: Timestamp): (n: nat)
    ensures n == |Select(shows, ShowQuery(OfVenue(v.id), Upcoming(now)))|
  {
    CountIsLength(shows, ShowQuery(OfVenue(v.id), Upcoming(now)));
    Count(shows, ShowQuery(OfVenue(v.id), Upcoming(now)))
  }

  /** `Venue.serialize`. */
  function SerializeVenue(shows: seq<Show>, v: Venue, now: Timestamp): (r: VenueSummary)
    ensures r.id == v.id && r.name == v.name
    ensures r.numUpcomingShows == |Select(shows, ShowQuery(OfVenue(v.id), Upcoming(now)))|
    ensures forall sh :: sh in shows && sh.venueId == v.id && sh.startTime >= now ==> r.numUpcomingShows > 0
  {
    var r := VenueSummary(v.id, v.name, NumUpcomingShows(shows, v, now));
    assert forall sh :: sh in shows && sh.venueId == v.id && sh.startTime >= now ==>
      sh in Select(shows, ShowQuery(OfVenue(v.id), Upcoming(now)));
    r
  }

  /** `Artist.serialize`: the artist's id and name, and nothing else. */
  function SerializeArtist(a: Artist): (r: ArtistSummary)
    ensures r.id == a.id && r.name == a.name
  {
    ArtistSummary(a.id, a.name)
  }

  /** The names of a city and of its state; None where `get` finds no row and Python raises. */
  function CityAndState(t: Tables, cityId: Id): (r: Option<(string, string)>)
    ensures r.Some? <==> CityById(t.cities, cityId).Some? && StateById(t.states, CityById(t.cities, cityId).value.stateId).Some?
    ensures r.Some? ==> r.value.0 == CityById(t.cities, cityId).value.name
    ensures r.Some? ==> r.value.1 == StateById(t.states, CityById(t.cities, cityId).value.stateId).value.name
  {
    match CityById(t.cities, cityId)
    case None => None
    case Some(c) =>
      match StateById(t.states, c.stateId)
      case None => None
      case Some(st) => Some((c.name, st.name))
  }

  datatype VenueDetails = VenueDetails(
    id: Id, name: string, genres: seq<string>, address: string,
    city: string, state: string,
    phone: string, website: string, facebookLink: string,
    seekingTalent: bool, seekingDescription: string, imageLink: string,
    shows: ShowListing)

  datatype ArtistDetails = ArtistDetails(
    id: Id, name: string, genres: seq<string>,
    city: string, state: string,
    phone: string, website: string, facebookLink: string,
    seekingVenue: bool, seekingDescription: string, imageLink: string,
    availableFrom: Option<int>, availableTill: Option<int>,
    shows: ShowListing)

  /** `Venue.serialize_details`: the venue, its city and state names, and its shows split at `now`. */
  function VenueDetail(t: Tables, v: Venue, now: Timestamp): (r: Option<VenueDetails>)
    ensures r.Some? <==> CityAndState(t, v.cityId).Some? && ListShows(t, OfVenue(v.id), now).Some?
    ensures r.Some? ==> r.value.id == v.id && r.value.name == v.name
    ensures r.Some? ==> r.value.city == CityById(t.cities, v.cityId).value.name
    ensures r.Some? ==> r.value.state == StateById(t.states, CityById(t.cities, v.cityId).value.stateId).value.name
    ensures r.Some? ==> Some(r.value.shows) == ListShows(t, OfVenue(v.id), now)
    ensures r.Some? ==>
      && r.value.genres == v.genres && r.value.address == v.address && r.value.phone == v.phone
      && r.value.website == v.website && r.value.facebookLink == v.facebookLink
      && r.value.seekingTalent == v.seekingTalent && r.value.seekingDescription == v.seekingDescription
      && r.value.imageLink == v.imageLink
    ensures r.Some? ==> r.value.shows.pastShowsCount == |r.value.shows.pastShows|
    ensures r.Some? ==> r.value.shows.upcomingShowsCount == |r.value.shows.upcomingShows|
    ensures r.Some? ==> r.value.shows.pastShowsCount + r.value.shows.upcomingShowsCount
                        == |Select(t.shows, ShowQuery(OfVenue(v.id), AnyTime))|
  {
    match (CityAndState(t, v.cityId), ListShows(t, OfVenue(v.id), now))
    case (Some(names), Some(listing)) =>
      Some(VenueDetails(v.id, v.name, v.genres, v.address, names.0, names.1,
                        v.phone, v.website, v.facebookLink,
                        v.seekingTalent, v.seekingDescription, v.imageLink, listing))
    case _ => None
  }

  /** `Artist.serialize_details`: the same split over the shows the artist plays. */
  function ArtistDetail(t: Tables, a: Artist, now: Timestamp): (r: Option<ArtistDetails>)
    ensures r.Some? <==> CityAndState(t, a.cityId).Some? && ListShows(t, OfArtist(a.id), now).Some?
    ensures r.Some? ==> r.value.id == a.id && r.value.name == a.name
    ensures r.Some? ==> r.value.city == CityById(t.cities, a.cityId).value.name
    ensures r.Some? ==> r.value.state == StateById(t.states, CityById(t.cities, a.cityId).value.stateId).value.name
    ensures r.Some? ==> Some(r.value.shows) == ListShows(t, OfArtist(a.id), now)
    ensures r.Some? ==>
      && r.value.genres == a.genres && r.value.phone == a.phone
      && r.value.website == a.website && r.value.facebookLink == a.facebookLink
      && r.value.seekingVenue == a.seekingVenue && r.value.seekingDescription == a.seekingDescription
      && r.value.imageLink == a.imageLink
    ensures r.Some? ==> r.value.availableFrom == a.availableFrom && r.value.availableTill == a.availableTill
    ensures r.Some? ==> r.value.shows.pastShowsCount == |r.value.shows.pastShows|
    ensures r.Some? ==> r.value.shows.upcomingShowsCount == |r.value.shows.upcomingShows|
    ensures r.Some? ==> r.value.shows.pastShowsCount + r.value.shows.upcomingShowsCount
                        == |Select(t.shows, ShowQuery(OfArtist(a.id), AnyTime))|
  {
    match (CityAndState(t, a.cityId), ListShows(t, OfArtist(a.id), now))
    case (Some(names), Some(listing)) =>
      Some(ArtistDetails(a.id, a.name, a.genres, names.0, names.1,
                         a.phone, a.website, a.facebookLink,
                         a.seekingVenue, a.seekingDescription, a.imageLink,
                         a.availableFrom, a.availableTill, listing))
    case _ => None
  }

  // `City.get_venues` and the listing pages

  /** `Venue.query.filter_by(city_id=...).all()`. */
  function VenuesInCity(venues: seq<Venue>, cityId: Id): (r: seq<Venue>)
    ensures forall v :: v in r <==> v in venues && v.cityId == cityId
    ensures multiset(r) <= multiset(venues)
  {
    if |venues| == 0 then []
    else
      assert venues == [venues[0]] + venues[1..];
      if venues[0].cityId == cityId then [venues[0]] + VenuesInCity(venues[1..], cityId)
      else VenuesInCity(venues[1..], cityId)
  }

  /** One group of the venues page. */
  datatype Area = Area(city: string, state: string, venues: seq<VenueSummary>)

  /** `City.get_venues`: the city's name, its state's name and a summary of each of its venues. */
  function GetVenues(t: Tables, c: City, now: Timestamp): (r: Option<Area>)
    ensures r.Some? <==> StateById(t.states, c.stateId).Some?
    ensures r.Some? ==> r.value.city == c.name && r.value.state == StateById(t.states, c.stateId).value.name
    ensures r.Some? ==> |r.value.venues| == |VenuesInCity(t.venues, c.id)|
    ensures r.Some? ==> forall i :: 0 <= i < |r.value.venues| ==>
      r.value.venues[i] == SerializeVenue(t.shows, VenuesInCity(t.venues, c.id)[i], now)
  {
    match StateById(t.states, c.stateId)
    case None => None
    case Some(st) =>
      var here := VenuesInCity(t.venues, c.id);
      assert forall i :: 0 <= i < |here| ==> here[i] in here;
      Some(Area(c.name, st.name, seq(|here|, i requires 0 <= i < |here| => SerializeVenue(t.shows, here[i], now))))
  }

  /** The venues page: `[city.get_venues() for city in City.query.all()]`, one group per city, empty ones included. */
  function VenuesPage(t: Tables, cities: seq<City>, now: Timestamp): (r: Option<seq<Area>>)
    ensures r.Some? <==> forall c :: c in cities ==> StateById(t.states, c.stateId).Some?
    ensures r.Some? ==> |r.value| == |cities|
    ensures r.Some? ==> forall i :: 0 <= i < |cities| ==> Some(r.value[i]) == GetVenues(t, cities[i], now)
  {
    if |cities| == 0 then Some([])
    else
      match (GetVenues(t, cities[0], now), VenuesPage(t, cities[1..], now))
      case (Some(first), Some(others)) => Some([first] + others)
      case _ =>
        assert cities[0] in cities;
        None
  }

  /** The artists page: a summary of every artist, in table order. */
  function ArtistsPage(artists: seq<Artist>): (r: seq<ArtistSummary>)
    ensures |r| == |artists|
    ensures forall i :: 0 <= i < |artists| ==> r[i] == SerializeArtist(artists[i])
  {
    seq(|artists|, i requires 0 <= i < |artists| => SerializeArtist(artists[i]))
  }

  /**
   * The artists page names every stored artist and only those; with unique
   * keys, no artist is listed twice.
   */
  lemma ArtistsPageListsEachArtistOnce(artists: seq<Artist>)
    ensures (set s | s in ArtistsPage(artists) :: s.id) == ArtistIds(artists)
    ensures UniqueArtistIds(artists) ==>
      forall i, j :: 0 <= i < j < |ArtistsPage(artists)| ==> ArtistsPage(artists)[i].id != ArtistsPage(artists)[j].id
  {
    var page := ArtistsPage(artists);
    forall id | id in ArtistIds(artists) ensures id in (set s | s in page :: s.id) {
      var a :| a in artists && a.id == id;
      var k :| 0 <= k < |artists| && artists[k] == a;
      assert page[k] in page;
    }
  }

  /** The shows page: the detail view of every show, in table order. */
  function ShowsPage(t: Tables, shows: seq<Show>): (r: Option<seq<ShowDetail>>)
    ensures r.Some? <==> forall sh :: sh in shows ==> SerializeShowDetail(t, sh).Some?
    ensures r.Some? ==> |r.value| == |shows|
    ensures r.Some? ==> forall i :: 0 <= i < |shows| ==> Some(r.value[i]) == SerializeShowDetail(t, shows[i])
  {
    if |shows| == 0 then Some([])
    else
      match (SerializeShowDetail(t, shows[0]), ShowsPage(t, shows[1..]))
      case (Some(first), Some(others)) => Some([first] + others)
      case _ =>
        assert shows[0] in shows;
        None
  }

  // In a consistent database none of the views fails.

  lemma CityAndStateDefined(t: Tables, cityId: Id)
    requires Consistent(t)
    requires CityById(t.cities, cityId).Some?
    ensures CityAndState(t, cityId).Some?
  {
    StateByIdFound(t.states, CityById(t.cities, cityId).value.stateId);
  }

  lemma ListShowsDefined(t: Tables, owner: Owner, now: Timestamp)
    requires Consistent(t)
    ensures ListShows(t, owner, now).Some?
  {
    forall sh | sh in t.shows && BelongsTo(sh, owner) ensures ArtistById(t.artists, sh.artistId).Some? {
      ArtistByIdFound(t.artists, sh.artistId);
    }
  }

  lemma VenueDetailDefined(t: Tables, v: Venue, now: Timestamp)
    requires Consistent(t) && v in t.venues
    ensures VenueDetail(t, v, now).Some?
  {
    CityByIdFound(t.cities, v.cityId);
    CityAndStateDefined(t, v.cityId);
    ListShowsDefined(t, OfVenue(v.id), now);
  }

  lemma ArtistDetailDefined(t: Tables, a: Artist, now: Timestamp)
    requires Consistent(t) && a in t.artists
    ensures ArtistDetail(t, a, now).Some?
  {
    CityByIdFound(t.cities, a.cityId);
    CityAndStateDefined(t, a.cityId);
    ListShowsDefined(t, OfArtist(a.id), now);
  }

  lemma VenuesPageDefined(t: Tables, now: Timestamp)
    requires Consistent(t)
    ensures VenuesPage(t, t.cities, now).Some?
  {
    forall c | c in t.cities ensures StateById(t.states, c.stateId).Some? {
      StateByIdFound(t.states, c.stateId);
    }
  }

  lemma ShowsPageDefined(t: Tables)
    requires Consistent(t)
    ensures ShowsPage(t, t.shows).Some?
  {
    forall sh | sh in t.shows ensures SerializeShowDetail(t, sh).Some? {
      VenueByIdFound(t.venues, sh.venueId);
      ArtistByIdFound(t.artists, sh.artistId);
    }
  }
}
