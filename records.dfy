/**
 * The five tables of the directory: State, City, Venue, Artist and Show.
 *
 * app.py names the city column of Venue and Artist `city`, models.py names it
 * `city_id`; both are the foreign key `cityId` here.
 */
module Records {
  import opened Wrappers
  import opened Seqs

  /** Primary keys of every table are database integers. */
  type Id = int

  /** A naive (zone-less) timestamp; only its order matters to the model. */
  type Timestamp = int

  datatype State = State(id: Id, name: string)

  datatype City = City(id: Id, name: string, stateId: Id)

  datatype Venue = Venue(
    id: Id,
    name: string,
    genres: seq<string>,
    cityId: Id,
    address: string,
    phone: string,
    website: string,
    facebookLink: string,
    seekingTalent: bool,
    seekingDescription: string,
    imageLink: string)

  /** `availableFrom` and `availableTill` are nullable integer hours. */
  datatype Artist = Artist(
    id: Id,
    name: string,
    genres: seq<string>,
    cityId: Id,
    phone: string,
    imageLink: string,
    website: string,
    facebookLink: string,
    seekingVenue: bool,
    seekingDescription: string,
    availableFrom: Option<int>,
    availableTill: Option<int>)

  datatype Show = Show(id: Id, venueId: Id, artistId: Id, startTime: Timestamp)

  /** Column defaults of the availability window. */
  const DefaultAvailableFrom: int := 0
  const DefaultAvailableTill: int := 23

  /** An artist row as inserted when the availability columns are not given. */
  function NewArtist(id: Id, name: string, cityId: Id): (a: Artist)
    ensures a.availableFrom == Some(0) && a.availableTill == Some(23)
    ensures a.id == id && a.name == name && a.cityId == cityId
  {
    Artist(id, name, [], cityId, "", "", "", "", false, "",
           Some(DefaultAvailableFrom), Some(DefaultAvailableTill))
  }

  /** A snapshot of the database. */
  datatype Tables = Tables(
    states: seq<State>,
    cities: seq<City>,
    venues: seq<Venue>,
    artists: seq<Artist>,
    shows: seq<Show>)

  // `Model.query.get(id)` for each table

  function StateById(states: seq<State>, id: Id): Option<State> {
    Find(states, (s: State) => s.id == id)
  }

  function CityById(cities: seq<City>, id: Id): Option<City> {
    Find(cities, (c: City) => c.id == id)
  }

  function VenueById(venues: seq<Venue>, id: Id): Option<Venue> {
    Find(venues, (v: Venue) => v.id == id)
  }

  function ArtistById(artists: seq<Artist>, id: Id): Option<Artist> {
    Find(artists, (a: Artist) => a.id == id)
  }

  // `Model.query.filter_by(name=...).first()`

  /** The first state of that name, in table order; None when no state has it. */
  function StateNamed(states: seq<State>, name: string): (r: Option<State>)
    ensures r.None? <==> forall st :: st in states ==> st.name != name
    ensures r.Some? ==> r.value.name == name
    ensures r.Some? ==> exists k :: 0 <= k < |states| && states[k] == r.value && forall j :: 0 <= j < k ==> states[j].name != name
  {
    Find(states, (s: State) => s.name == name)
  }

  /** The first city of that name, in table order; None when no city has it. */
  function CityNamed(cities: seq<City>, name: string): (r: Option<City>)
    ensures r.None? <==> forall c :: c in cities ==> c.name != name
    ensures r.Some? ==> r.value.name == name
    ensures r.Some? ==> exists k :: 0 <= k < |cities| && cities[k] == r.value && forall j :: 0 <= j < k ==> cities[j].name != name
  {
    Find(cities, (c: City) => c.name == name)
  }

  // Primary keys are unique within each table.

  ghost predicate UniqueStateIds(states: seq<State>) {
    forall i, j :: 0 <= i < j < |states| ==> states[i].id != states[j].id
  }

  ghost predicate UniqueCityIds(cities: seq<City>) {
    forall i, j :: 0 <= i < j < |cities| ==> cities[i].id != cities[j].id
  }

  ghost predicate UniqueVenueIds(venues: seq<Venue>) {
    forall i, j :: 0 <= i < j < |venues| ==> venues[i].id != venues[j].id
  }

  ghost predicate UniqueArtistIds(artists: seq<Artist>) {
    forall i, j :: 0 <= i < j < |artists| ==> artists[i].id != artists[j].id
  }

  ghost predicate UniqueShowIds(shows: seq<Show>) {
    forall i, j :: 0 <= i < j < |shows| ==> shows[i].id != shows[j].id
  }

  /** Every primary key is unique within its table. */
  ghost predicate KeysUnique(t: Tables) {
    && UniqueStateIds(t.states)
    && UniqueCityIds(t.cities)
    && UniqueVenueIds(t.venues)
    && UniqueArtistIds(t.artists)
    && UniqueShowIds(t.shows)
  }

  // The keys present in each table: what a foreign key constraint checks against.

  function StateIds(states: seq<State>): set<Id> { set st | st in states :: st.id }

  function CityIds(cities: seq<City>): set<Id> { set c | c in cities :: c.id }

  function VenueIds(venues: seq<Venue>): set<Id> { set v | v in venues :: v.id }

  function ArtistIds(artists: seq<Artist>): set<Id> { set a | a in artists :: a.id }

  /** Every foreign key (City to State, Venue and Artist to City, Show to Venue and to Artist) names an existing row. */
  ghost predicate ReferencesResolve(t: Tables) {
    && (forall c :: c in t.cities ==> c.stateId in StateIds(t.states))
    && (forall v :: v in t.venues ==> v.cityId in CityIds(t.cities))
    && (forall a :: a in t.artists ==> a.cityId in CityIds(t.cities))
    && (forall sh :: sh in t.shows ==> sh.venueId in VenueIds(t.venues))
    && (forall sh :: sh in t.shows ==> sh.artistId in ArtistIds(t.artists))
  }

  // `get(id)` finds a row exactly when the key is present.

  lemma StateByIdFound(states: seq<State>, id: Id)
    ensures StateById(states, id).Some? <==> id in StateIds(states)
  {
    if id in StateIds(states) {
      var st :| st in states && st.id == id;
    }
  }

  lemma CityByIdFound(cities: seq<City>, id: Id)
    ensures CityById(cities, id).Some? <==> id in CityIds(cities)
  {
    if id in CityIds(cities) {
      var c :| c in cities && c.id == id;
    }
  }

  lemma VenueByIdFound(venues: seq<Venue>, id: Id)
    ensures VenueById(venues, id).Some? <==> id in VenueIds(venues)
  {
    if id in VenueIds(venues) {
      var v :| v in venues && v.id == id;
    }
  }

  lemma ArtistByIdFound(artists: seq<Artist>, id: Id)
    ensures ArtistById(artists, id).Some? <==> id in ArtistIds(artists)
  {
    if id in ArtistIds(artists) {
      var a :| a in artists && a.id == id;
    }
  }

  /** What the schema guarantees of every committed state. */
  ghost predicate Consistent(t: Tables) {
    KeysUnique(t) && ReferencesResolve(t)
  }

  /** Under unique keys, `get(id)` returns exactly the row carrying that id. */
  lemma VenueByIdUnique(venues: seq<Venue>, v: Venue)
    requires UniqueVenueIds(venues)
    requires v in venues
    ensures VenueById(venues, v.id) == Some(v)
  {
    var w := VenueById(venues, v.id).value;
    var i :| 0 <= i < |venues| && venues[i] == v;
    var j :| 0 <= j < |venues| && venues[j] == w;
  }

  lemma ArtistByIdUnique(artists: seq<Artist>, a: Artist)
    requires UniqueArtistIds(artists)
    requires a in artists
    ensures ArtistById(artists, a.id) == Some(a)
  {
    var w := ArtistById(artists, a.id).value;
    var i :| 0 <= i < |artists| && artists[i] == a;
    var j :| 0 <= j < |artists| && artists[j] == w;
  }

  /** Both foreign keys of a show are set and valid: it belongs to exactly one venue and one artist. */
  lemma ShowHasOneVenueAndArtist(t: Tables, sh: Show)
    requires Consistent(t) && sh in t.shows
    ensures exists v :: v in t.venues && v.id == sh.venueId
    ensures forall v, w :: v in t.venues && w in t.venues && v.id == sh.venueId && w.id == sh.venueId ==> v == w
    ensures exists a :: a in t.artists && a.id == sh.artistId
    ensures forall a, b :: a in t.artists && b in t.artists && a.id == sh.artistId && b.id == sh.artistId ==> a == b
  {
    var v :| v in t.venues && v.id == sh.venueId;
    var a :| a in t.artists && a.id == sh.artistId;
    forall v1, v2 | v1 in t.venues && v2 in t.venues && v1.id == sh.venueId && v2.id == sh.venueId
      ensures v1 == v2
    {
      VenueByIdUnique(t.venues, v1);
      VenueByIdUnique(t.venues, v2);
    }
    forall a1, a2 | a1 in t.artists && a2 in t.artists && a1.id == sh.artistId && a2.id == sh.artistId
      ensures a1 == a2
    {
      ArtistByIdUnique(t.artists, a1);
      ArtistByIdUnique(t.artists, a2);
    }
  }
}
