/**
 * The request handlers of app.py that write to the database:
 * `validate_city`, `delete_venue` and the gate of `create_show_submission`.
 * The database is an object whose tables are sequences the handlers reassign;
 * a commit that the schema rejects leaves them as they were.
 */
module Store {
  import opened Wrappers
  import opened Seqs
  import opened Records
  import opened Booking

  /** The `String(120)` limit of the `name` columns of State and City. */
  const NameLimit: nat := 120

  /** What the database raises on a commit it rejects. */
  datatype StoreError = ValueTooLong   // a name longer than its column allows

  /**
   * What a `varchar(NameLimit)` column stores for a name: the name when it
   * fits, the name cut to the limit when everything past the limit is
   * spaces, and None (the insert is refused) otherwise.
   */
  function StoredName(name: string): (r: Option<string>)
    ensures r.Some? <==> forall i :: NameLimit <= i < |name| ==> name[i] == ' '
    ensures r.Some? ==> r.value <= name && |r.value| <= NameLimit
    ensures r.Some? ==> forall i :: |r.value| <= i < |name| ==> name[i] == ' '
    ensures r.Some? ==> (r.value == name <==> |name| <= NameLimit)
    ensures r.Some? && |name| > NameLimit ==> r.value == name[..NameLimit]
  {
    if |name| <= NameLimit then Some(name)
    else if forall i :: NameLimit <= i < |name| ==> name[i] == ' ' then Some(name[..NameLimit])
    else None
  }

  /** Storing a stored name again keeps it as it is. */
  lemma StoredNameIdempotent(name: string)
    requires StoredName(name).Some?
    ensures StoredName(StoredName(name).value) == StoredName(name)
  {
  }

  /** How `create_show_submission` ends. */
  datatype ShowOutcome =
    | Listed(show: Show)            // inserted and committed
    | NotAvailable                  // `valid_time` said no: nothing is written
    | Crashed(error: BookingError)  // `valid_time` raised, outside the try block: nothing is written
    | RolledBack                    // the commit failed and was rolled back

  /** Every venue except those with the given id, in table order. */
  function WithoutVenue(venues: seq<Venue>, id: Id): (r: seq<Venue>)
    ensures forall v :: v in r <==> v in venues && v.id != id
    ensures multiset(r) <= multiset(venues)
  {
    if |venues| == 0 then []
    else
      assert venues == [venues[0]] + venues[1..];
      if venues[0].id == id then WithoutVenue(venues[1..], id)
      else [venues[0]] + WithoutVenue(venues[1..], id)
  }

  /** Deleting leaves the other venues in their order. */
  lemma {:induction false} WithoutVenueKeepsOrder(venues: seq<Venue>, id: Id)
    ensures SubsequenceOf(WithoutVenue(venues, id), venues)
  {
    if |venues| > 0 {
      WithoutVenueKeepsOrder(venues[1..], id);
    }
  }

  /** Removing rows keeps the remaining keys unique. */
  lemma {:induction false} WithoutVenueKeepsKeysUnique(venues: seq<Venue>, id: Id)
    requires UniqueVenueIds(venues)
    ensures UniqueVenueIds(WithoutVenue(venues, id))
  {
    if |venues| > 0 {
      var rest := venues[1..];
      WithoutVenueKeepsKeysUnique(rest, id);
      if venues[0].id != id {
        var r := [venues[0]] + WithoutVenue(rest, id);
        forall i, j | 0 <= i < j < |r| ensures r[i].id != r[j].id {
          if i == 0 {
            assert r[j] in WithoutVenue(rest, id);
            assert r[j] in rest;
            var k :| 0 <= k < |rest| && rest[k] == r[j];
            assert venues[k + 1] == r[j];
          }
        }
      }
    }
  }

  /** A show whose key is above every stored key keeps the keys unique. */
  lemma ShowKeysStayUnique(shows: seq<Show>, sh: Show)
    requires UniqueShowIds(shows)
    requires forall other :: other in shows ==> other.id < sh.id
    ensures UniqueShowIds(shows + [sh])
  {
    var extended := shows + [sh];
    forall i, j | 0 <= i < j < |extended| ensures extended[i].id != extended[j].id {
      assert extended[i] == shows[i];
      if j < |shows| {
        assert extended[j] == shows[j];
      } else {
        assert shows[i] in shows;
      }
    }
  }

  /** A show with a fresh key whose venue and artist exist keeps the database consistent. */
  lemma ShowAppendConsistent(t: Tables, sh: Show)
    requires Consistent(t)
    requires forall other :: other in t.shows ==> other.id < sh.id
    requires sh.venueId in VenueIds(t.venues) && sh.artistId in ArtistIds(t.artists)
    ensures Consistent(t.(shows := t.shows + [sh]))
  {
    var extended := t.(shows := t.shows + [sh]);
    ShowKeysStayUnique(t.shows, sh);
    assert KeysUnique(extended);
    ShowReferencesResolve(t, sh);
  }

  lemma ShowReferencesResolve(t: Tables, sh: Show)
    requires ReferencesResolve(t)
    requires sh.venueId in VenueIds(t.venues) && sh.artistId in ArtistIds(t.artists)
    ensures ReferencesResolve(t.(shows := t.shows + [sh]))
  {
    var extended := t.(shows := t.shows + [sh]);
    assert extended.states == t.states && extended.cities == t.cities;
    assert extended.venues == t.venues && extended.artists == t.artists;
    forall x | x in extended.shows
      ensures x.venueId in VenueIds(t.venues) && x.artistId in ArtistIds(t.artists)
    {
      if x != sh {
        assert x in t.shows;
      }
    }
  }

  /** Every key is below the sequence that numbers its table. */
  ghost predicate KeysBelow(t: Tables, nextStateId: Id, nextCityId: Id, nextShowId: Id) {
    && (forall st :: st in t.states ==> st.id < nextStateId)
    && (forall c :: c in t.cities ==> c.id < nextCityId)
    && (forall sh :: sh in t.shows ==> sh.id < nextShowId)
  }

  /** The tables satisfy the schema and every key is below its sequence. */
  ghost predicate ValidTables(t: Tables, nextStateId: Id, nextCityId: Id, nextShowId: Id) {
    Consistent(t) && KeysBelow(t, nextStateId, nextCityId, nextShowId)
  }

  /** A show numbered by the show sequence stays below the advanced sequence. */
  lemma ShowKeysBelow(t: Tables, nextStateId: Id, nextCityId: Id, nextShowId: Id, sh: Show)
    requires KeysBelow(t, nextStateId, nextCityId, nextShowId) && sh.id == nextShowId
    ensures KeysBelow(t.(shows := t.shows + [sh]), nextStateId, nextCityId, nextShowId + 1)
  {
    var extended := t.(shows := t.shows + [sh]);
    forall x | x in extended.shows ensures x.id < nextShowId + 1 {
      if x != sh {
        assert x in t.shows;
      }
    }
  }

  /** Inserting a show numbered by the show sequence advances the sequence and keeps the tables valid. */
  lemma ShowAppendValid(t: Tables, nextStateId: Id, nextCityId: Id, nextShowId: Id, sh: Show)
    requires ValidTables(t, nextStateId, nextCityId, nextShowId) && sh.id == nextShowId
    requires sh.venueId in VenueIds(t.venues) && sh.artistId in ArtistIds(t.artists)
    ensures ValidTables(t.(shows := t.shows + [sh]), nextStateId, nextCityId, nextShowId + 1)
  {
    ShowAppendConsistent(t, sh);
    ShowKeysBelow(t, nextStateId, nextCityId, nextShowId, sh);
  }

  /** A state whose key is above every stored key keeps the keys unique. */
  lemma StateKeysStayUnique(states: seq<State>, st: State)
    requires UniqueStateIds(states)
    requires forall other :: other in states ==> other.id < st.id
    ensures UniqueStateIds(states + [st])
  {
    var extended := states + [st];
    forall i, j | 0 <= i < j < |extended| ensures extended[i].id != extended[j].id {
      assert extended[i] == states[i];
      if j < |states| {
        assert extended[j] == states[j];
      } else {
        assert states[i] in states;
      }
    }
  }

  /** Every city keeps finding its state once a state is added. */
  lemma StateReferencesResolve(t: Tables, st: State)
    requires ReferencesResolve(t)
    ensures ReferencesResolve(t.(states := t.states + [st]))
  {
    forall c | c in t.cities ensures c.stateId in StateIds(t.states + [st]) {
      var parent :| parent in t.states && parent.id == c.stateId;
      assert parent in t.states + [st];
    }
  }

  /** Inserting a state numbered by the state sequence advances the sequence and keeps the tables valid. */
  lemma StateAppendValid(t: Tables, nextStateId: Id, nextCityId: Id, nextShowId: Id, st: State)
    requires ValidTables(t, nextStateId, nextCityId, nextShowId) && st.id == nextStateId
    ensures ValidTables(t.(states := t.states + [st]), nextStateId + 1, nextCityId, nextShowId)
  {
    var extended := t.(states := t.states + [st]);
    StateKeysStayUnique(t.states, st);
    assert KeysUnique(extended);
    StateReferencesResolve(t, st);
    forall x | x in extended.states ensures x.id < nextStateId + 1 {
      if x != st {
        assert x in t.states;
      }
    }
    assert KeysBelow(extended, nextStateId + 1, nextCityId, nextShowId);
  }

  /** A city whose key is above every stored key keeps the keys unique. */
  lemma CityKeysStayUnique(cities: seq<City>, c: City)
    requires UniqueCityIds(cities)
    requires forall other :: other in cities ==> other.id < c.id
    ensures UniqueCityIds(cities + [c])
  {
    var extended := cities + [c];
    forall i, j | 0 <= i < j < |extended| ensures extended[i].id != extended[j].id {
      assert extended[i] == cities[i];
      if j < |cities| {
        assert extended[j] == cities[j];
      } else {
        assert cities[i] in cities;
      }
    }
  }

  /** A city of an existing state keeps every reference resolvable; venues and artists keep finding their cities. */
  lemma CityReferencesResolve(t: Tables, c: City)
    requires ReferencesResolve(t)
    requires c.stateId in StateIds(t.states)
    ensures ReferencesResolve(t.(cities := t.cities + [c]))
  {
    forall x | x in t.cities + [c] ensures x.stateId in StateIds(t.states) {
      if x != c {
        assert x in t.cities;
      }
    }
    forall v | v in t.venues ensures v.cityId in CityIds(t.cities + [c]) {
      var home :| home in t.cities && home.id == v.cityId;
      assert home in t.cities + [c];
    }
    forall a | a in t.artists ensures a.cityId in CityIds(t.cities + [c]) {
      var home :| home in t.cities && home.id == a.cityId;
      assert home in t.cities + [c];
    }
  }

  /** Inserting a city numbered by the city sequence, of an existing state, keeps the tables valid. */
  lemma CityAppendValid(t: Tables, nextStateId: Id, nextCityId: Id, nextShowId: Id, c: City)
    requires ValidTables(t, nextStateId, nextCityId, nextShowId) && c.id == nextCityId
    requires c.stateId in StateIds(t.states)
    ensures ValidTables(t.(cities := t.cities + [c]), nextStateId, nextCityId + 1, nextShowId)
  {
    var extended := t.(cities := t.cities + [c]);
    CityKeysStayUnique(t.cities, c);
    assert KeysUnique(extended);
    CityReferencesResolve(t, c);
    forall x | x in extended.cities ensures x.id < nextCityId + 1 {
      if x != c {
        assert x in t.cities;
      }
    }
    assert KeysBelow(extended, nextStateId, nextCityId + 1, nextShowId);
  }

  class Database {
    var states: seq<State>
    var cities: seq<City>
    var venues: seq<Venue>
    var artists: seq<Artist>
    var shows: seq<Show>
    // The SERIAL sequences that number new State, City and Show rows.
    var nextStateId: Id
    var nextCityId: Id
    var nextShowId: Id

    function Snapshot(): Tables
      reads this
    {
      Tables(states, cities, venues, artists, shows)
    }

    /** The committed state satisfies the schema and every key is below its sequence. */
    ghost predicate Valid()
      reads this
    {
      ValidTables(Snapshot(), nextStateId, nextCityId, nextShowId)
    }

    /** A connection to a database in a consistent state. */
    constructor (t: Tables, nextStateId: Id, nextCityId: Id, nextShowId: Id)
      requires Consistent(t)
      requires forall st :: st in t.states ==> st.id < nextStateId
      requires forall c :: c in t.cities ==> c.id < nextCityId
      requires forall sh :: sh in t.shows ==> sh.id < nextShowId
      ensures Valid() && Snapshot() == t
    {
      states, cities, venues, artists, shows := t.states, t.cities, t.venues, t.artists, t.shows;
      this.nextStateId, this.nextCityId, this.nextShowId := nextStateId, nextCityId, nextShowId;
    }

    /**
     * `validate_city`: the first city with this exact name, else a new city
     * under the first state with the given name, that state being created
     * first when there is none. The state and the city are committed
     * separately, so a new state stays even when the city insert then fails.
     * A name is stored as its column keeps it (`StoredName`), so a name cut
     * to the column is not found again under the name it was given.
     */
    method ValidateCity(cityName: string, stateName: string) returns (r: Result<City, StoreError>)
      requires Valid()
      modifies this
      ensures Valid()
      ensures venues == old(venues) && artists == old(artists)
      ensures shows == old(shows) && nextShowId == old(nextShowId)
      // an existing city is returned as it is, whatever state was asked for
      ensures old(CityNamed(cities, cityName)).Some? ==>
        && r == Success(old(CityNamed(cities, cityName)).value)
        && states == old(states) && cities == old(cities)
        && nextStateId == old(nextStateId) && nextCityId == old(nextCityId)
      // otherwise the state is reused, or created when its column can store the name
      ensures old(CityNamed(cities, cityName)).None? ==>
        states == old(states) + (if old(StateNamed(states, stateName)).None? && StoredName(stateName).Some?
                                 then [State(old(nextStateId), StoredName(stateName).value)] else [])
      ensures old(CityNamed(cities, cityName)).None? ==>
        (r.Success? <==> StoredName(cityName).Some? && (old(StateNamed(states, stateName)).Some? || StoredName(stateName).Some?))
      ensures old(CityNamed(cities, cityName)).None? && r.Success? ==>
        && r.value == City(old(nextCityId), StoredName(cityName).value,
                           if old(StateNamed(states, stateName)).Some? then old(StateNamed(states, stateName)).value.id
                           else old(nextStateId))
        && cities == old(cities) + [r.value]
      ensures r.Failure? ==> cities == old(cities)
      // the id counters move exactly when a row is created
      ensures nextCityId == old(nextCityId) + (if old(CityNamed(cities, cityName)).None? && r.Success? then 1 else 0)
      ensures nextStateId == old(nextStateId) +
        (if old(CityNamed(cities, cityName)).None? && old(StateNamed(states, stateName)).None? && StoredName(stateName).Some?
         then 1 else 0)
      // a second call with the same city name returns the same city, unless the name was cut
      ensures r.Success? && |cityName| <= NameLimit ==> CityNamed(cities, cityName) == Some(r.value)
      ensures old(CityNamed(cities, cityName)).None? && r.Success? && |cityName| > NameLimit ==>
        CityNamed(cities, cityName).None?
    {
      var existing := CityNamed(cities, cityName);
      if existing.Some? {
        return Success(existing.value);
      }
      var state := StateNamed(states, stateName);
      if state.None? {
        var stateStored := StoredName(stateName);
        if stateStored.None? {
          return Failure(ValueTooLong);
        }
        var created := State(nextStateId, stateStored.value);
        AddState(created);
        state := Some(created);
      }
      var cityStored := StoredName(cityName);
      if cityStored.None? {
        return Failure(ValueTooLong);
      }
      var city := City(nextCityId, cityStored.value, state.value.id);
      assert state.value in states;
      if |cityName| <= NameLimit {
        FindAfterAppend(cities, city, (c: City) => c.name == cityName);
      }
      AddCity(city);
      r := Success(city);
    }

    /** Insert and commit a state row numbered by the state sequence. */
    method AddState(st: State)
      requires Valid() && st.id == nextStateId
      modifies this
      ensures Valid()
      ensures states == old(states) + [st] && nextStateId == old(nextStateId) + 1
      ensures cities == old(cities) && venues == old(venues) && artists == old(artists) && shows == old(shows)
      ensures nextCityId == old(nextCityId) && nextShowId == old(nextShowId)
    {
      StateAppendValid(Snapshot(), nextStateId, nextCityId, nextShowId, st);
      states := states + [st];
      nextStateId := nextStateId + 1;
    }

    /** Insert and commit a city row, numbered by the city sequence, of an existing state. */
    method AddCity(c: City)
      requires Valid() && c.id == nextCityId
      requires c.stateId in StateIds(states)
      modifies this
      ensures Valid()
      ensures cities == old(cities) + [c] && nextCityId == old(nextCityId) + 1
      ensures states == old(states) && venues == old(venues) && artists == old(artists) && shows == old(shows)
      ensures nextStateId == old(nextStateId) && nextShowId == old(nextShowId)
    {
      CityAppendValid(Snapshot(), nextStateId, nextCityId, nextShowId, c);
      cities := cities + [c];
      nextCityId := nextCityId + 1;
    }

    /** Insert and commit a show row, numbered by the show sequence, of an existing venue and artist. */
    method AddShow(sh: Show)
      requires Valid() && sh.id == nextShowId
      requires sh.venueId in VenueIds(venues) && sh.artistId in ArtistIds(artists)
      modifies this
      ensures Valid()
      ensures shows == old(shows) + [sh] && nextShowId == old(nextShowId) + 1
      ensures states == old(states) && cities == old(cities) && venues == old(venues) && artists == old(artists)
      ensures nextStateId == old(nextStateId) && nextCityId == old(nextCityId)
    {
      ShowAppendValid(Snapshot(), nextStateId, nextCityId, nextShowId, sh);
      shows := shows + [sh];
      nextShowId := nextShowId + 1;
    }

    /**
     * `delete_venue`: delete the rows with this id and commit. The database
     * refuses while a show still references the venue (the foreign key has
     * no cascade); the session is then rolled back and `success` is false.
     */
    method DeleteVenue(venueId: Id) returns (success: bool)
      requires Valid()
      modifies this
      ensures Valid()
      ensures success <==> forall sh :: sh in old(shows) ==> sh.venueId != venueId
      ensures success ==> venues == WithoutVenue(old(venues), venueId)
      ensures success ==> VenueById(venues, venueId).None?
      ensures !success ==> venues == old(venues)
      ensures states == old(states) && cities == old(cities) && artists == old(artists) && shows == old(shows)
      ensures nextStateId == old(nextStateId) && nextCityId == old(nextCityId) && nextShowId == old(nextShowId)
    {
      if exists sh :: sh in shows && sh.venueId == venueId {
        success := false;
      } else {
        var remaining := WithoutVenue(venues, venueId);
        WithoutVenueKeepsKeysUnique(venues, venueId);
        forall sh | sh in shows ensures sh.venueId in VenueIds(remaining) {
          var v :| v in venues && v.id == sh.venueId;
          assert v in remaining;
        }
        venues := remaining;
        success := true;
      }
    }

    /**
     * `create_show_submission`: the show is inserted only when `valid_time`
     * accepts it. `stored` is the timestamp the database reads from the
     * submitted text, None when it cannot read one; the insert also needs the
     * venue to exist (the foreign key).
     */
    method CreateShowSubmission(startText: string, artistId: Id, venueId: Id, stored: Option<Timestamp>)
      returns (outcome: ShowOutcome)
      requires Valid()
      modifies this
      ensures Valid()
      ensures outcome == NotAvailable <==> ValidTime(ArtistById(artists, artistId), startText) == Success(false)
      ensures outcome.Crashed? <==> ValidTime(ArtistById(artists, artistId), startText).Failure?
      ensures outcome.Listed? <==>
        && ValidTime(ArtistById(artists, artistId), startText) == Success(true)
        && stored.Some? && venueId in VenueIds(venues)
      ensures outcome.Listed? ==>
        && outcome.show == Show(old(nextShowId), venueId, artistId, stored.value)
        && shows == old(shows) + [outcome.show]
        && nextShowId == old(nextShowId) + 1
      ensures !outcome.Listed? ==> shows == old(shows) && nextShowId == old(nextShowId)
      ensures states == old(states) && cities == old(cities) && venues == old(venues) && artists == old(artists)
      ensures nextStateId == old(nextStateId) && nextCityId == old(nextCityId)
    {
      match ValidTime(ArtistById(artists, artistId), startText)
      case Failure(e) =>
        outcome := Crashed(e);
      case Success(available) =>
        if !available {
          outcome := NotAvailable;
        } else if stored.None? || venueId !in VenueIds(venues) {
          outcome := RolledBack;
        } else {
          var sh := Show(nextShowId, venueId, artistId, stored.value);
          ArtistByIdFound(artists, artistId);
          AddShow(sh);
          outcome := Listed(sh);
        }
    }
  }
}
