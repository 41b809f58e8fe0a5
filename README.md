# fyyur, modelled in Dafny

Fyyur is a Flask/SQLAlchemy site that lists music venues and artists and books
shows between them. This project models its rules over an in-memory store: the
five tables `State`, `City`, `Venue`, `Artist` and `Show` are sequences of
records keyed by integer ids. Database queries become filters over those
sequences, and `datetime.now()` becomes a parameter `now`. The project covers:

- `Show.valid_time`, the booking check that reads the hour out of a
  `"date time"` text and compares it with the artist's availability window
  (module `Booking`);
- the read side of the models: `serialize`, `serialize_details` with its split
  of shows at `now`, `num_upcoming_shows`, `City.get_venues` and the listing
  pages (module `Views`);
- the venue and artist searches, where `ILIKE '%term%'` becomes an ASCII
  case-insensitive substring test (module `Search`);
- the handlers that write: `validate_city`, `delete_venue` and the
  `valid_time` gate of `create_show_submission`. They are methods of a
  `Database` class whose table fields they reassign (module `Store`);
- `is_valid_phone` and the choice tables of forms.py (module `Forms`).

`Records` holds the entities, the `Tables` snapshot and `Consistent`. That
predicate is what the schema guarantees of any committed state: unique
primary keys, and every foreign key naming an existing row. `Seqs` holds
`.first()` and `.get(id)` as "first row satisfying a predicate".

app.py and models.py declare the same entities with slightly different
columns. The model uses one record shape for both:

- `cityId` stands for app.py's `city` and models.py's `city_id`.
- Venue genres are a list of strings, as models.py declares them and as the
  handlers store `request.form.getlist('genres')`.
- `Show.venueId`/`artistId` are required, as in models.py. app.py leaves them
  nullable.

Two handlers do not behave as single transactions:

- `validate_city` commits the new state before inserting the city. A state
  created on the way therefore stays even when the city insert then fails.
  The handler is not one get-or-create transaction. The `name` columns of
  State and City are `varchar(120)` (app.py:42 and 51), and PostgreSQL
  stores a longer name only when everything past the 120th character is
  spaces, cutting it to 120 characters; any other longer name is refused.
  A name that was cut is not found again under the name it was given, so
  each later call with that name creates another row.
- `delete_venue` deletes by id with no cascade. While a show still references
  the venue, the bulk delete is refused by the foreign key as soon as it is
  sent, before the commit is reached; the session is rolled back and `success`
  is false.

Python's own behaviour is modelled where the rules depend on it:

- `valid_time`
  - A start text with no space gives an `IndexError`. An hour that `int()`
    cannot read gives a `ValueError`.
  - A missing artist raises `AttributeError`, but only after the hour has
    been parsed.
  - `a <= h <= b` is evaluated left to right and stops at the first false
    comparison. So a NULL `available_till` raises only when the lower bound
    holds.
  - These exceptions are the `Failure` cases of a `Result`.
- `int()` strips the space and the characters 9 to 13 (tab, line feed,
  vertical tab, form feed, carriage return) from both ends, and accepts an
  optional sign. The separators 28 to 31 are not stripped, so a text that
  starts with one fails.
- Lookups that find no row, where Python would then raise, are `None`.

## Model

| member | source | states |
|---|---|---|
| Records.NewArtist | app.py:196-197 | a new artist's availability window defaults to 0..23 |
| Records.StateByIdFound | app.py:58 | `State.query.get(id)` finds a row iff some state carries that id |
| Records.CityByIdFound | app.py:149 | `City.query.get(id)` finds a row iff some city carries that id |
| Records.VenueByIdFound | app.py:335 | `Venue.query.get(id)` finds a row iff some venue carries that id |
| Records.ArtistByIdFound | app.py:95 | `Artist.query.get(id)` finds a row iff some artist carries that id |
| Records.StateNamed | app.py:268 | `filter_by(name=...).first()` on State: None iff no state has the name, otherwise the first state in table order that has it |
| Records.CityNamed | app.py:266 | `filter_by(name=...).first()` on City: None iff no city has the name, otherwise the first city in table order that has it |
| Records.VenueByIdUnique | app.py:335 | with unique keys, `Venue.query.get(id)` returns exactly the venue carrying that id |
| Records.ArtistByIdUnique | app.py:456 | with unique keys, `Artist.query.get(id)` returns exactly the artist carrying that id |
| Records.ShowHasOneVenueAndArtist | models.py:61-62 | in a consistent store every show references exactly one existing venue and exactly one existing artist |
| Forms.IsValidPhone | forms.py:88-90 | accepted iff the data has at least two characters and they are `+1`; otherwise the ValidationError with its message |
| Forms.PhoneAnySuffixAccepted | forms.py:89 | every text starting with `+1` is accepted, whatever follows |
| Forms.PhoneShortRejected | forms.py:89 | texts shorter than two characters, the empty one included, are rejected |
| Forms.PhoneVerdictStableUnderExtension | forms.py:89 | once two characters are present, appending more never changes the verdict |
| Forms.StatesPart1Distinct | forms.py:6-58 | no state code occurs twice among the first 17 entries |
| Forms.StatesPart2Distinct | forms.py:6-58 | no state code occurs twice among the middle 17 entries |
| Forms.StatesPart3Distinct | forms.py:6-58 | no state code occurs twice among the last 17 entries |
| Forms.StatesTable | forms.py:6-58 | 51 entries, each value equal to its label, each code two capital letters, no code twice |
| Forms.GenresDistinct | forms.py:60-80 | no genre occurs twice |
| Forms.GenresTable | forms.py:60-80 | 19 entries, each value equal to its label, no genre twice |
| Forms.YesNoTable | forms.py:83-86 | exactly the two entries Yes and No, value equal to label |
| Booking.SecondField | app.py:96 | `split(' ')[1]` fails exactly when the text has no space |
| Booking.StartHour | app.py:96 | the integer read from the first two characters of the second field lies between -9 and 99 |
| Booking.StartHourOfWellFormed | app.py:96 | for "DATE HH…" with two digits HH the hour read is the number HH |
| Booking.ParseInt | app.py:96 | for texts without `_`: `int()` succeeds iff the text, stripped of space and characters 9 to 13, is an optional sign followed by at least one digit; unsigned digits read as their decimal value, signed ones as that value with the sign; a negative result needs a minus sign |
| Booking.ParseLiteral | app.py:96 | for texts without `_` and with no surrounding whitespace: defined iff it is an optional sign followed by at least one digit, with the value of the digits and the sign |
| Booking.ParseIntSigned | app.py:96 | a sign followed by digits reads as the digits' value with that sign: `int("-5")` is -5 and `int("+9")` is 9 |
| Booking.StripLeft | app.py:96 | what is left is a suffix of the text that does not start with whitespace, and everything removed in front was whitespace |
| Booking.StripRight | app.py:96 | what is left is a prefix of the text that does not end with whitespace, and everything removed at the end was whitespace |
| Booking.ParseIntSkipsLeadingWhitespace | app.py:96 | a space or a character 9 to 13 in front of the text does not change what `int()` reads |
| Booking.ParseIntRejectsSeparator | app.py:96 | a text that starts with a separator character (28 to 31) is not a number to `int()` |
| Booking.ValidTime | app.py:94-97 | true iff hour, artist and both window ends exist and `from <= hour <= till`; a malformed start time fails exactly when no hour can be read; an unknown artist fails exactly when the hour is readable and no artist was found; a NULL window end fails exactly when `from` is NULL or `from <= hour` holds and `till` is NULL, otherwise the answer is false |
| Booking.InvertedWindowNeverAccepts | app.py:97 | a window with `from > till` accepts no start time: there is no wrap-around midnight |
| Booking.WindowSetAnswers | models.py:68-72 | with both ends set and a readable hour, the answer is the inclusive range test and never an error |
| Booking.DefaultWindowAcceptsEveryHour | models.py:175-176 | an artist with the default window 0..23 accepts every well-formed start time whose hour is 00 to 23 |
| Booking.NineToFiveWindow | app.py:94-97 | a 9..17 window accepts a well-formed "DATE HH…" exactly when 9 <= HH <= 17 |
| Views.Select | app.py:150-153 | a show is listed iff it is in the table and belongs to the venue or artist and lies in the period; no row is listed more often than stored |
| Views.SelectInTableOrder | app.py:150-153 | a query lists its rows in table order |
| Views.CountIsLength | app.py:154-157 | the `.count()` query equals the length of the `.all()` query with the same filter |
| Views.PastUpcomingPartition | app.py:150-153 | the past and the upcoming lists together are, as a multiset, exactly the owner's shows |
| Views.PastUpcomingDisjoint | app.py:150-153 | no show is both past and upcoming |
| Views.SerializeShow | app.py:99-105 | defined iff the show's artist exists; carries the show's artist id and start time and that artist's name and image link |
| Views.SerializeShowDetail | app.py:107-115 | defined iff the show's venue and artist both exist |
| Views.ShowDetailExtendsSummary | models.py:74-93 | the detail view carries every field of the summary view with the same values |
| Views.SerializeShows | app.py:172-177 | defined iff every listed show's artist exists; position by position it is the serialised show |
| Views.SerializedPast | app.py:172-174 | every serialised past show started before `now` |
| Views.SerializedUpcoming | app.py:175-177 | every serialised upcoming show starts at or after `now` |
| Views.ListShows | app.py:150-179 | the past list is the serialisation of the owner's shows before `now`, the upcoming list that of those from `now`; the two counts equal the two list lengths and add up to the number of the owner's shows |
| Views.OwnersShowsAreListed | models.py:129-158 | every show of the venue or artist is serialised into the past or the upcoming list |
| Views.ListedShowsAreOwners | models.py:129-158 | every entry of the past and upcoming lists is the serialisation of one of the venue's or artist's shows |
| Views.NumUpcomingShows | app.py:134-136 | the number of the venue's shows that start at or after `now` |
| Views.SerializeVenue | app.py:141-146 | keeps id and name; `num_upcoming_shows` is the number of the venue's shows starting at or after `now`, so it is positive whenever one exists |
| Views.CityAndState | app.py:164-165 | the names of the row's city and of that city's state, defined iff both rows exist |
| Views.VenueDetail | app.py:148-180 | the venue's own columns (id, name, genres, address, phone, website, facebook link, seeking flag and description, image link) unchanged, its city's and its state's names and the show listing of the venue; defined iff the city, its state and every listed show's artist exist; counts equal lengths and add up to all its shows |
| Views.ArtistDetail | app.py:209-241 | the artist's own columns (id, name, genres, phone, website, facebook link, seeking flag and description, image link, window) unchanged, its city's and its state's names and the show listing of the artist; counts equal lengths and add up to all its shows |
| Views.VenuesInCity | models.py:46 | a venue is listed iff it is in the table and in the city |
| Views.GetVenues | app.py:61-70 | the city's name, its state's name and, position by position, the `serialize` of each venue of that city in table order; defined iff the state exists |
| Views.VenuesPage | app.py:295-302 | one group per city, in order, each the city's `get_venues`; defined iff every city's state exists |
| Views.ArtistsPage | app.py:415-423 | one entry per stored artist, in table order, each that artist's `serialize` |
| Views.SerializeArtist | app.py:203-207 | the summary carries the artist's id and name |
| Views.ArtistsPageListsEachArtistOnce | app.py:415-423 | the ids on the artists page are exactly the stored artist ids, and with unique keys none is listed twice |
| Views.ShowsPage | app.py:584-594 | position by position the `serialize_details` of each show, defined iff every show's venue and artist exist |
| Views.CityAndStateDefined | app.py:52 | in a consistent store an existing city always has its state's name |
| Views.ListShowsDefined | app.py:86-87 | in a consistent store the show split never fails |
| Views.VenueDetailDefined | app.py:332-337 | in a consistent store the venue page of a stored venue never fails |
| Views.ArtistDetailDefined | app.py:453-458 | in a consistent store the artist page of a stored artist never fails |
| Views.VenuesPageDefined | app.py:299-300 | in a consistent store the venues page never fails |
| Views.ShowsPageDefined | app.py:589-592 | in a consistent store the shows page never fails |
| Search.Lower | app.py:315 | ASCII capitals map to their lower-case letter, every other character to itself |
| Search.LowerString | app.py:315 | lower-cases every position and keeps the length |
| Search.ILike | app.py:315 | `value ILIKE '%term%'` holds iff the lower-cased term occurs at some position of the lower-cased value |
| Search.ContainsIff | app.py:315 | the substring test holds iff the pattern occurs at some position of the text |
| Search.ContainsWitness | app.py:315 | when the substring test holds, it yields a position at which the pattern occurs |
| Search.OccursContains | app.py:315 | a pattern occurring at some position makes the substring test hold |
| Search.MatchingVenues | app.py:313-318 | a venue is found iff its city and state exist and the term occurs, ignoring case, in its name, its city's or its state's name; none is found twice |
| Search.MatchingArtists | app.py:434-439 | the same condition for artists |
| Search.MatchingVenuesInTableOrder | app.py:313-318 | the venues found are a subsequence of the venue table |
| Search.MatchingArtistsInTableOrder | app.py:434-439 | the artists found are a subsequence of the artist table |
| Search.SearchVenues | app.py:312-325 | `count` equals the length of `data`, which holds the serialised venues found, one per venue, in order |
| Search.SearchArtists | app.py:433-446 | `data` is the unserialised list of artists found and `count` its length |
| Search.VenueSearchIgnoresCase | app.py:315-317 | two terms equal up to ASCII case find the same venues |
| Search.ArtistSearchIgnoresCase | app.py:436-438 | two terms equal up to ASCII case find the same artists |
| Search.EmptyTermListsAll | app.py:313-318 | the empty term finds every venue whose city and state exist, in table order |
| Store.WithoutVenue | app.py:396-397 | exactly the venues whose id differs are kept |
| Store.WithoutVenueKeepsOrder | app.py:396-397 | the kept venues stay in table order |
| Store.WithoutVenueKeepsKeysUnique | app.py:396-397 | deleting rows keeps the primary keys of the rest unique |
| Store.StoredName | app.py:42 | a `varchar(120)` name is stored iff everything past the 120th character is spaces; what is stored is the whole name when it fits and exactly its first 120 characters otherwise, followed in the name only by spaces |
| Store.StoredNameIdempotent | app.py:51 | storing a stored name again keeps it as it is |
| Store.ShowAppendConsistent | app.py:619-620 | inserting a show with a fresh key whose venue and artist exist keeps the store consistent |
| Store.ShowAppendValid | app.py:619-620 | the same insert, numbered by the show sequence, keeps every key below its advanced sequence |
| Store.ShowReferencesResolve | app.py:86-87 | a new show whose venue id and artist id name existing rows keeps every foreign key resolvable |
| Store.ShowKeysBelow | app.py:619-620 | a show numbered by the sequence keeps every show key below the advanced sequence |
| Store.StateAppendValid | app.py:270-272 | inserting a state numbered by the state sequence keeps the store consistent and every key below its sequence |
| Store.StateReferencesResolve | app.py:52 | every city still finds its state after a state is added |
| Store.CityAppendValid | app.py:273-275 | inserting a city of an existing state, numbered by the city sequence, keeps the store consistent and every key below its sequence |
| Store.CityReferencesResolve | app.py:52 | a city whose state id names an existing state keeps every foreign key resolvable; venues and artists keep finding their cities |
| Store.Database.ValidateCity | app.py:265-276 | a known city name returns that city and changes nothing, whatever state is named; otherwise the state is reused or created, once, then the new city is appended under it, each name stored as its column keeps it; each id counter moves by one exactly when its row is created; a second lookup returns the same city when the name fitted, and finds none when it was cut; a name the column refuses fails |
| Store.Database.AddState | app.py:270-272 | appends the state numbered by the sequence and keeps the store valid |
| Store.Database.AddCity | app.py:273-275 | appends the city numbered by the sequence under an existing state and keeps the store valid |
| Store.Database.AddShow | app.py:619-620 | appends the show numbered by the sequence, whose venue id and artist id name existing rows, and keeps the store valid |
| Store.Database.DeleteVenue | app.py:394-410 | succeeds iff no show references the venue; on success no venue has that id and the others are unchanged; otherwise the store is rolled back unchanged; the store stays valid |
| Store.Database.CreateShowSubmission | app.py:608-633 | nothing is written unless `valid_time` accepts; an error of `valid_time` crashes the handler; an accepted show with a readable time whose venue id names an existing venue (the foreign key) is appended as exactly one new row with the given artist, venue and time |

## Left out

- Flask routing, `render_template`, `flash`, `abort`, `redirect`, `jsonify` and the error handlers are presentation and I/O. The handlers are modelled by what they read and write.
- Sessions and connections: a commit either succeeds or leaves the store as it was. Connection failures and timeouts are not modelled.
- What the database does with the `start_time` text of a new show is the parameter `stored` of `CreateShowSubmission`. `None` stands for a text the database cannot read, and the insert then rolls back.
- Timestamps are integers, and the clock is the parameter `now`.
- `format_datetime`, the logging setup and `app.run` are library formatting and process start-up.
- The create and edit handlers for venues and artists are left out. They copy form strings into columns and rely on the database's type coercion. Only their shared step `validate_city` is modelled.
- A sequence that advances on a failed insert: the model numbers only the rows that are committed.
- A non-numeric `venue_id` in the delete URL, which the database would reject, is not modelled; the id is an integer.
- Store.Database.CreateShowSubmission: `artist_id` and `venue_id` arrive as form strings. A non-numeric one makes the artist lookup in `valid_time` fail in the database; the model types both as integer ids, so that failure is not modelled.
- Views.ListShows: `serialize_details` reads the clock four times, once per query, while the model reads one `now`. In the source a show starting between two reads can be in neither list, and a count can differ from its list's length; the clauses "counts equal lengths" of Views.ListShows, Views.VenueDetail and Views.ArtistDetail, and Views.PastUpcomingPartition at the level of the detail view, hold only for a single reading of the clock.
- Booking.StartHour: `int()` also accepts Unicode digits and whitespace. The model reads ASCII only.
- Booking.ParseInt: `int()` also accepts single underscores between digits (`int("1_0")` is 10); the model rejects them. A two-character hour text cannot hold such an underscore, so `StartHour` and `ValidTime` are unaffected.
- Search.MatchingVenues: `%` and `_` in the search term are treated as ordinary characters, not as ILIKE wildcards, and a backslash is not treated as ILIKE's default escape character (a term containing a backslash can match differently in the database). Case folding is ASCII only.
- Records.Venue: text columns that may be NULL are plain strings, and the empty string stands for NULL.
- Rows are returned in table order. The database promises no order without `ORDER BY`, so the model fixes one.
- The WTForms field declarations and validators are library behaviour. No handler runs the form validation, so `is_valid_phone` is modelled on its own.
- The index page's "last ten added" query is not modelled. It is ordering and a limit, with no rule of its own.
- The migration scripts and `static/js/venues.js` are schema DDL and browser code.
