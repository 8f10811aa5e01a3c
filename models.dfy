/** The schema of models.py: the Venue, Artist and Show records, which columns may be
    NULL (an `Option`), the `varchar` length bounds, the foreign keys from a show to its
    artist and venue, and what `ON DELETE CASCADE` does to the shows of a deleted row. */
module Models {
  import opened Common

  /** `timestamp` values have microsecond resolution. */
  const TicksPerDay: int := 86_400_000_000

  type TimeOfDay = t: int | 0 <= t < TicksPerDay

  /** A point in time: a day number and the microseconds since that day's midnight. */
  datatype Timestamp = Timestamp(day: int, time: TimeOfDay)

  /** `a > b` on timestamps. */
  predicate Later(a: Timestamp, b: Timestamp)
  {
    a.day > b.day || (a.day == b.day && a.time > b.time)
  }

  /** A `date` compared with a `timestamp` stands for the midnight that starts the day. */
  function Midnight(day: int): Timestamp
  {
    Timestamp(day, 0)
  }

  /** The bounds of `db.String(120)` and `db.String(500)`. */
  const ShortText: nat := 120
  const LongText: nat := 500

  /** A row of `venues`. The required columns are plain values, the nullable ones options. */
  datatype Venue = Venue(
    id: int,
    name: string,
    city: string,
    state: string,
    address: string,
    phone: string,
    genres: seq<string>,
    imageLink: Option<string>,
    websiteLink: Option<string>,
    facebookLink: Option<string>,
    seekingTalent: bool,
    seekingDescription: Option<string>)

  /** A row of `artists`: a venue's shape without the address, seeking a venue. */
  datatype Artist = Artist(
    id: int,
    name: string,
    city: string,
    state: string,
    phone: string,
    genres: seq<string>,
    imageLink: Option<string>,
    websiteLink: Option<string>,
    facebookLink: Option<string>,
    seekingVenue: bool,
    seekingDescription: Option<string>)

  /** A row of `shows`: an artist playing a venue at a start time. */
  datatype Show = Show(id: int, artistId: int, venueId: int, startTime: Timestamp)

  predicate OptionalFits(s: Option<string>, bound: nat)
  {
    s.None? || |s.value| <= bound
  }

  /** The `varchar` bounds of a venue row; `name` and the genre strings are unbounded. */
  predicate VenueFits(v: Venue)
  {
    && |v.city| <= ShortText && |v.state| <= ShortText
    && |v.address| <= ShortText && |v.phone| <= ShortText
    && OptionalFits(v.imageLink, LongText)
    && OptionalFits(v.websiteLink, ShortText) && OptionalFits(v.facebookLink, ShortText)
    && OptionalFits(v.seekingDescription, LongText)
  }

  /** The `varchar` bounds of an artist row. */
  predicate ArtistFits(a: Artist)
  {
    && |a.city| <= ShortText && |a.state| <= ShortText && |a.phone| <= ShortText
    && OptionalFits(a.imageLink, LongText)
    && OptionalFits(a.websiteLink, ShortText) && OptionalFits(a.facebookLink, ShortText)
    && OptionalFits(a.seekingDescription, LongText)
  }

  /** The three tables, each in primary-key order, with the next value of each table's
      key sequence. */
  datatype Tables = Tables(
    venues: seq<Venue>,
    artists: seq<Artist>,
    shows: seq<Show>,
    nextVenueId: int,
    nextArtistId: int,
    nextShowId: int)

  const EmptyTables: Tables := Tables([], [], [], 1, 1, 1)

  function VenueIds(venues: seq<Venue>): set<int>
  {
    set v | v in venues :: v.id
  }

  function ArtistIds(artists: seq<Artist>): set<int>
  {
    set a | a in artists :: a.id
  }

  function ShowIds(shows: seq<Show>): set<int>
  {
    set s | s in shows :: s.id
  }

  /** The foreign keys: every show names an existing artist and an existing venue. */
  predicate ReferencesHold(t: Tables)
  {
    forall s :: s in t.shows ==> s.artistId in ArtistIds(t.artists) && s.venueId in VenueIds(t.venues)
  }

  /** What the database enforces when a transaction commits: the length bounds of every
      row and the foreign keys. */
  predicate SatisfiesSchema(t: Tables)
  {
    && (forall v :: v in t.venues ==> VenueFits(v))
    && (forall a :: a in t.artists ==> ArtistFits(a))
    && ReferencesHold(t)
  }

  function VenueKey(v: Venue): int { v.id }
  function ArtistKey(a: Artist): int { a.id }
  function ShowKey(s: Show): int { s.id }

  predicate VenueKeysOrdered(venues: seq<Venue>, next: int)
  {
    1 <= next && IncreasingBy(venues, VenueKey) && forall v :: v in venues ==> 1 <= v.id < next
  }

  predicate ArtistKeysOrdered(artists: seq<Artist>, next: int)
  {
    1 <= next && IncreasingBy(artists, ArtistKey) && forall a :: a in artists ==> 1 <= a.id < next
  }

  predicate ShowKeysOrdered(shows: seq<Show>, next: int)
  {
    1 <= next && IncreasingBy(shows, ShowKey) && forall s :: s in shows ==> 1 <= s.id < next
  }

  /** Primary keys are drawn from increasing sequences starting at 1, so every table is in
      key order, holds each key once, and every key is below the next one to be drawn. */
  predicate KeysOrdered(t: Tables)
  {
    && VenueKeysOrdered(t.venues, t.nextVenueId)
    && ArtistKeysOrdered(t.artists, t.nextArtistId)
    && ShowKeysOrdered(t.shows, t.nextShowId)
  }

  /** The state of a committed database. */
  predicate Consistent(t: Tables)
  {
    KeysOrdered(t) && SatisfiesSchema(t)
  }

  /** The venue with key `id`, as `Venue.query.get(id)` finds it. */
  function VenueById(venues: seq<Venue>, id: int): (v: Venue)
    requires id in VenueIds(venues)
    ensures v in venues && v.id == id
  {
    if venues[0].id == id then venues[0]
    else
      assert forall w :: w in venues && w != venues[0] ==> w in venues[1..];
      VenueById(venues[1..], id)
  }

  /** The artist with key `id`. */
  function ArtistById(artists: seq<Artist>, id: int): (a: Artist)
    requires id in ArtistIds(artists)
    ensures a in artists && a.id == id
  {
    if artists[0].id == id then artists[0]
    else
      assert forall w :: w in artists && w != artists[0] ==> w in artists[1..];
      ArtistById(artists[1..], id)
  }

  /** The position of the venue with key `id`. */
  function VenueIndex(venues: seq<Venue>, id: int): (k: nat)
    requires id in VenueIds(venues)
    ensures k < |venues| && venues[k].id == id
  {
    if venues[0].id == id then 0
    else
      assert forall w :: w in venues && w != venues[0] ==> w in venues[1..];
      1 + VenueIndex(venues[1..], id)
  }

  /** The position of the artist with key `id`. */
  function ArtistIndex(artists: seq<Artist>, id: int): (k: nat)
    requires id in ArtistIds(artists)
    ensures k < |artists| && artists[k].id == id
  {
    if artists[0].id == id then 0
    else
      assert forall w :: w in artists && w != artists[0] ==> w in artists[1..];
      1 + ArtistIndex(artists[1..], id)
  }

  /** `DELETE FROM venues WHERE id = venueId`: the venue goes, and `ON DELETE CASCADE`
      on `shows.venue_id` takes exactly the shows at that venue with it. */
  function DeleteVenueCascade(t: Tables, venueId: int): (r: Tables)
    ensures VenueIds(r.venues) == VenueIds(t.venues) - {venueId}
    ensures forall v :: v in r.venues <==> v in t.venues && v.id != venueId
    ensures forall s :: s in r.shows <==> s in t.shows && s.venueId != venueId
    ensures r.artists == t.artists
    ensures r.nextVenueId == t.nextVenueId && r.nextArtistId == t.nextArtistId && r.nextShowId == t.nextShowId
  {
    t.(venues := Filter(t.venues, (v: Venue) => v.id != venueId),
       shows := Filter(t.shows, (s: Show) => s.venueId != venueId))
  }

  /** `DELETE FROM artists WHERE id = artistId`, cascading to exactly that artist's shows. */
  function DeleteArtistCascade(t: Tables, artistId: int): (r: Tables)
    ensures ArtistIds(r.artists) == ArtistIds(t.artists) - {artistId}
    ensures forall a :: a in r.artists <==> a in t.artists && a.id != artistId
    ensures forall s :: s in r.shows <==> s in t.shows && s.artistId != artistId
    ensures r.venues == t.venues
    ensures r.nextVenueId == t.nextVenueId && r.nextArtistId == t.nextArtistId && r.nextShowId == t.nextShowId
  {
    t.(artists := Filter(t.artists, (a: Artist) => a.id != artistId),
       shows := Filter(t.shows, (s: Show) => s.artistId != artistId))
  }

  /** Deleting a venue keeps a committed database consistent: the keys stay in order and
      no remaining show is left pointing at the deleted venue. */
  lemma DeleteVenueCascadeConsistent(t: Tables, venueId: int)
    requires Consistent(t)
    ensures Consistent(DeleteVenueCascade(t, venueId))
  {
    FilterKeepsIncreasing(t.venues, (v: Venue) => v.id != venueId, VenueKey);
    FilterKeepsIncreasing(t.shows, (s: Show) => s.venueId != venueId, ShowKey);
  }

  /** Deleting an artist keeps a committed database consistent. */
  lemma DeleteArtistCascadeConsistent(t: Tables, artistId: int)
    requires Consistent(t)
    ensures Consistent(DeleteArtistCascade(t, artistId))
  {
    FilterKeepsIncreasing(t.artists, (a: Artist) => a.id != artistId, ArtistKey);
    FilterKeepsIncreasing(t.shows, (s: Show) => s.artistId != artistId, ShowKey);
  }

  /** After a venue is deleted, looking up any of its shows by key finds nothing. */
  lemma DeletedVenueShowsNotFound(t: Tables, venueId: int, s: Show)
    requires Consistent(t)
    requires s in t.shows && s.venueId == venueId
    ensures s.id !in ShowIds(DeleteVenueCascade(t, venueId).shows)
  {
    var r := DeleteVenueCascade(t, venueId);
    if s.id in ShowIds(r.shows) {
      var s' :| s' in r.shows && s'.id == s.id;
      IncreasingKeysAreUnique(t.shows, ShowKey, s, s');
      assert false;
    }
  }

  /** After an artist is deleted, looking up any of its shows by key finds nothing. */
  lemma DeletedArtistShowsNotFound(t: Tables, artistId: int, s: Show)
    requires Consistent(t)
    requires s in t.shows && s.artistId == artistId
    ensures s.id !in ShowIds(DeleteArtistCascade(t, artistId).shows)
  {
    var r := DeleteArtistCascade(t, artistId);
    if s.id in ShowIds(r.shows) {
      var s' :| s' in r.shows && s'.id == s.id;
      IncreasingKeysAreUnique(t.shows, ShowKey, s, s');
      assert false;
    }
  }

  /** Inserting a venue under the next key into a consistent database satisfies the schema
      exactly when the new row fits its column bounds. */
  lemma InsertVenueSchema(t: Tables, v: Venue)
    requires Consistent(t)
    ensures SatisfiesSchema(t.(venues := t.venues + [v], nextVenueId := t.nextVenueId + 1)) <==> VenueFits(v)
  {
    var r := t.(venues := t.venues + [v], nextVenueId := t.nextVenueId + 1);
    assert v in r.venues;
    assert VenueIds(t.venues) <= VenueIds(r.venues);
  }

  /** Inserting an artist under the next key into a consistent database satisfies the
      schema exactly when the new row fits its column bounds. */
  lemma InsertArtistSchema(t: Tables, a: Artist)
    requires Consistent(t)
    ensures SatisfiesSchema(t.(artists := t.artists + [a], nextArtistId := t.nextArtistId + 1)) <==> ArtistFits(a)
  {
    var r := t.(artists := t.artists + [a], nextArtistId := t.nextArtistId + 1);
    assert a in r.artists;
    assert ArtistIds(t.artists) <= ArtistIds(r.artists);
  }

  /** Inserting a show into a consistent database satisfies the schema exactly when both
      of its foreign keys name existing rows. */
  lemma InsertShowSchema(t: Tables, s: Show)
    requires Consistent(t)
    ensures SatisfiesSchema(t.(shows := t.shows + [s], nextShowId := t.nextShowId + 1))
        <==> s.artistId in ArtistIds(t.artists) && s.venueId in VenueIds(t.venues)
  {
    var r := t.(shows := t.shows + [s], nextShowId := t.nextShowId + 1);
    assert s in r.shows;
  }

  /** Replacing a venue row by one with the same key keeps the set of venue keys. */
  lemma ReplaceVenueKeepsIds(venues: seq<Venue>, k: int, v: Venue)
    requires 0 <= k < |venues| && v.id == venues[k].id
    ensures VenueIds(venues[k := v]) == VenueIds(venues)
  {
    var r := venues[k := v];
    forall id | id in VenueIds(venues)
      ensures id in VenueIds(r)
    {
      var w :| w in venues && w.id == id;
      var i :| 0 <= i < |venues| && venues[i] == w;
      assert r[i].id == id;
    }
    forall id | id in VenueIds(r)
      ensures id in VenueIds(venues)
    {
      var w :| w in r && w.id == id;
      var i :| 0 <= i < |r| && r[i] == w;
      assert venues[i].id == id;
    }
  }

  /** Replacing an artist row by one with the same key keeps the set of artist keys. */
  lemma ReplaceArtistKeepsIds(artists: seq<Artist>, k: int, a: Artist)
    requires 0 <= k < |artists| && a.id == artists[k].id
    ensures ArtistIds(artists[k := a]) == ArtistIds(artists)
  {
    var r := artists[k := a];
    forall id | id in ArtistIds(artists)
      ensures id in ArtistIds(r)
    {
      var w :| w in artists && w.id == id;
      var i :| 0 <= i < |artists| && artists[i] == w;
      assert r[i].id == id;
    }
    forall id | id in ArtistIds(r)
      ensures id in ArtistIds(artists)
    {
      var w :| w in r && w.id == id;
      var i :| 0 <= i < |r| && r[i] == w;
      assert artists[i].id == id;
    }
  }

  /** Updating a venue of a consistent database in place satisfies the schema exactly when
      the updated row fits its column bounds. */
  lemma UpdateVenueSchema(t: Tables, k: int, v: Venue)
    requires Consistent(t) && 0 <= k < |t.venues| && v.id == t.venues[k].id
    ensures SatisfiesSchema(t.(venues := t.venues[k := v])) <==> VenueFits(v)
  {
    ReplaceVenueKeepsIds(t.venues, k, v);
    var r := t.venues[k := v];
    assert r[k] == v;
    forall w | w in r
      ensures w == v || w in t.venues
    {
      var i :| 0 <= i < |r| && r[i] == w;
      if i != k {
        assert t.venues[i] == w;
      }
    }
  }

  /** Updating an artist of a consistent database in place satisfies the schema exactly
      when the updated row fits its column bounds. */
  lemma UpdateArtistSchema(t: Tables, k: int, a: Artist)
    requires Consistent(t) && 0 <= k < |t.artists| && a.id == t.artists[k].id
    ensures SatisfiesSchema(t.(artists := t.artists[k := a])) <==> ArtistFits(a)
  {
    ReplaceArtistKeepsIds(t.artists, k, a);
    var r := t.artists[k := a];
    assert r[k] == a;
    forall w | w in r
      ensures w == a || w in t.artists
    {
      var i :| 0 <= i < |r| && r[i] == w;
      if i != k {
        assert t.artists[i] == w;
      }
    }
  }

  /** A venue inserted under the next key is the one found by that key afterwards. */
  lemma InsertedVenueFound(t: Tables, v: Venue)
    requires KeysOrdered(t) && v.id == t.nextVenueId
    ensures v.id in VenueIds(t.venues + [v])
    ensures VenueById(t.venues + [v], v.id) == v
  {
    var r := t.venues + [v];
    assert v in r;
  }

  /** An artist inserted under the next key is the one found by that key afterwards. */
  lemma InsertedArtistFound(t: Tables, a: Artist)
    requires KeysOrdered(t) && a.id == t.nextArtistId
    ensures a.id in ArtistIds(t.artists + [a])
    ensures ArtistById(t.artists + [a], a.id) == a
  {
    var r := t.artists + [a];
    assert a in r;
  }

  /** No show of a consistent database names a venue key not yet drawn. */
  lemma NoShowsAtUndrawnVenue(t: Tables, venueId: int, s: Show)
    requires Consistent(t) && venueId >= t.nextVenueId && s in t.shows
    ensures s.venueId != venueId
  {
    var v :| v in t.venues && v.id == s.venueId;
  }
}
