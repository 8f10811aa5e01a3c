/** The aggregation layer of services.py. Every query reads a snapshot `t` of the tables,
    each table in primary-key order, and `date.today()` is the day number `today`. */
module Services {
  import opened Common
  import opened Text
  import opened Postgres
  import opened Models

  // ----------------------------------------------------------------------------------
  // Genres
  // ----------------------------------------------------------------------------------

  /** `format_genres(genres)`: the text without its first and last character, split at
      every comma. The pieces hold no comma and join back into that text. */
  function FormatGenres(s: string): (r: seq<string>)
    ensures |r| == CountChar(Inner(s), ',') + 1
    ensures forall g :: g in r ==> ',' !in g
    ensures Join(r, ',') == Inner(s)
  {
    JoinSplit(Inner(s), ',');
    Split(Inner(s), ',')
  }

  /** Reading back the text form of a non-empty array whose elements need no quoting gives
      the array. */
  lemma FormatGenresOfArrayText(gs: seq<string>)
    requires |gs| >= 1
    requires forall g :: g in gs ==> !NeedsQuotes(g)
    ensures FormatGenres(ArrayText(gs)) == gs
  {
    assert ElementTexts(gs) == gs;
    var body := Join(gs, ',');
    assert Inner(ArrayText(gs)) == body by {
      assert ArrayText(gs) == "{" + body + "}";
    }
    forall g | g in gs
      ensures ',' !in g
    {
      assert forall i :: 0 <= i < |g| ==> g[i] != ',';
    }
    SplitJoin(gs, ',');
  }

  /** The empty array reads back as one empty genre. */
  lemma FormatGenresOfEmptyArray()
    ensures FormatGenres(ArrayText([])) == [""]
  {
    assert ArrayText([]) == "{}";
    assert Inner("{}") == "";
  }

  /** An element that must be quoted (a space, say) but holds no quote, backslash or comma
      reads back with its double quotes still around it. */
  lemma FormatGenresKeepsQuotes(e: string)
    requires NeedsQuotes(e)
    requires forall i :: 0 <= i < |e| ==> e[i] != '"' && e[i] != '\\' && e[i] != ','
    ensures FormatGenres(ArrayText([e])) == [['"'] + e + ['"']]
  {
    EscapeWithoutQuotes(e);
    var quoted := ['"'] + e + ['"'];
    assert ElementTexts([e]) == [quoted];
    assert ArrayText([e]) == "{" + quoted + "}";
    assert Inner("{" + quoted + "}") == quoted;
    assert forall i :: 0 <= i < |quoted| ==> quoted[i] != ',';
    SplitWithoutSeparator(quoted, ',');
  }

  /** Escaping leaves a text without double quotes and backslashes as it is. */
  lemma {:induction false} EscapeWithoutQuotes(e: string)
    requires forall i :: 0 <= i < |e| ==> e[i] != '"' && e[i] != '\\'
    ensures EscapeElement(e) == e
    decreases |e|
  {
    if e != [] {
      EscapeWithoutQuotes(e[1..]);
      assert [e[0]] + e[1..] == e;
    }
  }

  // ----------------------------------------------------------------------------------
  // The two "upcoming" rules
  // ----------------------------------------------------------------------------------

  /** `Show.start_time > date.today()`, the rule of the mini views: the date stands for its
      midnight, so a show starting at midnight today is not counted. */
  predicate UpcomingByCount(s: Show, today: int)
  {
    Later(s.startTime, Midnight(today))
  }

  /** `start_time.date() >= date.today()`, the rule of the detail pages: every show of
      today is upcoming. */
  predicate UpcomingByDate(s: Show, today: int)
  {
    s.startTime.day >= today
  }

  /** The count rule is the stricter one, and the two differ exactly on a show that starts
      at midnight today. */
  lemma UpcomingRulesDiffer(s: Show, today: int)
    ensures UpcomingByCount(s, today) ==> UpcomingByDate(s, today)
    ensures UpcomingByDate(s, today) && !UpcomingByCount(s, today) <==> s.startTime == Midnight(today)
  {
  }

  function AtVenue(venueId: int): Show -> bool
  {
    (s: Show) => s.venueId == venueId
  }

  function ByArtist(artistId: int): Show -> bool
  {
    (s: Show) => s.artistId == artistId
  }

  function CountedUpcoming(today: int): Show -> bool
  {
    (s: Show) => UpcomingByCount(s, today)
  }

  function SplitUpcoming(today: int): Show -> bool
  {
    (s: Show) => UpcomingByDate(s, today)
  }

  function SplitPast(today: int): Show -> bool
  {
    (s: Show) => !UpcomingByDate(s, today)
  }

  /** `Show.query.filter_by(venue_id=id)`: the venue's shows in key order. */
  function VenueShows(shows: seq<Show>, venueId: int): (r: seq<Show>)
    ensures forall s :: s in r <==> s in shows && s.venueId == venueId
  {
    Filter(shows, AtVenue(venueId))
  }

  /** `Show.query.filter_by(artist_id=id)`: the artist's shows in key order. */
  function ArtistShows(shows: seq<Show>, artistId: int): (r: seq<Show>)
    ensures forall s :: s in r <==> s in shows && s.artistId == artistId
  {
    Filter(shows, ByArtist(artistId))
  }

  // ----------------------------------------------------------------------------------
  // Mini views
  // ----------------------------------------------------------------------------------

  /** The reduced projection used in lists and search results. */
  datatype MiniView = MiniView(id: int, name: string, numUpcomingShows: nat)

  /** `get_mini_venue(id, name)`: the venue's shows, narrowed to those starting after
      today's midnight, counted. */
  function GetMiniVenue(t: Tables, id: int, name: string, today: int): (r: MiniView)
    ensures r.id == id && r.name == name
    ensures r.numUpcomingShows <= |VenueShows(t.shows, id)|
  {
    MiniView(id, name, |Filter(VenueShows(t.shows, id), CountedUpcoming(today))|)
  }

  /** `get_mini_artist(id, name)`. */
  function GetMiniArtist(t: Tables, id: int, name: string, today: int): (r: MiniView)
    ensures r.id == id && r.name == name
    ensures r.numUpcomingShows <= |ArtistShows(t.shows, id)|
  {
    MiniView(id, name, |Filter(ArtistShows(t.shows, id), CountedUpcoming(today))|)
  }

  /** The shows of a venue that start after today's midnight, as a set of rows. */
  function CountedAtVenue(shows: seq<Show>, venueId: int, today: int): set<Show>
  {
    set s | s in shows && s.venueId == venueId && UpcomingByCount(s, today)
  }

  /** The shows of an artist that start after today's midnight, as a set of rows. */
  function CountedByArtist(shows: seq<Show>, artistId: int, today: int): set<Show>
  {
    set s | s in shows && s.artistId == artistId && UpcomingByCount(s, today)
  }

  /** In a table holding each show once, a venue's upcoming count is the number of its shows
      that start after today's midnight. */
  lemma MiniVenueCountsShows(t: Tables, id: int, name: string, today: int)
    requires IncreasingBy(t.shows, ShowKey)
    ensures GetMiniVenue(t, id, name, today).numUpcomingShows
         == |CountedAtVenue(t.shows, id, today)|
  {
    IncreasingHasNoDuplicates(t.shows, ShowKey);
    FilterDistinct(t.shows, AtVenue(id));
    FilterCardinality(VenueShows(t.shows, id), CountedUpcoming(today));
    assert Selected(VenueShows(t.shows, id), CountedUpcoming(today)) == CountedAtVenue(t.shows, id, today);
  }

  /** In a table holding each show once, an artist's upcoming count is the number of its
      shows that start after today's midnight. */
  lemma MiniArtistCountsShows(t: Tables, id: int, name: string, today: int)
    requires IncreasingBy(t.shows, ShowKey)
    ensures GetMiniArtist(t, id, name, today).numUpcomingShows
         == |CountedByArtist(t.shows, id, today)|
  {
    IncreasingHasNoDuplicates(t.shows, ShowKey);
    FilterDistinct(t.shows, ByArtist(id));
    FilterCardinality(ArtistShows(t.shows, id), CountedUpcoming(today));
    assert Selected(ArtistShows(t.shows, id), CountedUpcoming(today)) == CountedByArtist(t.shows, id, today);
  }

  /** A list of upcoming shows counted by the date rule is at least as long as the count
      by the mini-view rule, and equally long exactly when none of the shows starts at
      midnight today. */
  lemma {:induction false} CountRulesCompared(shows: seq<Show>, today: int)
    ensures |Filter(shows, CountedUpcoming(today))| <= |Filter(shows, SplitUpcoming(today))|
    ensures |Filter(shows, CountedUpcoming(today))| == |Filter(shows, SplitUpcoming(today))|
        <==> forall s :: s in shows ==> s.startTime != Midnight(today)
  {
    var p := CountedUpcoming(today);
    var q := SplitUpcoming(today);
    forall s: Show
      ensures p(s) ==> q(s)
      ensures q(s) && !p(s) <==> s.startTime == Midnight(today)
    {
      UpcomingRulesDiffer(s, today);
    }
    FilterMonotone(shows, p, q);
    if forall s :: s in shows ==> s.startTime != Midnight(today) {
      FilterCongruent(shows, p, q);
    }
  }

  // ----------------------------------------------------------------------------------
  // Areas and the grouped venue list
  // ----------------------------------------------------------------------------------

  /** A `(city, state)` pair. */
  datatype Location = Location(city: string, state: string)

  function VenueLocation(v: Venue): Location
  {
    Location(v.city, v.state)
  }

  /** `db.session.query(Venue.city, Venue.state)`, one pair per venue in table order. */
  function Locations(venues: seq<Venue>): (r: seq<Location>)
    ensures |r| == |venues| && forall i :: 0 <= i < |venues| ==> r[i] == VenueLocation(venues[i])
  {
    seq(|venues|, i requires 0 <= i < |venues| => VenueLocation(venues[i]))
  }

  /** A pair is listed exactly when some venue is there. */
  lemma LocationsHoldVenueLocations(venues: seq<Venue>)
    ensures forall a :: a in Locations(venues) <==> exists v :: v in venues && VenueLocation(v) == a
  {
    var l := Locations(venues);
    forall a | a in l
      ensures exists v :: v in venues && VenueLocation(v) == a
    {
      var i :| 0 <= i < |l| && l[i] == a;
      assert venues[i] in venues;
    }
    forall v | v in venues
      ensures VenueLocation(v) in l
    {
      var i :| 0 <= i < |venues| && venues[i] == v;
      assert l[i] == VenueLocation(v);
    }
  }

  /** `get_areas()`: the distinct `(city, state)` pairs of the venues, each once, in the
      order of the first venue (by key) at that pair. */
  method GetAreas(venues: seq<Venue>) returns (areas: seq<Location>)
    ensures areas == FirstOccurrences(Locations(venues))
    ensures NoDuplicates(areas)
    ensures forall a :: a in areas <==> exists v :: v in venues && VenueLocation(v) == a
    ensures forall i, j :: 0 <= i < j < |areas| ==>
      FirstIndex(Locations(venues), areas[i]) < FirstIndex(Locations(venues), areas[j])
  {
    var locations := Locations(venues);
    areas := [];
    var i := 0;
    while i < |venues|
      invariant 0 <= i <= |venues|
      invariant areas == FirstOccurrences(locations[..i])
    {
      var area := Location(venues[i].city, venues[i].state);
      assert locations[..i + 1][..i] == locations[..i];
      if area !in areas {
        areas := areas + [area];
      }
      i := i + 1;
    }
    assert locations[..|venues|] == locations;
    FirstOccurrencesDistinct(locations);
    FirstOccurrencesOrdered(locations);
    LocationsHoldVenueLocations(venues);
  }

  /** The venues of one area. */
  datatype AreaGroup = AreaGroup(area: Location, venues: seq<MiniView>)

  function InArea(a: Location): Venue -> bool
  {
    (v: Venue) => VenueLocation(v) == a
  }

  /** `[get_mini_venue(v['id'], v['name']) for v in query_result]`. */
  function MiniVenues(t: Tables, vs: seq<Venue>, today: int): (r: seq<MiniView>)
    ensures |r| == |vs|
    ensures forall i :: 0 <= i < |vs| ==> r[i] == GetMiniVenue(t, vs[i].id, vs[i].name, today)
  {
    seq(|vs|, i requires 0 <= i < |vs| => GetMiniVenue(t, vs[i].id, vs[i].name, today))
  }

  /** `[get_mini_artist(v['id'], v['name']) for v in query_result]`. */
  function MiniArtists(t: Tables, as_: seq<Artist>, today: int): (r: seq<MiniView>)
    ensures |r| == |as_|
    ensures forall i :: 0 <= i < |as_| ==> r[i] == GetMiniArtist(t, as_[i].id, as_[i].name, today)
  {
    seq(|as_|, i requires 0 <= i < |as_| => GetMiniArtist(t, as_[i].id, as_[i].name, today))
  }

  /** When keys identify venues, the mini views of the venues selected by `p` list a venue
      exactly when `p` selects it. */
  lemma MiniVenueListed(t: Tables, p: Venue -> bool, v: Venue, today: int)
    requires IncreasingBy(t.venues, VenueKey) && v in t.venues
    ensures GetMiniVenue(t, v.id, v.name, today) in MiniVenues(t, Filter(t.venues, p), today) <==> p(v)
  {
    var vs := Filter(t.venues, p);
    var ms := MiniVenues(t, vs, today);
    if p(v) {
      var i :| 0 <= i < |vs| && vs[i] == v;
      assert ms[i] == GetMiniVenue(t, v.id, v.name, today);
    }
    if GetMiniVenue(t, v.id, v.name, today) in ms {
      var i :| 0 <= i < |ms| && ms[i] == GetMiniVenue(t, v.id, v.name, today);
      assert vs[i] in vs;
      IncreasingKeysAreUnique(t.venues, VenueKey, vs[i], v);
    }
  }

  /** When keys identify artists, the mini views of the artists selected by `p` list an
      artist exactly when `p` selects it. */
  lemma MiniArtistListed(t: Tables, p: Artist -> bool, a: Artist, today: int)
    requires IncreasingBy(t.artists, ArtistKey) && a in t.artists
    ensures GetMiniArtist(t, a.id, a.name, today) in MiniArtists(t, Filter(t.artists, p), today) <==> p(a)
  {
    var as_ := Filter(t.artists, p);
    var ms := MiniArtists(t, as_, today);
    if p(a) {
      var i :| 0 <= i < |as_| && as_[i] == a;
      assert ms[i] == GetMiniArtist(t, a.id, a.name, today);
    }
    if GetMiniArtist(t, a.id, a.name, today) in ms {
      var i :| 0 <= i < |ms| && ms[i] == GetMiniArtist(t, a.id, a.name, today);
      assert as_[i] in as_;
      IncreasingKeysAreUnique(t.artists, ArtistKey, as_[i], a);
    }
  }

  /** The mini views of the venues selected by `p` are views of selected venues only. */
  lemma MiniVenuesOnlySelected(t: Tables, p: Venue -> bool, today: int)
    ensures forall m :: m in MiniVenues(t, Filter(t.venues, p), today) ==>
      exists v :: v in t.venues && p(v) && m == GetMiniVenue(t, v.id, v.name, today)
  {
    var vs := Filter(t.venues, p);
    var ms := MiniVenues(t, vs, today);
    forall m | m in ms
      ensures exists v :: v in t.venues && p(v) && m == GetMiniVenue(t, v.id, v.name, today)
    {
      var i :| 0 <= i < |ms| && ms[i] == m;
      assert vs[i] in vs;
    }
  }

  /** The mini views of the artists selected by `p` are views of selected artists only. */
  lemma MiniArtistsOnlySelected(t: Tables, p: Artist -> bool, today: int)
    ensures forall m :: m in MiniArtists(t, Filter(t.artists, p), today) ==>
      exists a :: a in t.artists && p(a) && m == GetMiniArtist(t, a.id, a.name, today)
  {
    var as_ := Filter(t.artists, p);
    var ms := MiniArtists(t, as_, today);
    forall m | m in ms
      ensures exists a :: a in t.artists && p(a) && m == GetMiniArtist(t, a.id, a.name, today)
    {
      var i :| 0 <= i < |ms| && ms[i] == m;
      assert as_[i] in as_;
    }
  }

  /** The areas of a list of groups, in order. */
  function AreasOf(groups: seq<AreaGroup>): (r: seq<Location>)
    ensures |r| == |groups| && forall k :: 0 <= k < |groups| ==> r[k] == groups[k].area
  {
    seq(|groups|, k requires 0 <= k < |groups| => groups[k].area)
  }

  /** `get_all_venues()`: one group per area of `get_areas`, in that order, each listing
      the venues at that area. Every venue is listed under exactly the area of its city
      and state. */
  method GetAllVenues(t: Tables, today: int) returns (groups: seq<AreaGroup>)
    requires IncreasingBy(t.venues, VenueKey)
    ensures AreasOf(groups) == FirstOccurrences(Locations(t.venues))
    ensures NoDuplicates(AreasOf(groups))
    ensures forall k :: 0 <= k < |groups| ==>
      groups[k].venues == MiniVenues(t, Filter(t.venues, InArea(groups[k].area)), today)
    ensures forall v :: v in t.venues ==> exists k :: 0 <= k < |groups| && groups[k].area == VenueLocation(v)
    ensures forall k, v :: 0 <= k < |groups| && v in t.venues ==>
      (GetMiniVenue(t, v.id, v.name, today) in groups[k].venues <==> VenueLocation(v) == groups[k].area)
  {
    var areas := GetAreas(t.venues);
    groups := [];
    var i := 0;
    while i < |areas|
      invariant 0 <= i <= |areas| && |groups| == i
      invariant forall k :: 0 <= k < i ==> groups[k].area == areas[k]
      invariant forall k :: 0 <= k < i ==>
        groups[k].venues == MiniVenues(t, Filter(t.venues, InArea(areas[k])), today)
    {
      var venues := MiniVenues(t, Filter(t.venues, InArea(areas[i])), today);
      groups := groups + [AreaGroup(areas[i], venues)];
      i := i + 1;
    }
    assert AreasOf(groups) == areas;
    GroupsListVenues(t, groups, today);
  }

  /** Groups whose areas are the distinct venue locations list every venue under its own
      area and nowhere else. */
  lemma GroupsListVenues(t: Tables, groups: seq<AreaGroup>, today: int)
    requires IncreasingBy(t.venues, VenueKey)
    requires forall a :: a in AreasOf(groups) <==> exists v :: v in t.venues && VenueLocation(v) == a
    requires forall k :: 0 <= k < |groups| ==>
      groups[k].venues == MiniVenues(t, Filter(t.venues, InArea(groups[k].area)), today)
    ensures forall v :: v in t.venues ==> exists k :: 0 <= k < |groups| && groups[k].area == VenueLocation(v)
    ensures forall k, v :: 0 <= k < |groups| && v in t.venues ==>
      (GetMiniVenue(t, v.id, v.name, today) in groups[k].venues <==> VenueLocation(v) == groups[k].area)
  {
    var areas := AreasOf(groups);
    forall v | v in t.venues
      ensures exists k :: 0 <= k < |groups| && groups[k].area == VenueLocation(v)
    {
      assert VenueLocation(v) in areas;
      var k :| 0 <= k < |areas| && areas[k] == VenueLocation(v);
      assert groups[k].area == VenueLocation(v);
    }
    forall k, v | 0 <= k < |groups| && v in t.venues
      ensures GetMiniVenue(t, v.id, v.name, today) in groups[k].venues <==> VenueLocation(v) == groups[k].area
    {
      MiniVenueListed(t, InArea(groups[k].area), v, today);
    }
  }

  // ----------------------------------------------------------------------------------
  // Search
  // ----------------------------------------------------------------------------------

  /** A search result: the matches and their number. */
  datatype SearchResult = SearchResult(count: nat, data: seq<MiniView>)

  /** A case-insensitive substring test: the lowercased name contains the lowercased term. */
  predicate NameMatches(name: string, term: string)
  {
    Contains(Lower(name), Lower(term))
  }

  /** What `func.lower(name).contains(term.lower())` sends to the database: the lowercased
      name `LIKE '%' || lowercased term || '%'`, without escaping the term. */
  predicate NameMatchesAsWritten(name: string, term: string)
  {
    LikeMatch("%" + Lower(term) + "%", Lower(name))
  }

  function VenueNamed(term: string): Venue -> bool
  {
    (v: Venue) => NameMatches(v.name, term)
  }

  function VenueNamedAsWritten(term: string): Venue -> bool
  {
    (v: Venue) => NameMatchesAsWritten(v.name, term)
  }

  function ArtistNamed(term: string): Artist -> bool
  {
    (a: Artist) => NameMatches(a.name, term)
  }

  function ArtistNamedAsWritten(term: string): Artist -> bool
  {
    (a: Artist) => NameMatchesAsWritten(a.name, term)
  }

  /** `get_search_venues(term)` with the term matched as text: the mini views of the venues
      whose name contains it, in key order, and their number. */
  function SearchVenues(t: Tables, term: string, today: int): (r: SearchResult)
    ensures r.count == |r.data|
    ensures forall m :: m in r.data ==>
      exists v :: v in t.venues && NameMatches(v.name, term) && m == GetMiniVenue(t, v.id, v.name, today)
  {
    MiniVenuesOnlySelected(t, VenueNamed(term), today);
    var data := MiniVenues(t, Filter(t.venues, VenueNamed(term)), today);
    SearchResult(|data|, data)
  }

  /** `get_search_venues(term)` as written: the term is a LIKE pattern. */
  function SearchVenuesAsWritten(t: Tables, term: string, today: int): (r: SearchResult)
    ensures r.count == |r.data|
    ensures forall m :: m in r.data ==>
      exists v :: v in t.venues && NameMatchesAsWritten(v.name, term) && m == GetMiniVenue(t, v.id, v.name, today)
  {
    MiniVenuesOnlySelected(t, VenueNamedAsWritten(term), today);
    var data := MiniVenues(t, Filter(t.venues, VenueNamedAsWritten(term)), today);
    SearchResult(|data|, data)
  }

  /** `get_search_artists(term)` with the term matched as text. */
  function SearchArtists(t: Tables, term: string, today: int): (r: SearchResult)
    ensures r.count == |r.data|
    ensures forall m :: m in r.data ==>
      exists a :: a in t.artists && NameMatches(a.name, term) && m == GetMiniArtist(t, a.id, a.name, today)
  {
    MiniArtistsOnlySelected(t, ArtistNamed(term), today);
    var data := MiniArtists(t, Filter(t.artists, ArtistNamed(term)), today);
    SearchResult(|data|, data)
  }

  /** `get_search_artists(term)` as written: the term is a LIKE pattern. */
  function SearchArtistsAsWritten(t: Tables, term: string, today: int): (r: SearchResult)
    ensures r.count == |r.data|
    ensures forall m :: m in r.data ==>
      exists a :: a in t.artists && NameMatchesAsWritten(a.name, term) && m == GetMiniArtist(t, a.id, a.name, today)
  {
    MiniArtistsOnlySelected(t, ArtistNamedAsWritten(term), today);
    var data := MiniArtists(t, Filter(t.artists, ArtistNamedAsWritten(term)), today);
    SearchResult(|data|, data)
  }

  /** A venue is found exactly when its name contains the term, ignoring case. */
  lemma SearchVenuesFinds(t: Tables, term: string, v: Venue, today: int)
    requires IncreasingBy(t.venues, VenueKey) && v in t.venues
    ensures GetMiniVenue(t, v.id, v.name, today) in SearchVenues(t, term, today).data <==> NameMatches(v.name, term)
  {
    MiniVenueListed(t, VenueNamed(term), v, today);
  }

  /** An artist is found exactly when its name contains the term, ignoring case. */
  lemma SearchArtistsFinds(t: Tables, term: string, a: Artist, today: int)
    requires IncreasingBy(t.artists, ArtistKey) && a in t.artists
    ensures GetMiniArtist(t, a.id, a.name, today) in SearchArtists(t, term, today).data <==> NameMatches(a.name, term)
  {
    MiniArtistListed(t, ArtistNamed(term), a, today);
  }

  /** As written, a venue is found exactly when its lowered name matches the LIKE pattern
      built from the lowered term, wildcards in the term included. */
  lemma SearchVenuesAsWrittenFinds(t: Tables, term: string, v: Venue, today: int)
    requires IncreasingBy(t.venues, VenueKey) && v in t.venues
    ensures GetMiniVenue(t, v.id, v.name, today) in SearchVenuesAsWritten(t, term, today).data
      <==> NameMatchesAsWritten(v.name, term)
  {
    MiniVenueListed(t, VenueNamedAsWritten(term), v, today);
  }

  /** As written, an artist is found exactly when its lowered name matches the LIKE pattern
      built from the lowered term, wildcards in the term included. */
  lemma SearchArtistsAsWrittenFinds(t: Tables, term: string, a: Artist, today: int)
    requires IncreasingBy(t.artists, ArtistKey) && a in t.artists
    ensures GetMiniArtist(t, a.id, a.name, today) in SearchArtistsAsWritten(t, term, today).data
      <==> NameMatchesAsWritten(a.name, term)
  {
    MiniArtistListed(t, ArtistNamedAsWritten(term), a, today);
  }

  /** As written, the term `%` lists every venue, whatever its name. */
  lemma SearchPercentListsEveryVenue(t: Tables, v: Venue, today: int)
    requires IncreasingBy(t.venues, VenueKey) && v in t.venues
    ensures GetMiniVenue(t, v.id, v.name, today) in SearchVenuesAsWritten(t, "%", today).data
  {
    LowerWithoutCapitals("%");
    var name := Lower(v.name);
    LikePercentMatchesAll(name);
    assert "%" + Lower("%") + "%" == "%%%";
    assert "%%%"[1..] == "%%" && "%%"[1..] == "%";
    assert LikeMatch("%%%", name);
    SearchVenuesAsWrittenFinds(t, "%", v, today);
  }

  /** Lowercasing leaves the LIKE wildcards and the escape character in place. */
  lemma LowerKeepsNoWildcards(term: string)
    requires NoWildcards(term)
    ensures NoWildcards(Lower(term))
  {
  }

  /** For a term without `%`, `_` or backslash the written pattern matches exactly the names
      that contain the term. */
  lemma NameMatchesAgree(name: string, term: string)
    requires NoWildcards(term)
    ensures NameMatchesAsWritten(name, term) <==> NameMatches(name, term)
  {
    LowerKeepsNoWildcards(term);
    LikeContains(Lower(term), Lower(name));
  }

  /** For a term without `%`, `_` or backslash the venue search as written finds the same
      venues as the text search. */
  lemma SearchVenuesAgree(t: Tables, term: string, today: int)
    requires NoWildcards(term)
    ensures SearchVenuesAsWritten(t, term, today) == SearchVenues(t, term, today)
  {
    forall v | v in t.venues
      ensures VenueNamedAsWritten(term)(v) == VenueNamed(term)(v)
    {
      NameMatchesAgree(v.name, term);
    }
    FilterCongruent(t.venues, VenueNamedAsWritten(term), VenueNamed(term));
  }

  /** For a term without `%`, `_` or backslash the artist search as written finds the same
      artists as the text search. */
  lemma SearchArtistsAgree(t: Tables, term: string, today: int)
    requires NoWildcards(term)
    ensures SearchArtistsAsWritten(t, term, today) == SearchArtists(t, term, today)
  {
    forall a | a in t.artists
      ensures ArtistNamedAsWritten(term)(a) == ArtistNamed(term)(a)
    {
      NameMatchesAgree(a.name, term);
    }
    FilterCongruent(t.artists, ArtistNamedAsWritten(term), ArtistNamed(term));
  }

  /** A venue named "abc": searching for "a_c" as written finds it, although its name does
      not contain that text. */
  lemma SearchUnderscoreCounterexample(today: int)
    ensures var v := Venue(1, "abc", "X", "Y", "1 St", "555", ["Jazz"], None, None, None, false, None);
            var t := Tables([v], [], [], 2, 1, 1);
            SearchVenuesAsWritten(t, "a_c", today).count == 1 && SearchVenues(t, "a_c", today).count == 0
  {
    var v := Venue(1, "abc", "X", "Y", "1 St", "555", ["Jazz"], None, None, None, false, None);
    var t := Tables([v], [], [], 2, 1, 1);
    LowerWithoutCapitals("abc");
    LowerWithoutCapitals("a_c");
    assert "%" + Lower("a_c") + "%" == "%a_c%";
    UnderscoreIsAWildcard();
    assert VenueNamedAsWritten("a_c")(v);
    assert !VenueNamed("a_c")(v);
    assert t.venues == [] + [v];
    FilterSnoc([], v, VenueNamedAsWritten("a_c"));
    FilterSnoc([], v, VenueNamed("a_c"));
  }

  /** "art" occurs in "carter quartet" at position 1. */
  lemma ArtMatchesCarter()
    ensures NameMatches("Carter Quartet", "art")
  {
    LowerWithoutCapitals("art");
    var lc := Lower("Carter Quartet");
    assert lc[1] == 'a' && lc[2] == 'r' && lc[3] == 't';
    assert lc[1..4] == "art";
    assert OccursAt(lc, "art", 1);
  }

  /** "art" does not occur in "zoe". */
  lemma ArtMissesZoe()
    ensures !NameMatches("Zoe", "art")
  {
    LowerWithoutCapitals("art");
    var lz := Lower("Zoe");
    assert |lz| == 3 && lz[0] as int == 'Z' as int + 32;
    assert !OccursAt(lz, "art", 0);
  }

  /** Searching "art" among "Carter Quartet" and "Zoe" finds "Carter Quartet" alone. */
  lemma SearchArtScenario(today: int)
    ensures var carter := Artist(1, "Carter Quartet", "X", "Y", "555", [], None, None, None, false, None);
            var zoe := Artist(2, "Zoe", "X", "Y", "555", [], None, None, None, false, None);
            var r := SearchArtists(Tables([], [carter, zoe], [], 1, 3, 1), "art", today);
            r.count == 1 && r.data[0].id == 1 && r.data[0].name == "Carter Quartet"
  {
    var carter := Artist(1, "Carter Quartet", "X", "Y", "555", [], None, None, None, false, None);
    var zoe := Artist(2, "Zoe", "X", "Y", "555", [], None, None, None, false, None);
    var p := ArtistNamed("art");
    ArtMatchesCarter();
    ArtMissesZoe();
    assert p(carter) && !p(zoe);
    assert [carter, zoe] == [carter] + [zoe];
    assert [carter] == [] + [carter];
    FilterSnoc([], carter, p);
    FilterSnoc([carter], zoe, p);
  }

  // ----------------------------------------------------------------------------------
  // The past and upcoming shows of a venue or an artist
  // ----------------------------------------------------------------------------------

  /** One entry of a venue's show lists: the artist playing and when. */
  datatype ArtistEntry = ArtistEntry(artistId: int, artistName: string, artistImageLink: Option<string>, startTime: Timestamp)

  /** One entry of an artist's show lists: the venue played and when. */
  datatype VenueEntry = VenueEntry(venueId: int, venueName: string, venueImageLink: Option<string>, startTime: Timestamp)

  /** The entry for a show: the show's artist key and start time, with the name and image
      of the artist that key names. */
  function ArtistEntryOf(artists: seq<Artist>, s: Show): (e: ArtistEntry)
    requires s.artistId in ArtistIds(artists)
    ensures e.artistId == s.artistId && e.startTime == s.startTime
  {
    var a := ArtistById(artists, s.artistId);
    ArtistEntry(s.artistId, a.name, a.imageLink, s.startTime)
  }

  /** The entry for a show: the show's venue key and start time, with the name and image of
      the venue that key names. */
  function VenueEntryOf(venues: seq<Venue>, s: Show): (e: VenueEntry)
    requires s.venueId in VenueIds(venues)
    ensures e.venueId == s.venueId && e.startTime == s.startTime
  {
    var v := VenueById(venues, s.venueId);
    VenueEntry(s.venueId, v.name, v.imageLink, s.startTime)
  }

  /** An entry carries the name and image of a row of `artists` with the show's artist key. */
  lemma ArtistEntryNamesArtist(artists: seq<Artist>, s: Show)
    requires s.artistId in ArtistIds(artists)
    ensures exists a :: (a in artists && a.id == s.artistId &&
      ArtistEntryOf(artists, s) == ArtistEntry(a.id, a.name, a.imageLink, s.startTime))
  {
    var a := ArtistById(artists, s.artistId);
    assert ArtistEntryOf(artists, s) == ArtistEntry(a.id, a.name, a.imageLink, s.startTime);
  }

  /** Every show names an artist of `artists`. */
  predicate ArtistsKnown(artists: seq<Artist>, shows: seq<Show>)
  {
    forall s :: s in shows ==> s.artistId in ArtistIds(artists)
  }

  /** Every show names a venue of `venues`. */
  predicate VenuesKnown(venues: seq<Venue>, shows: seq<Show>)
  {
    forall s :: s in shows ==> s.venueId in VenueIds(venues)
  }

  /** The shows a filter keeps from a prefix of known shows are known too. */
  lemma ArtistsKnownFilter(artists: seq<Artist>, prefix: seq<Show>, p: Show -> bool, shows: seq<Show>)
    requires ArtistsKnown(artists, shows) && forall s :: s in prefix ==> s in shows
    ensures ArtistsKnown(artists, Filter(prefix, p))
  {
  }

  /** The shows a filter keeps from a prefix of known shows are known too. */
  lemma VenuesKnownFilter(venues: seq<Venue>, prefix: seq<Show>, p: Show -> bool, shows: seq<Show>)
    requires VenuesKnown(venues, shows) && forall s :: s in prefix ==> s in shows
    ensures VenuesKnown(venues, Filter(prefix, p))
  {
  }

  /** An entry carries the name and image of a row of `venues` with the show's venue key. */
  lemma VenueEntryNamesVenue(venues: seq<Venue>, s: Show)
    requires s.venueId in VenueIds(venues)
    ensures exists v :: (v in venues && v.id == s.venueId &&
      VenueEntryOf(venues, s) == VenueEntry(v.id, v.name, v.imageLink, s.startTime))
  {
    var v := VenueById(venues, s.venueId);
    assert VenueEntryOf(venues, s) == VenueEntry(v.id, v.name, v.imageLink, s.startTime);
  }

  function ArtistEntries(artists: seq<Artist>, shows: seq<Show>): (r: seq<ArtistEntry>)
    requires ArtistsKnown(artists, shows)
    ensures |r| == |shows| && forall i :: 0 <= i < |shows| ==> r[i] == ArtistEntryOf(artists, shows[i])
  {
    seq(|shows|, i requires 0 <= i < |shows| => ArtistEntryOf(artists, shows[i]))
  }

  function VenueEntries(venues: seq<Venue>, shows: seq<Show>): (r: seq<VenueEntry>)
    requires VenuesKnown(venues, shows)
    ensures |r| == |shows| && forall i :: 0 <= i < |shows| ==> r[i] == VenueEntryOf(venues, shows[i])
  {
    seq(|shows|, i requires 0 <= i < |shows| => VenueEntryOf(venues, shows[i]))
  }

  /** Appending a show appends its entry. */
  lemma ArtistEntriesSnoc(artists: seq<Artist>, shows: seq<Show>, s: Show)
    requires ArtistsKnown(artists, shows) && s.artistId in ArtistIds(artists)
    ensures ArtistsKnown(artists, shows + [s])
    ensures ArtistEntries(artists, shows + [s]) == ArtistEntries(artists, shows) + [ArtistEntryOf(artists, s)]
  {
  }

  /** Appending a show appends its entry. */
  lemma VenueEntriesSnoc(venues: seq<Venue>, shows: seq<Show>, s: Show)
    requires VenuesKnown(venues, shows) && s.venueId in VenueIds(venues)
    ensures VenuesKnown(venues, shows + [s])
    ensures VenueEntries(venues, shows + [s]) == VenueEntries(venues, shows) + [VenueEntryOf(venues, s)]
  {
  }

  /** The entries of the shows selected by `p` are exactly the entries of selected shows. */
  lemma ArtistEntriesOfFilter(artists: seq<Artist>, shows: seq<Show>, p: Show -> bool)
    requires ArtistsKnown(artists, shows)
    ensures forall s :: s in shows && p(s) ==> ArtistEntryOf(artists, s) in ArtistEntries(artists, Filter(shows, p))
    ensures forall e :: e in ArtistEntries(artists, Filter(shows, p)) ==>
      exists s :: s in shows && p(s) && e == ArtistEntryOf(artists, s)
  {
    var fs := Filter(shows, p);
    var es := ArtistEntries(artists, fs);
    forall s | s in shows && p(s)
      ensures ArtistEntryOf(artists, s) in es
    {
      var i :| 0 <= i < |fs| && fs[i] == s;
      assert es[i] == ArtistEntryOf(artists, s);
    }
    forall e | e in es
      ensures exists s :: s in shows && p(s) && e == ArtistEntryOf(artists, s)
    {
      var i :| 0 <= i < |es| && es[i] == e;
      assert fs[i] in fs;
    }
  }

  /** The entries of the shows selected by `p` are exactly the entries of selected shows. */
  lemma VenueEntriesOfFilter(venues: seq<Venue>, shows: seq<Show>, p: Show -> bool)
    requires VenuesKnown(venues, shows)
    ensures forall s :: s in shows && p(s) ==> VenueEntryOf(venues, s) in VenueEntries(venues, Filter(shows, p))
    ensures forall e :: e in VenueEntries(venues, Filter(shows, p)) ==>
      exists s :: s in shows && p(s) && e == VenueEntryOf(venues, s)
  {
    var fs := Filter(shows, p);
    var es := VenueEntries(venues, fs);
    forall s | s in shows && p(s)
      ensures VenueEntryOf(venues, s) in es
    {
      var i :| 0 <= i < |fs| && fs[i] == s;
      assert es[i] == VenueEntryOf(venues, s);
    }
    forall e | e in es
      ensures exists s :: s in shows && p(s) && e == VenueEntryOf(venues, s)
    {
      var i :| 0 <= i < |es| && es[i] == e;
      assert fs[i] in fs;
    }
  }

  /** The date rule splits a list of shows into two parts that together hold its shows, each
      part in the list's order. */
  lemma SplitPartitions(shows: seq<Show>, today: int)
    ensures |Filter(shows, SplitPast(today))| + |Filter(shows, SplitUpcoming(today))| == |shows|
    ensures multiset(Filter(shows, SplitPast(today))) + multiset(Filter(shows, SplitUpcoming(today))) == multiset(shows)
    ensures IsSubsequence(Filter(shows, SplitPast(today)), shows)
    ensures IsSubsequence(Filter(shows, SplitUpcoming(today)), shows)
  {
    FilterPartition(shows, SplitPast(today), SplitUpcoming(today));
    FilterIsSubsequence(shows, SplitPast(today));
    FilterIsSubsequence(shows, SplitUpcoming(today));
  }

  /** The two lists of entries a split builds from `shows`: their lengths add up to the
      number of shows, each show's entry lands in the list its date calls for, and each entry
      comes from a show of that list. */
  lemma ArtistSplitSpec(artists: seq<Artist>, shows: seq<Show>, today: int)
    requires ArtistsKnown(artists, shows)
    ensures ArtistsKnown(artists, Filter(shows, SplitUpcoming(today)))
    ensures ArtistsKnown(artists, Filter(shows, SplitPast(today)))
    ensures |ArtistEntries(artists, Filter(shows, SplitPast(today)))| + |ArtistEntries(artists, Filter(shows, SplitUpcoming(today)))| == |shows|
    ensures forall s :: s in shows && UpcomingByDate(s, today) ==> ArtistEntryOf(artists, s) in ArtistEntries(artists, Filter(shows, SplitUpcoming(today)))
    ensures forall s :: s in shows && !UpcomingByDate(s, today) ==> ArtistEntryOf(artists, s) in ArtistEntries(artists, Filter(shows, SplitPast(today)))
    ensures forall e :: e in ArtistEntries(artists, Filter(shows, SplitUpcoming(today))) ==>
      exists s :: s in shows && UpcomingByDate(s, today) && e == ArtistEntryOf(artists, s)
    ensures forall e :: e in ArtistEntries(artists, Filter(shows, SplitPast(today))) ==>
      exists s :: s in shows && !UpcomingByDate(s, today) && e == ArtistEntryOf(artists, s)
  {
    SplitPartitions(shows, today);
    ArtistEntriesOfFilter(artists, shows, SplitUpcoming(today));
    ArtistEntriesOfFilter(artists, shows, SplitPast(today));
  }

  /** One step of the split: taking in show `i` extends the list its date calls for by
      that show's entry and leaves the other list as it was. */
  lemma ArtistSplitStep(artists: seq<Artist>, shows: seq<Show>, i: int, today: int)
    requires ArtistsKnown(artists, shows) && 0 <= i < |shows|
    ensures shows[i].artistId in ArtistIds(artists)
    ensures ArtistsKnown(artists, Filter(shows[..i + 1], SplitUpcoming(today)))
    ensures ArtistsKnown(artists, Filter(shows[..i + 1], SplitPast(today)))
    ensures ArtistsKnown(artists, Filter(shows[..i], SplitUpcoming(today)))
    ensures ArtistsKnown(artists, Filter(shows[..i], SplitPast(today)))
    ensures UpcomingByDate(shows[i], today) ==>
      ArtistEntries(artists, Filter(shows[..i + 1], SplitUpcoming(today))) == ArtistEntries(artists, Filter(shows[..i], SplitUpcoming(today))) + [ArtistEntryOf(artists, shows[i])]
    ensures UpcomingByDate(shows[i], today) ==> Filter(shows[..i + 1], SplitPast(today)) == Filter(shows[..i], SplitPast(today))
    ensures !UpcomingByDate(shows[i], today) ==>
      ArtistEntries(artists, Filter(shows[..i + 1], SplitPast(today))) == ArtistEntries(artists, Filter(shows[..i], SplitPast(today))) + [ArtistEntryOf(artists, shows[i])]
    ensures !UpcomingByDate(shows[i], today) ==> Filter(shows[..i + 1], SplitUpcoming(today)) == Filter(shows[..i], SplitUpcoming(today))
  {
    var show := shows[i];
    assert show in shows;
    assert shows[..i + 1] == shows[..i] + [show];
    assert forall s :: s in shows[..i] ==> s in shows;
    ArtistsKnownFilter(artists, shows[..i], SplitUpcoming(today), shows);
    ArtistsKnownFilter(artists, shows[..i], SplitPast(today), shows);
    FilterSnoc(shows[..i], show, SplitUpcoming(today));
    FilterSnoc(shows[..i], show, SplitPast(today));
    ArtistEntriesSnoc(artists, Filter(shows[..i], SplitUpcoming(today)), show);
    ArtistEntriesSnoc(artists, Filter(shows[..i], SplitPast(today)), show);
  }

  /** The loop of `get_shows_with_*`: each show, in order, becomes an entry carrying its
      artist's name and image, appended to the upcoming list when its date is today or
      later and to the past list otherwise. */
  method SplitArtistEntries(artists: seq<Artist>, shows: seq<Show>, today: int) returns (past: seq<ArtistEntry>, upcoming: seq<ArtistEntry>)
    requires ArtistsKnown(artists, shows)
    ensures ArtistsKnown(artists, Filter(shows, SplitUpcoming(today)))
    ensures ArtistsKnown(artists, Filter(shows, SplitPast(today)))
    ensures upcoming == ArtistEntries(artists, Filter(shows, SplitUpcoming(today)))
    ensures past == ArtistEntries(artists, Filter(shows, SplitPast(today)))
  {
    past, upcoming := [], [];
    var i := 0;
    while i < |shows|
      invariant 0 <= i <= |shows|
      invariant ArtistsKnown(artists, Filter(shows[..i], SplitUpcoming(today)))
      invariant ArtistsKnown(artists, Filter(shows[..i], SplitPast(today)))
      invariant upcoming == ArtistEntries(artists, Filter(shows[..i], SplitUpcoming(today)))
      invariant past == ArtistEntries(artists, Filter(shows[..i], SplitPast(today)))
    {
      ArtistSplitStep(artists, shows, i, today);
      var show := shows[i];
      var entry := ArtistEntryOf(artists, show);
      if UpcomingByDate(show, today) {
        upcoming := upcoming + [entry];
      } else {
        past := past + [entry];
      }
      i := i + 1;
    }
    assert shows[..|shows|] == shows;
  }

  /** `get_shows_with_artist(id)`: the venue's shows in key order, each with its artist's
      name and image, split into those from today on and those of earlier days; every show
      of the venue lands in exactly the list its date calls for. */
  method GetShowsWithArtist(t: Tables, venueId: int, today: int) returns (past: seq<ArtistEntry>, upcoming: seq<ArtistEntry>)
    requires ReferencesHold(t)
    ensures ArtistsKnown(t.artists, VenueShows(t.shows, venueId))
    ensures upcoming == ArtistEntries(t.artists, Filter(VenueShows(t.shows, venueId), SplitUpcoming(today)))
    ensures past == ArtistEntries(t.artists, Filter(VenueShows(t.shows, venueId), SplitPast(today)))
    ensures |past| + |upcoming| == |VenueShows(t.shows, venueId)|
    ensures forall s :: s in VenueShows(t.shows, venueId) && UpcomingByDate(s, today) ==> ArtistEntryOf(t.artists, s) in upcoming
    ensures forall s :: s in VenueShows(t.shows, venueId) && !UpcomingByDate(s, today) ==> ArtistEntryOf(t.artists, s) in past
    ensures forall e :: e in upcoming ==>
      exists s :: s in VenueShows(t.shows, venueId) && UpcomingByDate(s, today) && e == ArtistEntryOf(t.artists, s)
    ensures forall e :: e in past ==>
      exists s :: s in VenueShows(t.shows, venueId) && !UpcomingByDate(s, today) && e == ArtistEntryOf(t.artists, s)
  {
    var shows := VenueShows(t.shows, venueId);
    assert ArtistsKnown(t.artists, shows);
    past, upcoming := SplitArtistEntries(t.artists, shows, today);
    ArtistSplitSpec(t.artists, shows, today);
  }

  /** The two lists of entries a split builds from `shows`: their lengths add up to the
      number of shows, each show's entry lands in the list its date calls for, and each entry
      comes from a show of that list. */
  lemma VenueSplitSpec(venues: seq<Venue>, shows: seq<Show>, today: int)
    requires VenuesKnown(venues, shows)
    ensures VenuesKnown(venues, Filter(shows, SplitUpcoming(today)))
    ensures VenuesKnown(venues, Filter(shows, SplitPast(today)))
    ensures |VenueEntries(venues, Filter(shows, SplitPast(today)))| + |VenueEntries(venues, Filter(shows, SplitUpcoming(today)))| == |shows|
    ensures forall s :: s in shows && UpcomingByDate(s, today) ==> VenueEntryOf(venues, s) in VenueEntries(venues, Filter(shows, SplitUpcoming(today)))
    ensures forall s :: s in shows && !UpcomingByDate(s, today) ==> VenueEntryOf(venues, s) in VenueEntries(venues, Filter(shows, SplitPast(today)))
    ensures forall e :: e in VenueEntries(venues, Filter(shows, SplitUpcoming(today))) ==>
      exists s :: s in shows && UpcomingByDate(s, today) && e == VenueEntryOf(venues, s)
    ensures forall e :: e in VenueEntries(venues, Filter(shows, SplitPast(today))) ==>
      exists s :: s in shows && !UpcomingByDate(s, today) && e == VenueEntryOf(venues, s)
  {
    SplitPartitions(shows, today);
    VenueEntriesOfFilter(venues, shows, SplitUpcoming(today));
    VenueEntriesOfFilter(venues, shows, SplitPast(today));
  }

  /** One step of the split: taking in show `i` extends the list its date calls for by
      that show's entry and leaves the other list as it was. */
  lemma VenueSplitStep(venues: seq<Venue>, shows: seq<Show>, i: int, today: int)
    requires VenuesKnown(venues, shows) && 0 <= i < |shows|
    ensures shows[i].venueId in VenueIds(venues)
    ensures VenuesKnown(venues, Filter(shows[..i + 1], SplitUpcoming(today)))
    ensures VenuesKnown(venues, Filter(shows[..i + 1], SplitPast(today)))
    ensures VenuesKnown(venues, Filter(shows[..i], SplitUpcoming(today)))
    ensures VenuesKnown(venues, Filter(shows[..i], SplitPast(today)))
    ensures UpcomingByDate(shows[i], today) ==>
      VenueEntries(venues, Filter(shows[..i + 1], SplitUpcoming(today))) == VenueEntries(venues, Filter(shows[..i], SplitUpcoming(today))) + [VenueEntryOf(venues, shows[i])]
    ensures UpcomingByDate(shows[i], today) ==> Filter(shows[..i + 1], SplitPast(today)) == Filter(shows[..i], SplitPast(today))
    ensures !UpcomingByDate(shows[i], today) ==>
      VenueEntries(venues, Filter(shows[..i + 1], SplitPast(today))) == VenueEntries(venues, Filter(shows[..i], SplitPast(today))) + [VenueEntryOf(venues, shows[i])]
    ensures !UpcomingByDate(shows[i], today) ==> Filter(shows[..i + 1], SplitUpcoming(today)) == Filter(shows[..i], SplitUpcoming(today))
  {
    var show := shows[i];
    assert show in shows;
    assert shows[..i + 1] == shows[..i] + [show];
    assert forall s :: s in shows[..i] ==> s in shows;
    VenuesKnownFilter(venues, shows[..i], SplitUpcoming(today), shows);
    VenuesKnownFilter(venues, shows[..i], SplitPast(today), shows);
    FilterSnoc(shows[..i], show, SplitUpcoming(today));
    FilterSnoc(shows[..i], show, SplitPast(today));
    VenueEntriesSnoc(venues, Filter(shows[..i], SplitUpcoming(today)), show);
    VenueEntriesSnoc(venues, Filter(shows[..i], SplitPast(today)), show);
  }

  /** The loop of `get_shows_with_*`: each show, in order, becomes an entry carrying its
      venue's name and image, appended to the upcoming list when its date is today or
      later and to the past list otherwise. */
  method SplitVenueEntries(venues: seq<Venue>, shows: seq<Show>, today: int) returns (past: seq<VenueEntry>, upcoming: seq<VenueEntry>)
    requires VenuesKnown(venues, shows)
    ensures VenuesKnown(venues, Filter(shows, SplitUpcoming(today)))
    ensures VenuesKnown(venues, Filter(shows, SplitPast(today)))
    ensures upcoming == VenueEntries(venues, Filter(shows, SplitUpcoming(today)))
    ensures past == VenueEntries(venues, Filter(shows, SplitPast(today)))
  {
    past, upcoming := [], [];
    var i := 0;
    while i < |shows|
      invariant 0 <= i <= |shows|
      invariant VenuesKnown(venues, Filter(shows[..i], SplitUpcoming(today)))
      invariant VenuesKnown(venues, Filter(shows[..i], SplitPast(today)))
      invariant upcoming == VenueEntries(venues, Filter(shows[..i], SplitUpcoming(today)))
      invariant past == VenueEntries(venues, Filter(shows[..i], SplitPast(today)))
    {
      VenueSplitStep(venues, shows, i, today);
      var show := shows[i];
      var entry := VenueEntryOf(venues, show);
      if UpcomingByDate(show, today) {
        upcoming := upcoming + [entry];
      } else {
        past := past + [entry];
      }
      i := i + 1;
    }
    assert shows[..|shows|] == shows;
  }

  /** `get_shows_with_venues(id)`: the artist's shows in key order, each with its venue's
      name and image, split into those from today on and those of earlier days; every show
      of the artist lands in exactly the list its date calls for. */
  method GetShowsWithVenues(t: Tables, artistId: int, today: int) returns (past: seq<VenueEntry>, upcoming: seq<VenueEntry>)
    requires ReferencesHold(t)
    ensures VenuesKnown(t.venues, ArtistShows(t.shows, artistId))
    ensures upcoming == VenueEntries(t.venues, Filter(ArtistShows(t.shows, artistId), SplitUpcoming(today)))
    ensures past == VenueEntries(t.venues, Filter(ArtistShows(t.shows, artistId), SplitPast(today)))
    ensures |past| + |upcoming| == |ArtistShows(t.shows, artistId)|
    ensures forall s :: s in ArtistShows(t.shows, artistId) && UpcomingByDate(s, today) ==> VenueEntryOf(t.venues, s) in upcoming
    ensures forall s :: s in ArtistShows(t.shows, artistId) && !UpcomingByDate(s, today) ==> VenueEntryOf(t.venues, s) in past
    ensures forall e :: e in upcoming ==>
      exists s :: s in ArtistShows(t.shows, artistId) && UpcomingByDate(s, today) && e == VenueEntryOf(t.venues, s)
    ensures forall e :: e in past ==>
      exists s :: s in ArtistShows(t.shows, artistId) && !UpcomingByDate(s, today) && e == VenueEntryOf(t.venues, s)
  {
    var shows := ArtistShows(t.shows, artistId);
    assert VenuesKnown(t.venues, shows);
    past, upcoming := SplitVenueEntries(t.venues, shows, today);
    VenueSplitSpec(t.venues, shows, today);
  }

  // ----------------------------------------------------------------------------------
  // Detail pages
  // ----------------------------------------------------------------------------------

  /** The venue detail page: the stored row, its genres as `format_genres` reads them, and
      the two show lists with their lengths. */
  datatype VenueDetail = VenueDetail(
    venue: Venue,
    genres: seq<string>,
    pastShows: seq<ArtistEntry>,
    upcomingShows: seq<ArtistEntry>,
    pastShowsCount: nat,
    upcomingShowsCount: nat)

  /** The artist detail page. */
  datatype ArtistDetail = ArtistDetail(
    artist: Artist,
    genres: seq<string>,
    pastShows: seq<VenueEntry>,
    upcomingShows: seq<VenueEntry>,
    pastShowsCount: nat,
    upcomingShowsCount: nat)

  /** `get_full_venue(id)`: the venue with key `id`, its genres read from the array's text,
      and its show lists, whose counts are their lengths and add up to the venue's shows. */
  method GetFullVenue(t: Tables, id: int, today: int) returns (d: VenueDetail)
    requires id in VenueIds(t.venues) && ReferencesHold(t)
    ensures d.venue in t.venues && d.venue.id == id
    ensures d.genres == FormatGenres(ArrayText(d.venue.genres))
    ensures d.pastShowsCount == |d.pastShows| && d.upcomingShowsCount == |d.upcomingShows|
    ensures d.pastShowsCount + d.upcomingShowsCount == |VenueShows(t.shows, id)|
    ensures forall s :: s in t.shows && s.venueId == id ==>
      if UpcomingByDate(s, today) then ArtistEntryOf(t.artists, s) in d.upcomingShows
      else ArtistEntryOf(t.artists, s) in d.pastShows
    ensures forall e :: e in d.upcomingShows ==>
      exists s :: s in VenueShows(t.shows, id) && UpcomingByDate(s, today) && e == ArtistEntryOf(t.artists, s)
    ensures forall e :: e in d.pastShows ==>
      exists s :: s in VenueShows(t.shows, id) && !UpcomingByDate(s, today) && e == ArtistEntryOf(t.artists, s)
  {
    var venue := VenueById(t.venues, id);
    var genres := FormatGenres(ArrayText(venue.genres));
    var past, upcoming := GetShowsWithArtist(t, id, today);
    d := VenueDetail(venue, genres, past, upcoming, |past|, |upcoming|);
  }

  /** `get_full_artist(id)`: the artist with key `id`, its genres read from the array's
      text, and its show lists, whose counts are their lengths and add up to the artist's
      shows. */
  method GetFullArtist(t: Tables, id: int, today: int) returns (d: ArtistDetail)
    requires id in ArtistIds(t.artists) && ReferencesHold(t)
    ensures d.artist in t.artists && d.artist.id == id
    ensures d.genres == FormatGenres(ArrayText(d.artist.genres))
    ensures d.pastShowsCount == |d.pastShows| && d.upcomingShowsCount == |d.upcomingShows|
    ensures d.pastShowsCount + d.upcomingShowsCount == |ArtistShows(t.shows, id)|
    ensures forall s :: s in t.shows && s.artistId == id ==>
      if UpcomingByDate(s, today) then VenueEntryOf(t.venues, s) in d.upcomingShows
      else VenueEntryOf(t.venues, s) in d.pastShows
    ensures forall e :: e in d.upcomingShows ==>
      exists s :: s in ArtistShows(t.shows, id) && UpcomingByDate(s, today) && e == VenueEntryOf(t.venues, s)
    ensures forall e :: e in d.pastShows ==>
      exists s :: s in ArtistShows(t.shows, id) && !UpcomingByDate(s, today) && e == VenueEntryOf(t.venues, s)
  {
    var artist := ArtistById(t.artists, id);
    var genres := FormatGenres(ArrayText(artist.genres));
    var past, upcoming := GetShowsWithVenues(t, id, today);
    d := ArtistDetail(artist, genres, past, upcoming, |past|, |upcoming|);
  }

  /** In a table holding each show once, the shows on a venue's page are as many as the
      rows of `shows` that name the venue. */
  lemma VenueShowsCountRows(t: Tables, venueId: int)
    requires IncreasingBy(t.shows, ShowKey)
    ensures |VenueShows(t.shows, venueId)| == |set s | s in t.shows && s.venueId == venueId|
  {
    IncreasingHasNoDuplicates(t.shows, ShowKey);
    FilterCardinality(t.shows, AtVenue(venueId));
    assert Selected(t.shows, AtVenue(venueId)) == set s | s in t.shows && s.venueId == venueId;
  }

  /** In a table holding each show once, the shows on an artist's page are as many as the
      rows of `shows` that name the artist. */
  lemma ArtistShowsCountRows(t: Tables, artistId: int)
    requires IncreasingBy(t.shows, ShowKey)
    ensures |ArtistShows(t.shows, artistId)| == |set s | s in t.shows && s.artistId == artistId|
  {
    IncreasingHasNoDuplicates(t.shows, ShowKey);
    FilterCardinality(t.shows, ByArtist(artistId));
    assert Selected(t.shows, ByArtist(artistId)) == set s | s in t.shows && s.artistId == artistId;
  }

  /** A venue's mini view counts no more upcoming shows than its detail page lists, and
      exactly as many unless one of its shows starts at midnight today. */
  lemma MiniVenueAgainstDetail(t: Tables, id: int, name: string, today: int)
    ensures GetMiniVenue(t, id, name, today).numUpcomingShows
         <= |Filter(VenueShows(t.shows, id), SplitUpcoming(today))|
    ensures GetMiniVenue(t, id, name, today).numUpcomingShows
         == |Filter(VenueShows(t.shows, id), SplitUpcoming(today))|
        <==> forall s :: s in t.shows && s.venueId == id ==> s.startTime != Midnight(today)
  {
    CountRulesCompared(VenueShows(t.shows, id), today);
  }

  /** An artist's mini view counts no more upcoming shows than its detail page lists, and
      exactly as many unless one of its shows starts at midnight today. */
  lemma MiniArtistAgainstDetail(t: Tables, id: int, name: string, today: int)
    ensures GetMiniArtist(t, id, name, today).numUpcomingShows
         <= |Filter(ArtistShows(t.shows, id), SplitUpcoming(today))|
    ensures GetMiniArtist(t, id, name, today).numUpcomingShows
         == |Filter(ArtistShows(t.shows, id), SplitUpcoming(today))|
        <==> forall s :: s in t.shows && s.artistId == id ==> s.startTime != Midnight(today)
  {
    CountRulesCompared(ArtistShows(t.shows, id), today);
  }

  // ----------------------------------------------------------------------------------
  // Show and artist lists
  // ----------------------------------------------------------------------------------

  /** One row of the show list: the show's own columns with the venue's name and the
      artist's name and image. */
  datatype ShowListing = ShowListing(
    id: int,
    artistId: int,
    venueId: int,
    startTime: Timestamp,
    venueName: string,
    artistName: string,
    artistImageLink: Option<string>)

  /** The listing of one show: its own columns, the name of the venue its `venue_id` names,
      and the name and image of the artist its `artist_id` names. */
  function ListingOf(t: Tables, s: Show): (l: ShowListing)
    requires s.venueId in VenueIds(t.venues) && s.artistId in ArtistIds(t.artists)
    ensures l.id == s.id && l.artistId == s.artistId && l.venueId == s.venueId && l.startTime == s.startTime
    ensures exists v :: v in t.venues && v.id == s.venueId && l.venueName == v.name
    ensures exists a :: (a in t.artists && a.id == s.artistId &&
      l.artistName == a.name && l.artistImageLink == a.imageLink)
  {
    var venue := VenueById(t.venues, s.venueId);
    var artist := ArtistById(t.artists, s.artistId);
    ShowListing(s.id, s.artistId, s.venueId, s.startTime, venue.name, artist.name, artist.imageLink)
  }

  /** `get_all_shows()`: one listing per show, in key order. */
  method GetAllShows(t: Tables) returns (listings: seq<ShowListing>)
    requires ReferencesHold(t)
    ensures |listings| == |t.shows|
    ensures forall i :: 0 <= i < |t.shows| ==> listings[i] == ListingOf(t, t.shows[i])
  {
    listings := [];
    var i := 0;
    while i < |t.shows|
      invariant 0 <= i <= |t.shows| && |listings| == i
      invariant forall k :: 0 <= k < i ==> listings[k] == ListingOf(t, t.shows[k])
    {
      var show := t.shows[i];
      assert show in t.shows;
      var venue := VenueById(t.venues, show.venueId);
      var artist := ArtistById(t.artists, show.artistId);
      listings := listings + [ShowListing(show.id, show.artistId, show.venueId, show.startTime,
                                          venue.name, artist.name, artist.imageLink)];
      i := i + 1;
    }
  }

  /** One row of the artist list. */
  datatype ArtistSummary = ArtistSummary(id: int, name: string)

  /** `get_all_artists()`: the key and name of every artist, ordered by key. */
  function GetAllArtists(t: Tables): (r: seq<ArtistSummary>)
    ensures |r| == |t.artists|
    ensures forall i :: 0 <= i < |r| ==> r[i].id == t.artists[i].id && r[i].name == t.artists[i].name
  {
    seq(|t.artists|, i requires 0 <= i < |t.artists| => ArtistSummary(t.artists[i].id, t.artists[i].name))
  }

  /** The artist list names every artist, and names only artists. */
  lemma AllArtistsListed(t: Tables)
    ensures forall a :: a in t.artists ==> ArtistSummary(a.id, a.name) in GetAllArtists(t)
    ensures forall r :: r in GetAllArtists(t) ==> exists a :: a in t.artists && r == ArtistSummary(a.id, a.name)
  {
    var l := GetAllArtists(t);
    forall a | a in t.artists
      ensures ArtistSummary(a.id, a.name) in l
    {
      var i :| 0 <= i < |t.artists| && t.artists[i] == a;
      assert l[i] == ArtistSummary(a.id, a.name);
    }
    forall r | r in l
      ensures exists a :: a in t.artists && r == ArtistSummary(a.id, a.name)
    {
      var i :| 0 <= i < |l| && l[i] == r;
      assert t.artists[i] in t.artists;
    }
  }

  /** With the table in key order, the artist list is ordered by key, each key once. */
  lemma AllArtistsOrderedByKey(t: Tables)
    requires IncreasingBy(t.artists, ArtistKey)
    ensures forall i, j :: 0 <= i < j < |GetAllArtists(t)| ==> GetAllArtists(t)[i].id < GetAllArtists(t)[j].id
  {
    var r := GetAllArtists(t);
    forall i, j | 0 <= i < j < |r|
      ensures r[i].id < r[j].id
    {
      assert ArtistKey(t.artists[i]) < ArtistKey(t.artists[j]);
    }
  }
}
