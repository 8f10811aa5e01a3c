/** The write handlers of controllers.py. Each request reads a submitted form, changes the
    session's transaction, commits it, and on any exception rolls it back; the response is
    the page (with its flash notice) or the JSON body the handler returns. */
module Controllers {
  import opened Common
  import opened Postgres
  import opened Models
  import opened Store
  import opened Services

  // ----------------------------------------------------------------------------------
  // Submitted forms
  // ----------------------------------------------------------------------------------

  /** `request.form`: the submitted (key, value) pairs in order; a key may repeat. */
  type Form = seq<(string, string)>

  /** `key in request.form`. */
  predicate FormHas(f: Form, key: string)
  {
    exists i :: 0 <= i < |f| && f[i].0 == key
  }

  /** The first pair submitted under `key` carries `value`. */
  predicate FirstValue(f: Form, key: string, value: string)
  {
    f != [] && if f[0].0 == key then f[0].1 == value else FirstValue(f[1..], key, value)
  }

  /** `FirstValue` by position: some pair is `(key, value)` and no earlier pair has `key`. */
  lemma {:induction false} FirstValueAt(f: Form, key: string, value: string)
    ensures FirstValue(f, key, value) <==>
      exists i :: 0 <= i < |f| && f[i] == (key, value) && forall j :: 0 <= j < i ==> f[j].0 != key
  {
    if f != [] {
      FirstValueAt(f[1..], key, value);
      if f[0].0 != key {
        if exists i :: 0 <= i < |f| && f[i] == (key, value) && forall j :: 0 <= j < i ==> f[j].0 != key {
          var i :| 0 <= i < |f| && f[i] == (key, value) && forall j :: 0 <= j < i ==> f[j].0 != key;
          assert f[1..][i - 1] == (key, value);
          assert forall j :: 0 <= j < i - 1 ==> f[1..][j].0 != key by {
            assert forall j :: 0 <= j < i - 1 ==> f[1..][j] == f[j + 1];
          }
        }
        if FirstValue(f[1..], key, value) {
          var i :| 0 <= i < |f[1..]| && f[1..][i] == (key, value) && forall j :: 0 <= j < i ==> f[1..][j].0 != key;
          assert f[i + 1] == (key, value);
          assert forall j :: 1 <= j < i + 1 ==> f[j] == f[1..][j - 1];
        }
      } else {
        assert f[0] == (key, f[0].1);
      }
    }
  }

  /** `request.form[key]`: the first value submitted under `key`; a missing key raises,
      which is `None` here. */
  function FormItem(f: Form, key: string): (r: Option<string>)
    ensures r.Some? <==> FormHas(f, key)
    ensures r.Some? ==> FirstValue(f, key, r.value)
  {
    if f == [] then None
    else if f[0].0 == key then
      assert f[0] == (key, f[0].1);
      Some(f[0].1)
    else
      assert FormHas(f, key) ==> FormHas(f[1..], key) by {
        if FormHas(f, key) {
          var i :| 0 <= i < |f| && f[i].0 == key;
          assert f[1..][i - 1].0 == key;
        }
      }
      FormItem(f[1..], key)
  }

  /** The pairs submitted under `key`. */
  function KeyIs(key: string): ((string, string)) -> bool
  {
    (p: (string, string)) => p.0 == key
  }

  /** `request.form.getlist(key)`: every value submitted under `key`, in submission order
      and with repeats: the i-th value is the value of the i-th pair carrying `key`. */
  function FormList(f: Form, key: string): (r: seq<string>)
    ensures |r| == |Filter(f, KeyIs(key))|
    ensures forall i :: 0 <= i < |r| ==> Filter(f, KeyIs(key))[i] == (key, r[i])
    ensures forall x :: x in r <==> (key, x) in f
    decreases |f|
  {
    if f == [] then []
    else
      var init, last := f[..|f| - 1], f[|f| - 1];
      var r := FormList(init, key) + (if last.0 == key then [last.1] else []);
      assert f == init + [last];
      FilterSnoc(init, last, KeyIs(key));
      assert forall x :: (key, x) in f <==> (key, x) in init || (key, x) == last;
      r
  }

  // ----------------------------------------------------------------------------------
  // Venue and artist forms
  // ----------------------------------------------------------------------------------

  /** The values a venue form supplies. */
  datatype VenueFields = VenueFields(
    name: string,
    city: string,
    state: string,
    address: string,
    phone: string,
    genres: seq<string>,
    imageLink: string,
    websiteLink: string,
    facebookLink: string,
    seekingTalent: bool,
    seekingDescription: string)

  /** The values an artist form supplies. */
  datatype ArtistFields = ArtistFields(
    name: string,
    city: string,
    state: string,
    phone: string,
    genres: seq<string>,
    imageLink: string,
    websiteLink: string,
    facebookLink: string,
    seekingVenue: bool,
    seekingDescription: string)

  /** Every key a venue handler reads with `request.form[...]` was submitted. */
  predicate VenueFormComplete(f: Form)
  {
    && FormHas(f, "name") && FormHas(f, "city") && FormHas(f, "state") && FormHas(f, "address")
    && FormHas(f, "phone") && FormHas(f, "image_link") && FormHas(f, "website_link")
    && FormHas(f, "facebook_link") && FormHas(f, "seeking_description")
  }

  /** Every key an artist handler reads with `request.form[...]` was submitted. */
  predicate ArtistFormComplete(f: Form)
  {
    && FormHas(f, "name") && FormHas(f, "city") && FormHas(f, "state")
    && FormHas(f, "phone") && FormHas(f, "image_link") && FormHas(f, "website_link")
    && FormHas(f, "facebook_link") && FormHas(f, "seeking_description")
  }

  /** Reading a venue form: every value is the first one under the key of the same name,
      `genres` is every value under `genres`, and `seeking_talent` is its key's presence.
      A missing key makes the read raise (`None`). */
  function ReadVenueForm(f: Form): (r: Option<VenueFields>)
    ensures r.Some? <==> VenueFormComplete(f)
    ensures r.Some? ==>
      && FormItem(f, "name") == Some(r.value.name)
      && FormItem(f, "city") == Some(r.value.city)
      && FormItem(f, "state") == Some(r.value.state)
      && FormItem(f, "address") == Some(r.value.address)
      && FormItem(f, "phone") == Some(r.value.phone)
      && r.value.genres == FormList(f, "genres")
      && FormItem(f, "image_link") == Some(r.value.imageLink)
      && FormItem(f, "website_link") == Some(r.value.websiteLink)
      && FormItem(f, "facebook_link") == Some(r.value.facebookLink)
      && (r.value.seekingTalent <==> FormHas(f, "seeking_talent"))
      && FormItem(f, "seeking_description") == Some(r.value.seekingDescription)
  {
    if VenueFormComplete(f) then
      Some(VenueFields(
        FormItem(f, "name").value,
        FormItem(f, "city").value,
        FormItem(f, "state").value,
        FormItem(f, "address").value,
        FormItem(f, "phone").value,
        FormList(f, "genres"),
        FormItem(f, "image_link").value,
        FormItem(f, "website_link").value,
        FormItem(f, "facebook_link").value,
        FormHas(f, "seeking_talent"),
        FormItem(f, "seeking_description").value))
    else
      None
  }

  /** Reading an artist form, likewise; `seeking_venue` is its key's presence. */
  function ReadArtistForm(f: Form): (r: Option<ArtistFields>)
    ensures r.Some? <==> ArtistFormComplete(f)
    ensures r.Some? ==>
      && FormItem(f, "name") == Some(r.value.name)
      && FormItem(f, "city") == Some(r.value.city)
      && FormItem(f, "state") == Some(r.value.state)
      && FormItem(f, "phone") == Some(r.value.phone)
      && r.value.genres == FormList(f, "genres")
      && FormItem(f, "image_link") == Some(r.value.imageLink)
      && FormItem(f, "website_link") == Some(r.value.websiteLink)
      && FormItem(f, "facebook_link") == Some(r.value.facebookLink)
      && (r.value.seekingVenue <==> FormHas(f, "seeking_venue"))
      && FormItem(f, "seeking_description") == Some(r.value.seekingDescription)
  {
    if ArtistFormComplete(f) then
      Some(ArtistFields(
        FormItem(f, "name").value,
        FormItem(f, "city").value,
        FormItem(f, "state").value,
        FormItem(f, "phone").value,
        FormList(f, "genres"),
        FormItem(f, "image_link").value,
        FormItem(f, "website_link").value,
        FormItem(f, "facebook_link").value,
        FormHas(f, "seeking_venue"),
        FormItem(f, "seeking_description").value))
    else
      None
  }

  /** The venue row the form describes, under key `id`. A submitted text field is never
      NULL: an empty input is stored as the empty string. */
  function NewVenue(id: int, fs: VenueFields): (v: Venue)
    ensures v.id == id && v.name == fs.name && v.genres == fs.genres
    ensures v.city == fs.city && v.state == fs.state && v.address == fs.address && v.phone == fs.phone
    ensures v.imageLink == Some(fs.imageLink) && v.websiteLink == Some(fs.websiteLink)
    ensures v.facebookLink == Some(fs.facebookLink)
    ensures v.seekingTalent == fs.seekingTalent && v.seekingDescription == Some(fs.seekingDescription)
  {
    Venue(id, fs.name, fs.city, fs.state, fs.address, fs.phone, fs.genres,
          Some(fs.imageLink), Some(fs.websiteLink), Some(fs.facebookLink),
          fs.seekingTalent, Some(fs.seekingDescription))
  }

  /** The artist row the form describes, under key `id`. */
  function NewArtist(id: int, fs: ArtistFields): (a: Artist)
    ensures a.id == id && a.name == fs.name && a.genres == fs.genres
    ensures a.city == fs.city && a.state == fs.state && a.phone == fs.phone
    ensures a.imageLink == Some(fs.imageLink) && a.websiteLink == Some(fs.websiteLink)
    ensures a.facebookLink == Some(fs.facebookLink)
    ensures a.seekingVenue == fs.seekingVenue && a.seekingDescription == Some(fs.seekingDescription)
  {
    Artist(id, fs.name, fs.city, fs.state, fs.phone, fs.genres,
           Some(fs.imageLink), Some(fs.websiteLink), Some(fs.facebookLink),
           fs.seekingVenue, Some(fs.seekingDescription))
  }

  /** The assignment `row.<attribute> = value` made for the website: it reaches the stored
      row only when `attribute` is the mapped column `website_link`; any other name sets a
      plain Python attribute that the session never writes. */
  function AssignVenueWebsite(v: Venue, attribute: string, value: string): (r: Venue)
    ensures attribute == "website_link" ==> r == v.(websiteLink := Some(value))
    ensures attribute != "website_link" ==> r == v
  {
    if attribute == "website_link" then v.(websiteLink := Some(value)) else v
  }

  /** The website assignment on an artist row: the same rule as for a venue, written again
      because `Venue` and `Artist` are distinct record types. */
  function AssignArtistWebsite(a: Artist, attribute: string, value: string): (r: Artist)
    ensures attribute == "website_link" ==> r == a.(websiteLink := Some(value))
    ensures attribute != "website_link" ==> r == a
  {
    if attribute == "website_link" then a.(websiteLink := Some(value)) else a
  }

  /** The assignments an edit makes to a loaded venue, the website going to `attribute`:
      the key is kept, every other column is overwritten from the form, and the website is
      overwritten exactly when `attribute` is its column. */
  function EditVenue(v: Venue, fs: VenueFields, attribute: string): (r: Venue)
    ensures attribute == "website_link" ==> r == NewVenue(v.id, fs)
    ensures attribute != "website_link" ==> r == NewVenue(v.id, fs).(websiteLink := v.websiteLink)
  {
    var r := v.(name := fs.name, address := fs.address, city := fs.city, state := fs.state,
                phone := fs.phone, genres := fs.genres, imageLink := Some(fs.imageLink));
    var r := AssignVenueWebsite(r, attribute, fs.websiteLink);
    r.(facebookLink := Some(fs.facebookLink), seekingTalent := fs.seekingTalent,
       seekingDescription := Some(fs.seekingDescription))
  }

  /** The assignments an edit makes to a loaded artist, the website going to `attribute`. */
  function EditArtist(a: Artist, fs: ArtistFields, attribute: string): (r: Artist)
    ensures attribute == "website_link" ==> r == NewArtist(a.id, fs)
    ensures attribute != "website_link" ==> r == NewArtist(a.id, fs).(websiteLink := a.websiteLink)
  {
    var r := a.(name := fs.name, city := fs.city, state := fs.state, phone := fs.phone,
                genres := fs.genres, imageLink := Some(fs.imageLink));
    var r := AssignArtistWebsite(r, attribute, fs.websiteLink);
    r.(facebookLink := Some(fs.facebookLink), seekingVenue := fs.seekingVenue,
       seekingDescription := Some(fs.seekingDescription))
  }

  /** The website attribute the edit handlers assign. */
  const WebsiteAttributeAsWritten: string := "website"
  /** The website attribute that names the column. */
  const WebsiteAttribute: string := "website_link"

  /** With the column's name, an edit is a full overwrite: the edited row depends on the
      old row only through its key. */
  lemma EditIsFullOverwrite(v1: Venue, v2: Venue, fs: VenueFields)
    requires v1.id == v2.id
    ensures EditVenue(v1, fs, WebsiteAttribute) == EditVenue(v2, fs, WebsiteAttribute)
    ensures EditVenue(v1, fs, WebsiteAttribute).websiteLink == Some(fs.websiteLink)
  {
  }

  /** With the column's name, an artist edit is a full overwrite. */
  lemma ArtistEditIsFullOverwrite(a1: Artist, a2: Artist, fs: ArtistFields)
    requires a1.id == a2.id
    ensures EditArtist(a1, fs, WebsiteAttribute) == EditArtist(a2, fs, WebsiteAttribute)
    ensures EditArtist(a1, fs, WebsiteAttribute).websiteLink == Some(fs.websiteLink)
  {
  }

  /** As written, the edit loses the submitted website: a row whose stored website differs
      from the submitted one keeps its own, so two rows that differ only there still differ
      after the same edit. */
  lemma EditAsWrittenKeepsWebsite(v: Venue, fs: VenueFields)
    requires v.websiteLink != Some(fs.websiteLink)
    ensures EditVenue(v, fs, WebsiteAttributeAsWritten).websiteLink == v.websiteLink
    ensures EditVenue(v, fs, WebsiteAttributeAsWritten) != EditVenue(v, fs, WebsiteAttribute)
    ensures EditVenue(v, fs, WebsiteAttributeAsWritten)
      != EditVenue(v.(websiteLink := Some(fs.websiteLink)), fs, WebsiteAttributeAsWritten)
  {
  }

  /** As written, the artist edit loses the submitted website. */
  lemma ArtistEditAsWrittenKeepsWebsite(a: Artist, fs: ArtistFields)
    requires a.websiteLink != Some(fs.websiteLink)
    ensures EditArtist(a, fs, WebsiteAttributeAsWritten).websiteLink == a.websiteLink
    ensures EditArtist(a, fs, WebsiteAttributeAsWritten) != EditArtist(a, fs, WebsiteAttribute)
    ensures EditArtist(a, fs, WebsiteAttributeAsWritten)
      != EditArtist(a.(websiteLink := Some(fs.websiteLink)), fs, WebsiteAttributeAsWritten)
  {
  }

  // ----------------------------------------------------------------------------------
  // The declarative constructor
  // ----------------------------------------------------------------------------------

  /** The mapped attributes of `Venue`. */
  const VenueColumns: set<string> :=
    {"id", "name", "city", "state", "address", "phone", "genres", "image_link", "website_link",
     "facebook_link", "seeking_talent", "seeking_description"}

  /** The mapped attributes of `Artist`. */
  const ArtistColumns: set<string> :=
    {"id", "name", "city", "state", "phone", "genres", "image_link", "website_link",
     "facebook_link", "seeking_venue", "seeking_description"}

  /** The keywords the venue handler passes to `Venue(...)`. */
  const VenueKeywordsAsWritten: set<string> :=
    {"name", "city", "state", "address", "phone", "genres", "image_link", "website",
     "facebook_link", "seeking_talent", "seeking_description"}

  /** The keywords the artist handler passes to `Artist(...)`. */
  const ArtistKeywordsAsWritten: set<string> :=
    {"name", "city", "state", "phone", "genres", "image_link", "website",
     "facebook_link", "seeking_venue", "seeking_description"}

  /** The keywords with the website passed under its column's name. */
  const VenueKeywords: set<string> := VenueKeywordsAsWritten - {"website"} + {"website_link"}
  const ArtistKeywords: set<string> := ArtistKeywordsAsWritten - {"website"} + {"website_link"}

  /** The declarative constructor accepts a call exactly when the class has an attribute
      of every keyword's name (it tests `hasattr`); any other keyword raises `TypeError`.
      `columns` stands for those attributes: the mapped columns are the ones a handler
      passes, and other class attributes such as `query` would pass the test too. */
  predicate ConstructorAccepts(keywords: set<string>, columns: set<string>)
  {
    keywords <= columns
  }

  /** The constructors reject the keywords as written and accept the corrected ones. */
  lemma WebsiteKeywordRejected()
    ensures !ConstructorAccepts(VenueKeywordsAsWritten, VenueColumns)
    ensures !ConstructorAccepts(ArtistKeywordsAsWritten, ArtistColumns)
    ensures ConstructorAccepts(VenueKeywords, VenueColumns)
    ensures ConstructorAccepts(ArtistKeywords, ArtistColumns)
  {
    assert "website" in VenueKeywordsAsWritten && "website" !in VenueColumns;
    assert "website" in ArtistKeywordsAsWritten && "website" !in ArtistColumns;
  }

  // ----------------------------------------------------------------------------------
  // Responses
  // ----------------------------------------------------------------------------------

  /** The flash message of a handler: the success text or the error text. */
  datatype Notice = Listed | NotListed

  datatype Response =
    | Home(notice: Notice)                       // `render_template('pages/home.html')`
    | VenuePage(venueId: int, notice: Notice)    // `redirect(url_for('show_venue', ...))`
    | ArtistPage(artistId: int, notice: Notice)  // `redirect(url_for('show_artist', ...))`
    | DeleteResult(success: bool)                // `jsonify({'success': success})`
    | ServerError                                // an exception escaped the handler: HTTP 500

  // ----------------------------------------------------------------------------------
  // Creating venues and artists
  // ----------------------------------------------------------------------------------

  /** Adding the venue row read from a form and committing: the row gets the next key and
      is stored exactly when its values fit the columns; otherwise the transaction is
      rolled back and nothing changes. */
  method StoreVenue(db: Session, fs: VenueFields) returns (listed: bool)
    requires db.Valid() && db.Idle()
    modifies db
    ensures db.Valid() && db.Idle()
    ensures listed == VenueFits(NewVenue(old(db.committed).nextVenueId, fs))
    ensures db.committed == if listed then
      old(db.committed).(venues := old(db.committed).venues + [NewVenue(old(db.committed).nextVenueId, fs)],
                          nextVenueId := old(db.committed).nextVenueId + 1)
      else old(db.committed)
  {
    ghost var before := db.committed;
    var id := db.AddVenue(NewVenue(0, fs));
    var row := NewVenue(id, fs);
    assert db.pending == before.(venues := before.venues + [row], nextVenueId := id + 1);
    InsertVenueSchema(before, row);
    listed := db.Commit();
    if !listed {
      db.Rollback();
    }
  }

  /** `create_venue_submission()`, the constructor being called with `keywords`. The form is
      read first; a missing key, or a keyword the constructor rejects, raises before any row
      exists, and the `except` clause then names the unbound `venue`: a server error with
      nothing stored. Otherwise the row is added under the next key and committed: it is
      stored exactly when its values fit the columns. */
  method CreateVenueWith(db: Session, f: Form, keywords: set<string>) returns (resp: Response)
    requires db.Valid() && db.Idle()
    modifies db
    ensures db.Valid() && db.Idle()
    ensures ReadVenueForm(f).None? || !ConstructorAccepts(keywords, VenueColumns) ==>
      resp == ServerError && db.committed == old(db.committed)
    ensures ReadVenueForm(f).Some? && ConstructorAccepts(keywords, VenueColumns) ==>
      var row := NewVenue(old(db.committed).nextVenueId, ReadVenueForm(f).value);
      if VenueFits(row) then
        resp == Home(Listed) &&
        db.committed == old(db.committed).(venues := old(db.committed).venues + [row],
                                           nextVenueId := row.id + 1)
      else
        resp == Home(NotListed) && db.committed == old(db.committed)
  {
    var fields := ReadVenueForm(f);
    if fields.None? || !ConstructorAccepts(keywords, VenueColumns) {
      db.Rollback();
      return ServerError;
    }
    var listed := StoreVenue(db, fields.value);
    resp := Home(if listed then Listed else NotListed);
  }

  /** `create_venue_submission()` as written: the `website` keyword makes every request a
      server error, and nothing is ever stored. */
  method CreateVenueSubmissionAsWritten(db: Session, f: Form) returns (resp: Response)
    requires db.Valid() && db.Idle()
    modifies db
    ensures db.Valid() && db.Idle() && db.committed == old(db.committed)
    ensures resp == ServerError
  {
    WebsiteKeywordRejected();
    resp := CreateVenueWith(db, f, VenueKeywordsAsWritten);
  }

  /** `create_venue_submission()` with the website passed as `website_link`: a complete
      form whose values fit the columns adds exactly one venue, under the next key; values
      that do not fit leave the store as it was; a missing key is a server error. */
  method CreateVenueSubmission(db: Session, f: Form) returns (resp: Response)
    requires db.Valid() && db.Idle()
    modifies db
    ensures db.Valid() && db.Idle()
    ensures ReadVenueForm(f).None? ==> resp == ServerError && db.committed == old(db.committed)
    ensures ReadVenueForm(f).Some? ==>
      var row := NewVenue(old(db.committed).nextVenueId, ReadVenueForm(f).value);
      if VenueFits(row) then
        resp == Home(Listed) &&
        db.committed == old(db.committed).(venues := old(db.committed).venues + [row],
                                           nextVenueId := row.id + 1)
      else
        resp == Home(NotListed) && db.committed == old(db.committed)
  {
    WebsiteKeywordRejected();
    resp := CreateVenueWith(db, f, VenueKeywords);
  }

  /** After a venue is created, `Venue.query.get` finds exactly the new row under its key,
      and the venue has no shows yet, so its listing counts no upcoming show. */
  lemma CreatedVenueFound(t: Tables, fs: VenueFields, today: int)
    requires Consistent(t)
    ensures var v := NewVenue(t.nextVenueId, fs);
      var after := t.(venues := t.venues + [v], nextVenueId := t.nextVenueId + 1);
      && v.id in VenueIds(after.venues) && VenueById(after.venues, v.id) == v
      && VenueShows(after.shows, v.id) == []
      && GetMiniVenue(after, v.id, v.name, today).numUpcomingShows == 0
  {
    var v := NewVenue(t.nextVenueId, fs);
    InsertedVenueFound(t, v);
    forall s | s in t.shows
      ensures s.venueId != v.id
    {
      NoShowsAtUndrawnVenue(t, v.id, s);
    }
    FilterNone(t.shows, AtVenue(v.id));
  }

  /** Adding the artist row read from a form and committing: the row gets the next key and
      is stored exactly when its values fit the columns; otherwise the transaction is
      rolled back and nothing changes. */
  method StoreArtist(db: Session, fs: ArtistFields) returns (listed: bool)
    requires db.Valid() && db.Idle()
    modifies db
    ensures db.Valid() && db.Idle()
    ensures listed == ArtistFits(NewArtist(old(db.committed).nextArtistId, fs))
    ensures db.committed == if listed then
      old(db.committed).(artists := old(db.committed).artists + [NewArtist(old(db.committed).nextArtistId, fs)],
                          nextArtistId := old(db.committed).nextArtistId + 1)
      else old(db.committed)
  {
    ghost var before := db.committed;
    var id := db.AddArtist(NewArtist(0, fs));
    var row := NewArtist(id, fs);
    assert db.pending == before.(artists := before.artists + [row], nextArtistId := id + 1);
    InsertArtistSchema(before, row);
    listed := db.Commit();
    if !listed {
      db.Rollback();
    }
  }

  /** `create_artist_submission()`, the constructor being called with `keywords`. */
  method CreateArtistWith(db: Session, f: Form, keywords: set<string>) returns (resp: Response)
    requires db.Valid() && db.Idle()
    modifies db
    ensures db.Valid() && db.Idle()
    ensures ReadArtistForm(f).None? || !ConstructorAccepts(keywords, ArtistColumns) ==>
      resp == ServerError && db.committed == old(db.committed)
    ensures ReadArtistForm(f).Some? && ConstructorAccepts(keywords, ArtistColumns) ==>
      var row := NewArtist(old(db.committed).nextArtistId, ReadArtistForm(f).value);
      if ArtistFits(row) then
        resp == Home(Listed) &&
        db.committed == old(db.committed).(artists := old(db.committed).artists + [row],
                                           nextArtistId := row.id + 1)
      else
        resp == Home(NotListed) && db.committed == old(db.committed)
  {
    var fields := ReadArtistForm(f);
    if fields.None? || !ConstructorAccepts(keywords, ArtistColumns) {
      db.Rollback();
      return ServerError;
    }
    var listed := StoreArtist(db, fields.value);
    resp := Home(if listed then Listed else NotListed);
  }

  /** `create_artist_submission()` as written: every request is a server error, and nothing
      is ever stored. */
  method CreateArtistSubmissionAsWritten(db: Session, f: Form) returns (resp: Response)
    requires db.Valid() && db.Idle()
    modifies db
    ensures db.Valid() && db.Idle() && db.committed == old(db.committed)
    ensures resp == ServerError
  {
    WebsiteKeywordRejected();
    resp := CreateArtistWith(db, f, ArtistKeywordsAsWritten);
  }

  /** `create_artist_submission()` with the website passed as `website_link`. */
  method CreateArtistSubmission(db: Session, f: Form) returns (resp: Response)
    requires db.Valid() && db.Idle()
    modifies db
    ensures db.Valid() && db.Idle()
    ensures ReadArtistForm(f).None? ==> resp == ServerError && db.committed == old(db.committed)
    ensures ReadArtistForm(f).Some? ==>
      var row := NewArtist(old(db.committed).nextArtistId, ReadArtistForm(f).value);
      if ArtistFits(row) then
        resp == Home(Listed) &&
        db.committed == old(db.committed).(artists := old(db.committed).artists + [row],
                                           nextArtistId := row.id + 1)
      else
        resp == Home(NotListed) && db.committed == old(db.committed)
  {
    WebsiteKeywordRejected();
    resp := CreateArtistWith(db, f, ArtistKeywords);
  }

  /** After an artist is created, `Artist.query.get` finds exactly the new row under its
      key, and the artist has no shows yet. */
  lemma CreatedArtistFound(t: Tables, fs: ArtistFields, today: int)
    requires Consistent(t)
    ensures var a := NewArtist(t.nextArtistId, fs);
      var after := t.(artists := t.artists + [a], nextArtistId := t.nextArtistId + 1);
      && a.id in ArtistIds(after.artists) && ArtistById(after.artists, a.id) == a
      && ArtistShows(after.shows, a.id) == []
      && GetMiniArtist(after, a.id, a.name, today).numUpcomingShows == 0
  {
    var a := NewArtist(t.nextArtistId, fs);
    InsertedArtistFound(t, a);
    forall s | s in t.shows
      ensures s.artistId != a.id
    {
      var b :| b in t.artists && b.id == s.artistId;
    }
    FilterNone(t.shows, ByArtist(a.id));
  }

  // ----------------------------------------------------------------------------------
  // Editing venues and artists
  // ----------------------------------------------------------------------------------

  /** `edit_venue_submission(venue_id)`, the website being assigned to `attribute`. An
      unknown key loads `None`, and the first assignment raises; the `except` clause then
      reads the name of `None`: a server error. A missing form key leaves the store as it
      was and redirects with the error notice. Otherwise the loaded row is edited in place
      and committed: the edit is stored exactly when the edited row fits the columns. */
  method EditVenueWith(db: Session, venueId: int, f: Form, attribute: string) returns (resp: Response)
    requires db.Valid() && db.Idle()
    modifies db
    ensures db.Valid() && db.Idle()
    ensures venueId !in VenueIds(old(db.committed).venues) ==>
      resp == ServerError && db.committed == old(db.committed)
    ensures venueId in VenueIds(old(db.committed).venues) && ReadVenueForm(f).None? ==>
      resp == VenuePage(venueId, NotListed) && db.committed == old(db.committed)
    ensures venueId in VenueIds(old(db.committed).venues) && ReadVenueForm(f).Some? ==>
      var k := VenueIndex(old(db.committed).venues, venueId);
      var edited := EditVenue(old(db.committed).venues[k], ReadVenueForm(f).value, attribute);
      if VenueFits(edited) then
        resp == VenuePage(venueId, Listed) &&
        db.committed == old(db.committed).(venues := old(db.committed).venues[k := edited])
      else
        resp == VenuePage(venueId, NotListed) && db.committed == old(db.committed)
  {
    if venueId !in VenueIds(db.pending.venues) {
      db.Rollback();
      return ServerError;
    }
    var k := VenueIndex(db.pending.venues, venueId);
    var fields := ReadVenueForm(f);
    if fields.None? {
      db.Rollback();
      return VenuePage(venueId, NotListed);
    }
    var edited := EditVenue(db.pending.venues[k], fields.value, attribute);
    UpdateVenueSchema(db.committed, k, edited);
    db.UpdateVenue(edited);
    var ok := db.Commit();
    if ok {
      resp := VenuePage(venueId, Listed);
    } else {
      db.Rollback();
      resp := VenuePage(venueId, NotListed);
    }
  }

  /** `edit_venue_submission(venue_id)` as written, assigning `website`. */
  method EditVenueSubmissionAsWritten(db: Session, venueId: int, f: Form) returns (resp: Response)
    requires db.Valid() && db.Idle()
    modifies db
    ensures db.Valid() && db.Idle()
    ensures venueId in VenueIds(old(db.committed).venues) && ReadVenueForm(f).Some? ==>
      var k := VenueIndex(old(db.committed).venues, venueId);
      var stored := old(db.committed).venues[k];
      var edited := NewVenue(venueId, ReadVenueForm(f).value).(websiteLink := stored.websiteLink);
      if VenueFits(edited) then
        resp == VenuePage(venueId, Listed) &&
        db.committed == old(db.committed).(venues := old(db.committed).venues[k := edited])
      else
        resp == VenuePage(venueId, NotListed) && db.committed == old(db.committed)
  {
    resp := EditVenueWith(db, venueId, f, WebsiteAttributeAsWritten);
  }

  /** `edit_venue_submission(venue_id)` assigning `website_link`: the stored row becomes
      exactly the row the form describes, under the same key. */
  method EditVenueSubmission(db: Session, venueId: int, f: Form) returns (resp: Response)
    requires db.Valid() && db.Idle()
    modifies db
    ensures db.Valid() && db.Idle()
    ensures venueId !in VenueIds(old(db.committed).venues) ==>
      resp == ServerError && db.committed == old(db.committed)
    ensures venueId in VenueIds(old(db.committed).venues) && ReadVenueForm(f).None? ==>
      resp == VenuePage(venueId, NotListed) && db.committed == old(db.committed)
    ensures venueId in VenueIds(old(db.committed).venues) && ReadVenueForm(f).Some? ==>
      var k := VenueIndex(old(db.committed).venues, venueId);
      var edited := NewVenue(venueId, ReadVenueForm(f).value);
      if VenueFits(edited) then
        resp == VenuePage(venueId, Listed) &&
        db.committed == old(db.committed).(venues := old(db.committed).venues[k := edited])
      else
        resp == VenuePage(venueId, NotListed) && db.committed == old(db.committed)
  {
    resp := EditVenueWith(db, venueId, f, WebsiteAttribute);
  }

  /** `edit_artist_submission(artist_id)`, the website being assigned to `attribute`. */
  method EditArtistWith(db: Session, artistId: int, f: Form, attribute: string) returns (resp: Response)
    requires db.Valid() && db.Idle()
    modifies db
    ensures db.Valid() && db.Idle()
    ensures artistId !in ArtistIds(old(db.committed).artists) ==>
      resp == ServerError && db.committed == old(db.committed)
    ensures artistId in ArtistIds(old(db.committed).artists) && ReadArtistForm(f).None? ==>
      resp == ArtistPage(artistId, NotListed) && db.committed == old(db.committed)
    ensures artistId in ArtistIds(old(db.committed).artists) && ReadArtistForm(f).Some? ==>
      var k := ArtistIndex(old(db.committed).artists, artistId);
      var edited := EditArtist(old(db.committed).artists[k], ReadArtistForm(f).value, attribute);
      if ArtistFits(edited) then
        resp == ArtistPage(artistId, Listed) &&
        db.committed == old(db.committed).(artists := old(db.committed).artists[k := edited])
      else
        resp == ArtistPage(artistId, NotListed) && db.committed == old(db.committed)
  {
    if artistId !in ArtistIds(db.pending.artists) {
      db.Rollback();
      return ServerError;
    }
    var k := ArtistIndex(db.pending.artists, artistId);
    var fields := ReadArtistForm(f);
    if fields.None? {
      db.Rollback();
      return ArtistPage(artistId, NotListed);
    }
    var edited := EditArtist(db.pending.artists[k], fields.value, attribute);
    UpdateArtistSchema(db.committed, k, edited);
    db.UpdateArtist(edited);
    var ok := db.Commit();
    if ok {
      resp := ArtistPage(artistId, Listed);
    } else {
      db.Rollback();
      resp := ArtistPage(artistId, NotListed);
    }
  }

  /** `edit_artist_submission(artist_id)` as written, assigning `website`. */
  method EditArtistSubmissionAsWritten(db: Session, artistId: int, f: Form) returns (resp: Response)
    requires db.Valid() && db.Idle()
    modifies db
    ensures db.Valid() && db.Idle()
    ensures artistId in ArtistIds(old(db.committed).artists) && ReadArtistForm(f).Some? ==>
      var k := ArtistIndex(old(db.committed).artists, artistId);
      var stored := old(db.committed).artists[k];
      var edited := NewArtist(artistId, ReadArtistForm(f).value).(websiteLink := stored.websiteLink);
      if ArtistFits(edited) then
        resp == ArtistPage(artistId, Listed) &&
        db.committed == old(db.committed).(artists := old(db.committed).artists[k := edited])
      else
        resp == ArtistPage(artistId, NotListed) && db.committed == old(db.committed)
  {
    resp := EditArtistWith(db, artistId, f, WebsiteAttributeAsWritten);
  }

  /** `edit_artist_submission(artist_id)` assigning `website_link`. */
  method EditArtistSubmission(db: Session, artistId: int, f: Form) returns (resp: Response)
    requires db.Valid() && db.Idle()
    modifies db
    ensures db.Valid() && db.Idle()
    ensures artistId !in ArtistIds(old(db.committed).artists) ==>
      resp == ServerError && db.committed == old(db.committed)
    ensures artistId in ArtistIds(old(db.committed).artists) && ReadArtistForm(f).None? ==>
      resp == ArtistPage(artistId, NotListed) && db.committed == old(db.committed)
    ensures artistId in ArtistIds(old(db.committed).artists) && ReadArtistForm(f).Some? ==>
      var k := ArtistIndex(old(db.committed).artists, artistId);
      var edited := NewArtist(artistId, ReadArtistForm(f).value);
      if ArtistFits(edited) then
        resp == ArtistPage(artistId, Listed) &&
        db.committed == old(db.committed).(artists := old(db.committed).artists[k := edited])
      else
        resp == ArtistPage(artistId, NotListed) && db.committed == old(db.committed)
  {
    resp := EditArtistWith(db, artistId, f, WebsiteAttribute);
  }

  // ----------------------------------------------------------------------------------
  // Deleting venues and creating shows
  // ----------------------------------------------------------------------------------

  /** `delete_venue(venue_id)`: the key arrives as text. Text that is not a 32-bit integer
      makes the DELETE raise, which reports failure and changes nothing; any integer deletes
      the venue with that key, if there is one, and its shows, and reports success. */
  method DeleteVenue(db: Session, venueIdText: string) returns (resp: Response)
    requires db.Valid() && db.Idle()
    modifies db
    ensures db.Valid() && db.Idle()
    ensures resp == DeleteResult(ParseInt4(venueIdText).Some?)
    ensures ParseInt4(venueIdText).None? ==> db.committed == old(db.committed)
    ensures ParseInt4(venueIdText).Some? ==>
      db.committed == DeleteVenueCascade(old(db.committed), ParseInt4(venueIdText).value)
    ensures ParseInt4(venueIdText).Some? ==> ParseInt4(venueIdText).value !in VenueIds(db.committed.venues)
    ensures ParseInt4(venueIdText).Some? ==> VenueShows(db.committed.shows, ParseInt4(venueIdText).value) == []
  {
    var venueId := ParseInt4(venueIdText);
    if venueId.None? {
      db.Rollback();
      return DeleteResult(false);
    }
    DeleteVenueCascadeConsistent(db.committed, venueId.value);
    db.DeleteVenue(venueId.value);
    // A cascade of a consistent database satisfies the schema, so this commit succeeds.
    var ok := db.Commit();
    FilterNone(db.committed.shows, AtVenue(venueId.value));
    resp := DeleteResult(ok);
  }

  /** The three values a show form supplies once the database has converted them: the
      artist key, the venue key and the start time. A missing key or a value the database
      cannot convert is `None`. `parseTimestamp` is the database's timestamp input. */
  function ReadShowForm(f: Form, parseTimestamp: string -> Option<Timestamp>): (r: Option<(int, int, Timestamp)>)
    ensures r.Some? ==> FormHas(f, "artist_id") && FormHas(f, "venue_id") && FormHas(f, "start_time")
    ensures r.Some? ==>
      && ParseInt4(FormItem(f, "artist_id").value) == Some(r.value.0)
      && ParseInt4(FormItem(f, "venue_id").value) == Some(r.value.1)
      && parseTimestamp(FormItem(f, "start_time").value) == Some(r.value.2)
    ensures r.None? ==>
      || !FormHas(f, "artist_id") || !FormHas(f, "venue_id") || !FormHas(f, "start_time")
      || ParseInt4(FormItem(f, "artist_id").value).None?
      || ParseInt4(FormItem(f, "venue_id").value).None?
      || parseTimestamp(FormItem(f, "start_time").value).None?
  {
    if !(FormHas(f, "artist_id") && FormHas(f, "venue_id") && FormHas(f, "start_time")) then None
    else
      var artistId := ParseInt4(FormItem(f, "artist_id").value);
      var venueId := ParseInt4(FormItem(f, "venue_id").value);
      var startTime := parseTimestamp(FormItem(f, "start_time").value);
      if artistId.Some? && venueId.Some? && startTime.Some? then
        Some((artistId.value, venueId.value, startTime.value))
      else
        None
  }

  /** Adding a show and committing: the show gets the next key and is stored exactly when
      both keys name existing rows; otherwise the transaction is rolled back and nothing
      changes. */
  method StoreShow(db: Session, artistId: int, venueId: int, startTime: Timestamp) returns (listed: bool)
    requires db.Valid() && db.Idle()
    modifies db
    ensures db.Valid() && db.Idle()
    ensures listed <==> artistId in ArtistIds(old(db.committed).artists) && venueId in VenueIds(old(db.committed).venues)
    ensures db.committed == if listed then
      old(db.committed).(shows := old(db.committed).shows + [Show(old(db.committed).nextShowId, artistId, venueId, startTime)],
                         nextShowId := old(db.committed).nextShowId + 1)
      else old(db.committed)
  {
    var id := db.AddShow(Show(0, artistId, venueId, startTime));
    InsertShowSchema(old(db.committed), Show(id, artistId, venueId, startTime));
    listed := db.Commit();
    if !listed {
      db.Rollback();
    }
  }

  /** `create_show_submission()`: a show is added, under the next key and with exactly the
      submitted artist, venue and start time, exactly when the form is complete, its values
      convert, and both keys name existing rows; otherwise the store is unchanged. Either
      way the home page is rendered. */
  method CreateShowSubmission(db: Session, f: Form, parseTimestamp: string -> Option<Timestamp>) returns (resp: Response)
    requires db.Valid() && db.Idle()
    modifies db
    ensures db.Valid() && db.Idle()
    ensures resp == Home(Listed) <==>
      && ReadShowForm(f, parseTimestamp).Some?
      && ReadShowForm(f, parseTimestamp).value.0 in ArtistIds(old(db.committed).artists)
      && ReadShowForm(f, parseTimestamp).value.1 in VenueIds(old(db.committed).venues)
    ensures resp != Home(Listed) ==> resp == Home(NotListed) && db.committed == old(db.committed)
    ensures resp == Home(Listed) ==>
      var values := ReadShowForm(f, parseTimestamp).value;
      var show := Show(old(db.committed).nextShowId, values.0, values.1, values.2);
      db.committed == old(db.committed).(shows := old(db.committed).shows + [show],
                                         nextShowId := old(db.committed).nextShowId + 1)
  {
    var values := ReadShowForm(f, parseTimestamp);
    if values.None? {
      db.Rollback();
      return Home(NotListed);
    }
    var (artistId, venueId, startTime) := values.value;
    var listed := StoreShow(db, artistId, venueId, startTime);
    resp := Home(if listed then Listed else NotListed);
  }
}
