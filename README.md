# fyyur booking directory: a Dafny model

fyyur is a small Flask and SQLAlchemy site that lists music venues, artists and the shows
that bring them together. This project models its core in Dafny and proves properties of
that model:

- the three tables and their schema (`models.py`): record shapes, required and nullable
  columns, `varchar` length bounds, foreign keys with `ON DELETE CASCADE`;
- the session the request handlers drive (`db.session`): a committed state plus a
  transaction that `add`, field assignments and bulk deletes change, and that `commit`
  stores when the schema holds and `rollback` throws away;
- the aggregation layer (`services.py`): the area list with duplicates removed, venues
  grouped under their area, the case-insensitive name search, the upcoming-show counts,
  the past/upcoming split of a subject's shows, the detail pages, and the show list;
- the write handlers (`controllers.py`): creating, editing and deleting venues and
  artists, and creating shows, each ending in a commit or a rollback.

The modules are `Common` (filters, duplicate removal, key order), `Text` (lower-casing,
Python's `split`, decimal text), `Postgres` (the server's `integer` input, array text
output and `LIKE`), `Models`, `Store` (class `Session`), `Services` and `Controllers`.

The clock is a parameter: `today` is a day number and a `timestamp` is a day number plus
microseconds since midnight. Two rules for "upcoming" appear in the source, and both are
modelled as written:

- the listing counts compare `start_time > today`, where the date stands for the midnight
  that starts it;
- the detail pages compare `start_time.date() >= today`.

The two rules disagree exactly for a show that starts at midnight today
(`Services.UpcomingRulesDiffer`, `Services.CountRulesCompared`).

A query's rows are read in primary-key order. Every table is kept in key order, and keys
are drawn from a per-table counter.

`get_full_venue` and `get_full_artist` dereference the lookup without checking it, so the
model requires the key to exist there. The edit handlers also dereference without a
check, but their `except` clause turns the resulting error into a server error. The model
follows that code path and returns `ServerError` for an unknown key.

`format_genres` (services.py:13-14) parses a string. The `genres` column, however, is
declared `ARRAY(String)` (models.py:23, 42), and SQLAlchemy loads such a column as a
Python list, on which `[1:-1].split(',')` raises. The model does not follow that path: it
reads the column in its PostgreSQL text form, `{a,b,"c d"}`, and applies the string
parser to that text (see "Left out").

## Model

| member | source | states |
|---|---|---|
| Common.FirstOccurrences | services.py:29-32 | the loop's result holds exactly the elements of its input |
| Common.FirstOccurrencesDistinct | services.py:29-32 | the `if area not in areas` test leaves no area twice |
| Common.FirstOccurrencesOrdered | services.py:29-32 | the kept areas appear in the order of their first occurrence in the input |
| Text.Lower | services.py:44 | lower-casing keeps the length, leaves no capital letter, turns each capital into its small letter and keeps every other character in place |
| Text.LowerWithoutCapitals | services.py:44 | a text without capital letters is its own lower-case form |
| Text.LowerIdempotent | services.py:44 | lower-casing an already lowered text changes nothing |
| Text.Split | services.py:14 | `split(',')` gives one more piece than there are commas, and no piece holds a comma |
| Text.Inner | services.py:14 | `s[1:-1]` drops the first and the last character, and gives the empty string for texts shorter than two |
| Text.JoinSplit | services.py:14 | joining the pieces of a split with the separator gives back the text |
| Text.SplitJoin | services.py:14 | splitting a join of comma-free pieces gives back the pieces |
| Postgres.ParseInt4 | controllers.py:146 | the text key the delete route passes is accepted exactly when it is an optional sign followed by at least one digit and the value is within the 32-bit `integer` range, and then it reads as that signed decimal value |
| Postgres.ParseInt4Examples | controllers.py:146 | `+5` and `007` are read as 5 and 7; a bare sign and trailing garbage are refused |
| Postgres.ParseIntText | controllers.py:133-146 | the decimal text of any 32-bit integer reads back as that integer |
| Postgres.LikeContains | services.py:44 | `contains` as `LIKE '%' + term + '%'` matches exactly the names containing a wildcard-free term |
| Postgres.UnderscoreIsAWildcard | services.py:44 | the pattern for the term `a_c` matches `abc`, which does not contain `a_c` |
| Models.VenueById | services.py:68 | `Venue.query.get(id)` returns a row of the table with that key |
| Models.ArtistById | services.py:121 | `Artist.query.get(id)` returns a row of the table with that key |
| Models.VenueIndex | controllers.py:281 | the position of the loaded venue, whose row has the key |
| Models.ArtistIndex | controllers.py:230 | the position of the loaded artist, whose row has the key |
| Models.DeleteVenueCascade | models.py:67-68 | deleting a venue removes exactly that venue and the shows whose `venue_id` matches; other rows and the artists are unchanged |
| Models.DeleteArtistCascade | models.py:63-64 | deleting an artist removes exactly that artist and the shows whose `artist_id` matches; the venues are unchanged |
| Models.DeleteVenueCascadeConsistent | models.py:67-68 | the cascade keeps a consistent database consistent: no show is left pointing at the deleted venue |
| Models.DeleteArtistCascadeConsistent | models.py:63-64 | the cascade keeps a consistent database consistent |
| Models.DeletedVenueShowsNotFound | models.py:67-68 | after a venue is deleted, no show of it can be found by its key |
| Models.DeletedArtistShowsNotFound | models.py:63-64 | after an artist is deleted, no show of it can be found by its key |
| Models.InsertVenueSchema | models.py:14-28 | a venue added under the next key keeps the schema exactly when its values fit the column bounds |
| Models.InsertArtistSchema | models.py:37-50 | an artist added under the next key keeps the schema exactly when its values fit the column bounds |
| Models.InsertShowSchema | models.py:59-69 | a show added under the next key keeps the schema exactly when both its foreign keys name existing rows |
| Models.ReplaceVenueKeepsIds | models.py:17 | replacing a venue row by one with the same primary key keeps the set of keys |
| Models.ReplaceArtistKeepsIds | models.py:40 | replacing an artist row by one with the same primary key keeps the set of keys |
| Models.UpdateVenueSchema | models.py:14-28 | overwriting a venue row in place keeps the schema exactly when the new values fit the bounds |
| Models.UpdateArtistSchema | models.py:37-50 | overwriting an artist row in place keeps the schema exactly when the new values fit the bounds |
| Models.InsertedVenueFound | models.py:17 | a venue added under the next key is the one row found under that key |
| Models.InsertedArtistFound | models.py:40 | an artist added under the next key is the one row found under that key |
| Models.NoShowsAtUndrawnVenue | models.py:67-68 | no show of a consistent database refers to a venue key not yet drawn |
| Store.Session.constructor | models.py:7 | a new database is empty and consistent, with no transaction open |
| Store.Session.AddVenue | controllers.py:123 | `session.add` puts the row in the transaction under the next key and advances that key; the stored tables are unchanged |
| Store.Session.AddArtist | controllers.py:342 | the same for an artist |
| Store.Session.AddShow | controllers.py:395 | the same for a show |
| Store.Session.UpdateVenue | controllers.py:281-292 | the field assignments replace the loaded venue's row in the transaction, keeping its position and key |
| Store.Session.UpdateArtist | controllers.py:230-240 | the field assignments replace the loaded artist's row in the transaction |
| Store.Session.DeleteVenue | controllers.py:146 | the bulk delete applies the cascade to the transaction's tables |
| Store.Session.Commit | controllers.py:124 | the commit succeeds exactly when the transaction's tables satisfy the schema, and then stores them; otherwise nothing is stored |
| Store.Session.Rollback | controllers.py:127 | the rollback discards the transaction, leaving the stored tables as they were |
| Services.FormatGenres | services.py:13-14 | the pieces number the inner text's commas plus one, hold no comma, and joined with commas give back the inner text |
| Services.FormatGenresOfArrayText | services.py:13-14 | on the text of a non-empty array of plain genre names, the parser gives back the names |
| Services.FormatGenresOfEmptyArray | services.py:13-14 | on the text of an empty array, the parser gives one empty genre |
| Services.FormatGenresKeepsQuotes | services.py:13-14 | a genre name that the array text quotes keeps its quotes in the parsed list |
| Services.UpcomingRulesDiffer | services.py:23 | a show the count rule calls upcoming is upcoming by the date rule; the two differ exactly at midnight today |
| Services.VenueShows | services.py:49 | the venue's shows are exactly the rows whose `venue_id` matches |
| Services.ArtistShows | services.py:102 | the artist's shows are exactly the rows whose `artist_id` matches |
| Services.GetMiniVenue | services.py:16-25 | the listing entry carries the venue's key and name; its count is at most the venue's number of shows |
| Services.GetMiniArtist | services.py:82-91 | the listing entry carries the artist's key and name; its count is at most the artist's number of shows |
| Services.MiniVenueCountsShows | services.py:16-25 | `num_upcoming_shows` is the number of the venue's shows that start after midnight today |
| Services.MiniArtistCountsShows | services.py:82-91 | `num_upcoming_shows` is the number of the artist's shows that start after midnight today |
| Services.CountRulesCompared | services.py:23 | the count never exceeds the detail page's upcoming count, and the two are equal exactly when no show starts at midnight today |
| Services.LocationsHoldVenueLocations | services.py:28 | a pair is among them exactly when some venue is located there |
| Services.GetAreas | services.py:27-33 | the areas are the distinct (city, state) pairs, each once, in the order of the first venue that has it |
| Services.MiniVenueListed | services.py:38-39 | a venue's entry is listed exactly when the venue passes the filter |
| Services.MiniArtistListed | services.py:97-98 | an artist's entry is listed exactly when the artist passes the filter |
| Services.MiniVenuesOnlySelected | services.py:38-39 | every listed entry belongs to a venue that passes the filter |
| Services.MiniArtistsOnlySelected | services.py:97-98 | every listed entry belongs to an artist that passes the filter |
| Services.GetAllVenues | services.py:35-41 | the groups are the distinct areas in first-occurrence order; each group lists the venues of its area; a venue is listed under a group exactly when it is located in that group's area |
| Services.GroupsListVenues | services.py:35-41 | every venue is listed under exactly the group of its own area |
| Services.SearchVenues | services.py:43-46 | the count is the number of results, and every result is a venue whose lowered name contains the lowered term |
| Services.SearchVenuesAsWritten | services.py:43-46 | the same, with the term used as a `LIKE` pattern |
| Services.SearchArtists | services.py:96-99 | the count is the number of results, and every result is an artist whose lowered name contains the lowered term |
| Services.SearchArtistsAsWritten | services.py:96-99 | the same, with the term used as a `LIKE` pattern |
| Services.SearchVenuesFinds | services.py:43-46 | a venue is in the results exactly when its lowered name contains the lowered term |
| Services.SearchArtistsFinds | services.py:96-99 | an artist is in the results exactly when its lowered name contains the lowered term |
| Services.SearchVenuesAsWrittenFinds | services.py:43-46 | as written, a venue is listed exactly when its lowered name matches the LIKE pattern `%term%` built from the lowered term, so `%` and `_` in the term act as wildcards |
| Services.SearchArtistsAsWrittenFinds | services.py:96-99 | as written, an artist is listed exactly when its lowered name matches the LIKE pattern built from the lowered term |
| Services.SearchPercentListsEveryVenue | services.py:43-46 | as written, the search term `%` lists every venue |
| Services.LowerKeepsNoWildcards | services.py:44 | lower-casing a term without wildcards adds none |
| Services.NameMatchesAgree | services.py:44 | for a term without `%`, `_` or backslash, the `LIKE` match is the substring match |
| Services.SearchVenuesAgree | services.py:43-46 | for such a term, the search as written gives the intended result |
| Services.SearchArtistsAgree | services.py:96-99 | for such a term, the artist search as written gives the intended result |
| Services.SearchUnderscoreCounterexample | services.py:44 | searching `a_c` finds the venue `abc` as written, and finds nothing as intended |
| Services.SearchArtScenario | services.py:96-99 | searching `art` among "Carter Quartet" and "Zoe" returns exactly one result, "Carter Quartet" |
| Services.ArtistEntryOf | services.py:53-59 | a show's entry carries its artist key and start time |
| Services.VenueEntryOf | services.py:106-112 | a show's entry carries its venue key and start time |
| Services.ArtistEntryNamesArtist | services.py:53-57 | the entry's name and image are those of the artist row the show refers to |
| Services.VenueEntryNamesVenue | services.py:106-110 | the entry's name and image are those of the venue row the show refers to |
| Services.ArtistEntriesSnoc | services.py:52-63 | appending a show appends its entry |
| Services.VenueEntriesSnoc | services.py:105-116 | appending a show appends its entry |
| Services.ArtistEntriesOfFilter | services.py:60-63 | every selected show has its entry in the list, and every entry in the list comes from a selected show |
| Services.VenueEntriesOfFilter | services.py:113-116 | every selected show has its entry in the list, and every entry in the list comes from a selected show |
| Services.SplitPartitions | services.py:60-63 | the past and upcoming lists partition the shows: lengths add up, together they hold each show once, and each keeps the shows' order |
| Services.ArtistSplitStep | services.py:53-63 | taking in one more show extends the list its date calls for by that show's entry and leaves the other list as it was |
| Services.SplitArtistEntries | services.py:52-63 | walking the shows, the upcoming list is the entries of the shows dated today or later and the past list the entries of the others, both in show order |
| Services.VenueSplitStep | services.py:106-116 | the same step for venue entries |
| Services.SplitVenueEntries | services.py:105-116 | the same walk for an artist's shows, yielding venue entries |
| Services.ArtistSplitSpec | services.py:60-63 | the two lists' lengths sum to the number of shows; every show's entry lands in the list its date calls for, and every listed entry comes from a show whose date matches that list |
| Services.VenueSplitSpec | services.py:113-116 | the same partition for venue entries |
| Services.GetShowsWithArtist | services.py:48-65 | the upcoming list holds the entries of the venue's shows dated today or later and the past list the others, both in show order, with lengths summing to the venue's show count |
| Services.GetShowsWithVenues | services.py:101-118 | the same split of the artist's shows |
| Services.GetFullVenue | services.py:67-76 | the page shows the venue with that key and its parsed genres; each count is its list's length; the counts sum to the venue's shows; each show lands in the list its date calls for |
| Services.GetFullArtist | services.py:120-130 | the same for the artist |
| Services.VenueShowsCountRows | services.py:49 | the venue's show list has one element per matching row |
| Services.ArtistShowsCountRows | services.py:102 | the artist's show list has one element per matching row |
| Services.MiniVenueAgainstDetail | services.py:23 | the listing's count is at most the detail page's upcoming count, equal when no show starts at midnight today |
| Services.MiniArtistAgainstDetail | services.py:89 | the same for an artist |
| Services.ListingOf | services.py:139-144 | a show's listing carries the show's id, keys and start time, the name of the venue it refers to, and the name and image of the artist it refers to |
| Services.GetAllShows | services.py:136-145 | one listing per show, in table order, each the listing of that show |
| Services.AllArtistsListed | services.py:93-94 | `get_all_artists` lists the key and name of every artist and of nothing else |
| Services.AllArtistsOrderedByKey | services.py:94 | the artist list is ordered by key |
| Controllers.FirstValueAt | controllers.py:111 | the first value under a key is the value of the earliest pair with that key |
| Controllers.FormItem | controllers.py:111 | `request.form[key]` exists exactly when the key was submitted, and is its first value |
| Controllers.FormList | controllers.py:116 | `getlist('genres')` holds the values of the pairs submitted under `genres`, one per pair, in submission order, repeats included |
| Controllers.ReadVenueForm | controllers.py:110-121 | the form reads exactly when every key read with `[...]` is present; each field comes from the key of the same name; the genres are the full `genres` list; `seeking_talent` is true exactly when its key is present |
| Controllers.ReadArtistForm | controllers.py:330-340 | the same for an artist, with `seeking_venue` |
| Controllers.NewVenue | controllers.py:110-122 | the new row carries the given key and fills every column from the form field of the same name; the optional text columns hold the submitted text, never NULL |
| Controllers.NewArtist | controllers.py:330-341 | the new row carries the given key and fills every column from the form field of the same name; the optional text columns hold the submitted text, never NULL |
| Controllers.EditVenue | controllers.py:281-292 | the edited row is the row the form describes under the same key, except that its website is kept unless the column is assigned |
| Controllers.EditArtist | controllers.py:230-240 | the same for an artist |
| Controllers.EditIsFullOverwrite | controllers.py:281-292 | assigning the column, the edit is a full overwrite: the result depends on the old row only through its key |
| Controllers.ArtistEditIsFullOverwrite | controllers.py:230-240 | the same for an artist |
| Controllers.EditAsWrittenKeepsWebsite | controllers.py:289 | as written, the stored website survives the edit, so the edit is not a full overwrite |
| Controllers.ArtistEditAsWrittenKeepsWebsite | controllers.py:237 | the same for an artist |
| Controllers.WebsiteKeywordRejected | controllers.py:118 | the constructors reject the keywords as written (`website` is no column) and accept them with `website_link` |
| Controllers.StoreVenue | controllers.py:123-127 | the row gets the next venue key and is stored exactly when it fits the columns; otherwise the transaction is rolled back and the store is unchanged |
| Controllers.CreateVenueWith | controllers.py:109-131 | a missing form key or a rejected keyword is a server error that stores nothing; otherwise exactly one venue is added under the next key when it fits the columns, and nothing changes when it does not |
| Controllers.CreateVenueSubmissionAsWritten | controllers.py:109-131 | every request is a server error and the stored tables are unchanged |
| Controllers.CreateVenueSubmission | controllers.py:109-131 | with `website_link`, a complete form adds exactly the row it describes when it fits, and otherwise leaves the store unchanged |
| Controllers.CreatedVenueFound | controllers.py:123-124 | the created venue is found under its key, has no shows, and its listing counts no upcoming show |
| Controllers.StoreArtist | controllers.py:342-346 | the same for an artist row |
| Controllers.CreateArtistWith | controllers.py:329-350 | the same as for venues |
| Controllers.CreateArtistSubmissionAsWritten | controllers.py:329-350 | every request is a server error and the stored tables are unchanged |
| Controllers.CreateArtistSubmission | controllers.py:329-350 | with `website_link`, a complete form adds exactly the row it describes when it fits |
| Controllers.CreatedArtistFound | controllers.py:342-343 | the created artist is found under its key and has no shows |
| Controllers.EditVenueWith | controllers.py:280-300 | an unknown key is a server error; a missing form key redirects with the error notice and changes nothing; otherwise the row is replaced by its edit when that fits, and nothing changes when it does not |
| Controllers.EditVenueSubmissionAsWritten | controllers.py:280-300 | a stored edit keeps the old website and takes every other column from the form |
| Controllers.EditVenueSubmission | controllers.py:280-300 | with `website_link`, a stored edit is exactly the row the form describes, under the same key |
| Controllers.EditArtistWith | controllers.py:229-248 | the same as for venues |
| Controllers.EditArtistSubmissionAsWritten | controllers.py:229-248 | a stored edit keeps the old website |
| Controllers.EditArtistSubmission | controllers.py:229-248 | with `website_link`, a stored edit is exactly the row the form describes |
| Controllers.DeleteVenue | controllers.py:144-156 | success is reported exactly when the key text is an integer; then the cascade is stored and no venue or show with that key remains; otherwise nothing changes |
| Controllers.ReadShowForm | controllers.py:390-394 | the three values are present and convert exactly when the result is defined, and it carries the converted values |
| Controllers.StoreShow | controllers.py:395-399 | the show gets the next show key and is stored exactly when its artist and venue keys name existing rows; otherwise the store is unchanged |
| Controllers.CreateShowSubmission | controllers.py:389-403 | a show with exactly the submitted artist, venue and start time is added under the next key exactly when the form converts and both keys exist; otherwise nothing changes |

## Left out

- `server.py`, template rendering, flash texts, redirect URLs and the JSON encoding: a
  response is modelled only as the page it leads to and whether the notice reports
  success.
- The GET form handlers, the read-only routes (they call the services modelled here), the
  404 and 500 handlers, `format_datetime` and the logging setup.
- `db.session.close()`, connection handling, and concurrent requests. A database failure
  other than a schema violation is not modelled.
- The SQL engine itself: queries are modelled as filters over tables kept in key order, and
  a query without `ORDER BY` is assumed to return rows in key order.
- The `str(start_time)` rewrite in `get_shows_with_*` (services.py:64, 117): entries keep
  the timestamp value.
- The `to_dict`/`vars` reflection, the in-place change of the loaded row's `genres` in
  `get_full_*` (services.py:69, 122, never committed) and the `print` call (services.py:129).
- `date.today()`: `today` is a parameter. Parsing a timestamp from text is the parameter
  `parseTimestamp` of `Controllers.CreateShowSubmission`.
- Postgres.ParseInt4: leading and trailing blanks and the newer underscore and non-decimal
  forms of `integer` input are not accepted.
- Services.GetFullVenue and Services.GetFullArtist: they assume that `genres` reaches
  `format_genres` as the column's text form. As declared, the column is loaded as a list,
  and `format_genres` then raises `AttributeError`, so the detail pages as written fail
  for every row; that failure is not modelled.
- Text.Lower: only the ASCII letters A to Z are lowered. Python's `str.lower` and
  PostgreSQL's `lower()` under a UTF-8 locale also lower other letters (`Ü` to `ü`), so a
  search for `über` finds `Über Hall` in the source but not in the model.
- Models.VenueFits and Models.ArtistFits: a value longer than its `varchar(n)` bound is
  refused. PostgreSQL stores such a value when every character past the bound is a
  blank, truncating the blanks, so such a row is stored by the source and refused by
  the model.
- Models.Tables: the key counters are unbounded integers. The `serial` keys are 32-bit, so
  the source fails to insert once a table's sequence passes 2147483647; running out of keys
  is not modelled.
- Store.Session.Rollback: a key drawn by a rolled-back insert is reused by the next insert;
  a PostgreSQL sequence would skip it, so the model's keys have no gaps.
- Services.GetMiniVenue and Services.GetMiniArtist: their own contracts only bound the
  count; the exact count is stated by Services.MiniVenueCountsShows and
  Services.MiniArtistCountsShows.
- Controllers.EditVenueSubmissionAsWritten and Controllers.EditArtistSubmissionAsWritten:
  they state only the outcome of a complete form for an existing key; the other outcomes
  are those of Controllers.EditVenueWith and Controllers.EditArtistWith.

## Findings

| source | as written | input that shows it | evidently intended | confidence | as-written member | corrected member |
|---|---|---|---|---|---|---|
| controllers.py:118 | `Venue(..., website=...)` passes a keyword that is not a column, so the constructor raises; the `except` clause then reads the unbound `venue` | any complete venue form | pass `website_link=`, so that the venue is created | not executed | Controllers.CreateVenueSubmissionAsWritten | Controllers.CreateVenueSubmission |
| controllers.py:337 | `Artist(..., website=...)` raises in the same way | any complete artist form | pass `website_link=`, so that the artist is created | not executed | Controllers.CreateArtistSubmissionAsWritten | Controllers.CreateArtistSubmission |
| controllers.py:289 | `venue.website = ...` sets a plain attribute, so the stored `website_link` never changes | a venue stored with website `a`, edited with website `b` | assign `venue.website_link`, so that the edit overwrites every column | not executed | Controllers.EditAsWrittenKeepsWebsite | Controllers.EditIsFullOverwrite |
| controllers.py:237 | `artist.website = ...` leaves the stored `website_link` unchanged | an artist stored with website `a`, edited with website `b` | assign `artist.website_link` | not executed | Controllers.ArtistEditAsWrittenKeepsWebsite | Controllers.ArtistEditIsFullOverwrite |
| services.py:44 | the term goes into `LIKE` unescaped, so `_` and `%` act as wildcards | term `a_c`, venue named `abc` | match the term as a plain substring (`autoescape=True`) | not executed | Services.SearchUnderscoreCounterexample | Services.SearchVenuesFinds |
