/** The database as the request handlers drive it through `db.session`: a committed state,
    and the unit of work a request builds on top of it with `add`, attribute assignments and
    bulk deletes, which `commit` makes permanent or `rollback` throws away. */
module Store {
  import opened Common
  import opened Models

  class Session {
    /** The tables as stored. */
    var committed: Tables
    /** The tables as the current transaction sees them. */
    var pending: Tables

    ghost predicate Valid()
      reads this
    {
      Consistent(committed) && KeysOrdered(pending)
    }

    /** No transaction is in progress: what the session sees is what is stored. */
    predicate Idle()
      reads this
    {
      pending == committed
    }

    /** A new, empty database. */
    constructor ()
      ensures Valid() && Idle() && committed == EmptyTables
    {
      committed := EmptyTables;
      pending := EmptyTables;
    }

    /** `session.add(venue)`: the row joins the transaction under the next key of the
        `venues` sequence. */
    method AddVenue(v: Venue) returns (id: int)
      requires Valid()
      modifies this
      ensures Valid() && committed == old(committed)
      ensures id == old(pending).nextVenueId
      ensures pending == old(pending).(venues := old(pending).venues + [v.(id := id)], nextVenueId := id + 1)
    {
      id := pending.nextVenueId;
      AppendKeepsIncreasing(pending.venues, v.(id := id), VenueKey);
      pending := pending.(venues := pending.venues + [v.(id := id)], nextVenueId := id + 1);
    }

    /** `session.add(artist)`. */
    method AddArtist(a: Artist) returns (id: int)
      requires Valid()
      modifies this
      ensures Valid() && committed == old(committed)
      ensures id == old(pending).nextArtistId
      ensures pending == old(pending).(artists := old(pending).artists + [a.(id := id)], nextArtistId := id + 1)
    {
      id := pending.nextArtistId;
      AppendKeepsIncreasing(pending.artists, a.(id := id), ArtistKey);
      pending := pending.(artists := pending.artists + [a.(id := id)], nextArtistId := id + 1);
    }

    /** `session.add(show)`. */
    method AddShow(s: Show) returns (id: int)
      requires Valid()
      modifies this
      ensures Valid() && committed == old(committed)
      ensures id == old(pending).nextShowId
      ensures pending == old(pending).(shows := old(pending).shows + [s.(id := id)], nextShowId := id + 1)
    {
      id := pending.nextShowId;
      AppendKeepsIncreasing(pending.shows, s.(id := id), ShowKey);
      pending := pending.(shows := pending.shows + [s.(id := id)], nextShowId := id + 1);
    }

    /** The field assignments made to a loaded venue: its row in the transaction is replaced;
        its key does not change. */
    method UpdateVenue(v: Venue)
      requires Valid() && v.id in VenueIds(pending.venues)
      modifies this
      ensures Valid() && committed == old(committed)
      ensures pending == old(pending).(venues := old(pending).venues[VenueIndex(old(pending).venues, v.id) := v])
    {
      var k := VenueIndex(pending.venues, v.id);
      var venues := pending.venues[k := v];
      assert forall w :: w in venues ==> w == v || w in pending.venues;
      pending := pending.(venues := venues);
    }

    /** The field assignments made to a loaded artist. */
    method UpdateArtist(a: Artist)
      requires Valid() && a.id in ArtistIds(pending.artists)
      modifies this
      ensures Valid() && committed == old(committed)
      ensures pending == old(pending).(artists := old(pending).artists[ArtistIndex(old(pending).artists, a.id) := a])
    {
      var k := ArtistIndex(pending.artists, a.id);
      var artists := pending.artists[k := a];
      assert forall w :: w in artists ==> w == a || w in pending.artists;
      pending := pending.(artists := artists);
    }

    /** `Venue.query.filter_by(id=venueId).delete()`: the DELETE runs in the transaction and
        the database cascades it to the venue's shows. */
    method DeleteVenue(venueId: int)
      requires Valid()
      modifies this
      ensures Valid() && committed == old(committed)
      ensures pending == DeleteVenueCascade(old(pending), venueId)
    {
      FilterKeepsIncreasing(pending.venues, (v: Venue) => v.id != venueId, VenueKey);
      FilterKeepsIncreasing(pending.shows, (s: Show) => s.venueId != venueId, ShowKey);
      pending := DeleteVenueCascade(pending, venueId);
    }

    /** `session.commit()`: the transaction's tables become the stored ones when they satisfy
        the schema; otherwise the commit raises and nothing is stored. */
    method Commit() returns (ok: bool)
      requires Valid()
      modifies this
      ensures Valid() && pending == old(pending)
      ensures ok == SatisfiesSchema(old(pending))
      ensures committed == if ok then old(pending) else old(committed)
    {
      ok := SatisfiesSchema(pending);
      if ok {
        committed := pending;
      }
    }

    /** `session.rollback()`: the transaction's changes are thrown away. */
    method Rollback()
      requires Valid()
      modifies this
      ensures Valid() && Idle() && committed == old(committed)
    {
      pending := committed;
    }
  }
}
