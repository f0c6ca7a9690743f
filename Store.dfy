/** The listing store as the server holds it: one object owning the in-memory
    collection and the data file it is mirrored to. Each handler's logic is a
    method; the HTTP layer that maps outcomes to status codes is not modelled. */
module Store {
  import opened Listings

  class Marketplace {
    /** The in-memory collection, in insertion order. */
    var listings: seq<Listing>
    /** What a fresh load of the data file would give. */
    var disk: StorageRead

    /** Start-up: the collection is whatever the data file held, or the demo
        listings. Nothing is written back until the first change. */
    constructor (read: StorageRead, now1: int, now2: int)
      ensures listings == Load(read, now1, now2)
      ensures disk == read
    {
      listings := Load(read, now1, now2);
      disk := read;
    }

    /** GET /api/marketplace: the collection as it stands. */
    method List() returns (all: seq<Listing>)
      ensures all == listings
    {
      all := listings;
    }

    /** GET /api/status: the item count. */
    method Status() returns (items: nat)
      ensures items == |listings|
    {
      items := |listings|;
    }

    /** Rewrites the data file with the whole collection. `writeOk` is whether
        the file system accepted the write; a failure is reported, not raised,
        and the collection is never touched. */
    method Save(writeOk: bool) returns (saved: bool)
      modifies this`disk
      ensures saved == writeOk
      ensures disk == if writeOk then Stored(listings) else old(disk)
    {
      saved := writeOk;
      if writeOk {
        disk := Stored(listings);
      }
    }

    /** POST /api/marketplace. `idTime` and `stampTime` are the two clock
        readings the handler takes; the save result is ignored, so a failed
        write leaves the collection changed and the file behind. */
    method Create(body: Listing, idTime: nat, stampTime: nat, writeOk: bool) returns (outcome: CreateOutcome)
      modifies this
      ensures var r := AddListing(old(listings), body, idTime, stampTime);
        outcome == r.outcome && listings == r.after
      ensures outcome == InvalidInput ==> listings == old(listings)
      ensures outcome.Created? ==> listings == old(listings) + [outcome.item]
      ensures disk == if outcome.Created? && writeOk then Stored(listings) else old(disk)
    {
      var item := Stamp(body, idTime, stampTime);
      if !HasRequiredFields(item) {
        return InvalidInput;
      }
      listings := listings + [item];
      var _ := Save(writeOk);
      outcome := Created(item);
    }

    /** DELETE /api/marketplace/:id?userId=... */
    method Remove(id: string, userId: Option<string>, writeOk: bool) returns (outcome: RemoveOutcome)
      modifies this
      ensures var r := RemoveListing(old(listings), id, userId);
        outcome == r.outcome && listings == r.after
      ensures outcome != Removed ==> listings == old(listings)
      ensures outcome == Removed ==> |listings| == |old(listings)| - 1
      ensures disk == if outcome == Removed && writeOk then Stored(listings) else old(disk)
    {
      var i := FindIndex(listings, id);
      if i == -1 {
        return NotFound;
      }
      if listings[i].sellerId != userId {
        return Forbidden;
      }
      listings := Splice(listings, i);
      var _ := Save(writeOk);
      outcome := Removed;
    }
  }

  /** A verification client of the store: its assertions follow from the
      method contracts alone. */
  method Scenarios(now1: int, now2: int, t: nat)
  {
    var m := new Marketplace(Absent, now1, now2);
    var items := m.Status();
    assert items == 2;

    var r := m.Remove("demo_1", Some("wrong_user"), true);
    assert r == Forbidden;
    r := m.Remove("demo_3", Some("user_123"), true);
    assert r == NotFound;
    r := m.Remove("demo_1", Some("user_123"), true);
    assert r == Removed;
    items := m.Status();
    assert items == 1 && m.disk == Stored(m.listings);

    var body := Listing(None, true, Some(40.0), Some("u1"), None, None);
    var c := m.Create(body, t, t, false);
    assert c.Created? && c.item.globalId == Some(GlobalId("u1", t));
    assert c.item.timestamp == Some(t);
    items := m.Status();
    assert items == 2 && m.disk != Stored(m.listings);

    var free := Listing(None, true, Some(0.0), Some("u1"), None, None);
    c := m.Create(free, t, t, true);
    assert c == InvalidInput;
  }
}
