/**
 * The MongoDB-backed store (the db/mongodb package) over in-memory collections.
 * Each collection is a sequence in storage order. FindOne and UpdateOne act
 * on the first record, in storage order, whose "id" matches. Failures the
 * driver reports (network, server) are parameters of each call.
 */
module MongoDb {
  import opened Wrappers
  import opened Errors
  import opened Domain
  import opened ObjectIds
  import opened ScooterRecords
  import opened TripEventRecords
  import opened UserRecords
  import opened Cursors
  import opened GeoQuery

  // ---------------------------------------------------------------------
  // Scooter collection semantics

  /** The position of the first record with the given id, if any. */
  function FirstWithId(records: seq<DbScooter>, id: string): (r: Option<nat>)
    ensures r.Some? ==>
      r.value < |records| && records[r.value].id == id
      && forall j :: 0 <= j < r.value ==> records[j].id != id
    ensures r.None? ==> forall j :: 0 <= j < |records| ==> records[j].id != id
  {
    if records == [] then None
    else if records[0].id == id then Some(0)
    else match FirstWithId(records[1..], id)
      case None => None
      case Some(k) => Some(k + 1)
  }

  /** The $set of UpdateScooter: all five fields are overwritten, the internal id is kept. */
  function SetFields(record: DbScooter, update: DbScooter): DbScooter {
    record.(id := update.id, name := update.name, location := update.location,
            isAvailable := update.isAvailable, currentUserId := update.currentUserId)
  }

  /** UpdateOne with filter {"id": id}: the first matching record is updated; no match changes nothing. */
  function UpdateOne(records: seq<DbScooter>, id: string, update: DbScooter): seq<DbScooter> {
    match FirstWithId(records, id)
    case None => records
    case Some(i) => records[i := SetFields(records[i], update)]
  }

  /**
   * GetScooterByID: FindOne reports ErrNoDocuments when no record has the id,
   * which becomes db.ErrRecordNotFound; any other driver error passes through.
   */
  function LookupScooter(records: seq<DbScooter>, scooterID: string, fault: Option<Error>): Result<Scooter> {
    var found := FirstWithId(records, scooterID);
    var driverError :=
      if fault.Some? then fault
      else if found.None? then Some(Base(NoDocuments))
      else None;
    match driverError
    case Some(e) => if Is(e, NoDocuments) then Failure(Base(DbRecordNotFound)) else Failure(e)
    case None => ToDomainScooter(Some(records[found.value]))
  }

  /** UpdateScooter: the reply and the new collection. */
  function UpdateOutcome(records: seq<DbScooter>, scooter: Option<Scooter>, fault: Option<Error>)
    : (Result<Scooter>, seq<DbScooter>)
  {
    if scooter.None? then (Failure(Wrap("scooter", Base(DbInvalidArg))), records)
    else
      // transformToDBScooter cannot fail on a non-nil scooter
      var dbScooter := ToDbScooter(scooter).value;
      if fault.Some? then (Failure(fault.value), records)
      else (Success(scooter.value), UpdateOne(records, scooter.value.id, dbScooter))
  }

  /** GetAvailableScootersWithinRadius: argument checks, then the proximity listing. */
  function NearbyQuery(records: seq<DbScooter>, location: Option<GeoLocation>, radius: int,
                       metric: Metric, fault: CursorFault): Result<seq<Scooter>>
  {
    if location.None? then Failure(Wrap("location", Base(DbInvalidArg)))
    else if radius == 0 then Failure(Wrap("radius", Base(DbInvalidArg)))
    else
      var point := [location.value.latitude, location.value.longitude];
      Listing(Find(records, NearAvailable(point, radius, metric)), fault, DomainScooterOf)
  }

  // ---------------------------------------------------------------------
  // Lemmas about the scooter collection

  /**
   * GetScooterByID: without a driver failure, it reports db.ErrRecordNotFound
   * exactly when no record has the id, and otherwise reads the first such record.
   */
  lemma LookupScooterSpec(records: seq<DbScooter>, scooterID: string)
    ensures LookupScooter(records, scooterID, None) == Failure(Base(DbRecordNotFound)) <==>
      forall j :: 0 <= j < |records| ==> records[j].id != scooterID
    ensures FirstWithId(records, scooterID).Some? ==>
      LookupScooter(records, scooterID, None) == ToDomainScooter(Some(records[FirstWithId(records, scooterID).value]))
  {
  }

  /** A driver failure during the lookup is returned unchanged unless it is ErrNoDocuments. */
  lemma LookupScooterFault(records: seq<DbScooter>, scooterID: string, e: Error)
    ensures LookupScooter(records, scooterID, Some(e)) ==
      if Is(e, NoDocuments) then Failure(Base(DbRecordNotFound)) else Failure(e)
  {
  }

  /**
   * UpdateScooter: nil is an invalid argument and a driver failure is
   * returned; either way nothing is written. Otherwise the argument is
   * returned, the first record with its id now reads back as the argument
   * (keeping its internal id), and every other record is untouched.
   */
  lemma UpdateOutcomeSpec(records: seq<DbScooter>, scooter: Option<Scooter>, fault: Option<Error>)
    ensures var (r, after) := UpdateOutcome(records, scooter, fault);
      (scooter.None? ==> r == Failure(Wrapped("scooter", Base(DbInvalidArg))) && after == records)
      && (scooter.Some? && fault.Some? ==> r == Failure(fault.value) && after == records)
      && (scooter.Some? && fault.None? ==>
            r == Success(scooter.value) && |after| == |records|
            && match FirstWithId(records, scooter.value.id)
               case None => after == records
               case Some(i) =>
                 ToDomainScooter(Some(after[i])) == Success(scooter.value)
                 && after[i].internalId == records[i].internalId
                 && forall j :: 0 <= j < |records| && j != i ==> after[j] == records[j])
  {
    if scooter.Some? && fault.None? {
      var v := scooter.value;
      var dbScooter := ToDbScooter(scooter).value;
      ScooterRoundTrip(v);
      assert UpdateOutcome(records, scooter, fault) == (Success(v), UpdateOne(records, v.id, dbScooter));
      match FirstWithId(records, v.id)
      case None =>
      case Some(i) =>
        var after := records[i := SetFields(records[i], dbScooter)];
        assert after[i] == dbScooter.(internalId := records[i].internalId);
        assert ToDomainScooter(Some(after[i])) == ToDomainScooter(Some(dbScooter));
    }
  }

  /** After an update, the first record with the updated id is still at the same position. */
  lemma {:induction false} FirstWithIdAfterUpdate(records: seq<DbScooter>, id: string, update: DbScooter)
    requires update.id == id
    ensures FirstWithId(UpdateOne(records, id, update), id) == FirstWithId(records, id)
  {
    match FirstWithId(records, id)
    case None =>
    case Some(i) =>
      var after := UpdateOne(records, id, update);
      assert after[i].id == id;
      assert forall j :: 0 <= j < i ==> after[j] == records[j];
      FirstWithIdIsFirst(after, id, i);
  }

  /** A record with the id, preceded by none, is the first one. */
  lemma FirstWithIdIsFirst(records: seq<DbScooter>, id: string, i: nat)
    requires i < |records| && records[i].id == id
    requires forall j :: 0 <= j < i ==> records[j].id != id
    ensures FirstWithId(records, id) == Some(i)
  {
  }

  /**
   * Every scooter the proximity query returns is available and within the
   * radius, and they come nearest first: the query result is the transform,
   * record by record, of the engine's cursor, all of it unless a fetch failed.
   */
  lemma NearbyQueryResults(records: seq<DbScooter>, location: GeoLocation, radius: int,
                           metric: Metric, fault: CursorFault)
    requires NearbyQuery(records, Some(location), radius, metric, fault).Success?
    ensures var r := NearbyQuery(records, Some(location), radius, metric, fault).value;
      var point := [location.latitude, location.longitude];
      var c := Find(records, NearAvailable(point, radius, metric));
      |r| <= |c| && (|r| == |c| <==> !(fault.NextFails? && fault.at < |c|))
      && NearestFirst(c, point, metric)
      && forall i :: 0 <= i < |r| ==>
           DomainScooterOf(c[i]) == Success(r[i])
           && c[i] in records
           && Distance(point, metric, c[i]) <= radius as real
           && r[i].isAvailable && r[i].id == c[i].id
  {
    var r := NearbyQuery(records, Some(location), radius, metric, fault).value;
    var point := [location.latitude, location.longitude];
    var c := Find(records, NearAvailable(point, radius, metric));
    ListingSuccess(c, fault, DomainScooterOf, r);
    NearCursor(records, point, radius, metric);
    forall i | 0 <= i < |r| ensures r[i].isAvailable && r[i].id == c[i].id {
      assert c[i] in c;
      DomainScooterKeepsIdentity(c[i]);
    }
  }

  /** The proximity query rejects a missing location before a zero radius. */
  lemma NearbyQueryArguments(records: seq<DbScooter>, location: Option<GeoLocation>, radius: int,
                             metric: Metric, fault: CursorFault)
    ensures location.None? ==>
      NearbyQuery(records, location, radius, metric, fault) == Failure(Wrapped("location", Base(DbInvalidArg)))
    ensures location.Some? && radius == 0 ==>
      NearbyQuery(records, location, radius, metric, fault) == Failure(Wrapped("radius", Base(DbInvalidArg)))
  {
  }

  // ---------------------------------------------------------------------
  // The trip-event collection

  /**
   * A time.Time encoded as a BSON datetime: whole milliseconds since the
   * epoch, the sub-millisecond part dropped towards the past.
   */
  function BsonDateTime(t: Timestamp): (r: Timestamp)
    ensures r % 1_000_000 == 0
    ensures r <= t < r + 1_000_000
  {
    (t / 1_000_000) * 1_000_000
  }

  /** What InsertOne stores for a trip-event record: its creation time as a BSON datetime. */
  function Stored(record: DbTripEvent): (r: DbTripEvent)
    ensures r.createdAt == BsonDateTime(record.createdAt)
    ensures r.(createdAt := record.createdAt) == record
  {
    record.(createdAt := BsonDateTime(record.createdAt))
  }

  // ---------------------------------------------------------------------
  // The store

  /** mongoDetails: the three collections the core reads and writes. */
  class MongoDetails {
    var scooters: seq<DbScooter>
    var tripEvents: seq<DbTripEvent>
    var users: seq<DbUser>

    /** A connected database holding the given collections. */
    constructor (scooters: seq<DbScooter>, tripEvents: seq<DbTripEvent>, users: seq<DbUser>)
      ensures this.scooters == scooters && this.tripEvents == tripEvents && this.users == users
    {
      this.scooters := scooters;
      this.tripEvents := tripEvents;
      this.users := users;
    }

    /** getScootersByFilter: open the cursor, drain it, transform every record. */
    method ScootersByFilter(filter: ScooterFilter, fault: CursorFault) returns (r: Result<seq<Scooter>>)
      ensures r == Listing(Find(scooters, filter), fault, DomainScooterOf)
    {
      var cursor := ReadAll(Find(scooters, filter), fault);
      if cursor.Failure? {
        return Failure(cursor.error);
      }
      r := TransformAll(cursor.value, DomainScooterOf);
    }

    /** GetAvailableScootersWithinRadius. */
    method GetAvailableScootersWithinRadius(location: Option<GeoLocation>, radius: int,
                                            metric: Metric, fault: CursorFault)
      returns (r: Result<seq<Scooter>>)
      ensures r == NearbyQuery(scooters, location, radius, metric, fault)
    {
      if location.None? {
        return Failure(Wrap("location", Base(DbInvalidArg)));
      }
      if radius == 0 {
        return Failure(Wrap("radius", Base(DbInvalidArg)));
      }
      var point := [location.value.latitude, location.value.longitude];
      r := ScootersByFilter(NearAvailable(point, radius, metric), fault);
    }

    /**
     * GetAllScooters: every record, in storage order; a failed fetch
     * shortens the list without an error.
     */
    method GetAllScooters(fault: CursorFault) returns (r: Result<seq<Scooter>>)
      ensures r == Listing(scooters, fault, DomainScooterOf)
      ensures r.Success? ==>
        !fault.FindFails? && !(fault.DecodeFails? && fault.at < |scooters|)
      ensures r.Success? ==>
        |r.value| <= |scooters|
        && (|r.value| == |scooters| <==> !(fault.NextFails? && fault.at < |scooters|))
        && forall i :: 0 <= i < |r.value| ==> DomainScooterOf(scooters[i]) == Success(r.value[i])
    {
      r := ScootersByFilter(AllScooters, fault);
      if r.Success? {
        ListingSuccess(scooters, fault, DomainScooterOf, r.value);
      }
    }

    /** GetScooterByID. */
    method GetScooterByID(scooterID: string, fault: Option<Error>) returns (r: Result<Scooter>)
      ensures r == LookupScooter(scooters, scooterID, fault)
    {
      var found := FirstWithId(scooters, scooterID);
      var driverError := fault;
      if fault.None? && found.None? {
        driverError := Some(Base(NoDocuments));
      }
      if driverError.Some? {
        if Is(driverError.value, NoDocuments) {
          return Failure(Base(DbRecordNotFound));
        }
        return Failure(driverError.value);
      }
      r := ToDomainScooter(Some(scooters[found.value]));
    }

    /** UpdateScooter: overwrite the record with the argument's id. */
    method UpdateScooter(scooter: Option<Scooter>, fault: Option<Error>) returns (r: Result<Scooter>)
      modifies this
      ensures (r, scooters) == UpdateOutcome(old(scooters), scooter, fault)
      ensures tripEvents == old(tripEvents) && users == old(users)
    {
      if scooter.None? {
        return Failure(Wrap("scooter", Base(DbInvalidArg)));
      }
      // transformToDBScooter cannot fail on a non-nil scooter
      var dbScooter := ToDbScooter(scooter).value;
      if fault.Some? {
        return Failure(fault.value);
      }
      var target := FirstWithId(scooters, scooter.value.id);
      if target.Some? {
        scooters := scooters[target.value := SetFields(scooters[target.value], dbScooter)];
      }
      r := Success(scooter.value);
    }

    /**
     * InsertTripEvent: nil is an invalid argument; otherwise exactly one
     * record, with the generated id and its creation time as a BSON datetime,
     * is appended (unless the driver fails).
     */
    method InsertTripEvent(event: Option<TripEvent>, newId: ObjectId, fault: Option<Error>)
      returns (err: Option<Error>)
      modifies this
      ensures event.None? ==> err == Some(Base(DbInvalidArg)) && tripEvents == old(tripEvents)
      ensures event.Some? && fault.Some? ==> err == fault && tripEvents == old(tripEvents)
      ensures event.Some? && fault.None? ==>
        err.None? && tripEvents == old(tripEvents) + [Stored(ToDbTripEvent(event, newId).value)]
      ensures scooters == old(scooters) && users == old(users)
    {
      var record := ToDbTripEvent(event, newId);
      if record.Failure? {
        return Some(record.error);
      }
      if fault.Some? {
        return fault;
      }
      tripEvents := tripEvents + [Stored(record.value)];
      err := None;
    }

    /** GetAllTripEvents: one domain event per stored record, in storage order. */
    method GetAllTripEvents(fault: CursorFault) returns (r: Result<seq<TripEvent>>)
      ensures r == Listing(tripEvents, fault, DomainTripEventOf)
    {
      var cursor := ReadAll(tripEvents, fault);
      if cursor.Failure? {
        return Failure(cursor.error);
      }
      r := TransformAll(cursor.value, DomainTripEventOf);
    }

    /** GetAllUsers: one domain user per stored record, in storage order. */
    method GetAllUsers(fault: CursorFault) returns (r: Result<seq<User>>)
      ensures r == Listing(users, fault, DomainUserOf)
    {
      var cursor := ReadAll(users, fault);
      if cursor.Failure? {
        return Failure(cursor.error);
      }
      r := TransformAll(cursor.value, DomainUserOf);
    }
  }

  // ---------------------------------------------------------------------
  // Lemmas about the trip-event log and the user listing

  /**
   * Listing the events after an insert gives the earlier listing followed by
   * the inserted event, which carries the generated id and its creation time
   * rounded down to the millisecond, and nothing else new.
   */
  lemma InsertThenList(events: seq<DbTripEvent>, e: TripEvent, newId: ObjectId, before: seq<TripEvent>)
    requires Listing(events, NoFault, DomainTripEventOf) == Success(before)
    ensures Listing(events + [Stored(ToDbTripEvent(Some(e), newId).value)], NoFault, DomainTripEventOf)
      == Success(before + [e.(id := Hex(newId), createdAt := BsonDateTime(e.createdAt))])
  {
    var record := Stored(ToDbTripEvent(Some(e), newId).value);
    var after := events + [record];
    TripEventRoundTrip(e, newId);
    assert after[..|after| - 1] == events;
  }

  /** A decode failure part-way through the event log yields no list at all. */
  lemma TripEventDecodeFailure(events: seq<DbTripEvent>, k: nat, e: Error)
    requires k < |events|
    ensures Listing(events, DecodeFails(k, e), DomainTripEventOf) == Failure(e)
  {
  }

  /**
   * Without a driver failure the user listing always succeeds, with one user
   * per record, in storage order, id and name copied.
   */
  lemma UserListing(users: seq<DbUser>)
    ensures Listing(users, NoFault, DomainUserOf).Success?
    ensures var r := Listing(users, NoFault, DomainUserOf).value;
      |r| == |users|
      && forall i :: 0 <= i < |users| ==> r[i].id == users[i].id && r[i].name == users[i].name
  {
    MapAllFailure(users, DomainUserOf);
    var r := Listing(users, NoFault, DomainUserOf).value;
    ListingSuccess(users, NoFault, DomainUserOf, r);
  }

  /** A Find or decode failure in the user listing returns the error and no partial list. */
  lemma UserListingFailure(users: seq<DbUser>, fault: CursorFault)
    requires fault.FindFails? || (fault.DecodeFails? && fault.at < |users|)
    ensures Listing(users, fault, DomainUserOf) == Failure(fault.error)
  {
  }
}
