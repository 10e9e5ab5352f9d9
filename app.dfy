/**
 * The application's use cases (app/app.go): the proximity query and the
 * reservation that begins a trip, on top of the store.
 */
module App {
  import opened Wrappers
  import opened Errors
  import opened Domain
  import opened ScooterRecords
  import opened Cursors
  import opened GeoQuery
  import opened MongoDb

  /**
   * The switch on the store's error: its invalid- and empty-argument errors
   * become the application's own; anything else passes through.
   */
  function TranslateStoreError(e: Error): (r: Error)
    ensures Is(e, DbInvalidArg) ==> r == Base(AppInvalidArg)
    ensures !Is(e, DbInvalidArg) && Is(e, DbEmptyArg) ==> r == Base(AppEmptyArg)
    ensures !Is(e, DbInvalidArg) && !Is(e, DbEmptyArg) ==> r == e
  {
    if Is(e, DbInvalidArg) then Base(AppInvalidArg)
    else if Is(e, DbEmptyArg) then Base(AppEmptyArg)
    else e
  }

  /** GetNearbyAvailableScooters: the reply, for a store holding `records`. */
  function NearbyOutcome(records: seq<DbScooter>, location: GeoLocation, radius: int,
                         metric: Metric, fault: CursorFault): Result<seq<Scooter>>
  {
    if radius == 0 then Failure(Base(AppInvalidArg))
    else match NearbyQuery(records, Some(location), radius, metric, fault)
      case Failure(e) => Failure(Wrap("db error while getting scooters", TranslateStoreError(e)))
      case Success(scooters) => Success(scooters)
  }

  /** The scooter BeginTrip writes back: reserved for `userID`. */
  function Reserved(s: Scooter, userID: string): Scooter {
    s.(currentUserId := Some(userID), isAvailable := false)
  }

  /** BeginTrip: the error it returns, if any, and the new scooter collection. */
  function BeginTripOutcome(records: seq<DbScooter>, userID: string, scooterID: string,
                            lookupFault: Option<Error>, updateFault: Option<Error>)
    : (Option<Error>, seq<DbScooter>)
  {
    if userID == "" then (Some(Wrap("userID", Base(AppEmptyArg))), records)
    else if scooterID == "" then (Some(Wrap("scooterID", Base(AppEmptyArg))), records)
    else match LookupScooter(records, scooterID, lookupFault)
      case Failure(e) =>
        if Is(e, DbRecordNotFound) then (Some(Wrap("scooter not found", Base(AppRecordNotFound))), records)
        else (Some(Wrap("unable to get scooter", e)), records)
      case Success(s) =>
        if !s.isAvailable then (Some(Wrap("scooter is unavailable", Base(AppOperationNotAllowed))), records)
        else match UpdateOutcome(records, Some(Reserved(s, userID)), updateFault)
          case (Failure(e), after) => (Some(Wrap("unable to update scooter", e)), after)
          case (Success(_), after) => (None, after)
  }

  /** The scooter record of `id` reads back as available. */
  predicate AvailableRecord(records: seq<DbScooter>, id: string) {
    var found := FirstWithId(records, id);
    found.Some? && DomainScooterOf(records[found.value]).Success? && records[found.value].isAvailable
  }

  /** The two-state invariant of a scooter: unavailable exactly when someone holds it. */
  predicate Consistent(d: DbScooter) {
    d.isAvailable <==> d.currentUserId.None?
  }

  predicate AllConsistent(records: seq<DbScooter>) {
    forall i :: 0 <= i < |records| ==> Consistent(records[i])
  }

  predicate UniqueIds(records: seq<DbScooter>) {
    forall i, j :: 0 <= i < j < |records| ==> records[i].id != records[j].id
  }

  // ---------------------------------------------------------------------
  // Lemmas about BeginTrip

  /** Empty identifiers are rejected, the user's first, before the store is touched. */
  lemma BeginTripEmptyArguments(records: seq<DbScooter>, userID: string, scooterID: string,
                                lookupFault: Option<Error>, updateFault: Option<Error>)
    ensures userID == "" ==>
      BeginTripOutcome(records, userID, scooterID, lookupFault, updateFault)
        == (Some(Wrapped("userID", Base(AppEmptyArg))), records)
    ensures userID != "" && scooterID == "" ==>
      BeginTripOutcome(records, userID, scooterID, lookupFault, updateFault)
        == (Some(Wrapped("scooterID", Base(AppEmptyArg))), records)
  {
  }

  /** Every failing BeginTrip leaves the collection as it was. */
  lemma BeginTripFailureWritesNothing(records: seq<DbScooter>, userID: string, scooterID: string,
                                      lookupFault: Option<Error>, updateFault: Option<Error>)
    ensures var (err, after) := BeginTripOutcome(records, userID, scooterID, lookupFault, updateFault);
      err.Some? ==> after == records
  {
  }

  /**
   * The error kinds: an unknown scooter is "not found", a reserved one is
   * "operation not allowed", and any other lookup failure passes through
   * (a driver error that already wraps db.ErrRecordNotFound counts as "not found").
   */
  lemma BeginTripErrorKinds(records: seq<DbScooter>, userID: string, scooterID: string,
                            lookupFault: Option<Error>, updateFault: Option<Error>)
    requires userID != "" && scooterID != ""
    ensures var (err, _) := BeginTripOutcome(records, userID, scooterID, lookupFault, updateFault);
      (lookupFault.None? && FirstWithId(records, scooterID).None? ==>
         err == Some(Wrapped("scooter not found", Base(AppRecordNotFound))))
      && (lookupFault.Some? && !Is(lookupFault.value, NoDocuments) && !Is(lookupFault.value, DbRecordNotFound) ==>
         err == Some(Wrap("unable to get scooter", lookupFault.value)))
      && (lookupFault.None? && FirstWithId(records, scooterID).Some?
          && DomainScooterOf(records[FirstWithId(records, scooterID).value]).Success?
          && !records[FirstWithId(records, scooterID).value].isAvailable ==>
         err == Some(Wrapped("scooter is unavailable", Base(AppOperationNotAllowed))))
  {
    LookupScooterSpec(records, scooterID);
  }

  /**
   * BeginTrip succeeds exactly when both ids are given, nothing fails in the
   * driver, and the scooter's record exists and reads back as available.
   */
  lemma BeginTripSucceedsIff(records: seq<DbScooter>, userID: string, scooterID: string,
                             lookupFault: Option<Error>, updateFault: Option<Error>)
    ensures BeginTripOutcome(records, userID, scooterID, lookupFault, updateFault).0.None? <==>
      userID != "" && scooterID != "" && lookupFault.None? && updateFault.None?
      && AvailableRecord(records, scooterID)
  {
  }

  /**
   * A successful BeginTrip reserves the scooter for the user: its record
   * reads back with the same id, name and location, unavailable and held by
   * the user; no other record changes.
   */
  lemma BeginTripReserves(records: seq<DbScooter>, userID: string, scooterID: string,
                          lookupFault: Option<Error>, updateFault: Option<Error>)
    requires BeginTripOutcome(records, userID, scooterID, lookupFault, updateFault).0.None?
    ensures var after := BeginTripOutcome(records, userID, scooterID, lookupFault, updateFault).1;
      var i := FirstWithId(records, scooterID).value;
      var before := DomainScooterOf(records[i]).value;
      |after| == |records|
      && DomainScooterOf(after[i]) == Success(Scooter(before.id, before.name, before.location, Some(userID), false))
      && before.id == scooterID
      && forall j :: 0 <= j < |records| && j != i ==> after[j] == records[j]
  {
    var i := FirstWithId(records, scooterID).value;
    var before := DomainScooterOf(records[i]).value;
    UpdateOutcomeSpec(records, Some(Reserved(before, userID)), updateFault);
  }

  /**
   * A second BeginTrip on a scooter that a first one reserved fails, whoever
   * asks: with "operation not allowed" when the lookup itself succeeds. The
   * collection stays as the first call left it.
   */
  lemma {:induction false} SecondBeginTripFails(records: seq<DbScooter>, user1: string, user2: string, scooterID: string,
                                                lookup1: Option<Error>, update1: Option<Error>,
                                                lookup2: Option<Error>, update2: Option<Error>)
    requires BeginTripOutcome(records, user1, scooterID, lookup1, update1).0.None?
    ensures var after := BeginTripOutcome(records, user1, scooterID, lookup1, update1).1;
      var (err, final) := BeginTripOutcome(after, user2, scooterID, lookup2, update2);
      err.Some? && final == after
      && (user2 != "" && lookup2.None? ==>
            err == Some(Wrapped("scooter is unavailable", Base(AppOperationNotAllowed))))
  {
    var i := FirstWithId(records, scooterID).value;
    var before := DomainScooterOf(records[i]).value;
    var after := BeginTripOutcome(records, user1, scooterID, lookup1, update1).1;
    BeginTripReserves(records, user1, scooterID, lookup1, update1);
    ScooterRoundTrip(Reserved(before, user1));
    FirstWithIdAfterUpdate(records, scooterID, ToDbScooter(Some(Reserved(before, user1))).value);
    assert !AvailableRecord(after, scooterID);
    BeginTripSucceedsIff(after, user2, scooterID, lookup2, update2);
    BeginTripFailureWritesNothing(after, user2, scooterID, lookup2, update2);
    if user2 != "" && lookup2.None? {
      BeginTripErrorKinds(after, user2, scooterID, lookup2, update2);
    }
  }

  /** BeginTrip keeps every record consistent: unavailable exactly when held. */
  lemma BeginTripKeepsConsistency(records: seq<DbScooter>, userID: string, scooterID: string,
                                  lookupFault: Option<Error>, updateFault: Option<Error>)
    requires AllConsistent(records)
    ensures AllConsistent(BeginTripOutcome(records, userID, scooterID, lookupFault, updateFault).1)
  {
    if BeginTripOutcome(records, userID, scooterID, lookupFault, updateFault).0.None? {
      BeginTripReserves(records, userID, scooterID, lookupFault, updateFault);
    }
  }

  /**
   * With unique scooter ids, a scooter reserved by a successful BeginTrip
   * never appears in a later proximity query, whatever the point and radius.
   */
  lemma ReservedScooterNotListed(records: seq<DbScooter>, userID: string, scooterID: string,
                                 lookupFault: Option<Error>, updateFault: Option<Error>,
                                 location: GeoLocation, radius: int, metric: Metric, fault: CursorFault)
    requires UniqueIds(records)
    requires BeginTripOutcome(records, userID, scooterID, lookupFault, updateFault).0.None?
    ensures var after := BeginTripOutcome(records, userID, scooterID, lookupFault, updateFault).1;
      var q := NearbyOutcome(after, location, radius, metric, fault);
      q.Success? ==> forall k :: 0 <= k < |q.value| ==> q.value[k].id != scooterID
  {
    var after := BeginTripOutcome(records, userID, scooterID, lookupFault, updateFault).1;
    var i := FirstWithId(records, scooterID).value;
    BeginTripReserves(records, userID, scooterID, lookupFault, updateFault);
    var q := NearbyOutcome(after, location, radius, metric, fault);
    if q.Success? {
      NearbyQueryResults(after, location, radius, metric, fault);
      var point := [location.latitude, location.longitude];
      var c := Find(after, NearAvailable(point, radius, metric));
      forall k | 0 <= k < |q.value| ensures q.value[k].id != scooterID {
        var m :| 0 <= m < |after| && after[m] == c[k];
        if m != i {
          assert after[m] == records[m];
          assert records[i].id == scooterID;
        }
      }
    }
  }

  // ---------------------------------------------------------------------
  // The application

  /** appDetails: the application holds the store it was given. */
  class AppDetails {
    const database: MongoDetails

    constructor (database: MongoDetails)
      ensures this.database == database
    {
      this.database := database;
    }

    /**
     * GetNearbyAvailableScooters: radius 0 is rejected without asking the
     * store; a store error is translated and wrapped; otherwise the store's
     * list is returned as it is.
     */
    method GetNearbyAvailableScooters(location: GeoLocation, radius: int, metric: Metric, fault: CursorFault)
      returns (r: Result<seq<Scooter>>)
      ensures radius == 0 ==> r == Failure(Base(AppInvalidArg))
      ensures radius != 0 ==>
        var q := NearbyQuery(database.scooters, Some(location), radius, metric, fault);
        (q.Success? ==> r == q)
        && (q.Failure? ==> r == Failure(Wrap("db error while getting scooters", TranslateStoreError(q.error))))
    {
      if radius == 0 {
        return Failure(Base(AppInvalidArg));
      }
      var userLocation := location;
      var scooters := database.GetAvailableScootersWithinRadius(Some(userLocation), radius, metric, fault);
      if scooters.Failure? {
        var returnErr := TranslateStoreError(scooters.error);
        return Failure(Wrap("db error while getting scooters", returnErr));
      }
      r := scooters;
    }

    /**
     * BeginTrip: validate the ids, read the scooter, refuse it when it is
     * unavailable, otherwise write it back reserved for the user.
     */
    method BeginTrip(userID: string, scooterID: string, lookupFault: Option<Error>, updateFault: Option<Error>)
      returns (err: Option<Error>)
      modifies database
      ensures (err, database.scooters)
        == BeginTripOutcome(old(database.scooters), userID, scooterID, lookupFault, updateFault)
      ensures database.tripEvents == old(database.tripEvents) && database.users == old(database.users)
    {
      if userID == "" {
        return Some(Wrap("userID", Base(AppEmptyArg)));
      }
      if scooterID == "" {
        return Some(Wrap("scooterID", Base(AppEmptyArg)));
      }
      var scooter := database.GetScooterByID(scooterID, lookupFault);
      if scooter.Failure? {
        if Is(scooter.error, DbRecordNotFound) {
          return Some(Wrap("scooter not found", Base(AppRecordNotFound)));
        }
        return Some(Wrap("unable to get scooter", scooter.error));
      }
      if !scooter.value.isAvailable {
        return Some(Wrap("scooter is unavailable", Base(AppOperationNotAllowed)));
      }
      var updatedScooter := scooter.value.(currentUserId := Some(userID), isAvailable := false);
      var written := database.UpdateScooter(Some(updatedScooter), updateFault);
      if written.Failure? {
        return Some(Wrap("unable to update scooter", written.error));
      }
      return None;
    }
  }

  /** NewApp: a nil database is an invalid argument and yields no application. */
  method NewApp(database: MongoDetails?) returns (app: AppDetails?, err: Option<Error>)
    ensures database == null ==> app == null && err == Some(Wrapped("database", Base(AppInvalidArg)))
    ensures database != null ==> app != null && app.database == database && err.None?
  {
    if database == null {
      return null, Some(Wrap("database", Base(AppInvalidArg)));
    }
    app := new AppDetails(database);
    err := None;
  }
}
