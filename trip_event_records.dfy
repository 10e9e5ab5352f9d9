/** The trip-event DB record and its transforms (db/mongodb/trip_event.go). */
module TripEventRecords {
  import opened Wrappers
  import opened Errors
  import opened Domain
  import opened ObjectIds
  import opened GeoJson

  /** `eventType` holds string(Type). */
  datatype DbTripEvent = DbTripEvent(
    id: ObjectId,
    userId: string,
    scooterId: string,
    location: DbGeoLocation,
    eventType: string,
    createdAt: Timestamp)

  /**
   * transformToDBTripEvent: nil is an invalid argument; otherwise the record
   * gets the freshly generated object id `newId`.
   */
  function ToDbTripEvent(event: Option<TripEvent>, newId: ObjectId): (r: Result<DbTripEvent>)
    ensures r.Success? <==> event.Some?
    ensures r.Failure? ==> r.error == Base(DbInvalidArg)
    ensures r.Success? ==>
      r.value.id == newId && r.value.location.geoType == PointType
      && |r.value.location.coordinates| == 2
  {
    match event
    case None => Failure(Base(DbInvalidArg))
    case Some(e) =>
      Success(DbTripEvent(newId, e.userId, e.scooterId, ToPoint(e.location), e.eventType, e.createdAt))
  }

  /**
   * transformToDomainTripEvent: nil is an invalid argument; the domain id is
   * the hexadecimal text of the object id; a short coordinate list panics.
   */
  function ToDomainTripEvent(record: Option<DbTripEvent>): (r: Result<TripEvent>)
    ensures r.Success? <==> record.Some? && |record.value.location.coordinates| >= 2
    ensures record.None? ==> r == Failure(Base(DbInvalidArg))
    ensures r.Success? ==> r.value.id == Hex(record.value.id)
  {
    match record
    case None => Failure(Base(DbInvalidArg))
    case Some(d) =>
      match FromPoint(d.location)
      case Failure(e) => Failure(e)
      case Success(g) => Success(TripEvent(Hex(d.id), d.userId, d.scooterId, g, d.eventType, d.createdAt))
  }

  /** The transform the listing loops apply to each decoded record. */
  function DomainTripEventOf(d: DbTripEvent): Result<TripEvent> {
    ToDomainTripEvent(Some(d))
  }

  /**
   * Storing an event and reading it back preserves user, scooter, location,
   * type and creation time; only the id is replaced by the generated one.
   */
  lemma TripEventRoundTrip(e: TripEvent, newId: ObjectId)
    ensures ToDbTripEvent(Some(e), newId).Success?
    ensures ToDomainTripEvent(Some(ToDbTripEvent(Some(e), newId).value)) == Success(e.(id := Hex(newId)))
  {
    PointRoundTrip(e.location);
  }

  /** Events stored under different object ids read back with different ids. */
  lemma DistinctIdsStayDistinct(a: DbTripEvent, b: DbTripEvent)
    requires a.id != b.id
    requires DomainTripEventOf(a).Success? && DomainTripEventOf(b).Success?
    ensures DomainTripEventOf(a).value.id != DomainTripEventOf(b).value.id
  {
    if Hex(a.id) == Hex(b.id) {
      HexInjective(a.id, b.id);
    }
  }
}
