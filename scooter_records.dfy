/** The scooter DB record and its transforms (db/mongodb/scooter.go). */
module ScooterRecords {
  import opened Wrappers
  import opened Errors
  import opened Domain
  import opened ObjectIds
  import opened GeoJson

  datatype DbScooter = DbScooter(
    internalId: ObjectId,
    id: string,
    name: string,
    location: DbGeoLocation,
    currentUserId: Option<string>,
    isAvailable: bool)

  /** transformToDBScooter: nil is an invalid argument; otherwise every field is copied. */
  function ToDbScooter(scooter: Option<Scooter>): (r: Result<DbScooter>)
    ensures r.Success? <==> scooter.Some?
    ensures r.Failure? ==> r.error == Base(DbInvalidArg)
    ensures r.Success? ==>
      r.value.internalId == NilObjectId && r.value.location.geoType == PointType
      && |r.value.location.coordinates| == 2
  {
    match scooter
    case None => Failure(Base(DbInvalidArg))
    case Some(s) =>
      Success(DbScooter(NilObjectId, s.id, s.name, ToPoint(s.location), s.currentUserId, s.isAvailable))
  }

  /**
   * transformToDomainScooter: nil is an invalid argument; a record whose
   * coordinate list is shorter than two panics.
   */
  function ToDomainScooter(record: Option<DbScooter>): (r: Result<Scooter>)
    ensures r.Success? <==> record.Some? && |record.value.location.coordinates| >= 2
    ensures record.None? ==> r == Failure(Base(DbInvalidArg))
    ensures record.Some? && r.Failure? ==> r.error.Panic?
  {
    match record
    case None => Failure(Base(DbInvalidArg))
    case Some(d) =>
      match FromPoint(d.location)
      case Failure(e) => Failure(e)
      case Success(g) => Success(Scooter(d.id, d.name, g, d.currentUserId, d.isAvailable))
  }

  /** The transform the listing loops apply to each decoded record. */
  function DomainScooterOf(d: DbScooter): Result<Scooter> {
    ToDomainScooter(Some(d))
  }

  /** Storing a scooter and reading it back gives the same scooter, field by field. */
  lemma ScooterRoundTrip(s: Scooter)
    ensures ToDbScooter(Some(s)).Success?
    ensures ToDomainScooter(Some(ToDbScooter(Some(s)).value)) == Success(s)
  {
    PointRoundTrip(s.location);
  }

  /** Reading a record keeps its id and availability. */
  lemma DomainScooterKeepsIdentity(d: DbScooter)
    requires DomainScooterOf(d).Success?
    ensures DomainScooterOf(d).value.id == d.id
    ensures DomainScooterOf(d).value.isAvailable == d.isAvailable
    ensures DomainScooterOf(d).value.currentUserId == d.currentUserId
  {
  }
}
