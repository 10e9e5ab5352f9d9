/**
 * The HTTP layer's decisions (api/rest/handler.go): the status code for an
 * application error, the scooter list in the response, and the order in
 * which each handler checks its arguments before calling the application.
 * Routing, authentication, JSON binding and the validator are outside the
 * model: their outcome reaches a handler as a `Bound` value.
 */
module Rest {
  import opened Wrappers
  import opened Errors
  import opened Domain
  import opened ScooterRecords
  import opened Cursors
  import opened GeoQuery
  import opened MongoDb
  import opened App

  const StatusOK: int := 200
  const StatusCreated: int := 201
  const StatusBadRequest: int := 400
  const StatusNotFound: int := 404
  const StatusInternalServerError: int := 500

  type Int64 = x: int | -0x8000_0000_0000_0000 <= x < 0x8000_0000_0000_0000

  datatype GeoLocationJson = GeoLocationJson(latitude: Float64, longitude: Float64)

  datatype ScooterJson = ScooterJson(
    id: string,
    name: string,
    location: GeoLocationJson,
    currentUserId: Option<string>,
    isAvailable: bool)

  datatype Body =
    | NoBody                              // the recovery middleware's bare status
    | ErrorBody(errorMessage: string)
    | ScootersBody(scooters: seq<ScooterJson>)
    | TripBody(userId: string, scooterId: string)
    | SavedBody(success: bool)

  datatype Response = Response(status: int, body: Body)

  /** What JSON binding and the validator made of a request body. */
  datatype Bound<T> = Bound(request: T) | Rejected(message: string)

  datatype BeginTripRequest = BeginTripRequest(userId: string, scooterId: string)

  datatype TripEventRequest = TripEventRequest(
    userId: string,
    scooterId: string,
    location: GeoLocationJson,
    createdAt: Timestamp,
    eventType: string)

  /** A handler either answers at once or goes on to the application with a value. */
  datatype Checked<T> = Forward(value: T) | Reject(response: Response)

  /**
   * getErrHTTPStatusCode: bad request for the application's empty-argument,
   * invalid-argument and not-allowed errors, not found for its not-found
   * error, wherever they sit in the chain; internal error for anything else.
   */
  function HttpStatus(e: Error): (code: int)
    ensures code == StatusBadRequest <==>
      Is(e, AppEmptyArg) || Is(e, AppInvalidArg) || Is(e, AppOperationNotAllowed)
    ensures code == StatusNotFound <==>
      !Is(e, AppEmptyArg) && !Is(e, AppInvalidArg) && !Is(e, AppOperationNotAllowed)
      && Is(e, AppRecordNotFound)
    ensures code == StatusInternalServerError <==>
      !Is(e, AppEmptyArg) && !Is(e, AppInvalidArg) && !Is(e, AppOperationNotAllowed)
      && !Is(e, AppRecordNotFound)
  {
    if Is(e, AppEmptyArg) || Is(e, AppInvalidArg) || Is(e, AppOperationNotAllowed) then StatusBadRequest
    else if Is(e, AppRecordNotFound) then StatusNotFound
    else StatusInternalServerError
  }

  /**
   * An error response: the status for the error and its text. A panic never
   * reaches the handler's own response: the recovery middleware answers it
   * with a bare internal error.
   */
  function ErrorResponse(e: Error): (r: Response)
    ensures r.status == HttpStatus(e)
    ensures e.Panic? ==> r == Response(StatusInternalServerError, NoBody)
    ensures !e.Panic? ==> r.body == ErrorBody(Message(e))
  {
    if e.Panic? then Response(StatusInternalServerError, NoBody)
    else Response(HttpStatus(e), ErrorBody(Message(e)))
  }

  /** Wrapping an error with context never changes its status. */
  lemma StatusIgnoresWrapping(context: string, e: Error)
    ensures HttpStatus(Wrap(context, e)) == HttpStatus(e)
    ensures HttpStatus(Wrapped(context, e)) == HttpStatus(e)
  {
  }

  /** Store errors and driver failures the application passes through are internal errors. */
  lemma StoreErrorsAreInternal(e: Error)
    requires e.Driver? || e.Panic? || (e.Base? && !(e.sentinel in {AppEmptyArg, AppInvalidArg, AppOperationNotAllowed, AppRecordNotFound}))
    ensures HttpStatus(e) == StatusInternalServerError
  {
  }

  /** A response entry shows every field of its scooter. */
  predicate Renders(json: ScooterJson, s: Scooter) {
    json.id == s.id && json.name == s.name
    && json.location == GeoLocationJson(s.location.latitude, s.location.longitude)
    && json.currentUserId == s.currentUserId && json.isAvailable == s.isAvailable
  }

  /** The response loses nothing: an entry determines the scooter it shows. */
  lemma RenderingIsFaithful(json: ScooterJson, s: Scooter, t: Scooter)
    requires Renders(json, s) && Renders(json, t)
    ensures s == t
  {
  }

  /**
   * The loop of getAvailableScooters that builds resp.Scooters: starting from
   * an empty list (never nil), one entry per scooter, in the same order.
   */
  method ScooterResponseList(scooters: seq<Scooter>) returns (list: seq<ScooterJson>)
    ensures |list| == |scooters|
    ensures forall i :: 0 <= i < |scooters| ==> Renders(list[i], scooters[i])
  {
    list := [];
    for i := 0 to |scooters|
      invariant |list| == i
      invariant forall k :: 0 <= k < i ==> Renders(list[k], scooters[k])
    {
      var s := scooters[i];
      var location := GeoLocationJson(s.location.latitude, s.location.longitude);
      var entry := ScooterJson(s.id, s.name, location, s.currentUserId, s.isAvailable);
      list := list + [entry];
    }
  }

  /**
   * saveScooterTripEvent up to the application call: binding and validation
   * first, then the event type; a request that passes becomes a domain event
   * carrying the request's fields.
   */
  function CheckTripEventRequest(request: Bound<TripEventRequest>, isValidType: string -> bool)
    : (r: Checked<TripEvent>)
    ensures request.Rejected? ==> r == Reject(Response(StatusBadRequest, ErrorBody(request.message)))
    ensures request.Bound? && !isValidType(request.request.eventType) ==>
      r == Reject(Response(StatusBadRequest, ErrorBody("invalid event type")))
    ensures r.Forward? <==> request.Bound? && isValidType(request.request.eventType)
    ensures r.Forward? ==>
      var q := request.request;
      r.value.userId == q.userId && r.value.scooterId == q.scooterId
      && r.value.location == GeoLocation(q.location.latitude, q.location.longitude)
      && r.value.eventType == q.eventType && r.value.createdAt == q.createdAt
  {
    match request
    case Rejected(message) => Reject(Response(StatusBadRequest, ErrorBody(message)))
    case Bound(q) =>
      if !isValidType(q.eventType) then Reject(Response(StatusBadRequest, ErrorBody("invalid event type")))
      else Forward(TripEvent("", q.userId, q.scooterId, GeoLocation(q.location.latitude, q.location.longitude),
                             q.eventType, q.createdAt))
  }

  /** getAvailableScooters up to the application call: latitude, then longitude, then radius. */
  function CheckAvailableScootersQuery(latitude: Option<Float64>, longitude: Option<Float64>, radius: Option<Int64>)
    : (r: Checked<(GeoLocation, int)>)
    ensures latitude.None? ==> r == Reject(Response(StatusBadRequest, ErrorBody("invalid latitude")))
    ensures latitude.Some? && longitude.None? ==>
      r == Reject(Response(StatusBadRequest, ErrorBody("invalid longitude")))
    ensures latitude.Some? && longitude.Some? && radius.None? ==>
      r == Reject(Response(StatusBadRequest, ErrorBody("invalid radius")))
    ensures r.Forward? <==> latitude.Some? && longitude.Some? && radius.Some?
  {
    if latitude.None? then Reject(Response(StatusBadRequest, ErrorBody("invalid latitude")))
    else if longitude.None? then Reject(Response(StatusBadRequest, ErrorBody("invalid longitude")))
    else if radius.None? then Reject(Response(StatusBadRequest, ErrorBody("invalid radius")))
    else Forward((GeoLocation(latitude.value, longitude.value), radius.value as int))
  }

  /**
   * The statuses a begin-trip request ends in: bad request for empty ids and
   * for a reserved scooter, not found for an unknown one, internal error for
   * a driver failure of the lookup or of the write-back.
   */
  lemma BeginTripStatus(records: seq<DbScooter>, userID: string, scooterID: string,
                        lookupFault: Option<Error>, updateFault: Option<Error>)
    ensures var (err, _) := BeginTripOutcome(records, userID, scooterID, lookupFault, updateFault);
      (userID == "" || scooterID == "" ==> HttpStatus(err.value) == StatusBadRequest)
      && (userID != "" && scooterID != "" && lookupFault.None? && FirstWithId(records, scooterID).None? ==>
            HttpStatus(err.value) == StatusNotFound)
      && (userID != "" && scooterID != "" && lookupFault.Some? && lookupFault.value.Driver? ==>
            HttpStatus(err.value) == StatusInternalServerError)
      && (userID != "" && scooterID != "" && lookupFault.None? && FirstWithId(records, scooterID).Some?
          && DomainScooterOf(records[FirstWithId(records, scooterID).value]).Success?
          && !records[FirstWithId(records, scooterID).value].isAvailable ==>
            HttpStatus(err.value) == StatusBadRequest)
      && (userID != "" && scooterID != "" && lookupFault.None? && AvailableRecord(records, scooterID)
          && updateFault.Some? && updateFault.value.Driver? ==>
            err.Some? && HttpStatus(err.value) == StatusInternalServerError)
  {
    if userID != "" && scooterID != "" {
      BeginTripErrorKinds(records, userID, scooterID, lookupFault, updateFault);
    }
  }

  /**
   * The statuses a proximity query ends in: radius 0 and the store's
   * argument errors are bad requests; a driver failure of Find or of a
   * decode is an internal error; a failed fetch is not reported, so the
   * query answers with the records read before it.
   */
  lemma NearbyStatus(records: seq<DbScooter>, location: GeoLocation, radius: int,
                     metric: Metric, fault: CursorFault)
    ensures radius == 0 ==>
      HttpStatus(NearbyOutcome(records, location, radius, metric, fault).error) == StatusBadRequest
    ensures var q := NearbyQuery(records, Some(location), radius, metric, fault);
      radius != 0 && q.Failure? && (Is(q.error, DbInvalidArg) || Is(q.error, DbEmptyArg)) ==>
        HttpStatus(NearbyOutcome(records, location, radius, metric, fault).error) == StatusBadRequest
    ensures radius != 0 && fault.FindFails? && fault.error.Driver? ==>
      HttpStatus(NearbyOutcome(records, location, radius, metric, fault).error) == StatusInternalServerError
    ensures var cursor := Find(records, NearAvailable([location.latitude, location.longitude], radius, metric));
      radius != 0 && fault.DecodeFails? && fault.at < |cursor| && fault.error.Driver? ==>
        HttpStatus(NearbyOutcome(records, location, radius, metric, fault).error) == StatusInternalServerError
    ensures var cursor := Find(records, NearAvailable([location.latitude, location.longitude], radius, metric));
      var q := NearbyOutcome(records, location, radius, metric, fault);
      radius != 0 && fault.NextFails? && fault.at < |cursor| ==>
        (q.Success? ==> |q.value| == fault.at < |cursor|)
        && (q.Failure? ==> q.error.Panic? && HttpStatus(q.error) == StatusInternalServerError)
    ensures radius != 0 && fault.NextFails? && fault.at == 0 ==>
      NearbyOutcome(records, location, radius, metric, fault) == Success([])
  {
    var cursor := Find(records, NearAvailable([location.latitude, location.longitude], radius, metric));
    if radius != 0 && (fault.DecodeFails? || fault.NextFails?) && fault.at < |cursor| {
      var delivered := if fault.NextFails? then cursor[..fault.at] else cursor;
      MapAllFailure(delivered, DomainScooterOf);
      var q := MapAll(delivered, DomainScooterOf);
      if q.Success? {
        MapAllSuccess(delivered, DomainScooterOf, q.value);
      }
    }
  }

  /** apiDetails: the handlers hold the application. */
  class ApiDetails {
    const app: AppDetails

    constructor (app: AppDetails)
      ensures this.app == app
    {
      this.app := app;
    }

    /**
     * getAvailableScooters: a bad latitude, longitude or radius is a bad
     * request before the application is called; an application error gets
     * its status and text; otherwise every scooter is listed in order.
     */
    method GetAvailableScooters(latitude: Option<Float64>, longitude: Option<Float64>, radius: Option<Int64>,
                                metric: Metric, fault: CursorFault)
      returns (resp: Response)
      ensures CheckAvailableScootersQuery(latitude, longitude, radius).Reject? ==>
        resp == CheckAvailableScootersQuery(latitude, longitude, radius).response
      ensures latitude.Some? && longitude.Some? && radius.Some? ==>
        var q := NearbyOutcome(app.database.scooters, GeoLocation(latitude.value, longitude.value),
                               radius.value as int, metric, fault);
        (q.Failure? ==> resp == ErrorResponse(q.error))
        && (q.Success? ==>
              resp.status == StatusOK && resp.body.ScootersBody?
              && |resp.body.scooters| == |q.value|
              && forall i :: 0 <= i < |q.value| ==> Renders(resp.body.scooters[i], q.value[i]))
    {
      var checked := CheckAvailableScootersQuery(latitude, longitude, radius);
      if checked.Reject? {
        return checked.response;
      }
      var (userLocation, rad) := checked.value;
      var scooters := app.GetNearbyAvailableScooters(userLocation, rad, metric, fault);
      if scooters.Failure? {
        return ErrorResponse(scooters.error);
      }
      var list := ScooterResponseList(scooters.value);
      resp := Response(StatusOK, ScootersBody(list));
    }

    /**
     * beginTrip: a body that does not bind or validate is a bad request and
     * the store is not touched; otherwise the application's error gets its
     * status and text, and success echoes the two ids.
     */
    method BeginTrip(request: Bound<BeginTripRequest>, lookupFault: Option<Error>, updateFault: Option<Error>)
      returns (resp: Response)
      modifies app.database
      ensures request.Rejected? ==>
        resp == Response(StatusBadRequest, ErrorBody(request.message))
        && app.database.scooters == old(app.database.scooters)
      ensures request.Bound? ==>
        var q := request.request;
        var (err, after) := BeginTripOutcome(old(app.database.scooters), q.userId, q.scooterId, lookupFault, updateFault);
        app.database.scooters == after
        && resp == (if err.Some? then ErrorResponse(err.value) else Response(StatusOK, TripBody(q.userId, q.scooterId)))
      ensures app.database.tripEvents == old(app.database.tripEvents)
      ensures app.database.users == old(app.database.users)
    {
      if request.Rejected? {
        return Response(StatusBadRequest, ErrorBody(request.message));
      }
      var q := request.request;
      var err := app.BeginTrip(q.userId, q.scooterId, lookupFault, updateFault);
      if err.Some? {
        return ErrorResponse(err.value);
      }
      resp := Response(StatusOK, TripBody(q.userId, q.scooterId));
    }
  }
}
