# Scooter reservation core, modelled in Dafny

This project models the core of a shared-scooter service: the proximity query for available
scooters, the reservation that begins a trip, the trip-event log, the user listing, and the HTTP
layer's error classification and response mapping. The service talks to a MongoDB database.
Here that database is an in-memory store: a class `MongoDb.MongoDetails` holding the
`scooter`, `trip_event` and `user` collections as sequences in storage order.

Modules, following the source packages:

- `Errors` holds Go's error values. These are the sentinel errors of the `app` and `db` packages and
  the driver's "no documents" error. It also models chains built with `fmt.Errorf("…: %w", err)`,
  `errors.Is` and the `Error()` text. A Go runtime panic becomes the error `Panic`: it passes every
  wrapping site unchanged, and the HTTP layer answers it with a bare 500 and no body, as gin's recovery
  middleware does.
- `Domain` holds the domain records: scooter, user, trip event and location. A float64 is kept as its
  bit pattern, because the core only copies these values.
- `GeoJson`, `ScooterRecords`, `TripEventRecords` and `UserRecords` hold the database records and
  the pure domain↔DB transforms. `ObjectIds` holds the 12-byte object id and its hexadecimal text.
- `Cursors` holds the Find-then-iterate listing pattern that all three listings share. A first loop
  drains the cursor, a second loop transforms each record. A Find, decode or transform error yields
  no list; a failed fetch of the next document is not checked and ends the first loop early, so the
  records read so far are returned as a success (see Findings).
- `GeoQuery` stands in for MongoDB's query engine. It answers the empty filter and the
  `$nearSphere` + `is_available` filter. The distance is an uninterpreted metric passed by the
  caller; ties keep storage order.
- `MongoDb` holds the collection semantics (first record by id, `UpdateOne`'s `$set`, point lookup)
  and the store class. Its methods are proved against those functions.
- `App` holds `NewApp`, `GetNearbyAvailableScooters` and `BeginTrip`. `BeginTrip` is a method that
  reads the scooter and writes it back through the store, proved against the function
  `BeginTripOutcome`. The lemmas cover rejection order, the error kinds, success, double booking,
  the "unavailable exactly when held" invariant, and that a reserved scooter is hidden from search.
- `Rest` holds `getErrHTTPStatusCode`, the scooter-list response loop and the handlers'
  argument-check order.

Failures that come from outside the core are parameters of each call. Network and server errors
are an `Option<Error>` for `FindOne`, `UpdateOne` and `InsertOne`, and a `CursorFault` for
`Find` and its iteration (Find fails, decoding the document at position k fails, or fetching it fails). The object id
`primitive.NewObjectID()` generates is also a parameter.

Notes on the code's behaviour:

- The reservation is a separate read then write (`app/app.go:78-95`), not an atomic compare-and-set.
- Only radius 0 is rejected. A negative radius is passed on to the store.
- Coordinates are not range-checked.
- Coordinates are stored as `[latitude, longitude]`, in that order.
- A trip event is stored without checking its fields and without assigning a timestamp. Its creation
  time is stored as a BSON datetime, so it reads back rounded down to the millisecond.

## Model

| member | source | states |
|---|---|---|
| `GeoJson.ToPoint` | db/mongodb/scooter.go:31-37 | a stored location is a `"Point"` with exactly two coordinates |
| `GeoJson.FromPoint` | db/mongodb/scooter.go:59-62 | reading a location succeeds exactly when there are at least two coordinates; otherwise the indexing panics |
| `GeoJson.PointRoundTrip` | db/mongodb/scooter.go:31-62 | reading back a stored point gives the location, latitude from index 0 and longitude from index 1 |
| `ScooterRecords.ToDbScooter` | db/mongodb/scooter.go:26-48 | nil fails with `db.ErrInvalidArg`, anything else succeeds; the record is a two-coordinate Point with a zero internal id |
| `ScooterRecords.ToDomainScooter` | db/mongodb/scooter.go:51-68 | nil fails with `db.ErrInvalidArg`; a record succeeds exactly when it has at least two coordinates, and otherwise panics |
| `ScooterRecords.ScooterRoundTrip` | db/mongodb/scooter.go:26-68 | domain → DB → domain gives back the same scooter, field by field |
| `ScooterRecords.DomainScooterKeepsIdentity` | db/mongodb/scooter.go:56-65 | reading a record keeps its id, availability and current user |
| `TripEventRecords.ToDbTripEvent` | db/mongodb/trip_event.go:24-42 | nil fails with `db.ErrInvalidArg`; the record gets the generated id and a two-coordinate Point |
| `TripEventRecords.ToDomainTripEvent` | db/mongodb/trip_event.go:46-65 | nil fails with `db.ErrInvalidArg`; success exactly with at least two coordinates; the domain id is the object id's hex text |
| `TripEventRecords.TripEventRoundTrip` | db/mongodb/trip_event.go:24-65 | domain → DB → domain keeps user, scooter, location, type and creation time; only the id becomes the generated one |
| `TripEventRecords.DistinctIdsStayDistinct` | db/mongodb/trip_event.go:57 | events stored under different object ids read back with different ids (hex text is injective) |
| `ObjectIds.ParseHexRoundTrip` | db/mongodb/trip_event.go:57 | the hex text of an object id can be parsed back to the id |
| `UserRecords.ToDomainUser` | db/mongodb/user.go:20-30 | nil fails with `db.ErrInvalidArg`; otherwise id and name are copied exactly |
| `Cursors.ReadCursor` | db/mongodb/scooter.go:73-87 | Find or a decode before the end fails with that error; otherwise the first loop yields a prefix of the stored records, all of them unless a fetch failed, and then exactly those before it |
| `Cursors.CheckedReadCursor` | db/mongodb/scooter.go:79 | with the iteration error consulted, success always yields every stored record and a failed fetch is reported |
| `Cursors.UncheckedNextFailure` | db/mongodb/scooter.go:79 | a fetch failing at position k < n: as written, success with the first k records; checked, the error |
| `Cursors.ReadAll` | db/mongodb/scooter.go:78-87 | the cursor-draining loop computes `ReadCursor`: it returns at the first decode error and stops silently at a failed fetch |
| `Cursors.TransformAll` | db/mongodb/scooter.go:88-95 | the transform loop computes `MapAll` and returns the first transform error |
| `Cursors.MapAllSuccess` | db/mongodb/scooter.go:88-97 | the transform succeeds with r exactly when r has one transformed record per record, in order |
| `Cursors.MapAllFailure` | db/mongodb/scooter.go:90-93 | the transform fails exactly when some record fails; the error is that of the first failing record, and no partial list is returned |
| `Cursors.ListingSuccess` | db/mongodb/scooter.go:72-98 | a listing succeeds with r exactly when the first loop succeeded and r transforms, in storage order, the records it delivered; r covers every record exactly when no fetch failed |
| `GeoQuery.NearCursor` | db/mongodb/scooter.go:111-124 | the proximity cursor is nearest first and holds exactly the available records within the radius |
| `MongoDb.FirstWithId` | db/mongodb/scooter.go:165-167 | the position of the first record with the id, or none when no record has it |
| `MongoDb.LookupScooterSpec` | db/mongodb/scooter.go:164-175 | without a driver failure, a lookup is `db.ErrRecordNotFound` exactly when no record has the id, and otherwise the domain form of the first such record |
| `MongoDb.LookupScooterFault` | db/mongodb/scooter.go:167-173 | a lookup driver error becomes `db.ErrRecordNotFound` if it is the no-documents error, and otherwise is returned unchanged |
| `MongoDb.UpdateOutcomeSpec` | db/mongodb/scooter.go:128-155 | nil fails with `db.ErrInvalidArg` and a driver failure is returned, both writing nothing; otherwise the argument is returned, the first record with its id reads back as the argument (same internal id) and every other record is untouched |
| `MongoDb.FirstWithIdAfterUpdate` | db/mongodb/scooter.go:133-150 | after an update, the record the id filter selects is the same one |
| `MongoDb.NearbyQueryResults` | db/mongodb/scooter.go:100-124 | every scooter the radius query returns is available, stored, and within the radius; results follow the nearest-first cursor, one domain scooter per record, all of the cursor unless a fetch failed |
| `MongoDb.NearbyQueryArguments` | db/mongodb/scooter.go:103-109 | a nil location, then a zero radius, fail with a wrapped `db.ErrInvalidArg` |
| `MongoDb.MongoDetails.ScootersByFilter` | db/mongodb/scooter.go:72-98 | the two loops compute the listing of the filter's cursor |
| `MongoDb.MongoDetails.GetAvailableScootersWithinRadius` | db/mongodb/scooter.go:102-125 | the result is `NearbyQuery` of the current collection |
| `MongoDb.MongoDetails.GetAllScooters` | db/mongodb/scooter.go:158-161 | the result is the listing of the whole collection: on success one domain scooter per delivered record, in storage order, every record unless a fetch failed |
| `MongoDb.MongoDetails.GetScooterByID` | db/mongodb/scooter.go:164-175 | the result is `LookupScooter` of the current collection |
| `MongoDb.MongoDetails.UpdateScooter` | db/mongodb/scooter.go:128-155 | reply and new collection are `UpdateOutcome` of the old collection; other collections unchanged |
| `MongoDb.BsonDateTime` | db/mongodb/trip_event.go:74 | a creation time as stored: a whole number of milliseconds, the largest not after the time |
| `MongoDb.Stored` | db/mongodb/trip_event.go:74 | the stored record differs from the encoded one only in its creation time, which becomes a BSON datetime |
| `MongoDb.MongoDetails.InsertTripEvent` | db/mongodb/trip_event.go:68-76 | nil returns `db.ErrInvalidArg` and inserts nothing; a driver failure inserts nothing; otherwise exactly the stored form of the record is appended and existing records are unchanged |
| `MongoDb.MongoDetails.GetAllTripEvents` | db/mongodb/trip_event.go:79-106 | the result is the listing of the event log in storage order |
| `MongoDb.MongoDetails.GetAllUsers` | db/mongodb/user.go:33-60 | the result is the listing of the user collection in storage order |
| `MongoDb.InsertThenList` | db/mongodb/trip_event.go:68-106 | listing after an insert gives the earlier listing followed by the inserted event, with its id replaced and its creation time rounded down to the millisecond |
| `MongoDb.TripEventDecodeFailure` | db/mongodb/trip_event.go:87-93 | a decode error part-way through the log returns the error and no partial list |
| `MongoDb.UserListing` | db/mongodb/user.go:33-60 | without a driver failure the user listing succeeds, one user per record, in order, with id and name copied |
| `MongoDb.UserListingFailure` | db/mongodb/user.go:35-46 | a Find or decode failure returns that error and no partial list |
| `App.TranslateStoreError` | app/app.go:50-60 | store invalid-argument becomes app invalid-argument, store empty-argument becomes app empty-argument, anything else passes through |
| `App.AppDetails.GetNearbyAvailableScooters` | app/app.go:43-64 | radius 0 fails with `app.ErrInvalidArg` without a store call; a store error is translated and wrapped; otherwise the store's list is returned unchanged |
| `App.NewApp` | app/app.go:31-39 | a nil database gives no app and an error wrapping `app.ErrInvalidArg`; otherwise an app holding that database |
| `App.AppDetails.BeginTrip` | app/app.go:69-101 | error and new collection are `BeginTripOutcome` of the old collection; trip events and users unchanged |
| `App.BeginTripEmptyArguments` | app/app.go:70-76 | an empty user id, checked first, then an empty scooter id, fail with `app.ErrEmptyArg` and leave the store as it was |
| `App.BeginTripFailureWritesNothing` | app/app.go:69-98 | every failing BeginTrip leaves the collection unchanged |
| `App.BeginTripErrorKinds` | app/app.go:78-88 | an unknown scooter gives `app.ErrRecordNotFound`; another lookup error is wrapped and propagated; an unavailable scooter gives `app.ErrOperationNotAllowed` |
| `App.BeginTripSucceedsIff` | app/app.go:69-101 | success exactly when both ids are given, no driver failure occurs and the scooter exists and reads back as available |
| `App.BeginTripReserves` | app/app.go:90-95 | on success the scooter reads back with the same id, name and location, unavailable and held by the user; no other record changes |
| `App.SecondBeginTripFails` | app/app.go:86-88 | after a successful BeginTrip, a second one on the same scooter fails whoever asks (`app.ErrOperationNotAllowed` once the lookup succeeds) and writes nothing |
| `App.BeginTripKeepsConsistency` | app/app.go:90-93 | BeginTrip keeps every scooter unavailable exactly when it has a current user |
| `App.ReservedScooterNotListed` | app/app.go:90-95 | with unique ids, a scooter a successful BeginTrip reserved is never in a later proximity query's result |
| `Rest.ErrorResponse` | api/rest/handler.go:76-85 | the response carries the error's status; its body is the error text, except for a panic, which gets a bare 500 |
| `Rest.HttpStatus` | api/rest/handler.go:76-85 | 400 exactly for app empty-argument, invalid-argument or not-allowed; 404 exactly for app not-found; 500 for anything else, including when wrapped |
| `Rest.StatusIgnoresWrapping` | api/rest/handler.go:79-82 | wrapping an error with context never changes its status |
| `Rest.StoreErrorsAreInternal` | api/rest/handler.go:77 | driver failures, panics and store sentinels map to 500 |
| `Rest.ScooterResponseList` | api/rest/handler.go:176-193 | the response list starts empty and has one entry per scooter, in order, with id, name, location, current user and availability copied |
| `Rest.RenderingIsFaithful` | api/rest/handler.go:180-191 | a response entry determines the scooter it shows |
| `Rest.CheckAvailableScootersQuery` | api/rest/handler.go:144-168 | a bad latitude, then longitude, then radius is a 400 with its message; only well-formed queries go on to the application |
| `Rest.CheckTripEventRequest` | api/rest/handler.go:299-326 | a body that fails to bind or validate, then an unrecognised event type, is a 400 before the application is called; otherwise the event carries the request's fields |
| `Rest.BeginTripStatus` | api/rest/handler.go:226-231 | begin-trip answers 400 for empty ids and for a reserved scooter, 404 for an unknown one, 500 for a driver failure of the lookup or of the write-back |
| `Rest.NearbyStatus` | api/rest/handler.go:169-174 | radius 0 and the store's argument errors answer 400; a failed Find or decode answers 500; a failed fetch answers 200 with the records read before it (none when it is the first) |
| `Rest.ApiDetails.GetAvailableScooters` | api/rest/handler.go:143-197 | bad arguments are rejected before the application call; an app error gets its status and text; success lists every scooter in order |
| `Rest.ApiDetails.BeginTrip` | api/rest/handler.go:212-240 | an unbound body is a 400 that touches nothing; otherwise the store changes as `BeginTripOutcome` says and the reply carries the error's status or echoes the ids |

## Left out

- Connection and migration are I/O and wiring, so the store starts from given collections. This covers `NewMongoDB`, `connect`, `Disconnect` and `getAllDocuments` (db/mongodb/mongodb.go), main.go and config/config.go.
- MongoDB's geospatial engine is not part of this model: `GeoQuery` is a stand-in with a caller-given metric. What MongoDB answers for a negative radius is not modelled.
- Float arithmetic and parsing are not modelled. Latitude and longitude are opaque bit patterns. `strconv.ParseFloat`/`ParseInt` reach the handler as parse outcomes (`Option`).
- Gin routing, `authenticate`, JSON binding and the uuid4 validator are transport. Their outcome reaches a handler as a `Bound` value.
- Concurrency is not modelled. `BeginTrip`'s read-then-write is modelled sequentially, and nothing is proved about concurrent callers.
- `EndTrip` and `SaveScooterTripEvent` of the application are not part of this model: the `App` interface declares neither and no implementation is given. Because of that, the `endTrip` handler is left out, and `saveScooterTripEvent` is modelled only up to the application call.
- `domain.IsValidTripEventType` is not part of this model: it is a parameter of `Rest.CheckTripEventRequest`. `domain.TripEvent` is not part of this model either: its fields are taken from their use in db/mongodb/trip_event.go.
- Driver failures are parameters. A failed `UpdateOne` or `InsertOne` is modelled as writing nothing.
- `MongoDb.MongoDetails.InsertTripEvent` does not model a duplicate-id rejection by the server, because the generated id is a parameter assumed fresh.
- `Cursors.ReadCursor`: the fault `NextFails(at, _)` may fall at any position, an over-approximation of the driver, whose fetches fail only at a batch boundary (a getMore after the first batch).
- The store's initial trip-event records may carry any creation time: only records appended by `InsertTripEvent` are rounded to the millisecond.
- `FindOne` and `UpdateOne` act on the first matching record in storage order (natural order). Ordering of a real server is not modelled.
- The application uses the MongoDB store directly, not the `db.DB` interface and its mocks. No store path returns `db.ErrEmptyArg`, so that translation branch is exercised only through `App.TranslateStoreError`.
- A `time.Time` is kept as its instant. Its location and monotonic reading are not modelled, so `.UTC()` is the identity.
- The testclient simulation harness, the generated mocks and the test suites are not modelled.

## Findings

| source | as written | input that shows it | evidently intended | confidence | as-written member | corrected member |
|---|---|---|---|---|---|---|
| db/mongodb/scooter.go:79, db/mongodb/trip_event.go:87, db/mongodb/user.go:41 | the loop `for cur.Next(...)` ends when fetching a document fails, and `cur.Err()` is never consulted, so the records read so far are returned with a nil error | a collection larger than the driver's first batch whose getMore fails (fault `NextFails(k, e)` with k the batch size): the listing succeeds with the first k records | report the iteration error after the loop | not executed | `Cursors.UncheckedNextFailure` (over `Cursors.ReadCursor`) | `Cursors.CheckedReadCursor` |
