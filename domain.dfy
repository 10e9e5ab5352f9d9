/** The domain records the application and its store exchange. */
module Domain {
  import opened Wrappers

  /** A float64, kept as its IEEE 754 bit pattern: the core only copies these values. */
  type Float64 = bv64

  /** A time.Time, kept as the instant it denotes (nanoseconds since the Unix epoch). */
  type Timestamp = int

  datatype GeoLocation = GeoLocation(latitude: Float64, longitude: Float64)

  /** A scooter; `currentUserId` is the nil-able pointer of the source. */
  datatype Scooter = Scooter(
    id: string,
    name: string,
    location: GeoLocation,
    currentUserId: Option<string>,
    isAvailable: bool)

  datatype User = User(id: string, name: string)

  /** domain.TripEventType is a string type. */
  type TripEventType = string

  datatype TripEvent = TripEvent(
    id: string,
    userId: string,
    scooterId: string,
    location: GeoLocation,
    eventType: TripEventType,
    createdAt: Timestamp)
}
