/** The GeoJSON point a location is stored as (db/mongodb/location.go). */
module GeoJson {
  import opened Errors
  import opened Domain

  const PointType: string := "Point"

  /** A stored location: a GeoJSON type name and its coordinate list. */
  datatype DbGeoLocation = DbGeoLocation(geoType: string, coordinates: seq<Float64>)

  /** A domain location as a Point whose coordinates are [latitude, longitude]. */
  function ToPoint(g: GeoLocation): (p: DbGeoLocation)
    ensures p.geoType == PointType && |p.coordinates| == 2
  {
    DbGeoLocation(PointType, [g.latitude, g.longitude])
  }

  /**
   * Reads latitude from coordinate 0 and longitude from coordinate 1; a
   * shorter list makes the indexing panic with Go's runtime message.
   */
  function FromPoint(p: DbGeoLocation): (r: Result<GeoLocation>)
    ensures r.Success? <==> |p.coordinates| >= 2
    ensures r.Failure? ==> r.error.Panic?
  {
    if |p.coordinates| == 0 then Failure(Panic("runtime error: index out of range [0] with length 0"))
    else if |p.coordinates| == 1 then Failure(Panic("runtime error: index out of range [1] with length 1"))
    else Success(GeoLocation(p.coordinates[0], p.coordinates[1]))
  }

  /** Reading back a stored point gives the location that was stored. */
  lemma PointRoundTrip(g: GeoLocation)
    ensures FromPoint(ToPoint(g)) == Success(g)
  {
  }
}
