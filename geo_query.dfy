/**
 * What MongoDB's query engine does with the two filters the scooter store
 * issues: the empty filter returns the collection in storage order; the
 * $nearSphere filter with is_available=true returns the available records
 * within the maximum distance, nearest first. The great-circle distance is
 * the engine's own: here it is an uninterpreted metric given by the caller.
 */
module GeoQuery {
  import opened Domain
  import opened GeoJson
  import opened ScooterRecords

  /** Distance in metres from the query point to a stored location. */
  type Metric = (seq<Float64>, DbGeoLocation) -> real

  datatype ScooterFilter =
    | AllScooters
    | NearAvailable(point: seq<Float64>, maxDistance: int, metric: Metric)

  function Distance(point: seq<Float64>, metric: Metric, d: DbScooter): real {
    metric(point, d.location)
  }

  /** Does a record satisfy the filter? */
  predicate Matches(filter: ScooterFilter, d: DbScooter) {
    match filter
    case AllScooters => true
    case NearAvailable(point, maxDistance, metric) =>
      d.isAvailable && Distance(point, metric, d) <= maxDistance as real
  }

  /** The matching records, in storage order. */
  function Select(records: seq<DbScooter>, filter: ScooterFilter): seq<DbScooter>
  {
    if records == [] then []
    else (if Matches(filter, records[0]) then [records[0]] else []) + Select(records[1..], filter)
  }

  predicate NearestFirst(s: seq<DbScooter>, point: seq<Float64>, metric: Metric) {
    forall i, j :: 0 <= i < j < |s| ==> Distance(point, metric, s[i]) <= Distance(point, metric, s[j])
  }

  /** Insert before the first record that is not nearer (stable for ties). */
  function InsertByDistance(x: DbScooter, s: seq<DbScooter>, point: seq<Float64>, metric: Metric): seq<DbScooter>
  {
    if s == [] || Distance(point, metric, x) <= Distance(point, metric, s[0]) then [x] + s
    else [s[0]] + InsertByDistance(x, s[1..], point, metric)
  }

  function SortByDistance(s: seq<DbScooter>, point: seq<Float64>, metric: Metric): seq<DbScooter>
  {
    if s == [] then [] else InsertByDistance(s[0], SortByDistance(s[1..], point, metric), point, metric)
  }

  /** The cursor the engine opens for a filter. */
  function Find(records: seq<DbScooter>, filter: ScooterFilter): seq<DbScooter> {
    match filter
    case AllScooters => records
    case NearAvailable(point, _, metric) => SortByDistance(Select(records, filter), point, metric)
  }

  lemma {:induction false} SelectMembers(records: seq<DbScooter>, filter: ScooterFilter, x: DbScooter)
    ensures x in Select(records, filter) <==> x in records && Matches(filter, x)
  {
    if records != [] {
      SelectMembers(records[1..], filter, x);
      assert records == [records[0]] + records[1..];
    }
  }

  /** Inserting a record no nearer than a bound keeps every record no nearer than it. */
  lemma {:induction false} InsertKeepsLowerBound(x: DbScooter, s: seq<DbScooter>, point: seq<Float64>,
                                                 metric: Metric, bound: real)
    requires bound <= Distance(point, metric, x)
    requires forall i :: 0 <= i < |s| ==> bound <= Distance(point, metric, s[i])
    ensures forall k :: 0 <= k < |InsertByDistance(x, s, point, metric)| ==>
      bound <= Distance(point, metric, InsertByDistance(x, s, point, metric)[k])
  {
    var r := InsertByDistance(x, s, point, metric);
    if s == [] || Distance(point, metric, x) <= Distance(point, metric, s[0]) {
      forall k | 0 <= k < |r|
        ensures bound <= Distance(point, metric, r[k])
      {
        if k > 0 {
          assert r[k] == s[k - 1];
        }
      }
    } else {
      forall i | 0 <= i < |s[1..]|
        ensures bound <= Distance(point, metric, s[1..][i])
      {
        assert s[1..][i] == s[i + 1];
      }
      InsertKeepsLowerBound(x, s[1..], point, metric, bound);
      var t := InsertByDistance(x, s[1..], point, metric);
      assert r == [s[0]] + t;
      forall k | 0 <= k < |r|
        ensures bound <= Distance(point, metric, r[k])
      {
        if k > 0 {
          assert r[k] == t[k - 1];
          assert bound <= Distance(point, metric, t[k - 1]);
        } else {
          assert r[k] == s[0];
        }
      }
    }
  }

  /** A record no farther than every record of a nearest-first sequence can go in front of it. */
  lemma ConsNearestFirst(a: DbScooter, t: seq<DbScooter>, point: seq<Float64>, metric: Metric)
    requires NearestFirst(t, point, metric)
    requires forall k :: 0 <= k < |t| ==> Distance(point, metric, a) <= Distance(point, metric, t[k])
    ensures NearestFirst([a] + t, point, metric)
  {
    var r := [a] + t;
    forall i, j | 0 <= i < j < |r|
      ensures Distance(point, metric, r[i]) <= Distance(point, metric, r[j])
    {
      assert r[j] == t[j - 1];
      if i > 0 {
        assert r[i] == t[i - 1];
      }
    }
  }

  /** The tail of a nearest-first sequence is nearest first, and no nearer than its head. */
  lemma TailNearestFirst(s: seq<DbScooter>, point: seq<Float64>, metric: Metric)
    requires s != [] && NearestFirst(s, point, metric)
    ensures NearestFirst(s[1..], point, metric)
    ensures forall k :: 0 <= k < |s[1..]| ==> Distance(point, metric, s[0]) <= Distance(point, metric, s[1..][k])
  {
    var tail := s[1..];
    forall i, j | 0 <= i < j < |tail|
      ensures Distance(point, metric, tail[i]) <= Distance(point, metric, tail[j])
    {
      assert tail[i] == s[i + 1] && tail[j] == s[j + 1];
    }
    forall k | 0 <= k < |tail|
      ensures Distance(point, metric, s[0]) <= Distance(point, metric, tail[k])
    {
      assert tail[k] == s[k + 1];
    }
  }

  lemma {:induction false} InsertByDistanceSpec(x: DbScooter, s: seq<DbScooter>, point: seq<Float64>, metric: Metric)
    requires NearestFirst(s, point, metric)
    ensures NearestFirst(InsertByDistance(x, s, point, metric), point, metric)
    ensures multiset(InsertByDistance(x, s, point, metric)) == multiset(s) + multiset{x}
  {
    if s == [] || Distance(point, metric, x) <= Distance(point, metric, s[0]) {
      forall k | 0 <= k < |s|
        ensures Distance(point, metric, x) <= Distance(point, metric, s[k])
      {
        if k > 0 {
          assert Distance(point, metric, s[0]) <= Distance(point, metric, s[k]);
        }
      }
      ConsNearestFirst(x, s, point, metric);
    } else {
      TailNearestFirst(s, point, metric);
      InsertByDistanceSpec(x, s[1..], point, metric);
      InsertKeepsLowerBound(x, s[1..], point, metric, Distance(point, metric, s[0]));
      ConsNearestFirst(s[0], InsertByDistance(x, s[1..], point, metric), point, metric);
      assert s == [s[0]] + s[1..];
    }
  }

  lemma {:induction false} SortByDistanceSpec(s: seq<DbScooter>, point: seq<Float64>, metric: Metric)
    ensures NearestFirst(SortByDistance(s, point, metric), point, metric)
    ensures multiset(SortByDistance(s, point, metric)) == multiset(s)
  {
    if s != [] {
      SortByDistanceSpec(s[1..], point, metric);
      InsertByDistanceSpec(s[0], SortByDistance(s[1..], point, metric), point, metric);
      assert s == [s[0]] + s[1..];
    }
  }

  /**
   * The proximity cursor: nearest first, and it holds exactly the available
   * records within the maximum distance (each as often as it is stored).
   */
  lemma NearCursor(records: seq<DbScooter>, point: seq<Float64>, maxDistance: int, metric: Metric)
    ensures var filter := NearAvailable(point, maxDistance, metric);
      var c := Find(records, filter);
      NearestFirst(c, point, metric)
      && multiset(c) == multiset(Select(records, filter))
      && forall x :: x in c <==> x in records && x.isAvailable && Distance(point, metric, x) <= maxDistance as real
  {
    var filter := NearAvailable(point, maxDistance, metric);
    SortByDistanceSpec(Select(records, filter), point, metric);
    forall x ensures x in Find(records, filter) <==> x in records && Matches(filter, x) {
      SelectMembers(records, filter, x);
      assert x in Find(records, filter) <==> x in multiset(Find(records, filter));
    }
  }
}
