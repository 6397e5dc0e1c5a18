/**
  `Location` (validated coordinates) and `Distance` (non-negative
  kilometres). The great-circle formula of `Location.distanceTo` is not
  modelled: `Haversine` is an arbitrary non-negative function of two
  locations.
*/
module Geo {
  import opened Wrappers

  /** The record `Location(double lat, double lon)` before validation. */
  datatype LocationRecord = LocationRecord(lat: real, lon: real)

  predicate InRange(lat: real, lon: real) {
    -90.0 <= lat <= 90.0 && -180.0 <= lon <= 180.0
  }

  /** Every constructed location lies in the coordinate ranges. */
  type Location = l: LocationRecord | InRange(l.lat, l.lon) witness LocationRecord(0.0, 0.0)

  /** The compact constructor: latitude is checked first, then longitude;
      the comparisons are strict, so the bounds themselves are accepted.
      (The offending value, which Java appends to the message, is left out.) */
  function NewLocation(lat: real, lon: real): (r: Result<Location>)
    ensures r.Success? <==> InRange(lat, lon)
    ensures r.Success? ==> r.value.lat == lat && r.value.lon == lon
    ensures (lat < -90.0 || lat > 90.0) ==> r == Failure(IllegalArgument("Invalid latitude: "))
    ensures -90.0 <= lat <= 90.0 && (lon < -180.0 || lon > 180.0) ==> r == Failure(IllegalArgument("Invalid longitude: "))
  {
    if lat < -90.0 || lat > 90.0 then Failure(IllegalArgument("Invalid latitude: "))
    else if lon < -180.0 || lon > 180.0 then Failure(IllegalArgument("Invalid longitude: "))
    else Success(LocationRecord(lat, lon))
  }

  /** The record `Distance(double kilometers)` before validation. */
  datatype DistanceRecord = DistanceRecord(kilometers: real)

  /** Every constructed distance is non-negative. */
  type Distance = d: DistanceRecord | d.kilometers >= 0.0 witness DistanceRecord(0.0)

  /** The compact constructor rejects negative kilometres. */
  function NewDistance(km: real): (r: Result<Distance>)
    ensures r.Success? <==> km >= 0.0
    ensures r.Success? ==> r.value.kilometers == km
    ensures r.Failure? ==> r.error == IllegalArgument("Distance cannot be negative")
  {
    if km < 0.0 then Failure(IllegalArgument("Distance cannot be negative"))
    else Success(DistanceRecord(km))
  }

  /** `Distance.ofKilometers` is the constructor. */
  function OfKilometers(km: real): (r: Result<Distance>)
    ensures r.Success? <==> km >= 0.0
    ensures r.Success? ==> r.value.kilometers == km
  {
    NewDistance(km)
  }

  lemma OfKilometersIsConstructor(km: real)
    ensures OfKilometers(km) == NewDistance(km)
  {
  }

  function IsGreaterThan(d: Distance, other: Distance): bool {
    d.kilometers > other.kilometers
  }

  /** `isLessThanOrEqual` is the negation of `isGreaterThan`: for any two
      distances exactly one of them holds. */
  function IsLessThanOrEqual(d: Distance, other: Distance): (b: bool)
    ensures b <==> !IsGreaterThan(d, other)
  {
    d.kilometers <= other.kilometers
  }

  /** `Double.compare` on the kilometres: -1, 0 or 1. */
  function CompareTo(d: Distance, other: Distance): (c: int)
    ensures -1 <= c <= 1
    ensures c < 0 <==> d.kilometers < other.kilometers
    ensures c == 0 <==> d.kilometers == other.kilometers
    ensures c > 0 <==> d.kilometers > other.kilometers
  {
    if d.kilometers < other.kilometers then -1
    else if d.kilometers > other.kilometers then 1
    else 0
  }

  /** `compareTo` is antisymmetric: swapping the arguments flips the sign. */
  lemma CompareToAntisymmetric(d: Distance, e: Distance)
    ensures CompareTo(d, e) == -CompareTo(e, d)
  {
  }

  /** Any function from two locations to non-negative kilometres. */
  type DistanceFn = f: (Location, Location) -> real | forall a, b :: f(a, b) >= 0.0
    witness (a: Location, b: Location) => 0.0

  /** The haversine great-circle distance, left uninterpreted. */
  const Haversine: DistanceFn

  /** `a.distanceTo(b)`: `Distance.ofKilometers` of the haversine value,
      which is never negative, so never throws. */
  function DistanceTo(a: Location, b: Location): (d: Distance)
    ensures d.kilometers == Haversine(a, b)
  {
    DistanceRecord(Haversine(a, b))
  }
}
