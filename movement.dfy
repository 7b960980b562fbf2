/**
 * The movement engine: advancing a bus along its path from its speed, the
 * position and heading at a distance along the path, and the end-of-route
 * test. The geodesy is done by Turf.js, which is not part of this model:
 * its three operations are parameters, gathered in a `Turf` value.
 */
module Movement {
  import opened Wrappers
  import opened Types
  import Js

  /**
   * The Turf.js operations the engine calls:
   * `length` is `turf.length(lineString(path))` in metres,
   * `along` is `turf.along(lineString(path), d)` in metres,
   * `bearing` is `turf.bearing(from, to)` in degrees.
   */
  datatype Turf = Turf(
    length: seq<GeoPoint> -> real,
    along: (seq<GeoPoint>, real) -> GeoPoint,
    bearing: (GeoPoint, GeoPoint) -> real)

  /** What the engine relies on Turf for: lengths are never negative and bearings lie in [-180, 180]. */
  ghost predicate Sound(t: Turf) {
    && (forall p :: t.length(p) >= 0.0)
    && (forall a, b :: -180.0 <= t.bearing(a, b) <= 180.0)
  }

  /** How far ahead the heading is sampled, in metres. */
  const LOOK_AHEAD: real := 10.0

  /** The default distance from the path's end at which a bus counts as arrived, in metres. */
  const END_THRESHOLD: real := 50.0

  datatype PositionHeading = PositionHeading(position: GeoPoint, heading: real)

  /** The result of moving a bus: the bus, and its new distance along the path. */
  datatype BusMove = BusMove(updatedBus: Bus, newDistanceOnPath: real)

  function Min(a: real, b: real): real { if a <= b then a else b }

  function Max(a: real, b: real): real { if a >= b then a else b }

  /**
   * The distance along the path after `deltaTime` seconds at `speed` km/h.
   * The path is not consulted.
   */
  function CalculateNewDistance(current: real, speed: real, deltaTime: real, path: seq<GeoPoint>): (r: real)
    ensures speed >= 0.0 && deltaTime >= 0.0 ==> r >= current
    ensures speed * deltaTime == 0.0 ==> r == current
  {
    var metresPerSecond := speed * 1000.0 / 3600.0;
    current + metresPerSecond * deltaTime
  }

  /**
   * Two successive advances equal one advance over the summed time, and the
   * path given never matters: this is why the caller may scale the elapsed
   * time by the clock's multiplier.
   */
  lemma AdvancesCompose(current: real, speed: real, d1: real, d2: real, p: seq<GeoPoint>, q: seq<GeoPoint>)
    ensures CalculateNewDistance(CalculateNewDistance(current, speed, d1, p), speed, d2, q)
         == CalculateNewDistance(current, speed, d1 + d2, p)
  {
    var v := speed * 1000.0 / 3600.0;
    assert v * d1 + v * d2 == v * (d1 + d2);
  }

  /** A distance brought into [0, total]. */
  function ClampDistance(distance: real, total: real): (c: real)
    ensures total >= 0.0 ==> 0.0 <= c <= total
    ensures total >= 0.0 && 0.0 <= distance <= total ==> c == distance
    ensures total >= 0.0 && distance > total ==> c == total
    ensures distance < 0.0 ==> c == 0.0
  {
    Max(0.0, Min(distance, total))
  }

  /** How far beyond `clamped` the heading is sampled. */
  function LookAhead(clamped: real, total: real): (r: real)
    ensures r <= LOOK_AHEAD && clamped + r <= total
    ensures 0.0 <= clamped <= total ==> 0.0 <= r
    ensures clamped + LOOK_AHEAD <= total ==> r == LOOK_AHEAD
    ensures clamped + LOOK_AHEAD >= total ==> clamped + r == total
  {
    Min(LOOK_AHEAD, total - clamped)
  }

  /**
   * `(heading + 360) % 360`. For a bearing in [-180, 180] this is the
   * compass heading in [0, 360): the bearing itself when it is not negative,
   * the bearing plus a full turn otherwise.
   */
  function NormalizeHeading(bearing: real): (h: real)
    ensures -180.0 <= bearing <= 180.0 ==> 0.0 <= h < 360.0
    ensures -180.0 <= bearing <= 180.0 ==> h == if bearing < 0.0 then bearing + 360.0 else bearing
  {
    Js.Remainder(bearing + 360.0, 360.0)
  }

  /**
   * The position at `distanceOnPath` metres along `path` (clamped to the
   * path), and the heading towards the point a little further on. There is
   * none for a path of fewer than two points.
   */
  function GetPositionAtDistance(distanceOnPath: real, path: seq<GeoPoint>, t: Turf): (r: Option<PositionHeading>)
    ensures r.None? <==> |path| < 2
    ensures r.Some? ==> r.value.position == t.along(path, ClampDistance(distanceOnPath, t.length(path)))
    ensures r.Some? && Sound(t) ==> 0.0 <= r.value.heading < 360.0
  {
    if |path| < 2 then None
    else
      var totalLength := t.length(path);
      var clamped := ClampDistance(distanceOnPath, totalLength);
      var point := t.along(path, clamped);
      var ahead := LookAhead(clamped, totalLength);
      var nextPoint := t.along(path, clamped + ahead);
      var heading := t.bearing(point, nextPoint);
      Some(PositionHeading(point, NormalizeHeading(heading)))
  }

  /**
   * The heading is taken towards a point at most LOOK_AHEAD metres further
   * along, never beyond the path's end, and never behind the position.
   */
  lemma HeadingLooksAhead(distanceOnPath: real, path: seq<GeoPoint>, t: Turf)
    requires |path| >= 2 && Sound(t)
    ensures var L := t.length(path);
            var c := ClampDistance(distanceOnPath, L);
            var ahead := Min(c + LOOK_AHEAD, L);
            && c <= ahead <= L
            && GetPositionAtDistance(distanceOnPath, path, t).value.heading
               == NormalizeHeading(t.bearing(t.along(path, c), t.along(path, ahead)))
  {
    var L := t.length(path);
    var c := ClampDistance(distanceOnPath, L);
    assert c + LookAhead(c, L) == Min(c + LOOK_AHEAD, L);
  }

  /**
   * The sampled position is the path's start for any distance at or before
   * the start, its end for any distance at or after the end, and the point
   * at that distance in between.
   */
  lemma PositionClamped(distanceOnPath: real, path: seq<GeoPoint>, t: Turf)
    requires |path| >= 2 && Sound(t)
    ensures var L := t.length(path);
            var p := GetPositionAtDistance(distanceOnPath, path, t).value.position;
            && (distanceOnPath <= 0.0 ==> p == t.along(path, 0.0))
            && (distanceOnPath >= L ==> p == t.along(path, L))
            && (0.0 <= distanceOnPath <= L ==> p == t.along(path, distanceOnPath))
  {
  }

  /** The segments of a bus after its tractor (segment 0) has been moved. */
  function MoveTractor(segments: seq<BusSegment>, at: PositionHeading): (r: seq<BusSegment>)
    ensures |r| == |segments|
    ensures |r| > 0 ==> r[0] == segments[0].(currentPosition := at.position, currentHeading := at.heading)
    ensures forall i :: 1 <= i < |r| ==> r[i] == segments[i]
  {
    seq(|segments|, i requires 0 <= i < |segments| =>
      if i == 0 then segments[i].(currentPosition := at.position, currentHeading := at.heading)
      else segments[i])
  }

  /**
   * Moves a bus for `deltaTime` seconds from `currentDistanceOnPath`. When no
   * position can be computed the bus and its distance are returned as they
   * were; otherwise only the tractor segment is moved and turned, and the new
   * distance is the advanced one (not clamped to the path).
   */
  function UpdateBusPosition(bus: Bus, path: seq<GeoPoint>, deltaTime: real, currentDistanceOnPath: real, t: Turf): (r: BusMove)
    ensures |path| < 2 ==> r == BusMove(bus, currentDistanceOnPath)
    ensures |path| >= 2 ==> r.newDistanceOnPath == CalculateNewDistance(currentDistanceOnPath, bus.speed, deltaTime, path)
    ensures r.updatedBus == bus.(segments := r.updatedBus.segments)
    ensures |r.updatedBus.segments| == |bus.segments|
    ensures forall i :: 1 <= i < |bus.segments| ==> r.updatedBus.segments[i] == bus.segments[i]
    ensures |path| >= 2 && |bus.segments| > 0 ==>
              var at := GetPositionAtDistance(r.newDistanceOnPath, path, t).value;
              r.updatedBus.segments[0].currentPosition == at.position
              && r.updatedBus.segments[0].currentHeading == at.heading
              && r.updatedBus.segments[0] == bus.segments[0].(currentPosition := at.position, currentHeading := at.heading)
  {
    var newDistance := CalculateNewDistance(currentDistanceOnPath, bus.speed, deltaTime, path);
    var positionData := GetPositionAtDistance(newDistance, path, t);
    if positionData.None? then
      BusMove(bus, currentDistanceOnPath)
    else
      BusMove(bus.(segments := MoveTractor(bus.segments, positionData.value)), newDistance)
  }

  /** After a move under a sound Turf, the tractor's heading is a compass heading. */
  lemma MovedHeadingInRange(bus: Bus, path: seq<GeoPoint>, deltaTime: real, current: real, t: Turf)
    requires Sound(t) && |path| >= 2 && |bus.segments| > 0
    ensures 0.0 <= UpdateBusPosition(bus, path, deltaTime, current, t).updatedBus.segments[0].currentHeading < 360.0
  {
  }

  /** The length of a path in metres; nothing for a path of fewer than two points. */
  function GetPathLength(path: seq<GeoPoint>, t: Turf): (r: real)
    ensures |path| < 2 ==> r == 0.0
    ensures Sound(t) ==> r >= 0.0
  {
    if |path| < 2 then 0.0 else t.length(path)
  }

  /**
   * Whether a bus at `distanceOnPath` is within `threshold` metres of the
   * path's end. A path of fewer than two points counts as already finished.
   */
  function HasReachedEnd(distanceOnPath: real, path: seq<GeoPoint>, t: Turf, threshold: real := END_THRESHOLD): (r: bool)
    ensures |path| < 2 ==> r
    ensures |path| >= 2 ==> (r <==> distanceOnPath >= GetPathLength(path, t) - threshold)
  {
    if |path| < 2 then true
    else
      var totalLength := t.length(path);
      distanceOnPath >= totalLength - threshold
  }

  /** Once a bus has reached the end, any further distance has too; the boundary itself counts as reached. */
  lemma {:induction false} ReachedEndMonotone(d1: real, d2: real, path: seq<GeoPoint>, t: Turf, threshold: real)
    requires d1 <= d2
    ensures HasReachedEnd(d1, path, t, threshold) ==> HasReachedEnd(d2, path, t, threshold)
    ensures HasReachedEnd(GetPathLength(path, t) - threshold, path, t, threshold)
  {
  }

  /** A bus that has not reached the end is on a path of at least two points, so a position exists. */
  lemma NotAtEndHasPosition(distanceOnPath: real, d: real, path: seq<GeoPoint>, t: Turf, threshold: real)
    requires !HasReachedEnd(distanceOnPath, path, t, threshold)
    ensures GetPositionAtDistance(d, path, t).Some?
    ensures distanceOnPath < GetPathLength(path, t) - threshold
  {
  }
}
