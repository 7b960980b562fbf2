/**
 * Route-geometry ingestion: turning the node/way/relation list returned by
 * the Overpass service into one ordered polyline with its stops and length,
 * the in-memory cache of those results with lazy 15-minute expiry, and the
 * order of checks of the `GET /api/osm/overpass` handler.
 *
 * The network exchange itself is a parameter (`fetch`), the clock readings
 * are parameters (`now`, `storedAt`), and the flat-earth segment length is a
 * parameter (`seg`).
 */
module Overpass {
  import opened Wrappers
  import opened Types
  import Js
  import Routes

  const CACHE_TTL: int := 15 * 60 * 1000  // milliseconds
  const REQUEST_TIMEOUT: int := 60000  // milliseconds

  const NO_RELATION_ERROR: string := "No relation found in Overpass response"
  const MISSING_PARAMETERS_ERROR: string := "Missing required parameters: routeId and direction"
  const BAD_DIRECTION_ERROR: string := "direction must be \"aller\" or \"retour\""
  const TIMEOUT_ERROR: string := "Request timeout (30s exceeded)"

  // ---------------------------------------------------------------------
  // Raw elements
  // ---------------------------------------------------------------------

  datatype MemberType = NodeMember | WayMember | RelationMember

  datatype Member = Member(memberType: MemberType, ref: int, role: string)

  /** A point as the service sends it: latitude and longitude, by name. */
  datatype LatLon = LatLon(lat: real, lon: real)

  /** One element of the response; absent `tags` are an empty map. */
  datatype Element =
    | Node(id: int, lat: real, lon: real, tags: map<string, string>)
    | Way(id: int, nodes: seq<int>, tags: map<string, string>, geometry: Option<seq<LatLon>>)
    | Relation(id: int, members: seq<Member>, tags: map<string, string>)

  /** The flat-earth length of one path segment, in metres. */
  type SegmentLength = (GeoPoint, GeoPoint) -> real

  datatype Source = FromCache | FromOverpass

  /** What the parser produces: the response without its `source`. */
  datatype ParsedRoute = ParsedRoute(
    routeId: string,
    direction: string,
    geometry: seq<GeoPoint>,
    stops: seq<Stop>,
    totalDistance: real)

  datatype RouteResponse = RouteResponse(route: ParsedRoute, source: Source)

  // ---------------------------------------------------------------------
  // 1. The relation
  // ---------------------------------------------------------------------

  /** The index of the first relation among the elements, if any. */
  function RelationIndex(elements: seq<Element>): (r: Option<nat>)
    ensures r.None? <==> forall i :: 0 <= i < |elements| ==> !elements[i].Relation?
    ensures r.Some? ==> r.value < |elements| && elements[r.value].Relation?
    ensures r.Some? ==> forall j :: 0 <= j < r.value ==> !elements[j].Relation?
    decreases |elements|
  {
    if elements == [] then None
    else if elements[0].Relation? then Some(0)
    else
      match RelationIndex(elements[1..])
      case None => None
      case Some(i) => Some(i + 1)
  }

  // ---------------------------------------------------------------------
  // 2. The way members that make up the path
  // ---------------------------------------------------------------------

  predicate IsRouteWayMember(m: Member) {
    m.memberType == WayMember && (m.role == "" || m.role == "forward" || m.role == "backward")
  }

  /** The refs of the way members with an empty, forward or backward role, in member order. */
  function WayRefs(members: seq<Member>): (refs: seq<int>)
    ensures |refs| <= |members|
    ensures forall r :: r in refs <==> exists m :: m in members && IsRouteWayMember(m) && m.ref == r
    decreases |members|
  {
    if members == [] then []
    else (if IsRouteWayMember(members[0]) then [members[0].ref] else []) + WayRefs(members[1..])
  }

  /** Selection keeps member order: the refs of a concatenation are the concatenated refs. */
  lemma {:induction false} WayRefsAppend(a: seq<Member>, b: seq<Member>)
    ensures WayRefs(a + b) == WayRefs(a) + WayRefs(b)
    decreases |a|
  {
    if a != [] {
      assert (a + b)[1..] == a[1..] + b;
      WayRefsAppend(a[1..], b);
    } else {
      assert a + b == b;
    }
  }

  /** Without a usable way member there is nothing to walk. */
  lemma {:induction false} WayRefsEmpty(members: seq<Member>)
    requires forall m :: m in members ==> !IsRouteWayMember(m)
    ensures WayRefs(members) == []
    decreases |members|
  {
    if members != [] {
      assert members[0] in members;
      WayRefsEmpty(members[1..]);
    }
  }

  // ---------------------------------------------------------------------
  // 3. The ways, indexed by id
  // ---------------------------------------------------------------------

  /**
   * The way elements whose id is among `refs`, by id; when several elements
   * share an id the later one is kept, as when a Map is built from pairs.
   */
  function WayIndex(elements: seq<Element>, refs: seq<int>): (m: map<int, Element>)
    ensures forall id :: id in m ==> m[id].Way? && m[id].id == id && m[id] in elements
    ensures forall id :: id in m <==> id in refs && exists e :: e in elements && e.Way? && e.id == id
    decreases |elements|
  {
    if elements == [] then map[]
    else
      var m := WayIndex(elements[..|elements| - 1], refs);
      var e := elements[|elements| - 1];
      assert elements == elements[..|elements| - 1] + [e];
      if e.Way? && e.id in refs then m[e.id := e] else m
  }

  /** `{lat, lon}` points written as `[lon, lat]`. */
  function ToGeoPoints(points: seq<LatLon>): (r: seq<GeoPoint>)
    ensures |r| == |points|
    ensures forall i :: 0 <= i < |r| ==> r[i].lon == points[i].lon && r[i].lat == points[i].lat
  {
    seq(|points|, i requires 0 <= i < |points| => GeoPoint(points[i].lon, points[i].lat))
  }

  /** The points a way ref contributes: none when the way is missing or has no geometry. */
  function CoordsOf(wayMap: map<int, Element>, ref: int): seq<GeoPoint> {
    if ref in wayMap && wayMap[ref].Way? && wayMap[ref].geometry.Some?
    then ToGeoPoints(wayMap[ref].geometry.value)
    else []
  }

  // ---------------------------------------------------------------------
  // 4. Assembling the polyline
  // ---------------------------------------------------------------------

  /** The incoming way starts where the path built so far ends. */
  predicate Joins(geometry: seq<GeoPoint>, coords: seq<GeoPoint>) {
    |geometry| > 0 && |coords| > 0 && geometry[|geometry| - 1] == coords[0]
  }

  predicate NoAdjacentDuplicates(s: seq<GeoPoint>) {
    forall i :: 0 < i < |s| ==> s[i - 1] != s[i]
  }

  /**
   * One way appended to the path. The path so far is kept; the way's points
   * follow, less its first point when that point is the path's last one.
   */
  function AppendWay(geometry: seq<GeoPoint>, coords: seq<GeoPoint>): (r: seq<GeoPoint>)
    ensures geometry <= r
    ensures |r| == |geometry| + |coords| - (if Joins(geometry, coords) then 1 else 0)
  {
    if |geometry| > 0 && |coords| > 0 then
      var lastPoint := geometry[|geometry| - 1];
      var firstPoint := coords[0];
      if lastPoint.lon == firstPoint.lon && lastPoint.lat == firstPoint.lat then
        geometry + coords[1..]
      else
        geometry + coords
    else
      geometry + coords
  }

  /** After the path so far come the way's points, less the first one exactly when the two join. */
  lemma AppendWayTail(geometry: seq<GeoPoint>, coords: seq<GeoPoint>)
    ensures AppendWay(geometry, coords)[|geometry|..] == coords[(if Joins(geometry, coords) then 1 else 0)..]
  {
  }

  /** Appending keeps exactly the points of both parts. */
  lemma AppendWayPoints(geometry: seq<GeoPoint>, coords: seq<GeoPoint>)
    ensures forall p :: p in AppendWay(geometry, coords) <==> p in geometry || p in coords
  {
    if Joins(geometry, coords) {
      assert coords == [coords[0]] + coords[1..];
    }
  }

  /** Appending creates no back-to-back duplicate at the junction. */
  lemma AppendWayNoDuplicates(geometry: seq<GeoPoint>, coords: seq<GeoPoint>)
    requires NoAdjacentDuplicates(geometry) && NoAdjacentDuplicates(coords)
    ensures NoAdjacentDuplicates(AppendWay(geometry, coords))
  {
  }

  /**
   * The path assembled from the way refs, walked in order. It is empty
   * exactly when no ref resolves to a way with points.
   */
  function BuildGeometry(wayMap: map<int, Element>, refs: seq<int>): (r: seq<GeoPoint>)
    ensures |r| == 0 <==> forall k :: 0 <= k < |refs| ==> CoordsOf(wayMap, refs[k]) == []
    decreases |refs|
  {
    if refs == [] then []
    else AppendWay(BuildGeometry(wayMap, refs[..|refs| - 1]), CoordsOf(wayMap, refs[|refs| - 1]))
  }

  /** Building one more ref appends that ref's way. */
  lemma BuildGeometryStep(wayMap: map<int, Element>, refs: seq<int>, i: nat)
    requires i < |refs|
    ensures BuildGeometry(wayMap, refs[..i + 1])
         == AppendWay(BuildGeometry(wayMap, refs[..i]), CoordsOf(wayMap, refs[i]))
  {
    assert refs[..i + 1][..i] == refs[..i];
  }

  /** Later ways never alter the path built from the earlier ones. */
  lemma {:induction false} BuildGeometryExtends(wayMap: map<int, Element>, refs: seq<int>, n: nat)
    requires n <= |refs|
    ensures BuildGeometry(wayMap, refs[..n]) <= BuildGeometry(wayMap, refs)
    decreases |refs| - n
  {
    if n < |refs| {
      var init := refs[..|refs| - 1];
      assert refs[..n] == init[..n];
      BuildGeometryExtends(wayMap, init, n);
    } else {
      assert refs[..n] == refs;
    }
  }

  /** A ref whose way is missing or has no geometry adds nothing. */
  lemma UnresolvedRefAddsNothing(wayMap: map<int, Element>, refs: seq<int>, ref: int)
    requires ref !in wayMap || !wayMap[ref].Way? || wayMap[ref].geometry.None?
    ensures BuildGeometry(wayMap, refs + [ref]) == BuildGeometry(wayMap, refs)
  {
    assert (refs + [ref])[..|refs|] == refs;
  }

  /**
   * When no way repeats a point back to back, neither does the assembled
   * path: no junction leaves a duplicated point.
   */
  lemma {:induction false} BuildGeometryNoJunctionDuplicates(wayMap: map<int, Element>, refs: seq<int>)
    requires forall k :: k in refs ==> NoAdjacentDuplicates(CoordsOf(wayMap, k))
    ensures NoAdjacentDuplicates(BuildGeometry(wayMap, refs))
    decreases |refs|
  {
    if refs != [] {
      BuildGeometryNoJunctionDuplicates(wayMap, refs[..|refs| - 1]);
      AppendWayNoDuplicates(BuildGeometry(wayMap, refs[..|refs| - 1]), CoordsOf(wayMap, refs[|refs| - 1]));
    }
  }

  /** The path holds exactly the points of the ways the refs resolve to. */
  lemma {:induction false} BuildGeometryPoints(wayMap: map<int, Element>, refs: seq<int>)
    ensures forall p :: p in BuildGeometry(wayMap, refs) <==> exists k :: k in refs && p in CoordsOf(wayMap, k)
    decreases |refs|
  {
    if refs != [] {
      var init, last := refs[..|refs| - 1], refs[|refs| - 1];
      BuildGeometryPoints(wayMap, init);
      AppendWayPoints(BuildGeometry(wayMap, init), CoordsOf(wayMap, last));
      assert refs == init + [last];
      forall p | p in BuildGeometry(wayMap, refs)
        ensures exists k :: k in refs && p in CoordsOf(wayMap, k)
      {
        if p !in CoordsOf(wayMap, last) {
          assert p in BuildGeometry(wayMap, init);
          var k :| k in init && p in CoordsOf(wayMap, k);
          assert k in refs;
        }
      }
      forall p | exists k :: k in refs && p in CoordsOf(wayMap, k)
        ensures p in BuildGeometry(wayMap, refs)
      {
        var k :| k in refs && p in CoordsOf(wayMap, k);
        if k != last {
          assert k in init;
          assert p in BuildGeometry(wayMap, init);
        }
      }
    }
  }

  // ---------------------------------------------------------------------
  // 5. Stops
  // ---------------------------------------------------------------------

  predicate IsStopMember(m: Member) {
    m.memberType == NodeMember && (m.role == "stop" || m.role == "platform")
  }

  /** The refs of the node members with a stop or platform role, in member order. */
  function StopRefs(members: seq<Member>): (refs: seq<int>)
    ensures forall r :: r in refs <==> exists m :: m in members && IsStopMember(m) && m.ref == r
    decreases |members|
  {
    if members == [] then []
    else (if IsStopMember(members[0]) then [members[0].ref] else []) + StopRefs(members[1..])
  }

  /** The node elements whose id is among `refs`, in element order. */
  function StopNodes(elements: seq<Element>, refs: seq<int>): (nodes: seq<Element>)
    ensures |nodes| <= |elements|
    ensures forall e :: e in nodes <==> e in elements && e.Node? && e.id in refs
    decreases |elements|
  {
    if elements == [] then []
    else
      (if elements[0].Node? && elements[0].id in refs then [elements[0]] else [])
      + StopNodes(elements[1..], refs)
  }

  /** Stops follow the order of the elements, not of the members. */
  lemma {:induction false} StopNodesAppend(a: seq<Element>, b: seq<Element>, refs: seq<int>)
    ensures StopNodes(a + b, refs) == StopNodes(a, refs) + StopNodes(b, refs)
    decreases |a|
  {
    if a != [] {
      assert (a + b)[1..] == a[1..] + b;
      StopNodesAppend(a[1..], b, refs);
    } else {
      assert a + b == b;
    }
  }

  /** A tag taken as truthy: present and not empty. */
  predicate HasTag(tags: map<string, string>, key: string) {
    key in tags && Js.Truthy(tags[key])
  }

  /** `tags.name || tags['ref:FR:STAN'] || 'Arrêt <id>'`. */
  function StopName(tags: map<string, string>, id: int): (name: string)
    ensures name != ""
    ensures HasTag(tags, "name") ==> name == tags["name"]
    ensures !HasTag(tags, "name") && HasTag(tags, "ref:FR:STAN") ==> name == tags["ref:FR:STAN"]
    ensures !HasTag(tags, "name") && !HasTag(tags, "ref:FR:STAN") ==> name == "Arrêt " + Js.IntToString(id)
  {
    if HasTag(tags, "name") then tags["name"]
    else if HasTag(tags, "ref:FR:STAN") then tags["ref:FR:STAN"]
    else "Arrêt " + Js.IntToString(id)
  }

  /** `tags['ref:FR:STAN'] || tags.ref`: the second operand is taken as it is, even empty. */
  function StopCode(tags: map<string, string>): (code: Option<string>)
    ensures HasTag(tags, "ref:FR:STAN") ==> code == Some(tags["ref:FR:STAN"])
    ensures !HasTag(tags, "ref:FR:STAN") ==> (code.Some? <==> "ref" in tags)
    ensures code.Some? ==> code.value in tags.Values
  {
    if HasTag(tags, "ref:FR:STAN") then Some(tags["ref:FR:STAN"])
    else if "ref" in tags then Some(tags["ref"])
    else None
  }

  const STOP_ID_PREFIX: string := "osm-node-"

  function MakeStop(node: Element): (s: Stop)
    requires node.Node?
    ensures s.position == GeoPoint(node.lon, node.lat)
    ensures s.name == StopName(node.tags, node.id) && s.code == StopCode(node.tags)
    ensures STOP_ID_PREFIX <= s.id && s.id[|STOP_ID_PREFIX|..] == Js.IntToString(node.id)
  {
    Stop(STOP_ID_PREFIX + Js.IntToString(node.id), StopName(node.tags, node.id),
         GeoPoint(node.lon, node.lat), StopCode(node.tags))
  }

  /** Two stops share an id only when they come from nodes with the same id. */
  lemma StopIdsIdentifyNodes(a: Element, b: Element)
    requires a.Node? && b.Node?
    ensures MakeStop(a).id == MakeStop(b).id <==> a.id == b.id
  {
    if MakeStop(a).id == MakeStop(b).id {
      assert Js.IntToString(a.id) == MakeStop(a).id[|STOP_ID_PREFIX|..];
      Js.IntToStringInjective(a.id, b.id);
    }
  }

  /** The stops of a relation: one per stop node, in element order. */
  function ExtractStops(elements: seq<Element>, members: seq<Member>): (stops: seq<Stop>)
    ensures var nodes := StopNodes(elements, StopRefs(members));
            |stops| == |nodes| && forall i :: 0 <= i < |stops| ==> stops[i] == MakeStop(nodes[i])
  {
    var nodes := StopNodes(elements, StopRefs(members));
    seq(|nodes|, i requires 0 <= i < |nodes| => MakeStop(nodes[i]))
  }

  // ---------------------------------------------------------------------
  // 6. Length
  // ---------------------------------------------------------------------

  /** The sum of one segment length per consecutive pair of points. */
  function PathDistance(geometry: seq<GeoPoint>, seg: SegmentLength): (d: real)
    ensures |geometry| < 2 ==> d == 0.0
    decreases |geometry|
  {
    if |geometry| < 2 then 0.0
    else PathDistance(geometry[..|geometry| - 1], seg) + seg(geometry[|geometry| - 2], geometry[|geometry| - 1])
  }

  /** With non-negative segment lengths the total is non-negative. */
  lemma {:induction false} PathDistanceNonNegative(geometry: seq<GeoPoint>, seg: SegmentLength)
    requires forall a, b :: seg(a, b) >= 0.0
    ensures PathDistance(geometry, seg) >= 0.0
    decreases |geometry|
  {
    if |geometry| >= 2 {
      PathDistanceNonNegative(geometry[..|geometry| - 1], seg);
      assert seg(geometry[|geometry| - 2], geometry[|geometry| - 1]) >= 0.0;
    }
  }

  /** With non-negative segment lengths the total grows with the path. */
  lemma {:induction false} PathDistanceMonotone(geometry: seq<GeoPoint>, seg: SegmentLength, n: nat)
    requires forall a, b :: seg(a, b) >= 0.0
    requires n <= |geometry|
    ensures PathDistance(geometry[..n], seg) <= PathDistance(geometry, seg)
    decreases |geometry| - n
  {
    if n < |geometry| {
      var init := geometry[..|geometry| - 1];
      assert geometry[..n] == init[..n];
      PathDistanceMonotone(init, seg, n);
      if |geometry| >= 2 {
        assert seg(geometry[|geometry| - 2], geometry[|geometry| - 1]) >= 0.0;
      }
    } else {
      assert geometry[..n] == geometry;
    }
  }

  // ---------------------------------------------------------------------
  // The parser
  // ---------------------------------------------------------------------

  /** What parsing a response yields: an error when it holds no relation. */
  function Parse(elements: seq<Element>, routeId: string, direction: string, seg: SegmentLength): (r: Result<ParsedRoute, string>)
    ensures r.Failure? <==> forall i :: 0 <= i < |elements| ==> !elements[i].Relation?
    ensures r.Failure? ==> r.error == NO_RELATION_ERROR
    ensures r.Success? ==> r.value.routeId == routeId && r.value.direction == direction
  {
    match RelationIndex(elements)
    case None => Failure(NO_RELATION_ERROR)
    case Some(i) =>
      var relation := elements[i];
      var wayMembers := WayRefs(relation.members);
      var geometry := BuildGeometry(WayIndex(elements, wayMembers), wayMembers);
      Success(ParsedRoute(routeId, direction, geometry, ExtractStops(elements, relation.members),
                          PathDistance(geometry, seg)))
  }

  /**
   * A relation with no usable way member is not an error: it parses to an
   * empty path of length zero.
   */
  lemma RelationWithoutWaysParsesEmpty(elements: seq<Element>, routeId: string, direction: string, seg: SegmentLength)
    requires RelationIndex(elements).Some?
    requires forall m :: m in elements[RelationIndex(elements).value].members ==> !IsRouteWayMember(m)
    ensures Parse(elements, routeId, direction, seg).Success?
    ensures Parse(elements, routeId, direction, seg).value.geometry == []
    ensures Parse(elements, routeId, direction, seg).value.totalDistance == 0.0
  {
    var refs := WayRefs(elements[RelationIndex(elements).value].members);
    WayRefsEmpty(elements[RelationIndex(elements).value].members);
    assert BuildGeometry(WayIndex(elements, refs), refs) == [];
  }

  /**
   * When no way of the response repeats a point back to back, the parsed
   * path has no duplicated point anywhere, at junctions included.
   */
  lemma ParsedPathHasNoDuplicates(elements: seq<Element>, routeId: string, direction: string, seg: SegmentLength)
    requires forall e :: e in elements && e.Way? && e.geometry.Some? ==> NoAdjacentDuplicates(ToGeoPoints(e.geometry.value))
    requires Parse(elements, routeId, direction, seg).Success?
    ensures NoAdjacentDuplicates(Parse(elements, routeId, direction, seg).value.geometry)
  {
    var refs := WayRefs(elements[RelationIndex(elements).value].members);
    var wayMap := WayIndex(elements, refs);
    forall k | k in refs
      ensures NoAdjacentDuplicates(CoordsOf(wayMap, k))
    {
      if k in wayMap {
        assert wayMap[k] in elements;
      }
    }
    BuildGeometryNoJunctionDuplicates(wayMap, refs);
  }

  /** The id-to-way map of the parser, built by one pass over the elements. */
  method IndexWays(elements: seq<Element>, wayMembers: seq<int>) returns (wayMap: map<int, Element>)
    ensures wayMap == WayIndex(elements, wayMembers)
  {
    wayMap := map[];
    var k := 0;
    while k < |elements|
      invariant 0 <= k <= |elements|
      invariant wayMap == WayIndex(elements[..k], wayMembers)
    {
      var el := elements[k];
      if el.Way? && el.id in wayMembers {
        wayMap := wayMap[el.id := el];
      }
      assert elements[..k + 1][..k] == elements[..k];
      k := k + 1;
    }
    assert elements[..k] == elements;
  }

  /** One step of the parser's walk: the way a ref resolves to, joined to the path so far. */
  method AppendWayRef(geometry: seq<GeoPoint>, wayMap: map<int, Element>, wayRef: int) returns (r: seq<GeoPoint>)
    ensures r == AppendWay(geometry, CoordsOf(wayMap, wayRef))
  {
    r := geometry;
    if wayRef in wayMap && wayMap[wayRef].Way? && wayMap[wayRef].geometry.Some? {
      var coords := ToGeoPoints(wayMap[wayRef].geometry.value);
      if |r| > 0 && |coords| > 0 {
        var lastPoint := r[|r| - 1];
        var firstPoint := coords[0];
        if lastPoint.lon == firstPoint.lon && lastPoint.lat == firstPoint.lat {
          r := r + coords[1..];
        } else {
          r := r + coords;
        }
      } else {
        r := r + coords;
      }
    } else {
      assert AppendWay(geometry, []) == geometry;
    }
  }

  /** The parser's walk over the way refs, dropping the shared point at each junction. */
  method AssembleGeometry(wayMap: map<int, Element>, wayMembers: seq<int>) returns (geometry: seq<GeoPoint>)
    ensures geometry == BuildGeometry(wayMap, wayMembers)
  {
    geometry := [];
    var i := 0;
    while i < |wayMembers|
      invariant 0 <= i <= |wayMembers|
      invariant geometry == BuildGeometry(wayMap, wayMembers[..i])
    {
      BuildGeometryStep(wayMap, wayMembers, i);
      geometry := AppendWayRef(geometry, wayMap, wayMembers[i]);
      i := i + 1;
    }
    assert wayMembers[..i] == wayMembers;
  }

  /** The parser's running sum of segment lengths. */
  method SumDistance(geometry: seq<GeoPoint>, seg: SegmentLength) returns (totalDistance: real)
    ensures totalDistance == PathDistance(geometry, seg)
  {
    totalDistance := 0.0;
    if |geometry| == 0 {
      return;
    }
    var j := 1;
    while j < |geometry|
      invariant 1 <= j <= |geometry|
      invariant totalDistance == PathDistance(geometry[..j], seg)
    {
      totalDistance := totalDistance + seg(geometry[j - 1], geometry[j]);
      assert geometry[..j + 1][..j] == geometry[..j];
      j := j + 1;
    }
    assert geometry[..j] == geometry;
  }

  /** Parses a response: relation, ways, path, stops, length. */
  method ParseOverpassResponse(elements: seq<Element>, routeId: string, direction: string, seg: SegmentLength)
    returns (r: Result<ParsedRoute, string>)
    ensures r == Parse(elements, routeId, direction, seg)
  {
    var index := RelationIndex(elements);
    if index.None? {
      return Failure(NO_RELATION_ERROR);
    }
    var relation := elements[index.value];
    var wayMembers := WayRefs(relation.members);
    var wayMap := IndexWays(elements, wayMembers);
    var geometry := AssembleGeometry(wayMap, wayMembers);
    var stops := ExtractStops(elements, relation.members);
    var totalDistance := SumDistance(geometry, seg);
    return Success(ParsedRoute(routeId, direction, geometry, stops, totalDistance));
  }

  // ---------------------------------------------------------------------
  // The cache
  // ---------------------------------------------------------------------

  /** `${routeId}-${direction}`. */
  function CacheKey(routeId: string, direction: string): (key: string)
    ensures |key| == |routeId| + 1 + |direction|
    ensures key[..|routeId|] == routeId && key[|routeId|] == '-' && key[|routeId| + 1..] == direction
  {
    routeId + "-" + direction
  }

  /** For route ids without a dash (every id of the route table) the key determines the pair. */
  lemma CacheKeyInjective(r1: string, d1: string, r2: string, d2: string)
    requires '-' !in r1 && '-' !in r2
    requires CacheKey(r1, d1) == CacheKey(r2, d2)
    ensures r1 == r2 && d1 == d2
  {
    var key := CacheKey(r1, d1);
    if |r1| < |r2| {
      assert false;
    } else if |r2| < |r1| {
      assert false;
    }
  }

  datatype CacheEntry = CacheEntry(data: RouteResponse, timestamp: int)

  /** An entry is served while its age is at most the TTL, the TTL itself included. */
  predicate Fresh(entry: CacheEntry, now: int): (b: bool)
    ensures b <==> now <= entry.timestamp + 15 * 60 * 1000
    ensures now <= entry.timestamp ==> b
  {
    now - entry.timestamp <= CACHE_TTL
  }

  /** The process-wide cache of parsed routes, keyed by route id and direction. */
  class RouteCache {
    var entries: map<string, CacheEntry>

    constructor ()
      ensures entries == map[]
    {
      entries := map[];
    }

    /**
     * The cached response, marked as coming from the cache, or nothing. An
     * expired entry is deleted on the way.
     */
    method GetFromCache(routeId: string, direction: string, now: int) returns (r: Option<RouteResponse>)
      modifies this
      ensures var key := CacheKey(routeId, direction);
              && (key !in old(entries) ==> r == None && entries == old(entries))
              && (key in old(entries) && !Fresh(old(entries)[key], now) ==>
                    r == None && entries == old(entries) - {key})
              && (key in old(entries) && Fresh(old(entries)[key], now) ==>
                    r == Some(old(entries)[key].data.(source := FromCache)) && entries == old(entries))
    {
      var key := CacheKey(routeId, direction);
      if key !in entries {
        return None;
      }
      var entry := entries[key];
      var age := now - entry.timestamp;
      if age > CACHE_TTL {
        entries := entries - {key};
        return None;
      }
      return Some(entry.data.(source := FromCache));
    }

    /** Stores a response under its key, stamped with the time of storing; any older entry is replaced. */
    method SetCache(routeId: string, direction: string, data: RouteResponse, now: int)
      modifies this
      ensures entries == old(entries)[CacheKey(routeId, direction) := CacheEntry(data, now)]
    {
      var key := CacheKey(routeId, direction);
      entries := entries[key := CacheEntry(data, now)];
    }
  }

  // ---------------------------------------------------------------------
  // The handler
  // ---------------------------------------------------------------------

  /**
   * What the upstream exchange ends with: the abort timer firing, another
   * failure of the request or of reading its body, or a reply.
   */
  datatype Upstream =
    | Timeout
    | Failed(message: string)
    | Reply(status: int, statusText: string, elements: seq<Element>)

  datatype HttpResponse = Ok(body: RouteResponse) | Error(status: int, message: string)

  /** A query parameter as `searchParams.get` returns it, tested with `!`. */
  predicate Present(param: Option<string>) {
    param.Some? && Js.Truthy(param.value)
  }

  /**
   * The three checks made before anything else, in their order: both
   * parameters present (400), a known direction (400), a known line (404).
   */
  function CheckRequest(routeId: Option<string>, direction: Option<string>): (r: Result<Routes.RouteDefinition, HttpResponse>)
    ensures !Present(routeId) || !Present(direction) ==> r == Failure(Error(400, MISSING_PARAMETERS_ERROR))
    ensures (Present(routeId) && Present(direction) && direction.value != "aller" && direction.value != "retour")
              ==> r == Failure(Error(400, BAD_DIRECTION_ERROR))
    ensures r.Failure? ==> r.error.Error? && (r.error.status == 400 || r.error.status == 404)
    ensures r.Success? <==> && Present(routeId) && Present(direction)
                            && (direction.value == "aller" || direction.value == "retour")
                            && routeId.value in Routes.TABLE_ORDER
    ensures && Present(routeId) && Present(direction)
            && (direction.value == "aller" || direction.value == "retour")
            && routeId.value !in Routes.TABLE_ORDER
            ==> r == Failure(Error(404, "Unknown route: " + routeId.value))
    ensures r.Success? ==> r.value.id == routeId.value && r.value == Routes.STAN_ROUTES[routeId.value]
  {
    if !Present(routeId) || !Present(direction) then
      Failure(Error(400, MISSING_PARAMETERS_ERROR))
    else if direction.value != "aller" && direction.value != "retour" then
      Failure(Error(400, BAD_DIRECTION_ERROR))
    else
      match Routes.GetRouteDefinition(routeId.value)
      case None => Failure(Error(404, "Unknown route: " + routeId.value))
      case Some(def) => Success(def)
  }

  /** The response after a cache miss, from what the upstream exchange ended with. */
  function MissOutcome(upstream: Upstream, routeId: string, direction: string, seg: SegmentLength): (r: HttpResponse)
    ensures upstream.Timeout? ==> r == Error(504, TIMEOUT_ERROR)
    ensures upstream.Failed? ==> r == Error(500, upstream.message)
    ensures upstream.Reply? && !(200 <= upstream.status <= 299) ==>
              r == Error(500, "Overpass API error: " + Js.IntToString(upstream.status) + " " + upstream.statusText)
    ensures (upstream.Reply? && 200 <= upstream.status <= 299
             && Parse(upstream.elements, routeId, direction, seg).Failure?) ==> r == Error(500, NO_RELATION_ERROR)
    ensures r.Ok? <==> upstream.Reply? && 200 <= upstream.status <= 299
                       && Parse(upstream.elements, routeId, direction, seg).Success?
    ensures r.Ok? ==> r.body == RouteResponse(Parse(upstream.elements, routeId, direction, seg).value, FromOverpass)
  {
    match upstream
    case Timeout => Error(504, TIMEOUT_ERROR)
    case Failed(message) => Error(500, message)
    case Reply(status, statusText, elements) =>
      if !(200 <= status <= 299) then
        Error(500, "Overpass API error: " + Js.IntToString(status) + " " + statusText)
      else
        match Parse(elements, routeId, direction, seg)
        case Failure(message) => Error(500, message)
        case Success(parsed) => Ok(RouteResponse(parsed, FromOverpass))
  }

  /**
   * `GET /api/osm/overpass?routeId=…&direction=…`. `now` is the clock at the
   * cache lookup and `storedAt` the clock when a fresh result is stored;
   * `fetch` stands for the exchange with the service for a relation id.
   */
  method HandleGet(cache: RouteCache, routeId: Option<string>, direction: Option<string>,
                   fetch: int -> Upstream, seg: SegmentLength, now: int, storedAt: int)
    returns (resp: HttpResponse)
    modifies cache
    ensures CheckRequest(routeId, direction).Failure? ==>
              resp == CheckRequest(routeId, direction).error && cache.entries == old(cache.entries)
    ensures CheckRequest(routeId, direction).Success? ==>
              var def := CheckRequest(routeId, direction).value;
              var key := CacheKey(routeId.value, direction.value);
              if key in old(cache.entries) && Fresh(old(cache.entries)[key], now) then
                && resp == Ok(old(cache.entries)[key].data.(source := FromCache))
                && cache.entries == old(cache.entries)
              else
                && resp == MissOutcome(fetch(Routes.RelationFor(def, direction.value)),
                                       routeId.value, direction.value, seg)
                && cache.entries == if resp.Ok?
                                    then (old(cache.entries) - {key})[key := CacheEntry(resp.body, storedAt)]
                                    else old(cache.entries) - {key}
  {
    var checked := CheckRequest(routeId, direction);
    if checked.Failure? {
      return checked.error;
    }
    var routeDef := checked.value;
    var id, dir := routeId.value, direction.value;

    var cached := cache.GetFromCache(id, dir, now);
    if cached.Some? {
      return Ok(cached.value);
    }

    var osmRelationId := Routes.RelationFor(routeDef, dir);
    var upstream := fetch(osmRelationId);
    if upstream.Timeout? {
      return Error(504, TIMEOUT_ERROR);
    }
    if upstream.Failed? {
      return Error(500, upstream.message);
    }
    if !(200 <= upstream.status <= 299) {
      return Error(500, "Overpass API error: " + Js.IntToString(upstream.status) + " " + upstream.statusText);
    }
    var parsed := ParseOverpassResponse(upstream.elements, id, dir, seg);
    if parsed.Failure? {
      return Error(500, parsed.error);
    }
    var result := RouteResponse(parsed.value, FromOverpass);
    cache.SetCache(id, dir, result, storedAt);
    return Ok(result);
  }

  /**
   * Two requests for the same line and direction: when the first fetched
   * from the service, the second is served from the cache, with the same
   * route, as long as it comes within the TTL of the first one's storing;
   * after that it goes back to the service.
   */
  method RepeatedRequest(cache: RouteCache, routeId: string, direction: string,
                         fetch: int -> Upstream, seg: SegmentLength, t1: int, stored1: int, t2: int, stored2: int)
    returns (first: HttpResponse, second: HttpResponse)
    modifies cache
    ensures first.Ok? && first.body.source == FromOverpass && t2 - stored1 <= CACHE_TTL ==>
              second == Ok(first.body.(source := FromCache))
    ensures first.Ok? && first.body.source == FromOverpass && t2 - stored1 > CACHE_TTL ==>
              Routes.GetRouteDefinition(routeId).Some? &&
              second == MissOutcome(fetch(Routes.RelationFor(Routes.GetRouteDefinition(routeId).value, direction)),
                                    routeId, direction, seg)
  {
    first := HandleGet(cache, Some(routeId), Some(direction), fetch, seg, t1, stored1);
    second := HandleGet(cache, Some(routeId), Some(direction), fetch, seg, t2, stored2);
  }
}
