/**
 * The fleet slice: the vehicles keyed by id, the selected entity and the
 * map's level of detail, with the per-tick movement of every vehicle in
 * service along its line's active path.
 */
module Fleet {
  import opened Wrappers
  import opened Types
  import Js
  import Movement
  import Network

  /** The static test vehicle: a standard electric bus at Place Stanislas, on line T1. */
  const INITIAL_BUS: Bus := Bus(
    "bus-001",
    Standard,
    InService,
    [BusSegment("tracteur", 12.0, 2.5, 45.0, GeoPoint(6.18, 48.68))],
    Telemetry(85.0, Electric, [false, false, false, false], 75.0, false, false, 12450.0),
    Some("T1"),
    Some(Aller),
    Some(0.0),
    DEFAULT_BUS_SPEED)

  // ---------------------------------------------------------------------
  // One vehicle, one tick
  // ---------------------------------------------------------------------

  /** A vehicle the tick moves or stops: in service, with a (non-empty) line and a direction. */
  predicate Assigned(bus: Bus) {
    bus.status == InService && bus.assignedRouteId.Some? && Js.Truthy(bus.assignedRouteId.value)
    && bus.assignedDirection.Some?
  }

  /** The key of the geometry a vehicle runs on: `<routeId>-<ALLER|RETOUR>`. */
  function RouteKey(bus: Bus): (k: string)
    requires Assigned(bus)
    ensures var id := bus.assignedRouteId.value;
            && id <= k && |id| < |k| && k[|id|] == '-' && k[|id| + 1..] == DirectionName(bus.assignedDirection.value)
  {
    bus.assignedRouteId.value + "-" + DirectionName(bus.assignedDirection.value)
  }

  /**
   * The new state of one vehicle after `deltaTime` seconds. A vehicle out of
   * service, unassigned, or whose geometry is not loaded is kept as is. A
   * vehicle whose current distance is within 50 m of the end is stopped.
   * Any other one moves; its distance and odometer grow by what it covered.
   */
  function TickVehicle(bus: Bus, routes: map<string, RouteGeometry>, t: Movement.Turf, deltaTime: real): (r: Bus)
    ensures r.id == bus.id && r.busType == bus.busType
    ensures r.assignedRouteId == bus.assignedRouteId && r.assignedDirection == bus.assignedDirection
    ensures |r.segments| == |bus.segments|
    ensures r.status == bus.status || r.status == Idle
    ensures r.telemetry == bus.telemetry.(odometer := r.telemetry.odometer)
  {
    if !Assigned(bus) then bus
    else if RouteKey(bus) !in routes then bus
    else
      var path := routes[RouteKey(bus)].activePath;
      var currentDistance := bus.distanceOnPath.GetOr(0.0);
      if Movement.HasReachedEnd(currentDistance, path, t) then
        bus.(speed := 0.0, status := Idle)
      else
        var move := Movement.UpdateBusPosition(bus, path, deltaTime, currentDistance, t);
        var distanceTraveledKm := (move.newDistanceOnPath - currentDistance) / 1000.0;
        move.updatedBus.(
          distanceOnPath := Some(move.newDistanceOnPath),
          telemetry := move.updatedBus.telemetry.(odometer := move.updatedBus.telemetry.odometer + distanceTraveledKm))
  }

  /** Vehicles the tick does not touch. */
  lemma TickSkips(bus: Bus, routes: map<string, RouteGeometry>, t: Movement.Turf, deltaTime: real)
    requires !Assigned(bus) || RouteKey(bus) !in routes
    ensures TickVehicle(bus, routes, t, deltaTime) == bus
  {
  }

  /**
   * A vehicle at its terminus (or on a path of fewer than two points) is
   * stopped and set idle, and nothing else about it changes.
   */
  lemma TickStopsAtTerminus(bus: Bus, routes: map<string, RouteGeometry>, t: Movement.Turf, deltaTime: real)
    requires Assigned(bus) && RouteKey(bus) in routes
    requires Movement.HasReachedEnd(bus.distanceOnPath.GetOr(0.0), routes[RouteKey(bus)].activePath, t)
    ensures TickVehicle(bus, routes, t, deltaTime) == bus.(speed := 0.0, status := Idle)
  {
  }

  /**
   * A vehicle short of its terminus advances by speed (km/h) times time,
   * converted to metres, and its odometer by the same distance in km; its
   * status and speed are kept and its tractor stands at the new distance.
   */
  lemma TickMoves(bus: Bus, routes: map<string, RouteGeometry>, t: Movement.Turf, deltaTime: real)
    requires Assigned(bus) && RouteKey(bus) in routes
    requires !Movement.HasReachedEnd(bus.distanceOnPath.GetOr(0.0), routes[RouteKey(bus)].activePath, t)
    ensures var r := TickVehicle(bus, routes, t, deltaTime);
            var d := bus.distanceOnPath.GetOr(0.0);
            && r.status == InService && r.speed == bus.speed
            && r.distanceOnPath == Some(d + bus.speed * deltaTime / 3.6)
            && r.telemetry.odometer == bus.telemetry.odometer + bus.speed * deltaTime / 3600.0
            && (|bus.segments| > 0 ==>
                  r.segments[0].currentPosition
                  == Movement.GetPositionAtDistance(d + bus.speed * deltaTime / 3.6,
                                                    routes[RouteKey(bus)].activePath, t).value.position)
  {
    var path := routes[RouteKey(bus)].activePath;
    var d := bus.distanceOnPath.GetOr(0.0);
    assert |path| >= 2;
    assert Movement.CalculateNewDistance(d, bus.speed, deltaTime, path) == d + bus.speed * deltaTime / 3.6;
  }

  /**
   * The odometer and the distance along the path move together: whatever a
   * tick does, the odometer minus the distance (in km) is unchanged, for a
   * vehicle that already carries a distance.
   */
  lemma TickKeepsOdometerInStep(bus: Bus, routes: map<string, RouteGeometry>, t: Movement.Turf, deltaTime: real)
    requires bus.distanceOnPath.Some?
    ensures var r := TickVehicle(bus, routes, t, deltaTime);
            r.distanceOnPath.Some?
            && r.telemetry.odometer - r.distanceOnPath.value / 1000.0
               == bus.telemetry.odometer - bus.distanceOnPath.value / 1000.0
  {
    if Assigned(bus) && RouteKey(bus) in routes {
      var path := routes[RouteKey(bus)].activePath;
      if !Movement.HasReachedEnd(bus.distanceOnPath.value, path, t) {
        TickMoves(bus, routes, t, deltaTime);
      }
    }
  }

  /** Going forward in time never moves a vehicle backward along its path. */
  lemma TickNeverReverses(bus: Bus, routes: map<string, RouteGeometry>, t: Movement.Turf, deltaTime: real)
    requires bus.distanceOnPath.Some? && bus.speed >= 0.0 && deltaTime >= 0.0
    ensures var r := TickVehicle(bus, routes, t, deltaTime);
            r.distanceOnPath.Some? && bus.distanceOnPath.value <= r.distanceOnPath.value
            && r.telemetry.odometer >= bus.telemetry.odometer
  {
    TickKeepsOdometerInStep(bus, routes, t, deltaTime);
    if Assigned(bus) && RouteKey(bus) in routes {
      var path := routes[RouteKey(bus)].activePath;
      if !Movement.HasReachedEnd(bus.distanceOnPath.value, path, t) {
        TickMoves(bus, routes, t, deltaTime);
      }
    }
  }

  /** A path of 100 m on which every point is the origin and every bearing north. */
  const FLAT_100: Movement.Turf :=
    Movement.Turf((p: seq<GeoPoint>) => 100.0, (p: seq<GeoPoint>, d: real) => GeoPoint(0.0, 0.0),
                  (a: GeoPoint, b: GeoPoint) => 0.0)

  /**
   * The terminus test looks at the distance before the move, so one long
   * tick carries a vehicle past the end of its path and leaves it in
   * service: a bus at the start of a 100 m path, after 60 s at 30 km/h,
   * stands at 500 m. This is one worked instance; the general fact is
   * `TickMoves`, whose only condition is that the distance before the move
   * is short of the terminus zone, with nothing bounding the distance after.
   */
  lemma TickCanPassPathEnd()
    ensures var path := [GeoPoint(0.0, 0.0), GeoPoint(0.0, 1.0)];
            var routes := map["T1-ALLER" := RouteGeometry("T1", Aller, 2074460, path, path, [], [])];
            var r := TickVehicle(INITIAL_BUS, routes, FLAT_100, 60.0);
            && Movement.GetPathLength(path, FLAT_100) == 100.0
            && r.status == InService
            && r.distanceOnPath == Some(500.0)
  {
    var path := [GeoPoint(0.0, 0.0), GeoPoint(0.0, 1.0)];
    var routes := map["T1-ALLER" := RouteGeometry("T1", Aller, 2074460, path, path, [], [])];
    assert RouteKey(INITIAL_BUS) == "T1-ALLER";
    TickMoves(INITIAL_BUS, routes, FLAT_100, 60.0);
  }

  // ---------------------------------------------------------------------
  // Doors and level of detail
  // ---------------------------------------------------------------------

  /**
   * The door array after `doors[i] = !doors[i]`. A negative index names no
   * door and leaves the array alone; an index past the end grows it, the
   * new doors in between reading as closed and the named one as open.
   */
  function ToggleDoor(doors: seq<bool>, i: int): (r: seq<bool>)
    ensures i < 0 ==> r == doors
    ensures |doors| <= |r|
    ensures 0 <= i < |doors| ==> |r| == |doors| && r[i] == !doors[i]
    ensures 0 <= i ==> forall j :: 0 <= j < |doors| && j != i ==> r[j] == doors[j]
    ensures |doors| <= i ==> |r| == i + 1 && r[i] && forall j :: |doors| <= j < i ==> !r[j]
  {
    if i < 0 then doors
    else if i < |doors| then doors[i := !doors[i]]
    else doors + seq(i - |doors|, _ => false) + [true]
  }

  /**
   * Toggling a door twice restores the array when the door existed, and
   * otherwise leaves it grown with every new door closed.
   */
  lemma ToggleDoorTwice(doors: seq<bool>, i: int)
    ensures i < |doors| ==> ToggleDoor(ToggleDoor(doors, i), i) == doors
    ensures |doors| <= i ==> ToggleDoor(ToggleDoor(doors, i), i) == doors + seq(i + 1 - |doors|, _ => false)
  {
    if |doors| <= i {
      var once := ToggleDoor(doors, i);
      var twice := ToggleDoor(once, i);
      var grown := doors + seq(i + 1 - |doors|, _ => false);
      assert |twice| == |grown|;
      forall j | 0 <= j < |twice|
        ensures twice[j] == grown[j]
      {
        if j < |doors| {
        } else if j < i {
          assert !once[j];
        }
      }
    }
  }

  /** The level of detail for a zoom level: full from 16, simplified from 14, minimal below. */
  function LodFor(zoom: real): (level: LodLevel)
    ensures level == Full <==> zoom >= LOD_FULL_ZOOM
    ensures level == Simplified <==> LOD_SIMPLIFIED_ZOOM <= zoom < LOD_FULL_ZOOM
    ensures level == Minimal <==> zoom < LOD_SIMPLIFIED_ZOOM
  {
    if zoom >= LOD_FULL_ZOOM then Full
    else if zoom >= LOD_SIMPLIFIED_ZOOM then Simplified
    else Minimal
  }

  /** How much a level draws: minimal < simplified < full. */
  function Detail(level: LodLevel): nat {
    match level
    case Minimal => 0
    case Simplified => 1
    case Full => 2
  }

  /** Zooming in never lowers the level of detail. */
  lemma LodMonotone(z1: real, z2: real)
    requires z1 <= z2
    ensures Detail(LodFor(z1)) <= Detail(LodFor(z2))
  {
  }

  // ---------------------------------------------------------------------
  // The slice
  // ---------------------------------------------------------------------

  class FleetSlice {
    var vehicles: map<string, Bus>
    var selectedEntityId: Option<string>
    var lodLevel: LodLevel

    /** Every vehicle is stored under its own id. */
    ghost predicate Valid()
      reads this
    {
      forall k :: k in vehicles ==> vehicles[k].id == k
    }

    constructor ()
      ensures Valid()
      ensures vehicles == map["bus-001" := INITIAL_BUS]
      ensures selectedEntityId == None && lodLevel == Full
    {
      vehicles := map["bus-001" := INITIAL_BUS];
      selectedEntityId := None;
      lodLevel := Full;
    }

    /**
     * One simulation tick for the whole fleet: each vehicle is replaced by
     * its ticked state, read against the network's loaded geometries.
     */
    method UpdateVehiclesLogic(deltaTime: real, network: Network.NetworkSlice, t: Movement.Turf)
      requires Valid()
      modifies this
      ensures Valid()
      ensures vehicles.Keys == old(vehicles).Keys
      ensures vehicles == map k | k in old(vehicles) :: TickVehicle(old(vehicles)[k], network.routes, t, deltaTime)
      ensures selectedEntityId == old(selectedEntityId) && lodLevel == old(lodLevel)
    {
      var updatedVehicles: map<string, Bus> := map[];
      var remaining := vehicles.Keys;
      while remaining != {}
        invariant remaining <= vehicles.Keys
        invariant updatedVehicles.Keys == vehicles.Keys - remaining
        invariant forall k :: k in updatedVehicles ==>
                    updatedVehicles[k] == TickVehicle(vehicles[k], network.routes, t, deltaTime)
        decreases remaining
      {
        var key :| key in remaining;
        var bus := vehicles[key];
        updatedVehicles := updatedVehicles[bus.id := TickVehicle(bus, network.routes, t, deltaTime)];
        remaining := remaining - {key};
      }
      vehicles := updatedVehicles;
    }

    /**
     * Puts a known vehicle in service on a line and direction, at a given
     * distance and the default speed. An unknown id changes nothing.
     */
    method AssignBusToRoute(busId: string, routeId: string, direction: Direction, startDistance: real := 0.0)
      requires Valid()
      modifies this
      ensures Valid()
      ensures busId !in old(vehicles) ==> vehicles == old(vehicles)
      ensures busId in old(vehicles) ==>
                vehicles == old(vehicles)[busId := old(vehicles)[busId].(
                  assignedRouteId := Some(routeId), assignedDirection := Some(direction),
                  distanceOnPath := Some(startDistance), speed := DEFAULT_BUS_SPEED, status := InService)]
      ensures selectedEntityId == old(selectedEntityId) && lodLevel == old(lodLevel)
    {
      if busId !in vehicles {
        return;
      }
      var bus := vehicles[busId];
      vehicles := vehicles[busId := bus.(
        assignedRouteId := Some(routeId), assignedDirection := Some(direction),
        distanceOnPath := Some(startDistance), speed := DEFAULT_BUS_SPEED, status := InService)];
    }

    /** Sets a known vehicle's status; an unknown id changes nothing. */
    method SetVehicleStatus(id: string, status: VehicleStatus)
      requires Valid()
      modifies this
      ensures Valid()
      ensures vehicles.Keys == old(vehicles).Keys
      ensures id in old(vehicles) ==> vehicles == old(vehicles)[id := old(vehicles)[id].(status := status)]
      ensures id !in old(vehicles) ==> vehicles == old(vehicles)
      ensures selectedEntityId == old(selectedEntityId) && lodLevel == old(lodLevel)
    {
      if id !in vehicles {
        return;
      }
      vehicles := vehicles[id := vehicles[id].(status := status)];
    }

    /** Toggles one door of a known vehicle; an unknown id changes nothing. */
    method ToggleDoors(id: string, doorIndex: int)
      requires Valid()
      modifies this
      ensures Valid()
      ensures id !in old(vehicles) ==> vehicles == old(vehicles)
      ensures id in old(vehicles) ==>
                var v := old(vehicles)[id];
                vehicles == old(vehicles)[id := v.(telemetry := v.telemetry.(doors := ToggleDoor(v.telemetry.doors, doorIndex)))]
      ensures selectedEntityId == old(selectedEntityId) && lodLevel == old(lodLevel)
    {
      if id !in vehicles {
        return;
      }
      var vehicle := vehicles[id];
      var newDoors := ToggleDoor(vehicle.telemetry.doors, doorIndex);
      vehicles := vehicles[id := vehicle.(telemetry := vehicle.telemetry.(doors := newDoors))];
    }

    method SelectEntity(id: Option<string>)
      modifies this
      ensures selectedEntityId == id
      ensures vehicles == old(vehicles) && lodLevel == old(lodLevel)
    {
      selectedEntityId := id;
    }

    method UpdateLOD(zoom: real)
      modifies this
      ensures lodLevel == LodFor(zoom)
      ensures vehicles == old(vehicles) && selectedEntityId == old(selectedEntityId)
    {
      lodLevel := LodFor(zoom);
    }
  }

  // ---------------------------------------------------------------------
  // setVehicleStatus as written
  // ---------------------------------------------------------------------

  /**
   * What a vehicle record may hold once the unguarded status update has run:
   * a complete vehicle, or an object carrying only a status.
   */
  datatype StoredVehicle = Complete(bus: Bus) | StatusOnly(status: VehicleStatus)

  function Stored(vehicles: map<string, Bus>): (r: map<string, StoredVehicle>)
    ensures r.Keys == vehicles.Keys
  {
    map k | k in vehicles :: Complete(vehicles[k])
  }

  /** `{ ...vehicles[id], status }` with no check that `id` is known. */
  function SetVehicleStatusAsWritten(vehicles: map<string, StoredVehicle>, id: string, status: VehicleStatus)
    : (r: map<string, StoredVehicle>)
    ensures r.Keys == vehicles.Keys + {id}
    ensures forall k :: k in vehicles && k != id ==> r[k] == vehicles[k]
  {
    var updated :=
      if id in vehicles && vehicles[id].Complete? then Complete(vehicles[id].bus.(status := status))
      else StatusOnly(status);
    vehicles[id := updated]
  }

  /** Setting the status of an unknown id creates a record with no id, position or telemetry. */
  lemma UnknownIdInsertsPartialVehicle(vehicles: map<string, Bus>, id: string, status: VehicleStatus)
    requires id !in vehicles
    ensures var r := SetVehicleStatusAsWritten(Stored(vehicles), id, status);
            id in r && r[id] == StatusOnly(status) && |r.Keys| == |vehicles.Keys| + 1
  {
    var r := SetVehicleStatusAsWritten(Stored(vehicles), id, status);
    assert r.Keys == vehicles.Keys + {id};
  }

  /** For a known id the unguarded update and the guarded one agree. */
  lemma AsWrittenAgreesOnKnownIds(vehicles: map<string, Bus>, id: string, status: VehicleStatus)
    requires id in vehicles
    ensures SetVehicleStatusAsWritten(Stored(vehicles), id, status)
         == Stored(vehicles[id := vehicles[id].(status := status)])
  {
  }
}
