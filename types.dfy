/**
 * The shared vocabulary of the supervision simulation: geographic points,
 * vehicles and their segments, stops, route geometries, deviations, log
 * entries and the constants the engine uses. Numbers are modelled as `real`
 * (without floating-point rounding); instants are integer milliseconds since
 * the Unix epoch, as `Date.getTime()` returns them.
 */
module Types {
  import opened Wrappers

  /** A position as GeoJSON writes it: longitude first, then latitude. */
  datatype GeoPoint = GeoPoint(lon: real, lat: real)

  datatype BusType = Standard | Articulated | BiArticulated

  datatype VehicleStatus = Idle | InService | Hlp | Emergency | OffLine

  datatype EnergyType = Electric | Cng

  /** The direction of a line as vehicles carry it. */
  datatype Direction = Aller | Retour

  /** The text a direction takes inside a template string. */
  function DirectionName(d: Direction): (s: string)
    ensures s == "ALLER" || s == "RETOUR"
  {
    match d
    case Aller => "ALLER"
    case Retour => "RETOUR"
  }

  /** One rigid body of a bus: the tractor, or one of its trailers. */
  datatype BusSegment = BusSegment(
    id: string,
    length: real,
    width: real,
    currentHeading: real,
    currentPosition: GeoPoint)

  datatype Telemetry = Telemetry(
    energyLevel: real,
    energyType: EnergyType,
    doors: seq<bool>,
    engineTemp: real,
    absAlert: bool,
    overheatAlert: bool,
    odometer: real)  // kilometres

  /**
   * A vehicle. The optional fields of the source that the core never reads
   * (trip, stop index, own active path, parking space) are not represented.
   */
  datatype Bus = Bus(
    id: string,
    busType: BusType,
    status: VehicleStatus,
    segments: seq<BusSegment>,
    telemetry: Telemetry,
    assignedRouteId: Option<string>,
    assignedDirection: Option<Direction>,
    distanceOnPath: Option<real>,  // metres along the active path
    speed: real)  // km/h

  datatype Stop = Stop(id: string, name: string, position: GeoPoint, code: Option<string>)

  /** The geometry a line direction runs on, with deviations applied in `activePath`. */
  datatype RouteGeometry = RouteGeometry(
    routeId: string,
    direction: Direction,
    osmRelationId: int,
    basePath: seq<GeoPoint>,
    activePath: seq<GeoPoint>,
    stops: seq<string>,
    activeDeviations: seq<string>)

  datatype DeviationSegment = DeviationSegment(
    startPointIndex: int,
    endPointIndex: int,
    alternativePath: seq<GeoPoint>)

  datatype Deviation = Deviation(
    id: string,
    routeId: string,
    direction: Direction,
    segment: DeviationSegment,
    reason: Option<string>,
    active: bool,
    createdAt: int,
    createdBy: Option<string>)

  datatype LogSeverity = Info | Warning | Critical

  datatype LogSource = Vehicle | System | Regulation

  datatype LogEntry = LogEntry(
    id: string,
    virtualTimestamp: int,
    severity: LogSeverity,
    source: LogSource,
    message: string,
    entityId: Option<string>)

  /** A simulation speed multiplier. */
  type TimeScale = s: int | s == 1 || s == 10 || s == 30 || s == 60 witness 1

  datatype LodLevel = Full | Simplified | Minimal

  const DEFAULT_BUS_SPEED: real := 30.0  // km/h
  const LOD_FULL_ZOOM: real := 16.0
  const LOD_SIMPLIFIED_ZOOM: real := 14.0
}
