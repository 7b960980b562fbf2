# Nancy transit-supervision simulator: ingestion and kinematics core

This project models the core of a bus-network supervision simulator in
Dafny and proves properties of the model. The core has two parts:

- **Route-geometry ingestion.** `GET /api/osm/overpass?routeId=…&direction=…`
  checks its parameters and looks the line up in the static table of the five
  Tempo lines. It then answers from a 15-minute in-memory cache, or asks the
  Overpass service for the line's OpenStreetMap relation. The node/way/relation
  answer becomes one polyline in member order, with the repeated point at each
  way junction dropped, plus the stops (stop and platform nodes) and the
  planar length.
- **Vehicle kinematics.** The movement engine turns a speed in km/h and a time
  in seconds into a distance along the path. It samples a position and a
  heading at that distance, using a point 10 m ahead, and detects the 50 m
  terminus zone. The fleet store moves every vehicle in service on each tick.
  The virtual clock advances, pauses and seeks. The network and log stores are
  included as the fleet and the clock see them.

Layout, one module per file:

- `wrappers.dfy`: Option and Result.
- `js.dfy`: the JavaScript semantics the core relies on. These are truthiness
  of strings, truncation to whole milliseconds, the truncating `%`, and the
  decimal rendering of integers in template strings.
- `types.dfy`: the shared entities and constants.
- `routes.dfy`: the line table and its lookups.
- `movement.dfy`: the pure movement engine.
- `overpass.dfy`: the parser, the cache class and the handler.
- `fleet.dfy`, `temporal.dfy`, `network.dfy`, `log.dfy`: the four store slices.

The slices are classes whose methods update fields in place. Each method is
specified against pure functions such as `TickVehicle`, `Advance`, `LodFor`
and `ToggleDoor`, and lemmas state the properties of those functions.

Turf.js is not part of this model. Its three operations are passed in as a
`Turf` record of functions: `length`, `along` and `bearing`. Some properties
assume `Sound(t)`, which says that lengths are non-negative and bearings lie
in [-180, 180]. Turf documents both of these. The flat-earth segment length
of the parser is also a parameter, `seg`.

Where the documented behaviour and the code disagree, the model follows the
code:

- **The terminus test.** The fleet tick tests the terminus on the distance
  before the move, not after it. A vehicle can therefore end a tick past the
  end of its path while still in service (`Fleet.TickCanPassPathEnd`). Its
  distance is not kept within [0, path length].
- **Paths shorter than two points.** `hasReachedEnd` answers true for a path
  of fewer than two points. A vehicle on such a path is therefore stopped and
  set idle, rather than left unchanged.
- **Direction names.** Directions are `aller`/`retour` in the endpoint and
  `ALLER`/`RETOUR` in the fleet's route key.
- **Relations with no usable way.** These are not an error. They parse to an
  empty path of length 0 (`Overpass.RelationWithoutWaysParsesEmpty`).
- **Fractional clock steps.** A tick is documented to advance the clock by
  its length in milliseconds, but each tick cuts its sum to a whole
  millisecond toward zero. Fractional steps therefore do not add up: a
  60 Hz frame at speed 1 moves the clock 16 ms instead of 16.67 ms, about
  4% slow (`Temporal.FractionalTicksDrift`).
- **The timeout.** The request timeout is 60 000 ms, but the 504 message says
  "30s exceeded". The model keeps the message as written. It keeps the
  constant `REQUEST_TIMEOUT` for reference only: the timeout itself is the
  outcome `Upstream.Timeout` of the exchange.

## Model

| member | source | states |
|---|---|---|
| Js.Trunc | src/store/slices/temporalSlice.ts:35 | the whole number toward zero: `r <= x < r+1` for `x >= 0` and `r-1 < x <= r` below 0, as `new Date` treats a fractional millisecond count |
| Js.IntToString | src/app/api/osm/overpass/route.ts:177 | the decimal text of an integer in a template string: never empty, and it starts with a digit exactly when the number is non-negative |
| Js.ParseNatToString | src/app/api/osm/overpass/route.ts:177 | reading the rendered digits back gives the number |
| Js.NatToStringInjective | src/app/api/osm/overpass/route.ts:177 | two natural numbers with the same digits are equal |
| Js.IntToStringInjective | src/app/api/osm/overpass/route.ts:177 | two integers with the same rendering are equal |
| Routes.GetRouteDefinition | src/lib/constants/routes.ts:84-86 | a definition exactly for T1 to T5: the table's entry, whose id and short name are the id asked for (own-key lookup; see Findings) |
| Routes.RelationFor | src/app/api/osm/overpass/route.ts:277 | the relation of the direction asked for; for a table line, one of the table's ten relation ids |
| Routes.GetTempoRoutes | src/lib/constants/routes.ts:91-93 | the five table entries in the order they are written, each carrying its key as id |
| Routes.TableValues | src/lib/constants/routes.ts:92 | `Object.values`: five entries, the i-th being the table's entry for the i-th key in written order |
| Routes.GetAllRoutes | src/lib/constants/routes.ts:98-100 | five entries that are exactly the table's values |
| Routes.TempoRoutesAreAllRoutes | src/lib/constants/routes.ts:91-100 | both listings return the same sequence |
| Routes.TableKeysAreIds | src/lib/constants/routes.ts:15-79 | every key names the entry stored under it, and the keys are T1 to T5 |
| Routes.RelationIdsDistinct | src/lib/constants/routes.ts:15-79 | the ten relation ids are pairwise distinct, so no relation traces two directions |
| Routes.GetRouteDefinitionAsWritten | src/lib/constants/routes.ts:84-86 | the object-literal read: own entries exactly for table keys, agreeing with the own-key lookup there and wherever it reads `undefined` |
| Routes.InheritedMemberPassesLookup | src/lib/constants/routes.ts:85 | "constructor" is not a line, yet the lookup as written does not read `undefined` for it |
| Routes.LookupsAgreeOffPrototype | src/lib/constants/routes.ts:84-86 | for any id not inherited from `Object.prototype`, the written lookup misses exactly when the own-key lookup does |
| Js.Remainder | src/lib/engine/movement.ts:74 | the truncating `%`: for a positive divisor, in [0, b) for a non-negative dividend and in (-b, 0] for a negative one; a dividend in [0, b) is returned as it is |
| Movement.CalculateNewDistance | src/lib/engine/movement.ts:20-34 | with non-negative speed and time the distance never decreases; with zero speed or zero time it is unchanged |
| Movement.AdvancesCompose | src/lib/engine/movement.ts:20-34 | two advances equal one over the summed time, and the path argument plays no part |
| Movement.ClampDistance | src/lib/engine/movement.ts:58 | the result lies in [0, total]; a distance inside is kept, one beyond becomes total, a negative one becomes 0 |
| Movement.LookAhead | src/lib/engine/movement.ts:66 | at most 10 m and never past the end; exactly 10 m when there is room, exactly the remainder otherwise |
| Movement.NormalizeHeading | src/lib/engine/movement.ts:71-74 | a bearing in [-180, 180] becomes a heading in [0, 360); a negative bearing is shifted by 360 |
| Movement.GetPositionAtDistance | src/lib/engine/movement.ts:43-84 | no result exactly when the path has fewer than two points; otherwise the position at the clamped distance, and for a sound Turf a heading in [0, 360) |
| Movement.HeadingLooksAhead | src/lib/engine/movement.ts:61-74 | the heading is the normalised bearing from the position to the point at min(c+10, L), which lies between the position and the end |
| Movement.PositionClamped | src/lib/engine/movement.ts:55-62 | the position is the start for distances at or before 0, the end for distances at or past the length, and the point at that distance in between |
| Movement.MoveTractor | src/lib/engine/movement.ts:119-130 | same number of segments; segment 0 takes the new position and heading; every other segment is unchanged |
| Movement.UpdateBusPosition | src/lib/engine/movement.ts:95-141 | bus and distance unchanged on a path of fewer than two points; otherwise the advanced (unclamped) distance, only the segments change, and the tractor stands at that distance |
| Movement.MovedHeadingInRange | src/lib/engine/movement.ts:110-126 | after a move the tractor's heading is in [0, 360) |
| Movement.GetPathLength | src/lib/engine/movement.ts:175-185 | 0 for fewer than two points; never negative for a sound Turf |
| Movement.HasReachedEnd | src/lib/engine/movement.ts:151-167 | true for fewer than two points; otherwise true exactly when the distance is at least length minus threshold (50 m by default) |
| Movement.ReachedEndMonotone | src/lib/engine/movement.ts:162 | once reached, any larger distance is reached too, and the boundary itself counts |
| Movement.NotAtEndHasPosition | src/lib/engine/movement.ts:151-167 | a bus not at its end has a sampleable path and is short of length minus threshold |
| Overpass.RelationIndex | src/app/api/osm/overpass/route.ts:121-127 | the index of the first relation, with no relation before it; none exactly when the response holds no relation |
| Overpass.WayRefs | src/app/api/osm/overpass/route.ts:130-132 | a ref is kept exactly when some way member with an empty, forward or backward role carries it |
| Overpass.WayRefsAppend | src/app/api/osm/overpass/route.ts:130-132 | the selection keeps member order: refs of a concatenation are the concatenated refs |
| Overpass.WayRefsEmpty | src/app/api/osm/overpass/route.ts:130-132 | with no usable way member there are no refs |
| Overpass.WayIndex | src/app/api/osm/overpass/route.ts:135-141 | keys are exactly the listed refs that some way element carries; each value is a way of the response with that id |
| Overpass.ToGeoPoints | src/app/api/osm/overpass/route.ts:147-149 | one point per input point, latitude and longitude swapped into [lon, lat] |
| Overpass.AppendWay | src/app/api/osm/overpass/route.ts:152-163 | the path so far is kept as a prefix; the length grows by the way's size, less one exactly at a junction |
| Overpass.AppendWayTail | src/app/api/osm/overpass/route.ts:152-163 | after the prefix come the way's points, without the first one exactly when it repeats the path's last |
| Overpass.AppendWayPoints | src/app/api/osm/overpass/route.ts:152-163 | no point is lost or invented: a point is in the result exactly when it is in the path or in the way |
| Overpass.AppendWayNoDuplicates | src/app/api/osm/overpass/route.ts:151-163 | joining two paths without back-to-back repeats gives one without them |
| Overpass.BuildGeometry | src/app/api/osm/overpass/route.ts:143-165 | the path is empty exactly when no listed ref resolves to a way with points |
| Overpass.BuildGeometryExtends | src/app/api/osm/overpass/route.ts:143-165 | the path built from a prefix of the refs is a prefix of the full path |
| Overpass.UnresolvedRefAddsNothing | src/app/api/osm/overpass/route.ts:144-145 | a ref with no way, or a way without geometry, leaves the path unchanged |
| Overpass.BuildGeometryNoJunctionDuplicates | src/app/api/osm/overpass/route.ts:151-163 | if no way repeats a point back to back, the assembled path does not either |
| Overpass.BuildGeometryPoints | src/app/api/osm/overpass/route.ts:143-165 | the path holds exactly the points of the ways its refs resolve to |
| Overpass.StopRefs | src/app/api/osm/overpass/route.ts:168-170 | a ref is kept exactly when some node member with a stop or platform role carries it |
| Overpass.StopNodes | src/app/api/osm/overpass/route.ts:172-174 | exactly the node elements whose id is a stop ref |
| Overpass.StopNodesAppend | src/app/api/osm/overpass/route.ts:172-174 | stops come in element order, not member order |
| Overpass.StopName | src/app/api/osm/overpass/route.ts:178 | never empty; the non-empty name, else the non-empty STAN ref, else "Arrêt" and the id |
| Overpass.StopCode | src/app/api/osm/overpass/route.ts:180 | the non-empty STAN ref, else the raw `ref` tag when present (even empty), else nothing; always one of the tag values |
| Overpass.MakeStop | src/app/api/osm/overpass/route.ts:176-181 | position [lon, lat]; the id is "osm-node-" followed by the node id; name and code as `StopName` and `StopCode` give them |
| Overpass.StopIdsIdentifyNodes | src/app/api/osm/overpass/route.ts:177 | two stops share an id exactly when their nodes do |
| Overpass.ExtractStops | src/app/api/osm/overpass/route.ts:168-181 | one stop per stop node, in the same order |
| Overpass.PathDistance | src/app/api/osm/overpass/route.ts:184-192 | 0 for fewer than two points |
| Overpass.PathDistanceNonNegative | src/app/api/osm/overpass/route.ts:184-192 | with non-negative segment lengths the total is non-negative |
| Overpass.PathDistanceMonotone | src/app/api/osm/overpass/route.ts:184-192 | with non-negative segment lengths a prefix of the path is never longer than the path |
| Overpass.Parse | src/app/api/osm/overpass/route.ts:113-201 | fails exactly when no relation is present, with its fixed message; on success carries the route id and direction it was given |
| Overpass.RelationWithoutWaysParsesEmpty | src/app/api/osm/overpass/route.ts:130-192 | a relation with no usable way parses successfully to an empty path of length 0 |
| Overpass.ParsedPathHasNoDuplicates | src/app/api/osm/overpass/route.ts:140-165 | if the response's ways have no back-to-back repeats, neither does the parsed path |
| Overpass.IndexWays | src/app/api/osm/overpass/route.ts:135-141 | the loop builds the id-to-way map `WayIndex` describes |
| Overpass.AppendWayRef | src/app/api/osm/overpass/route.ts:144-164 | one iteration of the walk appends what `AppendWay` says for the way the ref resolves to |
| Overpass.AssembleGeometry | src/app/api/osm/overpass/route.ts:140-165 | the loop builds the path `BuildGeometry` describes |
| Overpass.SumDistance | src/app/api/osm/overpass/route.ts:184-192 | the loop computes `PathDistance` |
| Overpass.ParseOverpassResponse | src/app/api/osm/overpass/route.ts:113-201 | the parser's result is `Parse` of its inputs |
| Overpass.CacheKey | src/app/api/osm/overpass/route.ts:207-209 | the route id, one dash, then the direction |
| Overpass.CacheKeyInjective | src/app/api/osm/overpass/route.ts:207-209 | for dash-free route ids the key determines line and direction |
| Overpass.Fresh | src/app/api/osm/overpass/route.ts:218-219 | an entry is served exactly while at most 15 minutes (900 000 ms) have passed since it was stored, so always at its storing time |
| Overpass.RouteCache.constructor | src/app/api/osm/overpass/route.ts:42 | the cache starts empty |
| Overpass.RouteCache.GetFromCache | src/app/api/osm/overpass/route.ts:211-225 | a miss changes nothing; an entry older than the TTL is deleted and missed; a fresh one (the TTL itself included) is returned marked as from the cache |
| Overpass.RouteCache.SetCache | src/app/api/osm/overpass/route.ts:227-233 | the key now maps to the data stamped with the store time; every other key is kept |
| Overpass.CheckRequest | src/app/api/osm/overpass/route.ts:246-267 | 400 for a missing or empty parameter, before any other check; 400 for a direction other than aller/retour; otherwise 404 with "Unknown route: " and the id for a line outside the table; success exactly when all hold, carrying the table's entry for the line (own-key lookup; see Findings) |
| Overpass.MissOutcome | src/app/api/osm/overpass/route.ts:276-341 | 504 on timeout; 500 with the failure's message; 500 with "Overpass API error: ", the status and its text for a non-2xx reply; 500 with the no-relation message for a 2xx reply that does not parse; success exactly for a 2xx reply that parses, carrying the parsed route marked as from Overpass |
| Overpass.HandleGet | src/app/api/osm/overpass/route.ts:239-342 | rejected requests touch no cache; a fresh entry is served unchanged; otherwise the upstream outcome for the line's relation id, the key's stale entry dropped and a success stored (own-key lookup; see Findings) |
| Overpass.RepeatedRequest | src/app/api/osm/overpass/route.ts:269-312 | after a fetched success, a second request within the TTL of storing returns the same route from the cache, and a later one goes back upstream |
| Fleet.RouteKey | src/store/slices/fleetSlice.ts:93 | the line id, one dash, then the upper-case direction name |
| Fleet.TickVehicle | src/store/slices/fleetSlice.ts:85-137 | keeps id, type, assignment and segment count; status kept or set idle; only the odometer of the telemetry changes |
| Fleet.TickSkips | src/store/slices/fleetSlice.ts:87-100 | a vehicle out of service, without a line or direction, or whose geometry is not loaded is returned unchanged |
| Fleet.TickStopsAtTerminus | src/store/slices/fleetSlice.ts:106-116 | a vehicle at its terminus gets speed 0 and status idle, and nothing else changes |
| Fleet.TickMoves | src/store/slices/fleetSlice.ts:119-136 | any other vehicle advances by speed·time/3.6 m, and its odometer by speed·time/3600 km; status and speed are kept and the tractor stands at the new distance |
| Fleet.TickKeepsOdometerInStep | src/store/slices/fleetSlice.ts:103-136 | for a vehicle that carries a distance, odometer minus distance (in km) is unchanged by any tick |
| Fleet.TickNeverReverses | src/store/slices/fleetSlice.ts:103-136 | with non-negative speed and time, neither distance nor odometer decreases |
| Fleet.TickCanPassPathEnd | src/store/slices/fleetSlice.ts:106-136 | one worked instance: a bus at the start of a 100 m path, after 60 s at 30 km/h, is still in service at 500 m (the general fact is `TickMoves`) |
| Fleet.ToggleDoor | src/store/slices/fleetSlice.ts:188-189 | a negative index changes nothing; an existing door flips and the others stay; an index past the end grows the array with closed doors and opens that one |
| Fleet.ToggleDoorTwice | src/store/slices/fleetSlice.ts:188-189 | toggling an existing door twice restores the array; past the end it leaves the array grown with every new door closed |
| Fleet.LodFor | src/store/slices/fleetSlice.ts:210-217 | full exactly from zoom 16, simplified exactly in [14, 16), minimal exactly below 14 |
| Fleet.LodMonotone | src/store/slices/fleetSlice.ts:210-217 | zooming in never lowers the level of detail |
| Fleet.FleetSlice.constructor | src/store/slices/fleetSlice.ts:40-72 | one standard electric bus, bus-001, in service on T1 ALLER at distance 0; nothing selected; full detail |
| Fleet.FleetSlice.UpdateVehiclesLogic | src/store/slices/fleetSlice.ts:78-141 | the same set of ids, every vehicle replaced by its `TickVehicle` state under its key; selection and detail kept |
| Fleet.FleetSlice.AssignBusToRoute | src/store/slices/fleetSlice.ts:146-172 | an id with no record changes nothing; a known bus is in service on the line and direction, at the start distance (0 by default) and the default speed |
| Fleet.FleetSlice.SetVehicleStatus | src/store/slices/fleetSlice.ts:174-181 | a known vehicle takes the status; an unknown id changes nothing (corrected; see Findings) |
| Fleet.FleetSlice.ToggleDoors | src/store/slices/fleetSlice.ts:183-204 | an id with no record changes nothing; otherwise only that vehicle's doors change, as `ToggleDoor` says |
| Fleet.FleetSlice.SelectEntity | src/store/slices/fleetSlice.ts:206-208 | the selection is set and nothing else changes |
| Fleet.FleetSlice.UpdateLOD | src/store/slices/fleetSlice.ts:210-218 | the level becomes `LodFor(zoom)` and nothing else changes |
| Fleet.SetVehicleStatusAsWritten | src/store/slices/fleetSlice.ts:174-181 | the unguarded update: the key set gains the id, and every other record is kept |
| Fleet.UnknownIdInsertsPartialVehicle | src/store/slices/fleetSlice.ts:178 | for an unknown id the unguarded update adds a record holding only a status |
| Fleet.AsWrittenAgreesOnKnownIds | src/store/slices/fleetSlice.ts:174-181 | for a known id the unguarded and the guarded updates agree |
| Temporal.Advance | src/store/slices/temporalSlice.ts:35 | a forward tick never moves the clock back and a backward one never forward; the new time is the exact sum cut to whole milliseconds toward zero, on both sides of the epoch |
| Temporal.AdvanceWholeMillis | src/store/slices/temporalSlice.ts:35 | a tick of a whole number of milliseconds moves the clock by exactly that much |
| Temporal.AdvanceCompose | src/store/slices/temporalSlice.ts:30-37 | two whole-millisecond ticks equal one of their summed length |
| Temporal.FractionalTicksDrift | src/store/slices/temporalSlice.ts:35 | two half-millisecond ticks leave the clock at 0 while one millisecond tick moves it to 1, and a 1/60 s frame moves it 16 ms |
| Temporal.TemporalSlice.constructor | src/store/slices/temporalSlice.ts:24-26 | paused, speed 1, at 08:00 local time on Monday 5 January 2026 |
| Temporal.TemporalSlice.Tick | src/store/slices/temporalSlice.ts:30-37 | paused: nothing changes; running: the time becomes `Advance` of the old time; speed and pause flag kept |
| Temporal.TemporalSlice.SetSpeed | src/store/slices/temporalSlice.ts:39-41 | the multiplier is set and nothing else changes |
| Temporal.TemporalSlice.TogglePause | src/store/slices/temporalSlice.ts:43-45 | the pause flag flips and nothing else changes |
| Temporal.TemporalSlice.SeekTime | src/store/slices/temporalSlice.ts:47-49 | the time becomes the target, backwards included |
| Temporal.TogglePauseTwice | src/store/slices/temporalSlice.ts:43-45 | pausing and resuming restores the whole clock |
| Temporal.PausedClockStands | src/store/slices/temporalSlice.ts:30-32 | a paused clock ignores ticks of any length |
| Network.NetworkSlice.constructor | src/store/slices/networkSlice.ts:23-26 | no routes, no stops, no deviations, nothing selected |
| Network.NetworkSlice.LoadRoute | src/store/slices/networkSlice.ts:29-32 | no modifies clause, so no field of the slice changes: routes, stops, deviations and selection are all kept |
| Network.NetworkSlice.AddDeviation | src/store/slices/networkSlice.ts:34-38 | the deviation is appended and nothing else changes |
| Network.NetworkSlice.SelectRoute | src/store/slices/networkSlice.ts:40-42 | the selection is set and nothing else changes |
| Network.AddDeviationsInOrder | src/store/slices/networkSlice.ts:34-38 | deviations accumulate in order of addition |
| Log.LogSlice.constructor | src/store/slices/logSlice.ts:20-21 | the log starts empty |
| Log.LogSlice.AddLog | src/store/slices/logSlice.ts:23-34 | one entry is appended, carrying the caller's fields and stamped with the clock's virtual time, which it leaves unchanged |
| Log.LogSlice.ClearLogs | src/store/slices/logSlice.ts:36-38 | the log becomes empty |
| Log.LogTwiceWhilePaused | src/store/slices/logSlice.ts:23-34 | earlier entries are kept, and two entries logged while the clock is paused share its instant |

## Left out

- Floating point: numbers are mathematical reals. IEEE rounding, NaN and infinities are not modelled. The junction test compares coordinates exactly, as the source does.
- Turf.js is not part of this model. Its length, along and bearing are parameters, with `Sound` for what Turf documents about them. The `try`/`catch` fallbacks of the movement engine for Turf exceptions are not modelled: null position, false end test, zero length.
- Movement.GetPositionAtDistance: the heading range is proved only under `Sound(t)`, because bearings come from Turf.
- Overpass.PathDistance: the flat-earth formula, using cosine of latitude and square root, is the parameter `seg`. Only the summation over consecutive points is modelled.
- Overpass.HandleGet: the query text (`buildOverpassQuery`), the POST with its form-encoded body, the endpoint and JSON decoding are left out. The exchange is the parameter `fetch`. A failed request or a body that cannot be decoded is `Upstream.Failed` with its message. The "Unknown error occurred" branch for non-Error throws cannot arise in the model.
- Overpass.HandleGet: URL parsing is left out. A query parameter is given as it is returned, absent or a string.
- Overpass.StopCode: an absent code is `None`, where the JSON output omits the field.
- `Date.now()` readings are the parameters `now` and `storedAt`, and the entry id of the log is the parameter `id`. The `Math.random()` and clock-derived id text is left out.
- Console logging and warnings are left out throughout.
- Temporal.TemporalSlice.Tick: the Date range limit is not modelled (beyond ±8.64e15 ms the result is an invalid date).
- src/hooks/useSimulation.ts is not part of this model. Each animation frame it scales the elapsed seconds by the time multiplier and calls `tick` with them; it does not yet move the vehicles. `Temporal.AdvanceCompose` shows that ticks compose only when each is a whole number of milliseconds; `Temporal.FractionalTicksDrift` shows the per-frame loss otherwise.
- Fleet.ToggleDoor: a negative index, or a non-integer one, writes a non-element property of the JavaScript array, which the model drops. Holes created past the end read as closed doors.
- Fleet.FleetSlice.UpdateVehiclesLogic: it requires every vehicle to be stored under its own id. The source re-keys records by `bus.id`, in `Object.values` order. This invariant is established by the constructor and kept by every operation of the model. The as-written status update can break it (see Findings).
- Fleet.FleetSlice.AssignBusToRoute: the guard `if (!bus)` reads a plain object, so an inherited name such as "constructor" passes it. The source then stores a partial record under that name, with no id, segments or telemetry, which the next tick re-keys under `undefined`. The model's vehicles are a map of own records, where such a name is unknown and changes nothing.
- Fleet.FleetSlice.ToggleDoors: for the same reason `toggleDoors("toString", 0)` passes the guard `if (!vehicle)` and throws a TypeError on `.telemetry.doors`. In the model an inherited name is unknown and changes nothing.
- Overpass.HandleGet: modelled as one atomic step. The source awaits the fetch and the decoding of the body, so concurrent requests for one key can both miss, both fetch, and overwrite each other's entry in the shared cache. Interleavings of requests are not modelled.
- The optional vehicle fields the core never reads (trip, stop index, own active path, parking space) are not represented.
- The store plumbing (zustand `set`/`get`, devtools) is left out. The log's `virtualTime` is the same store field as the clock's, so `AddLog` reads the clock.

## Findings

| source | as written | input that shows it | evidently intended | confidence | as-written member | corrected member |
|---|---|---|---|---|---|---|
| src/store/slices/fleetSlice.ts:174-181 | the status update spreads `state.vehicles[id]` without checking that the id is known | `setVehicleStatus("bus-999", "IDLE")` on the initial fleet stores `{status: "IDLE"}` under "bus-999", a record with no id, segments or telemetry | an unknown id leaves the fleet unchanged, as `assignBusToRoute` and `toggleDoors` do | high; not executed | Fleet.UnknownIdInsertsPartialVehicle | Fleet.FleetSlice.SetVehicleStatus |
| src/lib/constants/routes.ts:84-86 | the line is read as `STAN_ROUTES[routeId]` from a plain object literal, which also yields inherited `Object.prototype` members | `GET /api/osm/overpass?routeId=constructor&direction=aller` passes the unknown-route check; reading `osmRelations` of the result then throws, giving a 500 | an id outside the table is an unknown route (404) | high; not executed | Routes.InheritedMemberPassesLookup | Routes.GetRouteDefinition, Overpass.CheckRequest, Overpass.HandleGet |
