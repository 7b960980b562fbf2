/**
 * The network slice: loaded route geometries, stops, the list of active
 * deviations and the selected line.
 */
module Network {
  import opened Wrappers
  import opened Types

  class NetworkSlice {
    var routes: map<string, RouteGeometry>  // keyed `<routeId>-<DIRECTION>`
    var stops: map<string, Stop>
    var activeDeviations: seq<Deviation>
    var selectedRouteId: Option<string>

    constructor ()
      ensures routes == map[] && stops == map[]
      ensures activeDeviations == [] && selectedRouteId == None
    {
      routes := map[];
      stops := map[];
      activeDeviations := [];
      selectedRouteId := None;
    }

    /** Loading a line is not implemented: the state is left untouched. */
    method LoadRoute(routeId: string)
      ensures routes == old(routes) && stops == old(stops)
      ensures activeDeviations == old(activeDeviations) && selectedRouteId == old(selectedRouteId)
    {
    }

    /**
     * Appends a deviation. The line id passed along is not used: the
     * deviation is not checked against it, nor against earlier ones.
     */
    method AddDeviation(routeId: string, deviation: Deviation)
      modifies this
      ensures activeDeviations == old(activeDeviations) + [deviation]
      ensures routes == old(routes) && stops == old(stops) && selectedRouteId == old(selectedRouteId)
    {
      activeDeviations := activeDeviations + [deviation];
    }

    method SelectRoute(routeId: Option<string>)
      modifies this
      ensures selectedRouteId == routeId
      ensures routes == old(routes) && stops == old(stops) && activeDeviations == old(activeDeviations)
    {
      selectedRouteId := routeId;
    }
  }

  /** Deviations accumulate in order of addition; none is ever dropped or merged. */
  method AddDeviationsInOrder(network: NetworkSlice, routeId: string, d1: Deviation, d2: Deviation)
    modifies network
    ensures network.activeDeviations == old(network.activeDeviations) + [d1, d2]
  {
    network.AddDeviation(routeId, d1);
    network.AddDeviation(routeId, d2);
  }
}
