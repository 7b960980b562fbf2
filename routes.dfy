/**
 * The hard-coded table of the network's five high-frequency ("Tempo") lines,
 * each with the two OpenStreetMap relations that trace its two directions.
 */
module Routes {
  import opened Wrappers

  datatype VehicleKind = Tram | Bus | Trolleybus

  /** The relation traced by each direction of a line. */
  datatype OsmRelations = OsmRelations(aller: int, retour: int)

  datatype RouteDefinition = RouteDefinition(
    id: string,
    shortName: string,
    longName: string,
    kind: VehicleKind,
    color: string,
    textColor: string,
    osmRelations: OsmRelations)

  const STAN_ROUTES: map<string, RouteDefinition> := map[
    "T1" := RouteDefinition("T1", "T1", "Tempo 1 : Essey Mouzimpré → Vandœuvre Brabois - Hôpitaux",
                            Trolleybus, "#D90011", "#FFFFFF", OsmRelations(2074460, 2074461)),
    "T2" := RouteDefinition("T2", "T2", "Tempo 2 : Laneuveville Centre → Laxou Sapinière",
                            Bus, "#0067b2", "#FFFFFF", OsmRelations(3318606, 3318608)),
    "T3" := RouteDefinition("T3", "T3", "Tempo 3 : Villers Campus Sciences → Seichamps Haie Cerlin",
                            Bus, "#0e9340", "#FFFFFF", OsmRelations(3220295, 3220296)),
    "T4" := RouteDefinition("T4", "T4", "Tempo 4 : Laxou Champ le Boeuf → Houdemont Porte Sud",
                            Bus, "#Fcd526", "#000000", OsmRelations(3187722, 3187723)),
    "T5" := RouteDefinition("T5", "T5", "Tempo 5 : Maxéville Meurthe-Canal → Vandœuvre Roberval",
                            Bus, "#4b2783", "#FFFFFF", OsmRelations(19527868, 19539366))
  ]

  /** The order in which the table's entries were written, which `Object.values` follows. */
  const TABLE_ORDER: seq<string> := ["T1", "T2", "T3", "T4", "T5"]

  /**
   * The definition of a line, looked up among the table's own entries
   * (the corrected lookup: see GetRouteDefinitionAsWritten below).
   */
  function GetRouteDefinition(routeId: string): (r: Option<RouteDefinition>)
    ensures r.Some? <==> routeId in TABLE_ORDER
    ensures r.Some? ==> r.value.id == routeId && r.value.shortName == routeId
    ensures r.Some? ==> r.value == STAN_ROUTES[routeId]
  {
    if routeId in STAN_ROUTES then Some(STAN_ROUTES[routeId]) else None
  }

  /** The relation a line's direction ('aller' or 'retour') is traced by. */
  function RelationFor(def: RouteDefinition, direction: string): (r: int)
    ensures direction == "aller" ==> r == def.osmRelations.aller
    ensures direction == "retour" ==> r == def.osmRelations.retour
    ensures def in STAN_ROUTES.Values ==> r in RelationIds()
  {
    if direction == "aller" then def.osmRelations.aller else def.osmRelations.retour
  }

  /** Every line of the table, in the order the table was written. */
  function GetTempoRoutes(): (r: seq<RouteDefinition>)
    ensures |r| == |TABLE_ORDER| == 5
    ensures forall i :: 0 <= i < |r| ==> r[i] == STAN_ROUTES[TABLE_ORDER[i]] && r[i].id == TABLE_ORDER[i]
  {
    TableValues()
  }

  /** Every line of the network; at present the same five Tempo lines. */
  function GetAllRoutes(): (r: seq<RouteDefinition>)
    ensures |r| == 5
    ensures forall d :: d in r <==> d in STAN_ROUTES.Values
  {
    TableValuesCoverTable();
    TableValues()
  }

  lemma TableValuesCoverTable()
    ensures forall d :: d in TableValues() <==> d in STAN_ROUTES.Values
  {
    var r := TableValues();
    forall d | d in STAN_ROUTES.Values
      ensures d in r
    {
      var k :| k in STAN_ROUTES && STAN_ROUTES[k] == d;
      assert k in TABLE_ORDER;
      var i :| 0 <= i < |TABLE_ORDER| && TABLE_ORDER[i] == k;
      assert r[i] == d;
    }
  }

  /** `Object.values(STAN_ROUTES)`. */
  function TableValues(): (r: seq<RouteDefinition>)
    ensures |r| == |TABLE_ORDER|
    ensures forall i :: 0 <= i < |r| ==> r[i] == STAN_ROUTES[TABLE_ORDER[i]]
  {
    seq(|TABLE_ORDER|, i requires 0 <= i < |TABLE_ORDER| => STAN_ROUTES[TABLE_ORDER[i]])
  }

  /** Both listings return the same entries in the same order. */
  lemma TempoRoutesAreAllRoutes()
    ensures GetTempoRoutes() == GetAllRoutes()
  {
  }

  /** Every key of the table names the entry stored under it. */
  lemma TableKeysAreIds()
    ensures forall k :: k in STAN_ROUTES ==> STAN_ROUTES[k].id == k
    ensures STAN_ROUTES.Keys == set k | k in TABLE_ORDER
  {
  }

  /** The ten relation ids of the table, in table order, 'aller' before 'retour'. */
  function RelationIds(): (ids: seq<int>)
    ensures |ids| == 10
  {
    var rs := GetTempoRoutes();
    [rs[0].osmRelations.aller, rs[0].osmRelations.retour,
     rs[1].osmRelations.aller, rs[1].osmRelations.retour,
     rs[2].osmRelations.aller, rs[2].osmRelations.retour,
     rs[3].osmRelations.aller, rs[3].osmRelations.retour,
     rs[4].osmRelations.aller, rs[4].osmRelations.retour]
  }

  /** No relation traces two directions, of the same line or of two lines. */
  lemma RelationIdsDistinct()
    ensures forall i, j :: 0 <= i < j < |RelationIds()| ==> RelationIds()[i] != RelationIds()[j]
    ensures forall k :: k in STAN_ROUTES ==> STAN_ROUTES[k].osmRelations.aller != STAN_ROUTES[k].osmRelations.retour
  {
    var ids := RelationIds();
    assert ids == [2074460, 2074461, 3318606, 3318608, 3220295, 3220296, 3187722, 3187723, 19527868, 19539366];
  }

  // ---------------------------------------------------------------------
  // The lookup as written: `STAN_ROUTES[routeId]` on a plain object literal.
  // ---------------------------------------------------------------------

  /** The outcome of reading a property of a plain JavaScript object. */
  datatype PropertyRead = Own(def: RouteDefinition) | Inherited(name: string) | Undefined

  /** The properties every object literal inherits from `Object.prototype`. */
  const OBJECT_PROTOTYPE_MEMBERS: set<string> := {
    "constructor", "__proto__", "hasOwnProperty", "isPrototypeOf", "propertyIsEnumerable",
    "toLocaleString", "toString", "valueOf", "__defineGetter__", "__defineSetter__",
    "__lookupGetter__", "__lookupSetter__"
  }

  /** `STAN_ROUTES[routeId]` as the language evaluates it: own entries first, then inherited members. */
  function GetRouteDefinitionAsWritten(routeId: string): (r: PropertyRead)
    ensures r.Own? <==> routeId in STAN_ROUTES
    ensures r.Own? ==> Some(r.def) == GetRouteDefinition(routeId)
    ensures r.Undefined? ==> GetRouteDefinition(routeId).None?
  {
    if routeId in STAN_ROUTES then Own(STAN_ROUTES[routeId])
    else if routeId in OBJECT_PROTOTYPE_MEMBERS then Inherited(routeId)
    else Undefined
  }

  /**
   * The lookup as written is not `undefined` for an id outside the table:
   * "constructor" yields the inherited Object constructor, so the handler's
   * unknown-route check lets it through.
   */
  lemma InheritedMemberPassesLookup()
    ensures "constructor" !in TABLE_ORDER
    ensures !GetRouteDefinitionAsWritten("constructor").Undefined?
    ensures GetRouteDefinition("constructor").None?
  {
  }

  /** The two lookups agree on every id that is neither in the table nor an inherited member. */
  lemma LookupsAgreeOffPrototype(routeId: string)
    requires routeId !in OBJECT_PROTOTYPE_MEMBERS
    ensures GetRouteDefinitionAsWritten(routeId).Undefined? <==> GetRouteDefinition(routeId).None?
  {
  }
}
