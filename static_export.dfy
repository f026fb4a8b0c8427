/** The route map data of the static-site export: how often each route was
    flown, how many flights visited each airport (an airport once per flight),
    and one record per route, captured the first time a flight on it is met
    and kept only when some waypoint has coordinates. */
module StaticExport {
  import opened Wrappers
  import opened Sequences
  import opened Routes
  import opened Logbook

  datatype WaypointExport = WaypointExport(code: string, name: string, lat: real, lon: real,
                                           visitCount: nat)

  datatype RouteExport = RouteExport(id: int, name: string, waypoints: seq<WaypointExport>,
                                     flightCount: nat)

  /** `dict.get(key, 0)`. */
  function Get<K>(m: map<K, nat>, k: K): nat {
    if k in m then m[k] else 0
  }

  // ---------------------------------------------------------------------
  // What the loops compute, stated over the flights

  /** A waypoint is drawn only when both coordinates are non-zero. */
  predicate HasCoordinates(st: RouteStep) {
    st.waypoint.latitude != 0.0 && st.waypoint.longitude != 0.0
  }

  /** The map record of one waypoint, before its visits are filled in. */
  function ExportOf(st: RouteStep): WaypointExport {
    WaypointExport(st.waypoint.code, st.waypoint.name, st.waypoint.latitude,
                   st.waypoint.longitude, 0)
  }

  function Exports(steps: seq<RouteStep>): seq<WaypointExport> {
    seq(|steps|, j requires 0 <= j < |steps| => ExportOf(steps[j]))
  }

  /** The drawable waypoints of a route, in sequence order. */
  function WaypointData(r: Route): seq<WaypointExport> {
    Exports(Filter(OrderedSteps(r), HasCoordinates))
  }

  /** The record of a route as first captured: counts still zero. */
  function Captured(r: Route): RouteExport {
    RouteExport(r.id, r.name, WaypointData(r), 0)
  }

  /** A flight whose route, met first, would be exported. */
  predicate Capturable(f: Flight) {
    f.route.Some? && WaypointData(f.route.value) != []
  }

  function Ids(rs: seq<Route>): (ids: seq<int>)
    ensures |ids| == |rs|
  {
    seq(|rs|, k requires 0 <= k < |rs| => rs[k].id)
  }

  /** The routes that get exported, in the order first met: the route of
      each capturable flight whose route id has not been captured before. */
  function Captures(flights: seq<Flight>): seq<Route> {
    if flights == [] then []
    else
      var init := Captures(flights[..|flights| - 1]);
      var f := flights[|flights| - 1];
      if Capturable(f) && f.route.value.id !in Ids(init) then init + [f.route.value] else init
  }

  predicate OnRoute(f: Flight, id: int) {
    f.route.Some? && f.route.value.id == id
  }

  /** The number of flights flown on route `id`. */
  function RouteCount(flights: seq<Flight>, id: int): nat {
    if flights == [] then 0
    else RouteCount(flights[..|flights| - 1], id) + (if OnRoute(flights[|flights| - 1], id) then 1 else 0)
  }

  /** The airport codes on a route, each once. */
  function CodeSet(steps: seq<RouteStep>): set<string> {
    set st | st in steps :: st.waypoint.code
  }

  predicate Visits(f: Flight, code: string) {
    f.route.Some? && code in CodeSet(f.route.value.steps)
  }

  /** The number of flights whose route passes through `code`. */
  function VisitCount(flights: seq<Flight>, code: string): nat {
    if flights == [] then 0
    else VisitCount(flights[..|flights| - 1], code) + (if Visits(flights[|flights| - 1], code) then 1 else 0)
  }

  /** The number of flights that have a route. */
  function Routed(flights: seq<Flight>): nat {
    if flights == [] then 0
    else Routed(flights[..|flights| - 1]) + (if flights[|flights| - 1].route.Some? then 1 else 0)
  }

  /** A captured route with its flight count and visit counts filled in. */
  function Filled(r: Route, flights: seq<Flight>): RouteExport {
    var wps := WaypointData(r);
    RouteExport(r.id, r.name,
                seq(|wps|, j requires 0 <= j < |wps| => wps[j].(visitCount := VisitCount(flights, wps[j].code))),
                RouteCount(flights, r.id))
  }

  /** The exported route list. */
  function Exported(flights: seq<Flight>): seq<RouteExport> {
    var caps := Captures(flights);
    seq(|caps|, k requires 0 <= k < |caps| => Filled(caps[k], flights))
  }

  // ---------------------------------------------------------------------
  // The loops

  /** The route data of `_export_json_data`: the tally over the pilot's
      flights, then the pass that fills in the counts. */
  method ExportRoutes(flights: seq<Flight>) returns (routesList: seq<RouteExport>)
    ensures routesList == Exported(flights)
  {
    var routes, order, counts, visits := TallyRoutes(flights);
    CapturesDistinct(flights);
    var filled := FillCounts(routes, order, counts, visits);
    routesList := seq(|order|, k requires 0 <= k < |order| => filled[order[k]]);
    var caps := Captures(flights);
    forall k | 0 <= k < |order| ensures routesList[k] == Filled(caps[k], flights) {
      FilledAgrees(caps[k], flights, counts, visits);
    }
  }

  /** The route counts hold the number of flights on each route of `done`. */
  ghost predicate CountsOk(counts: map<int, nat>, done: seq<Flight>) {
    forall id :: Get(counts, id) == RouteCount(done, id)
  }

  /** The visit counts hold the number of flights of `done` through each airport. */
  ghost predicate VisitsOk(visits: map<string, nat>, done: seq<Flight>) {
    forall code :: Get(visits, code) == VisitCount(done, code)
  }

  /** The captured routes, keyed by id and listed in `order`, are those of `done`. */
  ghost predicate RoutesOk(routes: map<int, RouteExport>, order: seq<int>, done: seq<Flight>) {
    order == Ids(Captures(done)) &&
    (forall id :: id in routes <==> id in order) &&
    forall k | 0 <= k < |order| :: routes[order[k]] == Captured(Captures(done)[k])
  }

  /** The first pass over the flights. */
  method TallyRoutes(flights: seq<Flight>)
    returns (routes: map<int, RouteExport>, order: seq<int>, counts: map<int, nat>,
             visits: map<string, nat>)
    ensures CountsOk(counts, flights)
    ensures VisitsOk(visits, flights)
    ensures RoutesOk(routes, order, flights)
  {
    routes, order, counts, visits := map[], [], map[], map[];
    var i := 0;
    while i < |flights|
      invariant i <= |flights|
      invariant CountsOk(counts, flights[..i])
      invariant VisitsOk(visits, flights[..i])
      invariant RoutesOk(routes, order, flights[..i])
    {
      var f := flights[i];
      assert flights[..i + 1] == flights[..i] + [f];
      ghost var done := flights[..i];
      if f.route.Some? {
        var r := f.route.value;
        var id := r.id;
        CountsStep(counts, done, f);
        counts := counts[id := Get(counts, id) + 1];
        var codes := AirportsOf(r);
        var v := CountVisits(visits, codes);
        VisitsStep(visits, v, done, f);
        visits := v;
        if id !in routes {
          var data := CollectWaypoints(r);
          if data != [] {
            RoutesAdded(routes, order, done, f);
            routes := routes[id := RouteExport(id, r.name, data, 0)];
            order := order + [id];
          } else {
            RoutesKept(routes, order, done, f);
          }
        } else {
          RoutesKept(routes, order, done, f);
        }
      } else {
        Unrouted(routes, order, counts, visits, done, f);
      }
      i := i + 1;
    }
    assert flights[..i] == flights;
  }

  lemma CountsStep(counts: map<int, nat>, done: seq<Flight>, f: Flight)
    requires CountsOk(counts, done) && f.route.Some?
    ensures CountsOk(counts[f.route.value.id := Get(counts, f.route.value.id) + 1], done + [f])
  {
    var next := counts[f.route.value.id := Get(counts, f.route.value.id) + 1];
    assert (done + [f])[..|done|] == done;
    forall id ensures Get(next, id) == RouteCount(done + [f], id) {
      assert RouteCount(done + [f], id) == RouteCount(done, id) + (if OnRoute(f, id) then 1 else 0);
    }
  }

  lemma VisitsStep(visits: map<string, nat>, v: map<string, nat>, done: seq<Flight>, f: Flight)
    requires VisitsOk(visits, done) && f.route.Some?
    requires forall c :: Get(v, c) == Get(visits, c) + (if c in CodeSet(f.route.value.steps) then 1 else 0)
    ensures VisitsOk(v, done + [f])
  {
    assert (done + [f])[..|done|] == done;
  }

  /** A flight whose route is already captured, or has nothing to draw,
      adds no route. */
  lemma RoutesKept(routes: map<int, RouteExport>, order: seq<int>, done: seq<Flight>, f: Flight)
    requires RoutesOk(routes, order, done) && f.route.Some?
    requires f.route.value.id in routes || WaypointData(f.route.value) == []
    ensures RoutesOk(routes, order, done + [f])
  {
    assert (done + [f])[..|done|] == done;
  }

  /** A flight on a new route with something to draw captures that route. */
  lemma RoutesAdded(routes: map<int, RouteExport>, order: seq<int>, done: seq<Flight>, f: Flight)
    requires RoutesOk(routes, order, done) && f.route.Some?
    requires f.route.value.id !in routes && WaypointData(f.route.value) != []
    ensures RoutesOk(routes[f.route.value.id := Captured(f.route.value)], order + [f.route.value.id], done + [f])
  {
    var r := f.route.value;
    var caps := Captures(done);
    var routes', order' := routes[r.id := Captured(r)], order + [r.id];
    assert Captures(done + [f]) == caps + [r] by {
      assert (done + [f])[..|done|] == done;
      assert r.id !in Ids(caps);
    }
    assert order' == Ids(caps + [r]) by {
      IdsSnoc(caps, r);
    }
    assert forall id :: id in routes' <==> id in order';
    AddedEntries(routes, order, caps, r);
  }

  lemma AddedEntries(routes: map<int, RouteExport>, order: seq<int>, caps: seq<Route>, r: Route)
    requires r.id !in order && |caps| == |order|
    requires forall k | 0 <= k < |order| :: order[k] in routes && routes[order[k]] == Captured(caps[k])
    ensures forall k | 0 <= k < |order| + 1 ::
      routes[r.id := Captured(r)][(order + [r.id])[k]] == Captured((caps + [r])[k])
  {
    forall k | 0 <= k < |order| + 1
      ensures routes[r.id := Captured(r)][(order + [r.id])[k]] == Captured((caps + [r])[k])
    {
      if k < |order| {
        assert order[k] in order;
      }
    }
  }

  lemma IdsSnoc(rs: seq<Route>, r: Route)
    ensures Ids(rs + [r]) == Ids(rs) + [r.id]
  {
  }

  /** A flight without a route changes nothing. */
  lemma Unrouted(routes: map<int, RouteExport>, order: seq<int>, counts: map<int, nat>,
                 visits: map<string, nat>, done: seq<Flight>, f: Flight)
    requires CountsOk(counts, done) && VisitsOk(visits, done) && RoutesOk(routes, order, done)
    requires f.route.None?
    ensures CountsOk(counts, done + [f]) && VisitsOk(visits, done + [f]) && RoutesOk(routes, order, done + [f])
  {
    assert (done + [f])[..|done|] == done;
  }

  /** The set of airport codes on a flight's route. */
  method AirportsOf(r: Route) returns (codes: set<string>)
    ensures codes == CodeSet(r.steps)
  {
    codes := {};
    var i := 0;
    while i < |r.steps|
      invariant i <= |r.steps|
      invariant codes == CodeSet(r.steps[..i])
    {
      assert r.steps[..i + 1] == r.steps[..i] + [r.steps[i]];
      codes := codes + {r.steps[i].waypoint.code};
      i := i + 1;
    }
    assert r.steps[..i] == r.steps;
  }

  /** One more visit for each airport of the flight. */
  method CountVisits(visits: map<string, nat>, codes: set<string>) returns (v: map<string, nat>)
    ensures forall c :: Get(v, c) == Get(visits, c) + (if c in codes then 1 else 0)
  {
    v := visits;
    var rest := codes;
    while rest != {}
      invariant rest <= codes
      invariant forall c :: Get(v, c) == Get(visits, c) + (if c in codes && c !in rest then 1 else 0)
      decreases |rest|
    {
      var c :| c in rest;
      v := v[c := Get(v, c) + 1];
      rest := rest - {c};
    }
  }

  /** The waypoints of a route with coordinates, in sequence order. */
  method CollectWaypoints(r: Route) returns (data: seq<WaypointExport>)
    ensures data == WaypointData(r)
  {
    var steps := OrderedSteps(r);
    data := KeepDrawable(steps);
  }

  method KeepDrawable(steps: seq<RouteStep>) returns (data: seq<WaypointExport>)
    ensures data == Exports(Filter(steps, HasCoordinates))
  {
    data := [];
    var i := 0;
    while i < |steps|
      invariant i <= |steps|
      invariant data == Exports(Filter(steps[..i], HasCoordinates))
    {
      var st := steps[i];
      ExportsStep(steps[..i], st);
      assert steps[..i + 1] == steps[..i] + [st];
      if st.waypoint.latitude != 0.0 && st.waypoint.longitude != 0.0 {
        data := data + [WaypointExport(st.waypoint.code, st.waypoint.name, st.waypoint.latitude,
                                       st.waypoint.longitude, 0)];
      }
      i := i + 1;
    }
    assert steps[..i] == steps;
  }

  lemma ExportsStep(s: seq<RouteStep>, st: RouteStep)
    ensures Exports(Filter(s + [st], HasCoordinates)) ==
            Exports(Filter(s, HasCoordinates)) + (if HasCoordinates(st) then [ExportOf(st)] else [])
  {
    assert (s + [st])[..|s|] == s;
  }

  /** An exported route with its counts read from the two dictionaries. */
  function FillOne(e: RouteExport, id: int, counts: map<int, nat>, visits: map<string, nat>): RouteExport {
    e.(flightCount := Get(counts, id), waypoints := WithVisits(e.waypoints, visits))
  }

  function WithVisits(wps: seq<WaypointExport>, visits: map<string, nat>): seq<WaypointExport> {
    seq(|wps|, j requires 0 <= j < |wps| => wps[j].(visitCount := Get(visits, wps[j].code)))
  }

  /** The second pass: every exported route gets its flight count and every
      waypoint its visit count. */
  method FillCounts(routes: map<int, RouteExport>, order: seq<int>, counts: map<int, nat>,
                    visits: map<string, nat>) returns (filled: map<int, RouteExport>)
    requires forall k | 0 <= k < |order| :: order[k] in routes
    requires forall k, l | 0 <= k < l < |order| :: order[k] != order[l]
    ensures filled.Keys == routes.Keys
    ensures forall k | 0 <= k < |order| :: filled[order[k]] == FillOne(routes[order[k]], order[k], counts, visits)
  {
    filled := routes;
    var i := 0;
    while i < |order|
      invariant i <= |order|
      invariant filled.Keys == routes.Keys
      invariant forall k | 0 <= k < i :: filled[order[k]] == FillOne(routes[order[k]], order[k], counts, visits)
      invariant forall k | i <= k < |order| :: filled[order[k]] == routes[order[k]]
    {
      var id := order[i];
      var wps := FillWaypoints(filled[id].waypoints, visits);
      filled := filled[id := filled[id].(flightCount := Get(counts, id), waypoints := wps)];
      i := i + 1;
    }
  }

  method FillWaypoints(wps: seq<WaypointExport>, visits: map<string, nat>) returns (r: seq<WaypointExport>)
    ensures r == WithVisits(wps, visits)
  {
    r := wps;
    var j := 0;
    while j < |r|
      invariant |r| == |wps| && j <= |r|
      invariant forall l | 0 <= l < j :: r[l] == wps[l].(visitCount := Get(visits, wps[l].code))
      invariant forall l | j <= l < |r| :: r[l] == wps[l]
    {
      r := r[j := r[j].(visitCount := Get(visits, r[j].code))];
      j := j + 1;
    }
  }

  /** Filling a captured route from dictionaries that hold the true counts
      gives its exported form. */
  lemma FilledAgrees(r: Route, flights: seq<Flight>, counts: map<int, nat>, visits: map<string, nat>)
    requires forall id :: Get(counts, id) == RouteCount(flights, id)
    requires forall code :: Get(visits, code) == VisitCount(flights, code)
    ensures FillOne(Captured(r), r.id, counts, visits) == Filled(r, flights)
  {
  }

  // ---------------------------------------------------------------------
  // What the export promises

  /** Each route is exported at most once. */
  lemma {:induction false} CapturesDistinct(flights: seq<Flight>)
    ensures forall k, l | 0 <= k < l < |Captures(flights)| :: Ids(Captures(flights))[k] != Ids(Captures(flights))[l]
    decreases |flights|
  {
    if flights != [] {
      var init, f := flights[..|flights| - 1], flights[|flights| - 1];
      CapturesDistinct(init);
      if Capturable(f) && f.route.value.id !in Ids(Captures(init)) {
        IdsSnoc(Captures(init), f.route.value);
      }
    }
  }

  /** Each exported route is the route of a flight with something to draw,
      and of the first such flight on that route id. */
  lemma {:induction false} CaptureSource(flights: seq<Flight>, k: nat) returns (n: nat)
    requires k < |Captures(flights)|
    ensures n < |flights| && Capturable(flights[n]) && flights[n].route.value == Captures(flights)[k]
    ensures forall j | 0 <= j < n :: !(Capturable(flights[j]) && flights[j].route.value.id == Captures(flights)[k].id)
    decreases |flights|
  {
    var init, f := flights[..|flights| - 1], flights[|flights| - 1];
    var caps := Captures(init);
    if k < |caps| {
      n := CaptureSource(init, k);
      assert flights[n] == init[n];
      assert Captures(flights)[k] == caps[k];
      forall j | 0 <= j < n ensures flights[j] == init[j] { }
    } else {
      var r := f.route.value;
      assert Captures(flights) == caps + [r];
      n := |flights| - 1;
      forall j | 0 <= j < n && Capturable(flights[j]) ensures flights[j].route.value.id != r.id {
        assert flights[j] == init[j];
        CapturesComplete(init, j);
      }
    }
  }

  /** Every route flown with something to draw is exported. */
  lemma {:induction false} CapturesComplete(flights: seq<Flight>, n: nat)
    requires n < |flights| && Capturable(flights[n])
    ensures flights[n].route.value.id in Ids(Captures(flights))
    decreases |flights|
  {
    var init, f := flights[..|flights| - 1], flights[|flights| - 1];
    var caps := Captures(init);
    if n < |init| {
      CapturesComplete(init, n);
      assert flights[n] == init[n];
      if Capturable(f) && f.route.value.id !in Ids(caps) {
        IdsSnoc(caps, f.route.value);
      }
    } else if f.route.value.id !in Ids(caps) {
      IdsSnoc(caps, f.route.value);
    }
  }

  /** A flight on route `id` among the flights makes its count positive. */
  lemma {:induction false} RouteCountPositive(flights: seq<Flight>, n: nat)
    requires n < |flights| && flights[n].route.Some?
    ensures RouteCount(flights, flights[n].route.value.id) >= 1
    decreases |flights|
  {
    if n < |flights| - 1 {
      RouteCountPositive(flights[..|flights| - 1], n);
    }
  }

  /** A flight through `code` among the flights makes its visit count positive. */
  lemma {:induction false} VisitCountPositive(flights: seq<Flight>, n: nat, code: string)
    requires n < |flights| && Visits(flights[n], code)
    ensures VisitCount(flights, code) >= 1
    decreases |flights|
  {
    if n < |flights| - 1 {
      VisitCountPositive(flights[..|flights| - 1], n, code);
    }
  }

  /** An airport counts once per flight, so no airport has more visits than
      there are flights with a route; nor has any route more flights. */
  lemma {:induction false} CountsBounded(flights: seq<Flight>, id: int, code: string)
    ensures VisitCount(flights, code) <= Routed(flights)
    ensures RouteCount(flights, id) <= Routed(flights)
    decreases |flights|
  {
    if flights != [] {
      CountsBounded(flights[..|flights| - 1], id, code);
    }
  }

  predicate HasRoute(f: Flight) {
    f.route.Some?
  }

  /** Flights without a route count for nothing: dropping them leaves the
      export unchanged. */
  lemma RoutelessIgnored(flights: seq<Flight>)
    ensures Exported(Filter(flights, HasRoute)) == Exported(flights)
  {
    var routed := Filter(flights, HasRoute);
    var caps := Captures(flights);
    var a, b := Exported(routed), Exported(flights);
    assert |a| == |caps| by {
      RoutedCaptures(flights);
    }
    forall k | 0 <= k < |caps| ensures a[k] == b[k] {
      RoutedCaptures(flights);
      FilledRouted(caps[k], flights);
    }
  }

  /** A route's counts are the same over the flights that have a route. */
  lemma FilledRouted(r: Route, flights: seq<Flight>)
    ensures Filled(r, Filter(flights, HasRoute)) == Filled(r, flights)
  {
    var routed := Filter(flights, HasRoute);
    var wps := WaypointData(r);
    RoutedCounts(flights, r.id);
    forall j | 0 <= j < |wps| ensures VisitCount(routed, wps[j].code) == VisitCount(flights, wps[j].code) {
      RoutedVisits(flights, wps[j].code);
    }
  }

  /** One more flight, as filtering sees it. */
  lemma RoutedSnoc(flights: seq<Flight>)
    requires flights != []
    ensures Filter(flights, HasRoute) ==
            Filter(flights[..|flights| - 1], HasRoute) + (if HasRoute(flights[|flights| - 1]) then [flights[|flights| - 1]] else [])
  {
  }

  lemma DropLast(routed: seq<Flight>, f: Flight)
    ensures (routed + [f])[..|routed|] == routed && (routed + [f])[|routed|] == f
  {
  }

  lemma {:induction false} RoutedCaptures(flights: seq<Flight>)
    ensures Captures(Filter(flights, HasRoute)) == Captures(flights)
    decreases |flights|
  {
    if flights != [] {
      var init, f := flights[..|flights| - 1], flights[|flights| - 1];
      RoutedSnoc(flights);
      DropLast(Filter(init, HasRoute), f);
      RoutedCaptures(init);
      var routed := Filter(init, HasRoute);
      if HasRoute(f) {
        assert Filter(flights, HasRoute) == routed + [f];
        assert Captures(routed + [f]) ==
          if Capturable(f) && f.route.value.id !in Ids(Captures(routed)) then Captures(routed) + [f.route.value]
          else Captures(routed);
      } else {
        assert Filter(flights, HasRoute) == routed;
        assert !Capturable(f);
      }
    }
  }

  lemma {:induction false} RoutedCounts(flights: seq<Flight>, id: int)
    ensures RouteCount(Filter(flights, HasRoute), id) == RouteCount(flights, id)
    decreases |flights|
  {
    if flights != [] {
      var init, f := flights[..|flights| - 1], flights[|flights| - 1];
      RoutedSnoc(flights);
      DropLast(Filter(init, HasRoute), f);
      RoutedCounts(init, id);
      var routed := Filter(init, HasRoute);
      if HasRoute(f) {
        assert Filter(flights, HasRoute) == routed + [f];
        assert RouteCount(routed + [f], id) == RouteCount(routed, id) + (if OnRoute(f, id) then 1 else 0);
      } else {
        assert Filter(flights, HasRoute) == routed;
        assert !OnRoute(f, id);
      }
    }
  }

  lemma {:induction false} RoutedVisits(flights: seq<Flight>, code: string)
    ensures VisitCount(Filter(flights, HasRoute), code) == VisitCount(flights, code)
    decreases |flights|
  {
    if flights != [] {
      var init, f := flights[..|flights| - 1], flights[|flights| - 1];
      RoutedSnoc(flights);
      DropLast(Filter(init, HasRoute), f);
      RoutedVisits(init, code);
      var routed := Filter(init, HasRoute);
      if HasRoute(f) {
        assert Filter(flights, HasRoute) == routed + [f];
        assert VisitCount(routed + [f], code) == VisitCount(routed, code) + (if Visits(f, code) then 1 else 0);
      } else {
        assert Filter(flights, HasRoute) == routed;
        assert !Visits(f, code);
      }
    }
  }

  /** The exported routes: each once, each the first capture of its id, with
      every flight on it counted, something to draw, and every drawn airport
      visited by at least that flight. */
  lemma ExportedRoute(flights: seq<Flight>, k: nat)
    requires k < |Exported(flights)|
    ensures Exported(flights)[k].id == Captures(flights)[k].id
    ensures Exported(flights)[k].flightCount == RouteCount(flights, Exported(flights)[k].id) >= 1
    ensures Exported(flights)[k].waypoints != []
    ensures forall w | w in Exported(flights)[k].waypoints ::
              w.lat != 0.0 && w.lon != 0.0 && w.visitCount == VisitCount(flights, w.code) >= 1
  {
    var r := Captures(flights)[k];
    var n := CaptureSource(flights, k);
    RouteCountPositive(flights, n);
    var kept := KeptSteps(r);
    forall w | w in Exported(flights)[k].waypoints
      ensures w.lat != 0.0 && w.lon != 0.0 && w.visitCount == VisitCount(flights, w.code) >= 1
    {
      var j :| 0 <= j < |kept| && w == WaypointData(r)[j].(visitCount := VisitCount(flights, WaypointData(r)[j].code));
      assert kept[j] in multiset(r.steps);
      assert kept[j].waypoint.code in CodeSet(r.steps);
      VisitCountPositive(flights, n, w.code);
    }
  }

  /** The drawn waypoints are the route's steps with both coordinates, in
      sequence order, none dropped and none invented. */
  lemma KeptSteps(r: Route) returns (kept: seq<RouteStep>)
    ensures |kept| == |WaypointData(r)|
    ensures forall j | 0 <= j < |kept| :: WaypointData(r)[j] == ExportOf(kept[j]) && HasCoordinates(kept[j])
    ensures forall i, j | 0 <= i < j < |kept| :: kept[i].sequence <= kept[j].sequence
    ensures multiset(kept) <= multiset(r.steps)
    ensures forall st | st in r.steps && HasCoordinates(st) :: st in kept
  {
    var ordered := OrderedSteps(r);
    kept := Filter(ordered, HasCoordinates);
    FilterMembers(ordered, HasCoordinates);
    FilterSubMultiset(ordered, HasCoordinates);
    FilterSorted(ordered, HasCoordinates, StepSequence);
    forall st | st in r.steps && HasCoordinates(st) ensures st in kept {
      assert st in multiset(ordered);
    }
  }

  function StepSequence(st: RouteStep): int {
    st.sequence
  }
}
