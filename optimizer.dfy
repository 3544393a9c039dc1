/**
 * The route optimizer: a lazy-deletion Dijkstra search over the composite
 * score, reconstruction of a route from the predecessor links, and the table
 * of optimal routes from one origin to every station it can reach.
 */
module RouteOptimizer {
  import opened Results
  import opened Graphs
  import opened Walks
  import opened Frontier
  import opened Predecessors
  import opened SearchState
  import opened MetroNetwork

  /** One entry of the route table. */
  datatype Route = Route(path: seq<Station>, totalCost: real, totalTime: real, totalStops: nat, compositeScore: real)

  /** Some walk leads from `start` to `s`. */
  ghost predicate Reachable(g: Graph, start: Station, s: Station)
  {
    exists edges :: IsWalk(g, start, edges) && WalkEnd(start, edges) == s
  }

  /** Some walk leads from `start` to `s` and enters only stations on its way. */
  ghost predicate ReachableWithin(g: Graph, stations: set<Station>, start: Station, s: Station)
  {
    exists edges :: IsWalk(g, start, edges) && WalkEnd(start, edges) == s &&
      forall i :: 0 <= i < |WalkStations(start, edges)| ==> WalkStations(start, edges)[i] in stations
  }

  /** `route` describes a walk from `start` to `s`: its stations, its totals and its score. */
  ghost predicate RouteRealized(g: Graph, w: Weights, start: Station, s: Station, route: Route)
  {
    exists edges :: IsWalk(g, start, edges) && WalkEnd(start, edges) == s &&
      route.path == WalkStations(start, edges) && route.totalCost == WalkCost(edges) &&
      route.totalTime == WalkTime(edges) && route.totalStops == |edges| && route.compositeScore == WalkScore(w, edges)
  }

  /**
   * A realized route runs from the origin to its destination, lists one more
   * station than it has stops, and each consecutive pair of its stations is
   * joined by an edge of the graph.
   */
  lemma RouteShape(g: Graph, w: Weights, start: Station, s: Station, route: Route)
    requires RouteRealized(g, w, start, s, route)
    ensures |route.path| == route.totalStops + 1
    ensures route.path[0] == start && route.path[|route.path| - 1] == s
    ensures forall i :: 0 <= i < route.totalStops ==> EdgeBetween(g, route.path[i], route.path[i + 1])
  {
    var edges :| IsWalk(g, start, edges) && WalkEnd(start, edges) == s &&
      route.path == WalkStations(start, edges) && route.totalCost == WalkCost(edges) &&
      route.totalTime == WalkTime(edges) && route.totalStops == |edges| && route.compositeScore == WalkScore(w, edges);
    WalkStationsShape(start, edges);
    WalkStationsAdjacent(g, start, edges);
  }

  // ---------------------------------------------------------------------------
  // From final tables to walks

  /** The stop counts rank the predecessor links of final tables. */
  lemma TablesRanked(t: SearchTables, stations: set<Station>, g: Graph, w: Weights, start: Station)
    requires FinalTables(t, stations, g, w, start)
    ensures Ranked(t.previous, t.stops)
  {
    forall s | s in t.previous && t.previous[s].Some?
      ensures s in t.stops && t.previous[s].value in t.previous && t.previous[s].value in t.stops
      ensures t.stops[t.previous[s].value] < t.stops[s]
    {
      var e :| LinkEdge(t, g, s, t.previous[s].value, e);
    }
  }

  /** The edges behind the predecessor links from `s` back to a station without a link, in walking order. */
  ghost function ChainEdges(t: SearchTables, stations: set<Station>, g: Graph, s: Station): seq<Connection>
    requires WellShaped(t, stations) && PredecessorEdges(t, g) && s in t.distances
    decreases t.stops[s]
  {
    match t.previous[s]
    case None => []
    case Some(p) =>
      var e :| LinkEdge(t, g, s, p, e);
      ChainEdges(t, stations, g, p) + [e]
  }

  /** Reversing `[x] + xs` puts `x` last. */
  lemma ReversedCons<T>(x: T, xs: seq<T>)
    ensures Reversed([x] + xs) == Reversed(xs) + [x]
  {
    var l := [x] + xs;
    assert l[1..] == xs;
  }

  /**
   * Following the links back from a reached station retraces a walk from the
   * origin whose totals and score are the ones recorded for the station, and
   * whose stations are the reversed chain.
   */
  lemma {:induction false} ChainWalk(t: SearchTables, stations: set<Station>, g: Graph, w: Weights, start: Station, s: Station)
    requires FinalTables(t, stations, g, w, start) && s in t.distances
    ensures Ranked(t.previous, t.stops)
    ensures var edges := ChainEdges(t, stations, g, s);
      IsWalk(g, start, edges) && WalkEnd(start, edges) == s &&
      WalkCost(edges) == t.costs[s] && WalkTime(edges) == t.times[s] && |edges| == t.stops[s] &&
      WalkScore(w, edges) == t.distances[s] &&
      WalkStations(start, edges) == Reversed(Chain(t.previous, t.stops, s))
    decreases t.stops[s]
  {
    TablesRanked(t, stations, g, w, start);
    var edges := ChainEdges(t, stations, g, s);
    match t.previous[s]
    case None =>
      assert s == start;
      assert edges == [];
    case Some(p) =>
      var e :| LinkEdge(t, g, s, p, e) && edges == ChainEdges(t, stations, g, p) + [e];
      ChainWalk(t, stations, g, w, start, p);
      LinkExtends(t, g, w, start, s, p, e, ChainEdges(t, stations, g, p), Chain(t.previous, t.stops, p));
  }

  /** A walk that accounts for the totals of `p` and retraces its chain, extended along the link from `s` to `p`, does the same for `s`. */
  lemma LinkExtends(t: SearchTables, g: Graph, w: Weights, start: Station, s: Station, p: Station, e: Connection,
                    prefix: seq<Connection>, chain: seq<Station>)
    requires ScoresComposite(t, w) && s in t.distances && LinkEdge(t, g, s, p, e)
    requires IsWalk(g, start, prefix) && WalkEnd(start, prefix) == p
    requires WalkCost(prefix) == t.costs[p] && WalkTime(prefix) == t.times[p] && |prefix| == t.stops[p]
    requires WalkStations(start, prefix) == Reversed(chain)
    ensures IsWalk(g, start, prefix + [e]) && WalkEnd(start, prefix + [e]) == s
    ensures WalkCost(prefix + [e]) == t.costs[s] && WalkTime(prefix + [e]) == t.times[s] && |prefix + [e]| == t.stops[s]
    ensures WalkScore(w, prefix + [e]) == t.distances[s]
    ensures WalkStations(start, prefix + [e]) == Reversed([s] + chain)
  {
    WalkExtend(g, w, start, prefix, e);
    ReversedCons(s, chain);
  }

  /** In final, closed tables a station is reached exactly when some walk from the origin leads to it. */
  lemma ReachedIffWalk(t: SearchTables, stations: set<Station>, g: Graph, w: Weights, start: Station, s: Station)
    requires FinalTables(t, stations, g, w, start) && Closed(t, g)
    ensures s in t.distances <==> Reachable(g, start, s)
  {
    if s in t.distances {
      ChainWalk(t, stations, g, w, start, s);
      assert IsWalk(g, start, ChainEdges(t, stations, g, s));
    }
    if Reachable(g, start, s) {
      var edges :| IsWalk(g, start, edges) && WalkEnd(start, edges) == s;
      WalkReached(t, g, start, edges);
    }
  }

  /** During the search every reached station is reachable through stations only: its links retrace such a walk from the origin. */
  lemma CurrentReachable(t: SearchTables, stations: set<Station>, g: Graph, w: Weights, start: Station,
                         visited: set<Station>, via: map<Station, Connection>, c: Station)
    requires Consistent(t, stations, g, w, start, visited, via) && c in t.distances
    ensures Reachable(g, start, c)
    ensures ReachableWithin(g, stations, start, c)
  {
    forall s | s in t.previous && t.previous[s].Some?
      ensures s in t.distances && t.previous[s].value in t.distances
      ensures exists e :: LinkEdge(t, g, s, t.previous[s].value, e)
    {
      assert LinkEdge(t, g, s, t.previous[s].value, via[s]);
    }
    assert FinalTables(t, stations, g, w, start);
    ChainWithin(t, stations, g, w, start, c);
  }

  /** A walk through stations only is a witness of both kinds of reachability. */
  lemma WalkWithin(g: Graph, stations: set<Station>, start: Station, s: Station, edges: seq<Connection>)
    requires IsWalk(g, start, edges) && WalkEnd(start, edges) == s
    requires forall i :: 0 <= i < |WalkStations(start, edges)| ==> WalkStations(start, edges)[i] in stations
    ensures Reachable(g, start, s) && ReachableWithin(g, stations, start, s)
  {
  }

  /** Reversing a sequence of stations keeps every element in a set that held them all. */
  lemma ReversedWithin(xs: seq<Station>, stations: set<Station>)
    requires forall i :: 0 <= i < |xs| ==> xs[i] in stations
    ensures forall i :: 0 <= i < |Reversed(xs)| ==> Reversed(xs)[i] in stations
  {
    forall i | 0 <= i < |Reversed(xs)|
      ensures Reversed(xs)[i] in stations
    {
      assert Reversed(xs)[i] == xs[|xs| - 1 - i];
    }
  }

  /** Every station met along the links from a station of well-shaped tables is a station. */
  lemma ChainInStations(t: SearchTables, stations: set<Station>, c: Station)
    requires WellShaped(t, stations) && Ranked(t.previous, t.stops) && c in t.previous
    ensures forall i :: 0 <= i < |Chain(t.previous, t.stops, c)| ==> Chain(t.previous, t.stops, c)[i] in stations
  {
    ChainShape(t.previous, t.stops, c);
  }

  /** In final tables the links from a reached station retrace a walk from the origin through stations only. */
  lemma ChainWithin(t: SearchTables, stations: set<Station>, g: Graph, w: Weights, start: Station, c: Station)
    requires FinalTables(t, stations, g, w, start) && c in t.distances
    ensures Reachable(g, start, c)
    ensures ReachableWithin(g, stations, start, c)
  {
    ChainWalk(t, stations, g, w, start, c);
    ChainInStations(t, stations, c);
    ReversedWithin(Chain(t.previous, t.stops, c), stations);
    WalkWithin(g, stations, start, c, ChainEdges(t, stations, g, c));
  }

  /** In final, closed tables every edge out of a station reachable from the origin leads to a station. */
  lemma ReachableEdgesKnown(t: SearchTables, stations: set<Station>, g: Graph, w: Weights, start: Station)
    requires FinalTables(t, stations, g, w, start) && Closed(t, g)
    ensures forall u, e :: Reachable(g, start, u) && e in Outgoing(g, u) ==> e.destination in stations
  {
    forall u, e | Reachable(g, start, u) && e in Outgoing(g, u)
      ensures e.destination in stations
    {
      ReachedIffWalk(t, stations, g, w, start, u);
    }
  }

  /** The route the optimizer records for a reached station is realized by the walk behind its links. */
  lemma RouteFromTables(t: SearchTables, stations: set<Station>, g: Graph, w: Weights, start: Station, s: Station,
                        path: seq<Station>)
    requires FinalTables(t, stations, g, w, start) && s in t.distances
    requires Ranked(t.previous, t.stops)
    requires var chain := Reversed(Chain(t.previous, t.stops, s));
      path == if chain[0] == start then chain else []
    ensures RouteRealized(g, w, start, s, Route(path, t.costs[s], t.times[s], t.stops[s], t.distances[s]))
  {
    ChainWalk(t, stations, g, w, start, s);
    var edges := ChainEdges(t, stations, g, s);
    WalkStationsShape(start, edges);
  }

  // ---------------------------------------------------------------------------
  // The optimizer

  class MetroRouteOptimizer {
    const network: KochiMetroNetwork

    constructor (network: KochiMetroNetwork)
      ensures this.network == network
    {
      this.network := network;
    }

    /**
     * Scores every station by its best composite score from `start`, with the
     * fare, minutes and stops of that route and predecessor links to rebuild it.
     * An unknown origin is an error; so is an edge leading to a name that is
     * not a station, once the search reaches its source.
     */
    method DijkstraMultiCriteria(start: Station, w: Weights)
      returns (r: Result<SearchTables, SearchError>, ghost settled: seq<Station>)
      ensures (r.Failure? && r.error.UnknownStation?) <==> start !in network.stations
      ensures r.Failure? && r.error.UnknownStation? ==> r.error.station == start
      ensures r.Failure? && r.error.MissingStation? ==>
        r.error.station !in network.stations &&
        exists u, e :: u in network.stations && e in Outgoing(network.graph, u) && e.destination == r.error.station
      ensures r.Failure? && r.error.MissingStation? ==>
        exists u, e :: Reachable(network.graph, start, u) && e in Outgoing(network.graph, u) && e.destination == r.error.station
      ensures r.Failure? && r.error.MissingStation? ==>
        exists u, e :: ReachableWithin(network.graph, network.stations, start, u) && e in Outgoing(network.graph, u) &&
          e.destination == r.error.station
      ensures r.Success? ==>
        forall u, e :: Reachable(network.graph, start, u) && e in Outgoing(network.graph, u) ==> e.destination in network.stations
      ensures start in network.stations && DestinationsKnown(network.graph, network.stations) ==> r.Success?
      ensures r.Success? ==> FinalTables(r.value, network.stations, network.graph, w, start) && Closed(r.value, network.graph)
      ensures r.Success? && NonNegativeWeights(w) && NonNegativeEdges(network.graph) ==>
        Optimal(r.value, network.graph, w, start)
      ensures r.Success? ==> Distinct(settled) && forall s :: s in settled <==> s in r.value.distances
    {
      settled := [];
      var graph := network.graph;
      var stations := network.stations;
      if start !in stations {
        return Failure(UnknownStation(start)), settled;
      }
      ghost var sound := NonNegativeWeights(w) && NonNegativeEdges(graph);
      var tables := Initial(stations, start);
      var pq := [Entry(0.0, start)];
      var visited: set<Station> := {};
      ghost var via: map<Station, Connection> := map[];
      InitialHolds(stations, graph, w, start, sound);
      while |pq| > 0
        invariant Consistent(tables, stations, graph, w, start, visited, via)
        invariant Covers(tables, pq, visited)
        invariant Settled(tables, graph, w, visited, sound)
        invariant Distinct(settled) && forall s :: s in settled <==> s in visited
        decreases |stations - visited|, |pq|
      {
        var popped := PopMin(pq);
        PopCovers(tables, visited, pq);
        var current := popped.0.station;
        if current in visited {
          pq := popped.1;
        } else {
          SettleShrinks(stations, visited, current);
          SettleConsistent(tables, stations, graph, w, start, visited, via, current);
          PopRelaxing(tables, graph, w, visited, pq, sound);
          DistinctAppend(settled, current);
          visited := visited + {current};
          settled := settled + [current];
          CurrentReachable(tables, stations, graph, w, start, visited, via, current);
          var missing;
          missing, tables, pq, via := RelaxNeighbors(graph, stations, w, start, visited, current, tables, popped.1, via, sound);
          if missing.Some? {
            return Failure(MissingStation(missing.value)), settled;
          }
        }
      }
      SearchDone(tables, stations, graph, w, start, visited, via, sound);
      ReachableEdgesKnown(tables, stations, graph, w, start);
      r := Success(tables);
    }

    /**
     * The loop over the edges out of the newly settled `current`: each edge
     * into an unsettled station whose candidate score beats the recorded one
     * improves that station and pushes a new frontier entry.  Stops at the
     * first edge into a name that is not a station.
     */
    method RelaxNeighbors(graph: Graph, stations: set<Station>, w: Weights, start: Station, visited: set<Station>,
                          current: Station, tables: SearchTables, pq: seq<Entry>,
                          ghost via: map<Station, Connection>, ghost sound: bool)
      returns (missing: Option<Station>, tables': SearchTables, pq': seq<Entry>, ghost via': map<Station, Connection>)
      requires SoundFlag(graph, w, sound)
      requires Relaxation(tables, stations, graph, w, start, visited, via, pq, current, 0, sound)
      ensures current in tables.costs && current in tables.times && current in tables.stops
      ensures Pass(missing, tables', pq') ==
        RelaxEdges(tables, pq, w, visited, stations, current, Outgoing(graph, current), |Outgoing(graph, current)|)
      ensures missing == FirstUnknown(Outgoing(graph, current), |Outgoing(graph, current)|, visited, stations)
      ensures SettledKept(tables, tables', visited)
      ensures missing.Some? ==>
        missing.value !in stations && exists e :: e in Outgoing(graph, current) && e.destination == missing.value
      ensures missing.None? ==>
        Consistent(tables', stations, graph, w, start, visited, via') && Covers(tables', pq', visited) &&
        Settled(tables', graph, w, visited, sound) && ScoresNoWorse(tables, tables')
    {
      var connections := Outgoing(graph, current);
      missing, tables', pq' := RelaxConnections(graph, stations, w, visited, current, tables, pq);
      RelaxEdgesDone(tables, pq, w, visited, stations, current, connections, |connections|, Pass(missing, tables', pq'));
      if missing.None? {
        RelaxEdgesFinish(tables, stations, graph, w, start, visited, via, pq, current, sound, Pass(missing, tables', pq'));
      }
      via' := ViaEdges(tables, pq, w, visited, stations, current, connections, |connections|, via);
    }

    /** The loop itself: one `RelaxConnection` per edge, in list order, until the first edge into an unknown name. */
    method RelaxConnections(graph: Graph, stations: set<Station>, w: Weights, visited: set<Station>,
                            current: Station, tables: SearchTables, pq: seq<Entry>)
      returns (missing: Option<Station>, tables': SearchTables, pq': seq<Entry>)
      requires current in tables.costs && current in tables.times && current in tables.stops
      ensures Pass(missing, tables', pq') ==
        RelaxEdges(tables, pq, w, visited, stations, current, Outgoing(graph, current), |Outgoing(graph, current)|)
    {
      missing, tables', pq' := None, tables, pq;
      var connections := Outgoing(graph, current);
      var j := 0;
      while j < |connections| && missing.None?
        invariant 0 <= j <= |connections|
        invariant Pass(missing, tables', pq') == RelaxEdges(tables, pq, w, visited, stations, current, connections, j)
      {
        missing, tables', pq' := RelaxConnection(graph, stations, w, visited, current, j, tables', pq');
        j := j + 1;
      }
      if missing.Some? {
        RelaxEdgesStopped(tables, pq, w, visited, stations, current, connections, j, |connections|);
      }
    }

    /**
     * One pass of the edge loop, on the `j`-th edge out of `current`: an edge
     * into a settled station is skipped with nothing changed, an edge into a
     * name that is not a station is reported, and otherwise the neighbour is
     * updated when the route through `current` is strictly better.
     */
    method RelaxConnection(graph: Graph, stations: set<Station>, w: Weights, visited: set<Station>,
                           current: Station, j: nat, tables: SearchTables, pq: seq<Entry>)
      returns (missing: Option<Station>, tables': SearchTables, pq': seq<Entry>)
      requires j < |Outgoing(graph, current)|
      requires current in tables.costs && current in tables.times && current in tables.stops
      ensures Pass(missing, tables', pq') == RelaxEdge(tables, pq, w, visited, stations, current, Outgoing(graph, current)[j])
      ensures Outgoing(graph, current)[j].destination in visited ==> missing.None? && tables' == tables && pq' == pq
      ensures SettledKept(tables, tables', visited) && ScoresNoWorse(tables, tables')
    {
      var connection := Outgoing(graph, current)[j];
      var neighbor := connection.destination;
      RelaxEdgeKeeps(tables, pq, w, visited, stations, current, connection);
      if neighbor in visited {
        return None, tables, pq;
      }
      if neighbor !in stations {
        return Some(neighbor), tables, pq;
      }
      missing := None;
      tables', pq' := UpdateNeighbor(w, current, connection, tables, pq);
    }

    /**
     * The edge `connection` out of `current`: the candidate route through
     * `current` replaces the one recorded for the edge's destination, in all
     * four totals and its predecessor together, only when it scores strictly
     * lower, and then gets a frontier entry of its own.
     */
    method UpdateNeighbor(w: Weights, current: Station, connection: Connection, tables: SearchTables, pq: seq<Entry>)
      returns (tables': SearchTables, pq': seq<Entry>)
      requires current in tables.costs && current in tables.times && current in tables.stops
      ensures ScoresNoWorse(tables, tables')
      ensures if Improves(tables, w, current, connection) then
          tables' == ImproveThrough(tables, w, current, connection) &&
          pq' == pq + [Entry(Candidate(tables, w, current, connection), connection.destination)]
        else
          tables' == tables && pq' == pq
    {
      var neighbor := connection.destination;
      var newCost := tables.costs[current] + connection.cost;
      var newTime := tables.times[current] + connection.travelTime;
      var newStops := tables.stops[current] + 1;
      var compositeDistance := Composite(w, newCost, newTime, newStops);
      ThroughIs(tables, w, current, connection, compositeDistance, newCost, newTime, newStops);
      if neighbor !in tables.distances || compositeDistance < tables.distances[neighbor] {
        tables' := Improve(tables, neighbor, current, compositeDistance, newCost, newTime, newStops);
        pq' := pq + [Entry(compositeDistance, neighbor)];
      } else {
        tables', pq' := tables, pq;
      }
    }

    /**
     * The route to `end` rebuilt from the predecessor links: empty when the
     * links from `end` do not lead back to `start`.  `rank` is a ghost witness
     * that the links contain no cycle (the search passes its stop counts).
     */
    method GetPath(start: Station, end: Station, previous: Links, ghost rank: map<Station, nat>) returns (path: seq<Station>)
      requires Ranked(previous, rank) && end in previous
      ensures var chain := Reversed(Chain(previous, rank, end));
        path == if chain[0] == start then chain else []
      ensures path != [] ==> path[0] == start && path[|path| - 1] == end && LinkedPath(previous, path)
    {
      path := [];
      var current: Option<Station> := Some(end);
      while current.Some?
        invariant current.Some? ==> current.value in previous
        invariant path + ChainFrom(previous, rank, current) == Chain(previous, rank, end)
        decreases if current.Some? then (if current.value in rank then rank[current.value] + 1 else 1) else 0
      {
        ChainStep(previous, rank, path, current.value);
        path := path + [current.value];
        current := previous[current.value];
      }
      assert path == Chain(previous, rank, end);
      ReversedChainLinked(previous, rank, end);
      path := Reversed(path);
      if path[0] != start {
        path := [];
      }
    }

    /**
     * The optimal route from `start` to every other station it can reach, with
     * the route's fare, minutes, stops and composite score.
     */
    method FindOptimalRoutes(start: Station, w: Weights) returns (r: Result<map<Station, Route>, SearchError>)
      ensures (r.Failure? && r.error.UnknownStation?) <==> start !in network.stations
      ensures r.Failure? && r.error.MissingStation? ==>
        r.error.station !in network.stations &&
        exists u, e :: u in network.stations && e in Outgoing(network.graph, u) && e.destination == r.error.station
      ensures r.Failure? && r.error.MissingStation? ==>
        exists u, e :: Reachable(network.graph, start, u) && e in Outgoing(network.graph, u) && e.destination == r.error.station
      ensures r.Failure? && r.error.MissingStation? ==>
        exists u, e :: ReachableWithin(network.graph, network.stations, start, u) && e in Outgoing(network.graph, u) &&
          e.destination == r.error.station
      ensures r.Success? ==>
        forall u, e :: Reachable(network.graph, start, u) && e in Outgoing(network.graph, u) ==> e.destination in network.stations
      ensures start in network.stations && DestinationsKnown(network.graph, network.stations) ==> r.Success?
      ensures r.Success? ==> forall s :: s in r.value <==> s in network.stations && s != start && Reachable(network.graph, start, s)
      ensures r.Success? ==> forall s :: s in r.value ==> RouteRealized(network.graph, w, start, s, r.value[s])
      ensures r.Success? && NonNegativeWeights(w) && NonNegativeEdges(network.graph) ==>
        forall s, edges :: s in r.value && IsWalk(network.graph, start, edges) && WalkEnd(start, edges) == s ==>
          r.value[s].compositeScore <= WalkScore(w, edges)
    {
      var search;
      ghost var settled;
      search, settled := DijkstraMultiCriteria(start, w);
      if search.Failure? {
        return Failure(search.error);
      }
      var results := search.value;
      var graph := network.graph;
      var stations := network.stations;
      TablesRanked(results, stations, graph, w, start);
      var routes: map<Station, Route> := map[];
      var remaining := stations;
      while remaining != {}
        invariant remaining <= stations
        invariant forall s :: s in routes <==> s in stations && s !in remaining && s != start && s in results.distances
        invariant forall s :: s in routes ==>
          RouteRealized(graph, w, start, s, routes[s]) && routes[s].compositeScore == results.distances[s]
        decreases |remaining|
      {
        var station :| station in remaining;
        if station != start && station in results.distances {
          var path := GetPath(start, station, results.previous, results.stops);
          RouteFromTables(results, stations, graph, w, start, station, path);
          routes := routes[station := Route(path, results.costs[station], results.times[station],
                                            results.stops[station], results.distances[station])];
        }
        remaining := remaining - {station};
      }
      forall s
        ensures s in routes <==> s in stations && s != start && Reachable(graph, start, s)
      {
        ReachedIffWalk(results, stations, graph, w, start, s);
      }
      r := Success(routes);
    }
  }
}
