/**
 * The state of the multi-criteria shortest-path search and the facts that hold
 * of it between steps.
 *
 * A station the search has not reached has no entry in the score, fare, time
 * and stop tables (an infinite score); every station has a predecessor entry,
 * `None` until the search reaches it.
 */
module SearchState {
  import opened Results
  import opened Graphs
  import opened Walks
  import opened Frontier
  import opened Predecessors

  datatype SearchError =
    | UnknownStation(station: Station)  // the origin is not a station of the network
    | MissingStation(station: Station)  // an edge leads to a name that is not a station

  /** The per-station tables the search fills in. */
  datatype SearchTables = SearchTables(
    distances: map<Station, real>,
    costs: map<Station, real>,
    times: map<Station, real>,
    stops: map<Station, nat>,
    previous: Links)

  /** Before the search: only `start` is reached, at score, fare, time and stops zero; nothing has a predecessor. */
  function Initial(stations: set<Station>, start: Station): (t: SearchTables)
    requires start in stations
    ensures forall s :: s in t.distances <==> s == start
    ensures t.costs.Keys == t.times.Keys == t.stops.Keys == {start}
    ensures t.distances[start] == 0.0 && t.costs[start] == 0.0 && t.times[start] == 0.0 && t.stops[start] == 0
    ensures forall s :: s in t.previous <==> s in stations
    ensures forall s :: s in t.previous ==> t.previous[s] == None
  {
    SearchTables(map[start := 0.0], map[start := 0.0], map[start := 0.0], map[start := 0], map s | s in stations :: None)
  }

  /** The score of reaching the destination of `e` through `c`: the totals of `c` plus one hop along `e`. */
  function Candidate(t: SearchTables, w: Weights, c: Station, e: Connection): real
    requires c in t.costs && c in t.times && c in t.stops
  {
    Composite(w, t.costs[c] + e.cost, t.times[c] + e.travelTime, t.stops[c] + 1)
  }

  /** Whether the route through `c` along `e` beats what is recorded for the destination of `e`. */
  predicate Improves(t: SearchTables, w: Weights, c: Station, e: Connection)
    requires c in t.costs && c in t.times && c in t.stops
  {
    e.destination !in t.distances || Candidate(t, w, c, e) < t.distances[e.destination]
  }

  /** The tables after the destination of `e` is reached through `c`. */
  function ImproveThrough(t: SearchTables, w: Weights, c: Station, e: Connection): SearchTables
    requires c in t.costs && c in t.times && c in t.stops
  {
    Improve(t, e.destination, c, Candidate(t, w, c, e), t.costs[c] + e.cost, t.times[c] + e.travelTime, t.stops[c] + 1)
  }

  /** The tables after `n` is reached from `c` with the given totals and score. */
  function Improve(t: SearchTables, n: Station, c: Station, score: real, cost: real, time: real, stops: nat): SearchTables
  {
    SearchTables(t.distances[n := score], t.costs[n := cost], t.times[n := time], t.stops[n := stops], t.previous[n := Some(c)])
  }

  /** The candidate and the improved tables, for totals computed step by step as the search does. */
  lemma ThroughIs(t: SearchTables, w: Weights, c: Station, e: Connection, score: real, cost: real, time: real, stops: nat)
    requires c in t.costs && c in t.times && c in t.stops
    requires cost == t.costs[c] + e.cost && time == t.times[c] + e.travelTime && stops == t.stops[c] + 1
    requires score == Composite(w, cost, time, stops)
    ensures Candidate(t, w, c, e) == score
    ensures ImproveThrough(t, w, c, e) == Improve(t, e.destination, c, score, cost, time, stops)
  {
  }

  // ---------------------------------------------------------------------------
  // Facts about the tables alone

  /** The four totals tables share their keys, all stations; the predecessor table has every station. */
  ghost predicate WellShaped(t: SearchTables, stations: set<Station>)
  {
    (forall s :: s in t.distances ==> s in stations) &&
    (forall s :: s in t.costs <==> s in t.distances) &&
    (forall s :: s in t.times <==> s in t.distances) &&
    (forall s :: s in t.stops <==> s in t.distances) &&
    (forall s :: s in t.previous <==> s in stations)
  }

  /** The origin is reached with all totals zero and has no predecessor. */
  ghost predicate OriginSeeded(t: SearchTables, start: Station)
  {
    start in t.distances && start in t.costs && start in t.times && start in t.stops && start in t.previous &&
    t.distances[start] == 0.0 && t.costs[start] == 0.0 && t.times[start] == 0.0 && t.stops[start] == 0 &&
    t.previous[start] == None
  }

  /** Each recorded score is the composite score of the recorded totals. */
  ghost predicate ScoresComposite(t: SearchTables, w: Weights)
  {
    forall s :: s in t.distances && s in t.costs && s in t.times && s in t.stops ==>
      t.distances[s] == Composite(w, t.costs[s], t.times[s], t.stops[s])
  }

  /** Edge `e` from `p` reaches `s`, and the totals of `s` are those of `p` plus one hop along `e`. */
  ghost predicate LinkEdge(t: SearchTables, g: Graph, s: Station, p: Station, e: Connection)
  {
    e in Outgoing(g, p) && e.destination == s &&
    s in t.costs && s in t.times && s in t.stops && p in t.costs && p in t.times && p in t.stops &&
    t.costs[s] == t.costs[p] + e.cost && t.times[s] == t.times[p] + e.travelTime && t.stops[s] == t.stops[p] + 1
  }

  /** Every predecessor link follows an edge of the graph and accounts for the totals. */
  ghost predicate PredecessorEdges(t: SearchTables, g: Graph)
  {
    forall s :: s in t.previous && t.previous[s].Some? ==>
      s in t.distances && t.previous[s].value in t.distances &&
      exists e :: LinkEdge(t, g, s, t.previous[s].value, e)
  }

  /** Every reached station other than the origin has a predecessor. */
  ghost predicate ReachedLinked(t: SearchTables, start: Station)
  {
    forall s :: s in t.distances && s != start ==> s in t.previous && t.previous[s].Some?
  }

  /** The recorded score of every station the graph can reach from `start` is at most the score of any walk to it. */
  ghost predicate Optimal(t: SearchTables, g: Graph, w: Weights, start: Station)
  {
    forall edges :: IsWalk(g, start, edges) ==>
      WalkEnd(start, edges) in t.distances && t.distances[WalkEnd(start, edges)] <= WalkScore(w, edges)
  }

  // ---------------------------------------------------------------------------
  // Facts about the search in progress

  /**
   * What holds of the tables throughout: their shape, the origin, the scores,
   * and a ghost record `via` of the edge behind every predecessor link, whose
   * source is already settled.
   */
  ghost predicate Consistent(t: SearchTables, stations: set<Station>, g: Graph, w: Weights, start: Station,
                             visited: set<Station>, via: map<Station, Connection>)
  {
    WellShaped(t, stations) && OriginSeeded(t, start) && ScoresComposite(t, w) && ReachedLinked(t, start) &&
    (forall s :: s in visited ==> s in t.distances) &&
    (visited == {} ==> forall s :: s in t.distances ==> s == start) &&
    (visited != {} ==> start in visited) &&
    (forall s :: s in t.previous && t.previous[s].Some? ==>
      s != start && s in t.distances && s in via && t.previous[s].value in visited &&
      LinkEdge(t, g, s, t.previous[s].value, via[s]))
  }

  /** Each reached, unsettled station has an entry with its current score; no entry undercuts its station's score. */
  ghost predicate Covers(t: SearchTables, pq: seq<Entry>, visited: set<Station>)
  {
    (forall u :: u in t.distances && u !in visited ==> Entry(t.distances[u], u) in pq) &&
    (forall x :: x in pq ==> x.station in t.distances && t.distances[x.station] <= x.score)
  }

  /** No settled station scores above a reached, unsettled one. */
  ghost predicate SettledBelow(t: SearchTables, visited: set<Station>)
  {
    forall v, u :: v in visited && u in t.distances && u !in visited && v in t.distances ==>
      t.distances[v] <= t.distances[u]
  }

  /**
   * Edge `e` out of `u` leads to a reached station; when the search is `sound`
   * (non-negative weights and edges), its score is at most that of `u` plus the edge's weight.
   */
  ghost predicate EdgeRelaxed(t: SearchTables, w: Weights, u: Station, e: Connection, sound: bool)
  {
    u in t.distances && e.destination in t.distances &&
    (sound ==> t.distances[e.destination] <= t.distances[u] + EdgeWeight(w, e))
  }

  /** Every edge out of a station of `done` is relaxed. */
  ghost predicate Relaxed(t: SearchTables, g: Graph, w: Weights, done: set<Station>, sound: bool)
  {
    forall u, e :: u in done && e in Outgoing(g, u) ==> EdgeRelaxed(t, w, u, e, sound)
  }

  /** The first `j` edges out of `c` are relaxed. */
  ghost predicate PrefixRelaxed(t: SearchTables, w: Weights, c: Station, edges: seq<Connection>, j: nat, sound: bool)
  {
    forall k :: 0 <= k < j && k < |edges| ==> EdgeRelaxed(t, w, c, edges[k], sound)
  }

  /** No settled station scores above `c`. */
  ghost predicate BelowCurrent(t: SearchTables, visited: set<Station>, c: Station)
  {
    c in t.distances && forall v :: v in visited && v in t.distances ==> t.distances[v] <= t.distances[c]
  }

  /** Between two stations being settled: every edge out of a settled station is relaxed. */
  ghost predicate Settled(t: SearchTables, g: Graph, w: Weights, visited: set<Station>, sound: bool)
  {
    Relaxed(t, g, w, visited, sound) && (sound ==> SettledBelow(t, visited))
  }

  /** While the edges out of the newly settled `c` are relaxed: the first `j` of them, and every edge of the others. */
  ghost predicate Relaxing(t: SearchTables, g: Graph, w: Weights, visited: set<Station>, c: Station, j: nat, sound: bool)
  {
    c in visited && Relaxed(t, g, w, visited - {c}, sound) && PrefixRelaxed(t, w, c, Outgoing(g, c), j, sound) &&
    (sound ==> SettledBelow(t, visited) && BelowCurrent(t, visited, c))
  }

  /** Everything that holds while the `j`-th edge out of the newly settled `c` is next. */
  ghost predicate Relaxation(t: SearchTables, stations: set<Station>, g: Graph, w: Weights, start: Station,
                             visited: set<Station>, via: map<Station, Connection>, pq: seq<Entry>, c: Station, j: nat, sound: bool)
  {
    Consistent(t, stations, g, w, start, visited, via) && Covers(t, pq, visited) && Relaxing(t, g, w, visited, c, j, sound)
  }

  /** The search may rely on non-negativity only when weights and edges are non-negative. */
  ghost predicate SoundFlag(g: Graph, w: Weights, sound: bool)
  {
    sound ==> NonNegativeWeights(w) && NonNegativeEdges(g)
  }

  /** No recorded score goes up, and no reached station becomes unreached. */
  ghost predicate ScoresNoWorse(t: SearchTables, t': SearchTables)
  {
    forall s :: s in t.distances ==> s in t'.distances && t'.distances[s] <= t.distances[s]
  }

  /** No station occurs twice in `xs`. */
  ghost predicate Distinct(xs: seq<Station>)
  {
    forall i, j :: 0 <= i < j < |xs| ==> xs[i] != xs[j]
  }

  /** Appending a station not yet listed keeps a list free of repeats. */
  lemma DistinctAppend(xs: seq<Station>, x: Station)
    requires Distinct(xs) && x !in xs
    ensures Distinct(xs + [x])
  {
    var ys := xs + [x];
    forall i, j | 0 <= i < j < |ys|
      ensures ys[i] != ys[j]
    {
      if j == |xs| {
        assert ys[i] == xs[i];
      } else {
        assert ys[i] == xs[i] && ys[j] == xs[j];
      }
    }
  }

  // ---------------------------------------------------------------------------
  // The loop over the edges of a newly settled station, as a function

  /** What the edge loop leaves: the name it stopped at, if any, and the tables and frontier. */
  datatype Pass = Pass(missing: Option<Station>, tables: SearchTables, pq: seq<Entry>)

  /** The entries of every settled station are the same in `t'` as in `t`. */
  ghost predicate SettledKept(t: SearchTables, t': SearchTables, visited: set<Station>)
  {
    forall v :: v in visited ==>
      (v in t.distances ==> v in t'.distances && t'.distances[v] == t.distances[v]) &&
      (v in t.costs ==> v in t'.costs && t'.costs[v] == t.costs[v]) &&
      (v in t.times ==> v in t'.times && t'.times[v] == t.times[v]) &&
      (v in t.stops ==> v in t'.stops && t'.stops[v] == t.stops[v]) &&
      (v in t.previous ==> v in t'.previous && t'.previous[v] == t.previous[v])
  }

  /** Every station reached in `t` is reached in `t'`, with its totals. */
  ghost predicate KeysKept(t: SearchTables, t': SearchTables)
  {
    (forall s :: s in t.costs ==> s in t'.costs) && (forall s :: s in t.times ==> s in t'.times) &&
    (forall s :: s in t.stops ==> s in t'.stops)
  }

  /**
   * One pass of the edge loop on edge `e` out of `c`: an edge into a settled
   * station is skipped, an edge into a name that is not a station stops the
   * loop, and otherwise the route through `c` is recorded when it is strictly better.
   */
  function RelaxEdge(t: SearchTables, pq: seq<Entry>, w: Weights, visited: set<Station>, stations: set<Station>,
                     c: Station, e: Connection): (r: Pass)
    requires c in t.costs && c in t.times && c in t.stops
  {
    if e.destination in visited then Pass(None, t, pq)
    else if e.destination !in stations then Pass(Some(e.destination), t, pq)
    else if Improves(t, w, c, e) then Pass(None, ImproveThrough(t, w, c, e), pq + [Entry(Candidate(t, w, c, e), e.destination)])
    else Pass(None, t, pq)
  }

  /** A pass never touches a settled station, never raises a score and reports only an unknown, unsettled name. */
  lemma RelaxEdgeKeeps(t: SearchTables, pq: seq<Entry>, w: Weights, visited: set<Station>, stations: set<Station>,
                       c: Station, e: Connection)
    requires c in t.costs && c in t.times && c in t.stops
    ensures var r := RelaxEdge(t, pq, w, visited, stations, c, e);
      SettledKept(t, r.tables, visited) && ScoresNoWorse(t, r.tables) && KeysKept(t, r.tables) &&
      (e.destination in visited ==> r == Pass(None, t, pq)) &&
      (r.missing.Some? <==> e.destination !in visited && e.destination !in stations) &&
      (r.missing.Some? ==> r.missing.value == e.destination && r.tables == t && r.pq == pq)
  {
  }

  /** The `n`-th pass of the edge loop keeps the settled entries and makes no score worse. */
  lemma RelaxEdgesKeepsStep(t: SearchTables, pq: seq<Entry>, w: Weights, visited: set<Station>,
                            stations: set<Station>, c: Station, edges: seq<Connection>, n: nat)
    requires c in t.costs && c in t.times && c in t.stops && 0 < n <= |edges|
    ensures var before := RelaxEdges(t, pq, w, visited, stations, c, edges, n - 1);
      var r := RelaxEdges(t, pq, w, visited, stations, c, edges, n);
      SettledKept(before.tables, r.tables, visited) && ScoresNoWorse(before.tables, r.tables)
  {
    var before := RelaxEdges(t, pq, w, visited, stations, c, edges, n - 1);
    if before.missing.None? {
      RelaxEdgeKeeps(before.tables, before.pq, w, visited, stations, c, edges[n - 1]);
    }
  }

  /** Two steps that keep the settled entries and make no score worse do so together. */
  lemma KeptChain(t: SearchTables, t': SearchTables, t'': SearchTables, visited: set<Station>)
    requires SettledKept(t, t', visited) && ScoresNoWorse(t, t')
    requires SettledKept(t', t'', visited) && ScoresNoWorse(t', t'')
    ensures SettledKept(t, t'', visited) && ScoresNoWorse(t, t'')
  {
  }

  /** The edge loop over the first `n` of `edges`, one pass per edge, up to the first name that is not a station. */
  function RelaxEdges(t: SearchTables, pq: seq<Entry>, w: Weights, visited: set<Station>, stations: set<Station>,
                      c: Station, edges: seq<Connection>, n: nat): (r: Pass)
    requires c in t.costs && c in t.times && c in t.stops && n <= |edges|
    ensures c in r.tables.costs && c in r.tables.times && c in r.tables.stops
  {
    if n == 0 then Pass(None, t, pq)
    else
      var before := RelaxEdges(t, pq, w, visited, stations, c, edges, n - 1);
      if before.missing.Some? then before
      else RelaxEdge(before.tables, before.pq, w, visited, stations, c, edges[n - 1])
  }

  /** The loop never touches a settled station and never raises a score. */
  lemma {:induction false} RelaxEdgesKeeps(t: SearchTables, pq: seq<Entry>, w: Weights, visited: set<Station>,
                                           stations: set<Station>, c: Station, edges: seq<Connection>, n: nat)
    requires c in t.costs && c in t.times && c in t.stops && n <= |edges|
    ensures var r := RelaxEdges(t, pq, w, visited, stations, c, edges, n);
      SettledKept(t, r.tables, visited) && ScoresNoWorse(t, r.tables)
  {
    if n > 0 {
      RelaxEdgesKeeps(t, pq, w, visited, stations, c, edges, n - 1);
      RelaxEdgesKeepsStep(t, pq, w, visited, stations, c, edges, n);
      KeptChain(t, RelaxEdges(t, pq, w, visited, stations, c, edges, n - 1).tables,
                RelaxEdges(t, pq, w, visited, stations, c, edges, n).tables, visited);
    }
  }

  /** The first destination among the first `n` of `edges` that is neither settled nor a station. */
  function FirstUnknown(edges: seq<Connection>, n: nat, visited: set<Station>, stations: set<Station>): Option<Station>
    requires n <= |edges|
  {
    if n == 0 then None
    else
      var before := FirstUnknown(edges, n - 1, visited, stations);
      var last := edges[n - 1].destination;
      if before.Some? then before
      else if last !in visited && last !in stations then Some(last)
      else None
  }

  /** `FirstUnknown` names the destination of the first edge into an unknown, unsettled name, or nothing when there is none. */
  lemma {:induction false} FirstUnknownIsFirst(edges: seq<Connection>, n: nat, visited: set<Station>, stations: set<Station>)
    requires n <= |edges|
    ensures var r := FirstUnknown(edges, n, visited, stations);
      (r.None? ==> forall i :: 0 <= i < n ==> edges[i].destination in stations || edges[i].destination in visited) &&
      (r.Some? ==>
        exists k :: (0 <= k < n && edges[k].destination == r.value &&
          r.value !in stations && r.value !in visited &&
          forall i :: 0 <= i < k ==> edges[i].destination in stations || edges[i].destination in visited))
  {
    if n > 0 {
      FirstUnknownIsFirst(edges, n - 1, visited, stations);
    }
  }

  /** A name the loop stops at is not a station and is the destination of one of the edges. */
  lemma FirstUnknownEdge(edges: seq<Connection>, visited: set<Station>, stations: set<Station>)
    ensures FirstUnknown(edges, |edges|, visited, stations).Some? ==>
      FirstUnknown(edges, |edges|, visited, stations).value !in stations &&
      exists e :: e in edges && e.destination == FirstUnknown(edges, |edges|, visited, stations).value
  {
    FirstUnknownIsFirst(edges, |edges|, visited, stations);
    if FirstUnknown(edges, |edges|, visited, stations).Some? {
      var k :| 0 <= k < |edges| && edges[k].destination == FirstUnknown(edges, |edges|, visited, stations).value;
      assert edges[k] in edges;
    }
  }

  /** The `n`-th pass of the edge loop, when the loop has not stopped, stops exactly at an edge into a name neither settled nor a station. */
  lemma RelaxEdgesMissingStep(t: SearchTables, pq: seq<Entry>, w: Weights, visited: set<Station>,
                              stations: set<Station>, c: Station, edges: seq<Connection>, n: nat)
    requires c in t.costs && c in t.times && c in t.stops && 0 < n <= |edges|
    ensures var before := RelaxEdges(t, pq, w, visited, stations, c, edges, n - 1);
      var last := edges[n - 1].destination;
      RelaxEdges(t, pq, w, visited, stations, c, edges, n).missing ==
        if before.missing.Some? then before.missing
        else if last !in visited && last !in stations then Some(last)
        else None
  {
    var before := RelaxEdges(t, pq, w, visited, stations, c, edges, n - 1);
    if before.missing.None? {
      RelaxEdgeKeeps(before.tables, before.pq, w, visited, stations, c, edges[n - 1]);
    }
  }

  /** The edge loop stops at `FirstUnknown`: exactly at the first edge into a name that is neither settled nor a station. */
  lemma {:induction false} RelaxEdgesMissing(t: SearchTables, pq: seq<Entry>, w: Weights, visited: set<Station>,
                                             stations: set<Station>, c: Station, edges: seq<Connection>, n: nat)
    requires c in t.costs && c in t.times && c in t.stops && n <= |edges|
    ensures RelaxEdges(t, pq, w, visited, stations, c, edges, n).missing == FirstUnknown(edges, n, visited, stations)
  {
    if n > 0 {
      RelaxEdgesMissing(t, pq, w, visited, stations, c, edges, n - 1);
      RelaxEdgesMissingStep(t, pq, w, visited, stations, c, edges, n);
    }
  }

  /** Once the loop has stopped after `k` edges, running it over more edges changes nothing. */
  lemma {:induction false} RelaxEdgesStopped(t: SearchTables, pq: seq<Entry>, w: Weights, visited: set<Station>,
                                             stations: set<Station>, c: Station, edges: seq<Connection>, k: nat, n: nat)
    requires c in t.costs && c in t.times && c in t.stops && k <= n <= |edges|
    requires RelaxEdges(t, pq, w, visited, stations, c, edges, k).missing.Some?
    ensures RelaxEdges(t, pq, w, visited, stations, c, edges, n) == RelaxEdges(t, pq, w, visited, stations, c, edges, k)
  {
    if k < n {
      RelaxEdgesStopped(t, pq, w, visited, stations, c, edges, k, n - 1);
    }
  }

  /** The ghost record of the edge behind each predecessor link, updated as the loop over the first `n` edges updates links. */
  ghost function ViaEdges(t: SearchTables, pq: seq<Entry>, w: Weights, visited: set<Station>, stations: set<Station>,
                          c: Station, edges: seq<Connection>, n: nat, via: map<Station, Connection>): map<Station, Connection>
    requires c in t.costs && c in t.times && c in t.stops && n <= |edges|
  {
    if n == 0 then via
    else
      var before := RelaxEdges(t, pq, w, visited, stations, c, edges, n - 1);
      var v := ViaEdges(t, pq, w, visited, stations, c, edges, n - 1, via);
      var e := edges[n - 1];
      if before.missing.None? && e.destination !in visited && e.destination in stations && Improves(before.tables, w, c, e)
      then v[e.destination := e]
      else v
  }

  /** After `n - 1` passes without a stop, the `n`-th pass of the loop relaxes the `n`-th edge and updates its link when it improves. */
  lemma RelaxEdgesStep(t: SearchTables, pq: seq<Entry>, w: Weights, visited: set<Station>, stations: set<Station>,
                       c: Station, edges: seq<Connection>, n: nat, via: map<Station, Connection>)
    requires c in t.costs && c in t.times && c in t.stops && 0 < n <= |edges|
    requires RelaxEdges(t, pq, w, visited, stations, c, edges, n - 1).missing.None?
    ensures var before := RelaxEdges(t, pq, w, visited, stations, c, edges, n - 1);
      var v := ViaEdges(t, pq, w, visited, stations, c, edges, n - 1, via);
      var e := edges[n - 1];
      RelaxEdges(t, pq, w, visited, stations, c, edges, n) == RelaxEdge(before.tables, before.pq, w, visited, stations, c, e) &&
      ViaEdges(t, pq, w, visited, stations, c, edges, n, via) ==
        (if e.destination !in visited && e.destination in stations && Improves(before.tables, w, c, e) then v[e.destination := e] else v)
  {
  }

  /** One pass of the loop, on the `j`-th edge out of `c`, unless it stops, keeps every invariant of the search and relaxes that edge. */
  lemma RelaxEdgeRelaxation(t: SearchTables, stations: set<Station>, g: Graph, w: Weights, start: Station,
                            visited: set<Station>, via: map<Station, Connection>, pq: seq<Entry>, c: Station, j: nat, sound: bool,
                            r: Pass, via': map<Station, Connection>)
    requires SoundFlag(g, w, sound) && j < |Outgoing(g, c)|
    requires Relaxation(t, stations, g, w, start, visited, via, pq, c, j, sound)
    requires c in t.costs && c in t.times && c in t.stops
    requires var e := Outgoing(g, c)[j];
      r == RelaxEdge(t, pq, w, visited, stations, c, e) &&
      via' == (if e.destination !in visited && e.destination in stations && Improves(t, w, c, e) then via[e.destination := e] else via)
    ensures r.missing.None? ==> Relaxation(r.tables, stations, g, w, start, visited, via', r.pq, c, j + 1, sound)
  {
    var e := Outgoing(g, c)[j];
    if e.destination in visited {
      SkipSettled(t, g, w, visited, c, j, sound);
    } else if e.destination in stations {
      if Improves(t, w, c, e) {
        ImproveStep(t, stations, g, w, start, visited, via, pq, c, j, sound);
      } else {
        KeepStep(t, stations, g, w, start, visited, via, pq, c, j, sound);
      }
    }
  }

  /** The `n`-th pass of the loop over the edges out of `c`, unless it stops, keeps every invariant of the search. */
  lemma RelaxEdgesPass(t: SearchTables, stations: set<Station>, g: Graph, w: Weights, start: Station,
                       visited: set<Station>, via: map<Station, Connection>, pq: seq<Entry>, c: Station, n: nat, sound: bool)
    requires SoundFlag(g, w, sound) && 0 < n <= |Outgoing(g, c)|
    requires c in t.costs && c in t.times && c in t.stops
    requires var before := RelaxEdges(t, pq, w, visited, stations, c, Outgoing(g, c), n - 1);
      before.missing.None? &&
      Relaxation(before.tables, stations, g, w, start, visited,
                 ViaEdges(t, pq, w, visited, stations, c, Outgoing(g, c), n - 1, via), before.pq, c, n - 1, sound)
    ensures var r := RelaxEdges(t, pq, w, visited, stations, c, Outgoing(g, c), n);
      r.missing.None? ==>
        Relaxation(r.tables, stations, g, w, start, visited, ViaEdges(t, pq, w, visited, stations, c, Outgoing(g, c), n, via), r.pq, c, n, sound)
  {
    var before := RelaxEdges(t, pq, w, visited, stations, c, Outgoing(g, c), n - 1);
    RelaxEdgesStep(t, pq, w, visited, stations, c, Outgoing(g, c), n, via);
    RelaxEdgeRelaxation(before.tables, stations, g, w, start, visited,
                        ViaEdges(t, pq, w, visited, stations, c, Outgoing(g, c), n - 1, via), before.pq, c, n - 1, sound,
                        RelaxEdges(t, pq, w, visited, stations, c, Outgoing(g, c), n),
                        ViaEdges(t, pq, w, visited, stations, c, Outgoing(g, c), n, via));
  }

  /** The loop over the first `n` edges out of the newly settled `c`, unless it stops, keeps every invariant and relaxes those edges. */
  lemma {:induction false} RelaxEdgesRelaxation(t: SearchTables, stations: set<Station>, g: Graph, w: Weights, start: Station,
                                                visited: set<Station>, via: map<Station, Connection>, pq: seq<Entry>,
                                                c: Station, n: nat, sound: bool)
    requires SoundFlag(g, w, sound) && n <= |Outgoing(g, c)|
    requires Relaxation(t, stations, g, w, start, visited, via, pq, c, 0, sound)
    requires c in t.costs && c in t.times && c in t.stops
    ensures var r := RelaxEdges(t, pq, w, visited, stations, c, Outgoing(g, c), n);
      r.missing.None? ==>
        Relaxation(r.tables, stations, g, w, start, visited, ViaEdges(t, pq, w, visited, stations, c, Outgoing(g, c), n, via), r.pq, c, n, sound)
  {
    if n > 0 {
      RelaxEdgesRelaxation(t, stations, g, w, start, visited, via, pq, c, n - 1, sound);
      if RelaxEdges(t, pq, w, visited, stations, c, Outgoing(g, c), n - 1).missing.None? {
        RelaxEdgesPass(t, stations, g, w, start, visited, via, pq, c, n, sound);
      }
    }
  }

  /** A loop over every edge out of `c` that did not stop leaves the tables consistent, the frontier covering and `c` settled. */
  lemma RelaxEdgesFinish(t: SearchTables, stations: set<Station>, g: Graph, w: Weights, start: Station,
                         visited: set<Station>, via: map<Station, Connection>, pq: seq<Entry>, c: Station, sound: bool, r: Pass)
    requires SoundFlag(g, w, sound)
    requires Relaxation(t, stations, g, w, start, visited, via, pq, c, 0, sound)
    requires c in t.costs && c in t.times && c in t.stops
    requires r == RelaxEdges(t, pq, w, visited, stations, c, Outgoing(g, c), |Outgoing(g, c)|) && r.missing.None?
    ensures var via' := ViaEdges(t, pq, w, visited, stations, c, Outgoing(g, c), |Outgoing(g, c)|, via);
      Consistent(r.tables, stations, g, w, start, visited, via') && Covers(r.tables, r.pq, visited) &&
      Settled(r.tables, g, w, visited, sound)
  {
    RelaxEdgesRelaxation(t, stations, g, w, start, visited, via, pq, c, |Outgoing(g, c)|, sound);
    FinishRelaxing(r.tables, g, w, visited, c, sound);
  }

  /** When the loop has run over every edge, or stopped early, its result so far is its result over all edges. */
  lemma RelaxEdgesDone(t: SearchTables, pq: seq<Entry>, w: Weights, visited: set<Station>, stations: set<Station>,
                       c: Station, edges: seq<Connection>, k: nat, r: Pass)
    requires c in t.costs && c in t.times && c in t.stops && k <= |edges|
    requires RelaxEdges(t, pq, w, visited, stations, c, edges, k) == r
    requires r.missing.Some? || k == |edges|
    ensures RelaxEdges(t, pq, w, visited, stations, c, edges, |edges|) == r
    ensures r.missing == FirstUnknown(edges, |edges|, visited, stations)
    ensures SettledKept(t, r.tables, visited) && ScoresNoWorse(t, r.tables)
    ensures r.missing.Some? ==> r.missing.value !in stations && exists e :: e in edges && e.destination == r.missing.value
  {
    if r.missing.Some? {
      RelaxEdgesStopped(t, pq, w, visited, stations, c, edges, k, |edges|);
    }
    RelaxEdgesKeeps(t, pq, w, visited, stations, c, edges, |edges|);
    RelaxEdgesMissing(t, pq, w, visited, stations, c, edges, |edges|);
    FirstUnknownEdge(edges, visited, stations);
  }

  // ---------------------------------------------------------------------------
  // What the finished search leaves

  /** The tables as the search returns them. */
  ghost predicate FinalTables(t: SearchTables, stations: set<Station>, g: Graph, w: Weights, start: Station)
  {
    WellShaped(t, stations) && OriginSeeded(t, start) && ScoresComposite(t, w) &&
    ReachedLinked(t, start) && PredecessorEdges(t, g)
  }

  /** No edge leaves the reached stations. */
  ghost predicate Closed(t: SearchTables, g: Graph)
  {
    forall u, e :: u in t.distances && e in Outgoing(g, u) ==> e.destination in t.distances
  }

  // ---------------------------------------------------------------------------
  // One step of the search at a time

  /** The initial tables and frontier meet every invariant of the search. */
  lemma InitialHolds(stations: set<Station>, g: Graph, w: Weights, start: Station, sound: bool)
    requires start in stations
    ensures Consistent(Initial(stations, start), stations, g, w, start, {}, map[])
    ensures Covers(Initial(stations, start), [Entry(0.0, start)], {})
    ensures Settled(Initial(stations, start), g, w, {}, sound)
  {
    var t := Initial(stations, start);
    assert Composite(w, 0.0, 0.0, 0) == 0.0;
    assert Entry(t.distances[start], start) in [Entry(0.0, start)];
  }

  /** Settling a reached station keeps the tables consistent. */
  lemma SettleConsistent(t: SearchTables, stations: set<Station>, g: Graph, w: Weights, start: Station,
                         visited: set<Station>, via: map<Station, Connection>, c: Station)
    requires Consistent(t, stations, g, w, start, visited, via) && c in t.distances
    ensures Consistent(t, stations, g, w, start, visited + {c}, via)
  {
  }

  /**
   * Taking the least entry leaves an entry for every reached station that is
   * still unsettled once the entry's station is settled.
   */
  lemma PopCovers(t: SearchTables, visited: set<Station>, pq: seq<Entry>)
    requires Covers(t, pq, visited) && |pq| > 0
    ensures PopMin(pq).0.station in t.distances
    ensures Covers(t, PopMin(pq).1, visited + {PopMin(pq).0.station})
    ensures PopMin(pq).0.station in visited ==> Covers(t, PopMin(pq).1, visited)
  {
    var c := PopMin(pq).0.station;
    if c in visited {
      assert visited + {c} == visited;
    }
    forall u | u in t.distances && u !in visited + {c}
      ensures Entry(t.distances[u], u) in PopMin(pq).1
    {
      assert Entry(t.distances[u], u) in pq;
    }
  }

  /** Settling one more station leaves fewer unsettled stations. */
  lemma SettleShrinks(stations: set<Station>, visited: set<Station>, c: Station)
    requires c in stations && c !in visited
    ensures |stations - (visited + {c})| < |stations - visited|
  {
    assert stations - visited == (stations - (visited + {c})) + {c};
  }

  /** The station of the least entry, if unsettled, scores no more than any other unsettled station. */
  lemma PopRelaxing(t: SearchTables, g: Graph, w: Weights, visited: set<Station>, pq: seq<Entry>, sound: bool)
    requires Covers(t, pq, visited) && Settled(t, g, w, visited, sound)
    requires |pq| > 0 && PopMin(pq).0.station !in visited
    ensures Relaxing(t, g, w, visited + {PopMin(pq).0.station}, PopMin(pq).0.station, 0, sound)
  {
    var x := PopMin(pq).0;
    var c := x.station;
    var settled := visited + {c};
    assert settled - {c} == visited;
    if sound {
      forall v, u | v in settled && u in t.distances && u !in settled && v in t.distances
        ensures t.distances[v] <= t.distances[u]
      {
        if v == c {
          assert Entry(t.distances[u], u) in pq;
        }
      }
      assert BelowCurrent(t, settled, c);
    }
  }

  /** An edge into a settled station is already relaxed. */
  lemma SkipSettled(t: SearchTables, g: Graph, w: Weights, visited: set<Station>, c: Station, j: nat, sound: bool)
    requires SoundFlag(g, w, sound) && Relaxing(t, g, w, visited, c, j, sound)
    requires forall s :: s in visited ==> s in t.distances
    requires j < |Outgoing(g, c)| && Outgoing(g, c)[j].destination in visited
    ensures Relaxing(t, g, w, visited, c, j + 1, sound)
  {
    var e := Outgoing(g, c)[j];
    if sound {
      EdgeWeightNonNegative(w, e);
    }
    assert EdgeRelaxed(t, w, c, e, sound);
  }

  /** The totals of `c` plus one hop along `e` score `c`'s score plus the edge's weight. */
  lemma HopScore(t: SearchTables, w: Weights, c: Station, e: Connection)
    requires ScoresComposite(t, w)
    requires c in t.distances && c in t.costs && c in t.times && c in t.stops
    ensures Composite(w, t.costs[c] + e.cost, t.times[c] + e.travelTime, t.stops[c] + 1) == t.distances[c] + EdgeWeight(w, e)
  {
    CompositeStep(w, t.costs[c], t.times[c], t.stops[c], e);
  }

  /**
   * With non-negative weights, a candidate built from the totals of `c` plus
   * one edge of non-negative fare and time scores no lower than `c` itself.
   */
  lemma CandidateNotLower(t: SearchTables, w: Weights, c: Station, e: Connection)
    requires ScoresComposite(t, w) && NonNegativeWeights(w) && e.cost >= 0.0 && e.travelTime >= 0.0
    requires c in t.distances && c in t.costs && c in t.times && c in t.stops
    ensures Composite(w, t.costs[c] + e.cost, t.times[c] + e.travelTime, t.stops[c] + 1) >= t.distances[c]
  {
    HopScore(t, w, c, e);
    EdgeWeightNonNegative(w, e);
  }

  /** An edge whose candidate score does not beat the recorded one is already relaxed. */
  lemma KeepScore(t: SearchTables, g: Graph, w: Weights, visited: set<Station>, c: Station, j: nat, sound: bool)
    requires ScoresComposite(t, w) && Relaxing(t, g, w, visited, c, j, sound)
    requires c in t.distances && c in t.costs && c in t.times && c in t.stops
    requires j < |Outgoing(g, c)|
    requires !Improves(t, w, c, Outgoing(g, c)[j])
    ensures Relaxing(t, g, w, visited, c, j + 1, sound)
  {
    HopScore(t, w, c, Outgoing(g, c)[j]);
    assert EdgeRelaxed(t, w, c, Outgoing(g, c)[j], sound);
  }

  /** Recording a better score for an unsettled station, reached along an edge out of a settled one, keeps the tables consistent. */
  lemma ImproveConsistent(t: SearchTables, stations: set<Station>, g: Graph, w: Weights, start: Station,
                          visited: set<Station>, via: map<Station, Connection>, c: Station, e: Connection,
                          score: real, cost: real, time: real, stops: nat)
    requires Consistent(t, stations, g, w, start, visited, via)
    requires c in visited && e in Outgoing(g, c) && e.destination !in visited && e.destination in stations
    requires cost == t.costs[c] + e.cost && time == t.times[c] + e.travelTime && stops == t.stops[c] + 1
    requires score == Composite(w, cost, time, stops)
    ensures Consistent(Improve(t, e.destination, c, score, cost, time, stops), stations, g, w, start, visited, via[e.destination := e])
  {
    var n := e.destination;
    assert n != start;
    ImproveShape(t, stations, w, start, n, c, score, cost, time, stops);
    ImproveLinks(t, g, start, visited, via, c, e, score, cost, time, stops);
  }

  /** The shape, origin, scores and reached-implies-linked facts survive an improvement of a station other than the origin. */
  lemma ImproveShape(t: SearchTables, stations: set<Station>, w: Weights, start: Station, n: Station, c: Station,
                     score: real, cost: real, time: real, stops: nat)
    requires WellShaped(t, stations) && OriginSeeded(t, start) && ScoresComposite(t, w) && ReachedLinked(t, start)
    requires n in stations && n != start && score == Composite(w, cost, time, stops)
    ensures var t' := Improve(t, n, c, score, cost, time, stops);
      WellShaped(t', stations) && OriginSeeded(t', start) && ScoresComposite(t', w) && ReachedLinked(t', start)
  {
  }

  /** The predecessor links survive an improvement along an edge out of a settled station. */
  lemma ImproveLinks(t: SearchTables, g: Graph, start: Station, visited: set<Station>, via: map<Station, Connection>,
                     c: Station, e: Connection, score: real, cost: real, time: real, stops: nat)
    requires forall s :: s in t.previous && t.previous[s].Some? ==>
      s != start && s in t.distances && s in via && t.previous[s].value in visited &&
      LinkEdge(t, g, s, t.previous[s].value, via[s])
    requires c in visited && e.destination !in visited && e.destination != start
    requires c in t.costs && c in t.times && c in t.stops && e in Outgoing(g, c)
    requires cost == t.costs[c] + e.cost && time == t.times[c] + e.travelTime && stops == t.stops[c] + 1
    ensures var t' := Improve(t, e.destination, c, score, cost, time, stops);
      forall s :: s in t'.previous && t'.previous[s].Some? ==>
        s != start && s in t'.distances && s in via[e.destination := e] && t'.previous[s].value in visited &&
        LinkEdge(t', g, s, t'.previous[s].value, via[e.destination := e][s])
  {
    var n := e.destination;
    var t' := Improve(t, n, c, score, cost, time, stops);
    var via' := via[n := e];
    assert LinkEdge(t', g, n, c, e);
    forall s | s in t'.previous && t'.previous[s].Some? && s != n
      ensures LinkEdge(t', g, s, t'.previous[s].value, via'[s])
    {
      assert LinkEdge(t, g, s, t.previous[s].value, via[s]);
    }
  }

  /** The same change, with an entry for the improved station pushed, keeps the frontier covering. */
  lemma ImproveCovers(t: SearchTables, pq: seq<Entry>, visited: set<Station>, n: Station, c: Station,
                      score: real, cost: real, time: real, stops: nat)
    requires Covers(t, pq, visited)
    requires n !in t.distances || score < t.distances[n]
    ensures Covers(Improve(t, n, c, score, cost, time, stops), pq + [Entry(score, n)], visited)
  {
    var t' := Improve(t, n, c, score, cost, time, stops);
    var pq' := pq + [Entry(score, n)];
    forall u | u in t'.distances && u !in visited
      ensures Entry(t'.distances[u], u) in pq'
    {
      if u != n {
        assert Entry(t.distances[u], u) in pq;
      }
    }
    forall x | x in pq'
      ensures x.station in t'.distances && t'.distances[x.station] <= x.score
    {
      if x in pq {
        assert x.station in t.distances && t.distances[x.station] <= x.score;
      }
    }
  }

  /** The same change relaxes the edge it came along and keeps every edge relaxed before it relaxed. */
  lemma ImproveRelaxing(t: SearchTables, g: Graph, w: Weights, visited: set<Station>, c: Station, j: nat, sound: bool,
                        score: real, cost: real, time: real, stops: nat)
    requires SoundFlag(g, w, sound) && Relaxing(t, g, w, visited, c, j, sound) && ScoresComposite(t, w)
    requires forall s :: s in visited ==> s in t.distances
    requires c in t.distances && c in t.costs && c in t.times && c in t.stops
    requires j < |Outgoing(g, c)| && Outgoing(g, c)[j].destination !in visited
    requires cost == t.costs[c] + Outgoing(g, c)[j].cost && time == t.times[c] + Outgoing(g, c)[j].travelTime
    requires stops == t.stops[c] + 1 && score == Composite(w, cost, time, stops)
    requires Outgoing(g, c)[j].destination !in t.distances || score < t.distances[Outgoing(g, c)[j].destination]
    ensures Relaxing(Improve(t, Outgoing(g, c)[j].destination, c, score, cost, time, stops), g, w, visited, c, j + 1, sound)
  {
    var e := Outgoing(g, c)[j];
    var n := e.destination;
    var t' := Improve(t, n, c, score, cost, time, stops);
    HopScore(t, w, c, e);
    forall u, e' | u in visited - {c} && e' in Outgoing(g, u)
      ensures EdgeRelaxed(t', w, u, e', sound)
    {
      assert EdgeRelaxed(t, w, u, e', sound);
    }
    forall k | 0 <= k < j + 1 && k < |Outgoing(g, c)|
      ensures EdgeRelaxed(t', w, c, Outgoing(g, c)[k], sound)
    {
      if k < j {
        assert EdgeRelaxed(t, w, c, Outgoing(g, c)[k], sound);
      }
    }
    if sound {
      EdgeWeightNonNegative(w, e);
      forall v, u | v in visited && u in t'.distances && u !in visited && v in t'.distances
        ensures t'.distances[v] <= t'.distances[u]
      {
        if u != n {
          assert t.distances[v] <= t.distances[u];
        }
      }
    }
  }

  /** An edge whose candidate does not beat the score recorded for its destination changes nothing and is relaxed. */
  lemma KeepStep(t: SearchTables, stations: set<Station>, g: Graph, w: Weights, start: Station,
                 visited: set<Station>, via: map<Station, Connection>, pq: seq<Entry>, c: Station, j: nat, sound: bool)
    requires j < |Outgoing(g, c)|
    requires Relaxation(t, stations, g, w, start, visited, via, pq, c, j, sound)
    requires c in t.costs && c in t.times && c in t.stops && !Improves(t, w, c, Outgoing(g, c)[j])
    ensures Relaxation(t, stations, g, w, start, visited, via, pq, c, j + 1, sound)
  {
    KeepScore(t, g, w, visited, c, j, sound);
  }

  /**
   * Recording the better route through the newly settled `c` along its `j`-th
   * edge, into an unsettled station, keeps every invariant of the search,
   * relaxes that edge and raises no score.
   */
  lemma ImproveStep(t: SearchTables, stations: set<Station>, g: Graph, w: Weights, start: Station,
                    visited: set<Station>, via: map<Station, Connection>, pq: seq<Entry>, c: Station, j: nat, sound: bool)
    requires SoundFlag(g, w, sound) && j < |Outgoing(g, c)|
    requires Outgoing(g, c)[j].destination !in visited && Outgoing(g, c)[j].destination in stations
    requires Relaxation(t, stations, g, w, start, visited, via, pq, c, j, sound)
    requires c in t.costs && c in t.times && c in t.stops && Improves(t, w, c, Outgoing(g, c)[j])
    ensures var e := Outgoing(g, c)[j];
      Relaxation(ImproveThrough(t, w, c, e), stations, g, w, start, visited, via[e.destination := e],
                 pq + [Entry(Candidate(t, w, c, e), e.destination)], c, j + 1, sound)
    ensures ScoresNoWorse(t, ImproveThrough(t, w, c, Outgoing(g, c)[j]))
  {
    var e := Outgoing(g, c)[j];
    var n := e.destination;
    var cost, time, stops := t.costs[c] + e.cost, t.times[c] + e.travelTime, t.stops[c] + 1;
    var score := Composite(w, cost, time, stops);
    ThroughIs(t, w, c, e, score, cost, time, stops);
    ImproveConsistent(t, stations, g, w, start, visited, via, c, e, score, cost, time, stops);
    ImproveCovers(t, pq, visited, n, c, score, cost, time, stops);
    ImproveRelaxing(t, g, w, visited, c, j, sound, score, cost, time, stops);
  }

  /** Once every edge out of `c` is relaxed, every edge out of every settled station is. */
  lemma FinishRelaxing(t: SearchTables, g: Graph, w: Weights, visited: set<Station>, c: Station, sound: bool)
    requires Relaxing(t, g, w, visited, c, |Outgoing(g, c)|, sound)
    ensures Settled(t, g, w, visited, sound)
  {
    forall u, e | u in visited && e in Outgoing(g, u)
      ensures EdgeRelaxed(t, w, u, e, sound)
    {
      if u == c {
        var k :| 0 <= k < |Outgoing(g, c)| && Outgoing(g, c)[k] == e;
      } else {
        assert u in visited - {c};
      }
    }
  }

  /** With the frontier empty every reached station is settled, so the tables are final, closed and, when sound, optimal. */
  lemma SearchDone(t: SearchTables, stations: set<Station>, g: Graph, w: Weights, start: Station,
                   visited: set<Station>, via: map<Station, Connection>, sound: bool)
    requires Consistent(t, stations, g, w, start, visited, via) && Covers(t, [], visited) && Settled(t, g, w, visited, sound)
    ensures FinalTables(t, stations, g, w, start) && Closed(t, g)
    ensures forall u :: u in t.distances <==> u in visited
    ensures sound ==> Optimal(t, g, w, start)
  {
    assert forall u :: u in t.distances ==> u in visited;
    forall s | s in t.previous && t.previous[s].Some?
      ensures s in t.distances && t.previous[s].value in t.distances && exists e :: LinkEdge(t, g, s, t.previous[s].value, e)
    {
      assert LinkEdge(t, g, s, t.previous[s].value, via[s]);
    }
    forall u, e | u in t.distances && e in Outgoing(g, u)
      ensures e.destination in t.distances
    {
      assert EdgeRelaxed(t, w, u, e, sound);
    }
    if sound {
      forall edges | IsWalk(g, start, edges)
        ensures WalkEnd(start, edges) in t.distances && t.distances[WalkEnd(start, edges)] <= WalkScore(w, edges)
      {
        WalkBound(t, g, w, start, visited, edges);
      }
    }
  }

  /** When every reached station is settled and relaxed, no walk from the origin beats the recorded score of its end. */
  lemma {:induction false} WalkBound(t: SearchTables, g: Graph, w: Weights, start: Station, visited: set<Station>, edges: seq<Connection>)
    requires OriginSeeded(t, start) && (forall u :: u in t.distances ==> u in visited) && Relaxed(t, g, w, visited, true)
    requires IsWalk(g, start, edges)
    ensures WalkEnd(start, edges) in t.distances && t.distances[WalkEnd(start, edges)] <= WalkScore(w, edges)
    decreases |edges|
  {
    if |edges| == 0 {
      assert WalkCost(edges) == 0.0 && WalkTime(edges) == 0.0;
    } else {
      var prefix := edges[..|edges| - 1];
      var last := edges[|edges| - 1];
      assert edges == prefix + [last];
      WalkBound(t, g, w, start, visited, prefix);
      WalkExtend(g, w, start, prefix, last);
      assert EdgeRelaxed(t, w, WalkEnd(start, prefix), last, true);
    }
  }

  /** In closed tables every walk from the origin ends at a reached station. */
  lemma {:induction false} WalkReached(t: SearchTables, g: Graph, start: Station, edges: seq<Connection>)
    requires start in t.distances && Closed(t, g) && IsWalk(g, start, edges)
    ensures WalkEnd(start, edges) in t.distances
    decreases |edges|
  {
    if |edges| > 0 {
      WalkReached(t, g, start, edges[..|edges| - 1]);
    }
  }
}
