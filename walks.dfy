/**
 * The composite route score and walks through the network graph.
 *
 * A route is scored on its total fare, total travel time and number of stops,
 * each normalised (fare by 100, minutes by 60, stops by 25) and weighted by a
 * user preference.  Because that score is linear in the three totals, it is
 * the sum of per-edge weights along the walk, which is what lets a
 * shortest-path search optimise it.
 */
module Walks {
  import opened Graphs

  /** Preference weights for fare, travel time and number of stops. */
  datatype Weights = Weights(cost: real, time: real, stops: real)

  /** The weights the optimizer uses when the caller gives none. */
  const DefaultWeights: Weights := Weights(0.3, 0.4, 0.3)

  ghost predicate NonNegativeWeights(w: Weights)
  {
    w.cost >= 0.0 && w.time >= 0.0 && w.stops >= 0.0
  }

  /** The default weights each lie between 0 and 1 and sum to 1, so the optimality results apply to a call that gives none. */
  lemma DefaultWeightsSound()
    ensures NonNegativeWeights(DefaultWeights)
    ensures DefaultWeights.cost <= 1.0 && DefaultWeights.time <= 1.0 && DefaultWeights.stops <= 1.0
    ensures DefaultWeights.cost + DefaultWeights.time + DefaultWeights.stops == 1.0
  {
  }

  /** The composite score of a route with the given totals. */
  function Composite(w: Weights, cost: real, time: real, stops: nat): real
  {
    w.cost * (cost / 100.0) + w.time * (time / 60.0) + w.stops * ((stops as real) / 25.0)
  }

  /** What one edge adds to the composite score: its fare, its minutes and one stop. */
  function EdgeWeight(w: Weights, e: Connection): real
  {
    Composite(w, e.cost, e.travelTime, 1)
  }

  /** Extending the totals by one edge adds exactly that edge's weight to the score. */
  lemma CompositeStep(w: Weights, cost: real, time: real, stops: nat, e: Connection)
    ensures Composite(w, cost + e.cost, time + e.travelTime, stops + 1) == Composite(w, cost, time, stops) + EdgeWeight(w, e)
  {
    assert w.cost * ((cost + e.cost) / 100.0) == w.cost * (cost / 100.0) + w.cost * (e.cost / 100.0);
    assert w.time * ((time + e.travelTime) / 60.0) == w.time * (time / 60.0) + w.time * (e.travelTime / 60.0);
    assert w.stops * (((stops + 1) as real) / 25.0) == w.stops * ((stops as real) / 25.0) + w.stops * (1.0 / 25.0);
  }

  /** With non-negative weights, an edge with non-negative fare and time never lowers the score. */
  lemma EdgeWeightNonNegative(w: Weights, e: Connection)
    requires NonNegativeWeights(w)
    requires e.cost >= 0.0 && e.travelTime >= 0.0
    ensures EdgeWeight(w, e) >= 0.0
  {
  }

  // ---------------------------------------------------------------------------
  // Walks

  /** The station a walk from `origin` along `edges` ends at. */
  function WalkEnd(origin: Station, edges: seq<Connection>): Station
  {
    if |edges| == 0 then origin else edges[|edges| - 1].destination
  }

  /** `edges`, followed from `origin`, is a walk in `g`: each edge leaves the station the previous one reached. */
  ghost predicate IsWalk(g: Graph, origin: Station, edges: seq<Connection>)
    decreases |edges|
  {
    |edges| == 0 ||
    (IsWalk(g, origin, edges[..|edges| - 1]) && edges[|edges| - 1] in Outgoing(g, WalkEnd(origin, edges[..|edges| - 1])))
  }

  /** The stations a walk visits, in order, starting with `origin`. */
  function WalkStations(origin: Station, edges: seq<Connection>): seq<Station>
    decreases |edges|
  {
    if |edges| == 0 then [origin] else WalkStations(origin, edges[..|edges| - 1]) + [edges[|edges| - 1].destination]
  }

  /** Total fare of a walk. */
  function WalkCost(edges: seq<Connection>): real
    decreases |edges|
  {
    if |edges| == 0 then 0.0 else WalkCost(edges[..|edges| - 1]) + edges[|edges| - 1].cost
  }

  /** Total travel time of a walk. */
  function WalkTime(edges: seq<Connection>): real
    decreases |edges|
  {
    if |edges| == 0 then 0.0 else WalkTime(edges[..|edges| - 1]) + edges[|edges| - 1].travelTime
  }

  /** The composite score of a walk: its totals, with one stop per edge. */
  function WalkScore(w: Weights, edges: seq<Connection>): real
  {
    Composite(w, WalkCost(edges), WalkTime(edges), |edges|)
  }

  /** Extending a walk by one edge from its end keeps it a walk, ending at that edge's destination. */
  lemma WalkExtend(g: Graph, w: Weights, origin: Station, edges: seq<Connection>, e: Connection)
    requires IsWalk(g, origin, edges)
    requires e in Outgoing(g, WalkEnd(origin, edges))
    ensures IsWalk(g, origin, edges + [e])
    ensures WalkEnd(origin, edges + [e]) == e.destination
    ensures WalkStations(origin, edges + [e]) == WalkStations(origin, edges) + [e.destination]
    ensures WalkCost(edges + [e]) == WalkCost(edges) + e.cost
    ensures WalkTime(edges + [e]) == WalkTime(edges) + e.travelTime
    ensures WalkScore(w, edges + [e]) == WalkScore(w, edges) + EdgeWeight(w, e)
  {
    assert (edges + [e])[..|edges|] == edges;
    CompositeStep(w, WalkCost(edges), WalkTime(edges), |edges|, e);
  }

  /** A walk visits one more station than it has edges, from its origin to its end. */
  lemma {:induction false} WalkStationsShape(origin: Station, edges: seq<Connection>)
    ensures |WalkStations(origin, edges)| == |edges| + 1
    ensures WalkStations(origin, edges)[0] == origin
    ensures WalkStations(origin, edges)[|edges|] == WalkEnd(origin, edges)
    decreases |edges|
  {
    if |edges| > 0 {
      WalkStationsShape(origin, edges[..|edges| - 1]);
    }
  }

  /** Some edge of `g` leads from `a` to `b`. */
  ghost predicate EdgeBetween(g: Graph, a: Station, b: Station)
  {
    exists e :: e in Outgoing(g, a) && e.destination == b
  }

  /** The `i`-th edge of a walk leaves its `i`-th station and enters its `i+1`-th. */
  lemma {:induction false} WalkStationsStep(g: Graph, origin: Station, edges: seq<Connection>, i: nat)
    requires IsWalk(g, origin, edges) && i < |edges|
    ensures |WalkStations(origin, edges)| == |edges| + 1
    ensures edges[i] in Outgoing(g, WalkStations(origin, edges)[i])
    ensures edges[i].destination == WalkStations(origin, edges)[i + 1]
    decreases |edges|
  {
    var prefix := edges[..|edges| - 1];
    WalkStationsShape(origin, edges);
    WalkStationsShape(origin, prefix);
    assert WalkStations(origin, edges) == WalkStations(origin, prefix) + [edges[|edges| - 1].destination];
    if i < |edges| - 1 {
      WalkStationsStep(g, origin, prefix, i);
      assert edges[i] == prefix[i];
    }
  }

  /** Consecutive stations of a walk are joined by an edge of the graph. */
  lemma WalkStationsAdjacent(g: Graph, origin: Station, edges: seq<Connection>)
    requires IsWalk(g, origin, edges)
    ensures |WalkStations(origin, edges)| == |edges| + 1
    ensures forall i :: 0 <= i < |edges| ==>
      EdgeBetween(g, WalkStations(origin, edges)[i], WalkStations(origin, edges)[i + 1])
  {
    WalkStationsShape(origin, edges);
    forall i | 0 <= i < |edges|
      ensures EdgeBetween(g, WalkStations(origin, edges)[i], WalkStations(origin, edges)[i + 1])
    {
      WalkStationsStep(g, origin, edges, i);
    }
  }
}
