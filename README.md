# Kochi Metro route optimizer, modelled in Dafny

This project models the core of the Kochi Metro route optimizer in `dijkstra.py`. It covers two parts:

- `KochiMetroNetwork` builds Line 1 (the Blue Line). It registers each station with its line and fare zone. It joins each pair of consecutive stations with one edge in each direction. Each edge carries a travel time, a distance and a fare taken from fixed lookup tables.
- `MetroRouteOptimizer` runs a lazy-deletion Dijkstra search from an origin. The search minimises a composite score: the weighted sum of fare/100, minutes/60 and stops/25. The optimizer then rebuilds each route from the predecessor links and reports, for every station other than the origin that the origin can reach, the route with its fare, time, stops and score.

Modules, in dependency order:

| file | module | contents |
|---|---|---|
| `results.dfy` | `Results` | `Option` and `Result` |
| `graph.dfy` | `Graphs` | stations, edge records, adjacency lists, and what connecting a line adds to a graph |
| `network.dfy` | `MetroNetwork` | the lookup tables, the zone function, and the `KochiMetroNetwork` class |
| `walks.dfy` | `Walks` | preference weights, the composite score, and walks with their totals |
| `frontier.dfy` | `Frontier` | the priority queue as a sequence of `(score, station)` entries |
| `predecessors.dfy` | `Predecessors` | predecessor links, chains and route reconstruction |
| `search.dfy` | `SearchState` | the search tables, their invariants, and one lemma per search step |
| `optimizer.dfy` | `RouteOptimizer` | the `MetroRouteOptimizer` class, and lemmas from the final tables to walks |

How the model represents the program's data and behaviour:

- The network is a class. `graph`, `stations` and `stationInfo` are fields, and its methods update them in place, as the program does.
- The search keeps its frontier, tables and visited set in local variables, as the program does. `inf` in a score table is represented by the station having no entry in that table.
- The main loop and the loop over a station's edges are `while` loops with invariants. The inner loop is `RelaxConnections`, called by `RelaxNeighbors`. Its body is `RelaxConnection`, which calls `UpdateNeighbor` for the comparison and the update.
- The loop over a station's edges is specified by the function `SearchState.RelaxEdges`, one `SearchState.RelaxEdge` per edge. The methods are proved equal to it. Lemmas about it state what the loop keeps and where it stops.
- The search can fail in two ways, both as a `Failure` result:
  - a `ValueError` for an unknown origin becomes `UnknownStation`;
  - a `KeyError` for an edge whose destination is not a station becomes `MissingStation`.
- Optimality needs non-negative weights and non-negative edge times and fares, so the model states it only under those conditions. The program itself does not check weights. The model carries a ghost flag that is true exactly in that case.

## Model

| member | source | states |
|---|---|---|
| Graphs.Outgoing | dijkstra.py:55 | The adjacency list of a station, read as the `defaultdict(list)` reads it: the stored list, or the empty list for a station without one. The same read serves the edge loop at line 162. |
| Graphs.WithConnection | dijkstra.py:55-60 | The graph after `append`: the list of `station1` extended by the new record. Its properties are stated by `Graphs.WithConnectionAppends`. |
| Graphs.WithSegment | dijkstra.py:49-50 | The two `add_connection` calls of one pair: an edge each way carrying the same attributes. |
| Graphs.WithLine | dijkstra.py:39-50 | The graph after the first `n` passes of the connecting loop. Its properties are stated by `Graphs.WithLineHasSegment` and `Graphs.WithLineOnlySegments`. |
| MetroNetwork.Line1Stations | dijkstra.py:21-27 | The 23 Line 1 stations, in line order, from Aluva to Thripunithura. |
| MetroNetwork.SegmentBetween | dijkstra.py:44-46 | The time, distance and fare the lookups give to a pair. |
| MetroNetwork.LineSegments | dijkstra.py:43-46 | One segment per consecutive pair of the line, so one fewer than the stations. Segment `i` is stated by `MetroNetwork.LineSegmentAt`. |
| MetroNetwork.Line1Graph | dijkstra.py:38-50 | The graph the connecting loop builds from an empty one over Line 1. Its properties are stated by `MetroNetwork.Line1Sound` and `MetroNetwork.Line1Connected`. |
| MetroNetwork.KochiMetroNetwork.constructor | dijkstra.py:8-15 | The new network holds exactly the Line 1 stations. Each station's info is the Blue Line and its zone. The graph is the Line 1 graph. Every edge leads to a known station and has non-negative time and fare. |
| MetroNetwork.KochiMetroNetwork.BuildNetwork | dijkstra.py:17-50 | Adds the Line 1 stations with their info, keeps other stations, and connects every consecutive pair in line order. |
| MetroNetwork.KochiMetroNetwork.AddStations | dijkstra.py:29-36 | The station set gains exactly the given stations. Each gets line "Blue Line" and its zone. Other info and the graph are unchanged. |
| MetroNetwork.KochiMetroNetwork.ConnectConsecutive | dijkstra.py:38-50 | After the loop, every consecutive pair of the line is connected with its segment's attributes. Stations and info are unchanged. |
| MetroNetwork.KochiMetroNetwork.ConnectNext | dijkstra.py:39-50 | One pass of the loop extends the line graph built so far by exactly the next segment. |
| MetroNetwork.KochiMetroNetwork.ConnectPair | dijkstra.py:40-50 | Computes the segment's time, distance and fare, then appends one edge each way carrying those same attributes. |
| MetroNetwork.KochiMetroNetwork.AddConnection | dijkstra.py:52-60 | Appends one edge record to the adjacency list of `station1`. The station set and station info are unchanged. |
| Graphs.WithConnectionAppends | dijkstra.py:52-60 | Appending grows the list of `station1` by exactly the new record, leaves every other list unchanged, and makes `station1` a key. |
| Graphs.WithLineHasSegment | dijkstra.py:39-50 | Each connected pair has both of its edges, with identical attributes. |
| Graphs.WithLineOnlySegments | dijkstra.py:38-50 | Starting from an empty graph, the only edges are those of the connected pairs. |
| Graphs.LineGraphSound | dijkstra.py:38-50 | Every edge of a line built from segments with non-negative time and fare joins two stations of the line and has non-negative time and fare. |
| MetroNetwork.GetZone | dijkstra.py:62-72 | Zone 3 exactly for the three northern and three southern end stations. Zone 1 exactly for the four central ones. Zone 2 exactly for all others. |
| MetroNetwork.SegmentLookup | dijkstra.py:87-90 | The table's value for the segment in the given orientation, else in the reverse one, else the default; the same lookup order serves distances at lines 104-107. |
| MetroNetwork.CalculateTravelTime | dijkstra.py:74-90 | A segment in neither orientation of the table takes 2.5 minutes. Every segment takes between 1.5 and 3.5 minutes. |
| MetroNetwork.CalculateDistance | dijkstra.py:92-107 | A segment in neither orientation of the table is 1.2 km. Every segment is between 0.8 and 2.1 km. |
| MetroNetwork.SpecialSegmentsApply | dijkstra.py:80-107 | A segment listed in either orientation takes its listed time and has its listed length. |
| MetroNetwork.TravelTimeSymmetric | dijkstra.py:87-90 | Travel time is the same in both directions. |
| MetroNetwork.DistanceSymmetric | dijkstra.py:104-107 | Distance is the same in both directions. |
| MetroNetwork.CalculateCost | dijkstra.py:109-112 | Every hop costs the flat fare of 5.0, which is positive. |
| MetroNetwork.LineSegmentAt | dijkstra.py:39-46 | Segment `i` carries the lookups for stations `i` and `i+1`. |
| MetroNetwork.LineSegmentsNonNegative | dijkstra.py:43-46 | Every segment of a line has non-negative time and fare. |
| MetroNetwork.Line1Sound | dijkstra.py:38-50 | Every Line 1 edge joins two Line 1 stations and has non-negative time and fare. |
| MetroNetwork.Line1Connected | dijkstra.py:38-50 | Each consecutive Line 1 pair is joined both ways by edges carrying the pair's looked-up attributes. |
| Walks.Composite | dijkstra.py:173-181 | The composite score of totals: cost weight times fare/100, plus time weight times minutes/60, plus stops weight times stops/25. |
| Walks.DefaultWeightsSound | dijkstra.py:118-127 | The default weights 0.3, 0.4 and 0.3 each lie between 0 and 1 and sum to 1. So the optimality results apply to a call that gives no weights. |
| Walks.CompositeStep | dijkstra.py:169-181 | Extending the totals by one edge adds exactly that edge's weight to the composite score, so the score is additive along a route. |
| Walks.EdgeWeightNonNegative | dijkstra.py:169-181 | With non-negative weights, an edge with non-negative fare and time never lowers the score. |
| Walks.WalkExtend | dijkstra.py:169-171 | Extending a walk by an edge from its end keeps it a walk. Its totals grow by the edge's fare, time and one stop, and its score by the edge's weight. |
| Walks.WalkStationsShape | dijkstra.py:199-213 | A walk visits one more station than it has edges, from the origin to its end. |
| Walks.WalkStationsAdjacent | dijkstra.py:162-163 | Consecutive stations of a walk are joined by an edge. |
| Frontier.MinIndex | dijkstra.py:154 | Gives the position of the first entry with the least score: no entry scores lower, and every entry before it scores strictly higher. |
| Frontier.RemoveAt | dijkstra.py:154 | The frontier without one entry: one shorter, every other entry kept, nothing added, and equal as a multiset to the old one minus that entry. |
| Frontier.PopMin | dijkstra.py:154 | Takes out one entry of least score. The rest of the frontier is exactly the old one minus that one entry, as multisets. |
| Predecessors.Chain | dijkstra.py:204-206 | The stations visited by following the predecessor links back from a station, starting with it, until a station with no link. It is never empty and starts at that station. |
| Predecessors.ChainShape | dijkstra.py:204-206 | Following the links from a station starts at it, takes one link per step, and stops at a station without a link. |
| Predecessors.ChainStep | dijkstra.py:204-206 | One loop pass moves the current station from the chain still to follow onto the path already collected. |
| Predecessors.ReversedChainLinked | dijkstra.py:208 | The reversed chain ends at the target, starts at a station without a link, and follows the links forwards. |
| Predecessors.ReversedLinked | dijkstra.py:208 | Reversing a sequence in which each station links to the next gives one that follows the links forwards. |
| Predecessors.Reversed | dijkstra.py:208 | `path.reverse()`: same length, with element `i` taken from position `n-1-i`. |
| SearchState.Candidate | dijkstra.py:169-181 | The score of reaching an edge's destination through the current station: the composite of the current totals plus the edge's fare, minutes and one stop. |
| SearchState.Improves | dijkstra.py:183 | The comparison `composite_distance < distances[neighbor]`, with an unreached neighbour (score `inf`) always improved. |
| SearchState.ImproveThrough | dijkstra.py:184-188 | The tables after the update: the neighbour's score, fare, minutes and stops set to the candidate totals and its predecessor set to the current station. |
| SearchState.Improve | dijkstra.py:184-188 | The five assignments of the update: score, fare, minutes, stops and predecessor of the neighbour. The other stations' entries are unchanged. |
| SearchState.Initial | dijkstra.py:136-147 | Only the origin is reached, with score, fare, time and stop count all zero. Every station has a predecessor entry, all of them `None`. |
| SearchState.InitialHolds | dijkstra.py:136-151 | The initial tables and the frontier `[(0, start)]` meet every loop invariant. |
| SearchState.PopCovers | dijkstra.py:153-159 | The popped station is reached. After the pop, every reached, unsettled station still has an entry with its current score, whether the pop is stale or not. |
| SearchState.SettleShrinks | dijkstra.py:156-159 | Settling a new station leaves fewer unsettled stations, so the main loop ends. |
| SearchState.SettleConsistent | dijkstra.py:159 | Marking the popped station visited keeps the tables consistent. |
| SearchState.PopRelaxing | dijkstra.py:153-159 | When the weights are sound, the popped unsettled station scores no more than any other unsettled station. |
| SearchState.SkipSettled | dijkstra.py:165-166 | Skipping an edge into a settled station loses nothing: that edge is already relaxed. |
| SearchState.HopScore | dijkstra.py:169-181 | The candidate score equals the current station's score plus the edge's weight. |
| SearchState.CandidateNotLower | dijkstra.py:169-181 | With non-negative weights and edges, no candidate scores below the station it extends. |
| SearchState.ThroughIs | dijkstra.py:169-188 | The totals computed step by step as the loop does are the candidate, and the update built from them is the improvement through that edge. |
| SearchState.KeepScore | dijkstra.py:183 | An edge whose candidate does not beat the recorded score is already relaxed. |
| SearchState.KeepStep | dijkstra.py:183 | Leaving the tables unchanged in that case keeps every invariant and relaxes the edge. |
| SearchState.ImproveConsistent | dijkstra.py:183-188 | Overwriting all four totals and the predecessor of an unsettled station, through a settled one, keeps the tables consistent. |
| SearchState.ImproveShape | dijkstra.py:183-187 | The update keeps the four tables aligned, the origin at zero, and each score the composite of its totals. |
| SearchState.ImproveLinks | dijkstra.py:188 | After the update, every predecessor link still stands for an edge out of a settled station, with matching totals. |
| SearchState.ImproveCovers | dijkstra.py:183-189 | The update, together with the pushed entry, keeps the frontier covering every reached, unsettled station. |
| SearchState.ImproveRelaxing | dijkstra.py:183-189 | The update relaxes the edge it came along and keeps every earlier edge relaxed. |
| SearchState.ImproveStep | dijkstra.py:183-189 | Improving through the `j`-th edge keeps all search invariants at `j+1` and raises no score. |
| SearchState.DistinctAppend | dijkstra.py:156-159 | Appending a station not yet listed keeps the list free of repeats. The settled-once fact this serves is stated by `DijkstraMultiCriteria`. |
| SearchState.RelaxEdge | dijkstra.py:162-189 | One pass of the edge loop: a settled destination is skipped unchanged, a destination that is not a station stops the loop (the `KeyError` of line 183), an improving edge applies `ImproveThrough` and pushes one entry with the candidate score, and any other edge changes nothing. |
| SearchState.RelaxEdges | dijkstra.py:162-189 | The edge loop over the first `n` edges: one `RelaxEdge` per edge, in list order, stopping for good at the first stop. The current station stays reached. |
| SearchState.RelaxEdgeKeeps | dijkstra.py:162-189 | One pass keeps every settled station's entries and every reached station, and raises no score. It stops exactly at an edge into a name neither settled nor a station, and then changes nothing. An edge into a settled station changes nothing. |
| SearchState.RelaxEdgesKeepsStep | dijkstra.py:162-189 | The `n`-th pass keeps every settled station's entries and raises no score. |
| SearchState.KeptChain | dijkstra.py:162-189 | Two passes that keep settled entries and raise no score do so together. |
| SearchState.RelaxEdgesKeeps | dijkstra.py:162-189 | The loop over any prefix of the edges keeps every settled station's entries and raises no score. |
| SearchState.FirstUnknown | dijkstra.py:162-183 | The destination of the first of the first `n` edges that is neither settled nor a station, where the loop raises `KeyError`, or none. |
| SearchState.FirstUnknownIsFirst | dijkstra.py:162-189 | `FirstUnknown` is the destination of the first edge into a name neither settled nor a station, or nothing when all edges lead to settled stations or stations. |
| SearchState.FirstUnknownEdge | dijkstra.py:162-189 | A name the loop stops at is not a station and is some edge's destination. |
| SearchState.RelaxEdgesMissingStep | dijkstra.py:162-189 | The `n`-th pass stops exactly when its edge leads to a name neither settled nor a station. |
| SearchState.RelaxEdgesMissing | dijkstra.py:162-189 | The loop stops exactly at `FirstUnknown`. |
| SearchState.RelaxEdgesStopped | dijkstra.py:162-189 | Once stopped, further edges change nothing. |
| SearchState.RelaxEdgesDone | dijkstra.py:162-189 | A loop that ran over every edge, or stopped, has the full-loop result. That result stops at `FirstUnknown`, keeps the settled entries and raises no score. |
| SearchState.RelaxEdgesStep | dijkstra.py:162-189 | Without an earlier stop, the `n`-th pass is `RelaxEdge` of the `n`-th edge, and the link record gains that edge exactly when it improves. |
| SearchState.RelaxEdgeRelaxation | dijkstra.py:162-189 | One pass that does not stop keeps every search invariant and relaxes its edge. |
| SearchState.RelaxEdgesPass | dijkstra.py:162-189 | The same for the `n`-th pass of the loop. |
| SearchState.RelaxEdgesRelaxation | dijkstra.py:162-189 | The loop over the first `n` edges, unless it stops, keeps every search invariant and relaxes those edges. |
| SearchState.RelaxEdgesFinish | dijkstra.py:162-189 | A full loop that does not stop leaves the tables consistent, the frontier covering, and every settled station relaxed. |
| SearchState.FinishRelaxing | dijkstra.py:162-189 | Once all edges of the current station are relaxed, every settled station is relaxed. |
| SearchState.SearchDone | dijkstra.py:153-197 | When the frontier is empty, the reached stations are exactly the settled ones. The tables are final, and no edge leaves the reached set. Under non-negativity the tables are optimal. |
| SearchState.WalkBound | dijkstra.py:153-189 | In settled, relaxed tables, every walk from the origin ends at a reached station whose recorded score is at most the walk's score. |
| SearchState.WalkReached | dijkstra.py:162-189 | In closed tables every walk from the origin ends at a reached station. |
| RouteOptimizer.MetroRouteOptimizer.constructor | dijkstra.py:115-116 | The optimizer holds the given network. |
| RouteOptimizer.MetroRouteOptimizer.DijkstraMultiCriteria | dijkstra.py:118-197 | An unknown origin fails with that station. A `MissingStation` failure names a non-station that is the destination of an edge out of a station reachable from the origin by a walk that enters only stations. On success every edge out of a reachable station leads to a station, so the search fails exactly when such an edge exists. On success the tables are final and closed, and every reached station is settled exactly once. Under non-negativity, every walk's score is at least its end's recorded score. |
| RouteOptimizer.MetroRouteOptimizer.RelaxNeighbors | dijkstra.py:162-189 | The new tables and frontier are exactly those of `RelaxEdges` over all edges of the current station. It stops at `FirstUnknown`, the first edge into a name neither settled nor a station. Settled stations keep their entries. Without a stop, the invariants hold, the current station is relaxed, and no score rises. |
| RouteOptimizer.MetroRouteOptimizer.RelaxConnections | dijkstra.py:162-189 | The loop over the current station's edges: its tables and frontier are exactly those of `RelaxEdges` over all of them. |
| RouteOptimizer.MetroRouteOptimizer.RelaxConnection | dijkstra.py:162-189 | The result is exactly `RelaxEdge` of the `j`-th edge. An edge into a settled station changes nothing. Settled stations keep their entries, and no score rises. |
| RouteOptimizer.MetroRouteOptimizer.UpdateNeighbor | dijkstra.py:168-189 | Overwrites all four totals and the predecessor, and pushes one entry, exactly when the candidate is strictly lower. Otherwise changes nothing. No score ever rises. |
| RouteOptimizer.MetroRouteOptimizer.GetPath | dijkstra.py:199-213 | Returns the reversed chain of links from `end` when it starts at `start`, else `[]`. A non-empty path runs from `start` to `end` along the links. |
| RouteOptimizer.MetroRouteOptimizer.FindOptimalRoutes | dijkstra.py:215-233 | Fails exactly as the search does: with an unknown origin, or with `MissingStation` naming the destination of an edge to a name that is not a station, out of a station reachable by a walk that enters only stations. On success every edge out of a reachable station leads to a station. On success, a station has a route iff it is not the origin and some walk reaches it. Each route is a real walk with matching totals and score. Under non-negativity, no walk scores lower. |
| RouteOptimizer.RouteShape | dijkstra.py:222-230 | A route runs from the origin to its station, lists one more station than it has stops, and each consecutive pair is joined by an edge. |
| RouteOptimizer.TablesRanked | dijkstra.py:171-188 | The stop counts rank the predecessor links, so following them always ends. |
| RouteOptimizer.ChainWalk | dijkstra.py:169-208 | Following the links back from a reached station retraces a walk from the origin. The walk's totals and score are the recorded ones, and its stations are the reversed chain. |
| RouteOptimizer.LinkExtends | dijkstra.py:183-188 | Extending that walk along the link's edge gives the same facts for the linked station. |
| RouteOptimizer.CurrentReachable | dijkstra.py:153-162 | During the search every reached station, in particular the one whose edges are being relaxed, is reachable from the origin by a walk that enters only stations. |
| RouteOptimizer.ChainWithin | dijkstra.py:153-208 | In final tables, following the links back from a reached station gives a walk from the origin all of whose stations are stations of the network. |
| RouteOptimizer.ChainInStations | dijkstra.py:204-206 | Every station on a chain of links is a station of the network. |
| RouteOptimizer.ReversedWithin | dijkstra.py:208 | Reversing a list of stations keeps all of its elements stations. |
| RouteOptimizer.WalkWithin | dijkstra.py:153-162 | A walk from the origin whose stations are all stations of the network shows its end reachable from the origin, and reachable through stations only. |
| RouteOptimizer.ReachableEdgesKnown | dijkstra.py:162-183 | In final, closed tables every edge out of a station reachable from the origin leads to a station, so none raises `KeyError`. |
| RouteOptimizer.ReachedIffWalk | dijkstra.py:223 | In final, closed tables, a station has a finite score iff some walk from the origin leads to it. |
| RouteOptimizer.RouteFromTables | dijkstra.py:224-230 | The route recorded for a reached station is realized by the walk behind its links. |

## Left out

- Floating point: scores, fares, times and distances are exact `real`s. The program's float rounding in the composite score is not modelled.
- FindOptimalRoutes: does not model the rounding at dijkstra.py:227-230 (fare and time to 2 places, score to 4), because that is float formatting. The route totals are unrounded, so `compositeScore` equals the search's score exactly.
- Frontier.PopMin: `heapq` breaks ties between equal scores by comparing station names. The model takes the first entry of least score. With non-negative weights the scores cannot differ; only which of several equal-scoring routes is reported can. With negative weights the settling order, and so the scores, can differ. On a network with edges to names that are not stations, which missing station is reported can also differ, since the settling order decides which such edge is met first.
- DijkstraMultiCriteria: optimality is stated only for non-negative weights and non-negative edge times and fares. With negative weights the program's lazy deletion is not a shortest-path algorithm, and the model claims only the table invariants.
- DijkstraMultiCriteria: the three weights are passed as one `Weights` value. The program's defaults (0.3, 0.4, 0.3) are the constant `Walks.DefaultWeights`. The model has no default arguments, so no operation uses it. Only `Walks.DefaultWeightsSound` states a fact about it.
- Reading `self.network.graph[current_station]` on the `defaultdict` inserts an empty list for a station with no edges. `Graphs.Outgoing` reads an absent key as the empty list without inserting it. This changes no result.
- GetPath: requires `end` to have a predecessor entry. The program raises `KeyError` otherwise. Its only caller passes stations, and every station has an entry.
- GetPath: requires a ghost ranking under which links form no cycle. On cyclic links the program loops forever. The search passes its stop counts, which are such a ranking (`RouteOptimizer.TablesRanked`).
- `add_connection` does not add its endpoints to the station set (dijkstra.py:52-60). The model follows the code. A description of the network as keeping every edge's endpoints in the station set holds only for the Line 1 network the constructor builds (`MetroNetwork.KochiMetroNetwork.constructor`).
- `MetroUI`, `metro_gui.py` and `app.py` are not part of this model. They are the console, desktop and web interfaces: input, output and presentation.
- The imports of `json`, `math` and `deque` are unused by the core and have no counterpart.
