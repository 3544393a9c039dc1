/**
 * Directed graphs of stations with per-edge attribute records, as the metro
 * network stores them: one adjacency list per station, appended to in place.
 */
module Graphs {

  type Station = string

  /** One directed edge record of an adjacency list. */
  datatype Connection = Connection(destination: Station, travelTime: real, distance: real, cost: real)

  /** What the network stores about a station besides its name. */
  datatype StationInfo = StationInfo(line: string, zone: string)

  /** Adjacency lists, one per station that has outgoing edges. */
  type Graph = map<Station, seq<Connection>>

  /** The adjacency list of `s`; a station without an entry has none (a `defaultdict(list)`). */
  function Outgoing(g: Graph, s: Station): seq<Connection>
  {
    if s in g then g[s] else []
  }

  /** `g` after appending edge `e` to the adjacency list of `from`. */
  function WithConnection(g: Graph, from: Station, e: Connection): Graph
  {
    g[from := Outgoing(g, from) + [e]]
  }

  /** Appending grows the list of `from` by exactly `e`, registers `from` as a key, and changes no other list. */
  lemma WithConnectionAppends(g: Graph, from: Station, e: Connection)
    ensures Outgoing(WithConnection(g, from, e), from) == Outgoing(g, from) + [e]
    ensures forall s :: s != from ==> Outgoing(WithConnection(g, from, e), s) == Outgoing(g, s)
    ensures WithConnection(g, from, e).Keys == g.Keys + {from}
  {
  }

  lemma ConnectionKeeps(g: Graph, from: Station, e0: Connection, s: Station, e: Connection)
    requires e in Outgoing(g, s)
    ensures e in Outgoing(WithConnection(g, from, e0), s)
  {
    if s == from {
      assert Outgoing(WithConnection(g, from, e0), s) == Outgoing(g, s) + [e0];
    }
  }

  lemma ConnectionOnly(g: Graph, from: Station, e0: Connection, s: Station, e: Connection)
    requires e in Outgoing(WithConnection(g, from, e0), s)
    ensures e in Outgoing(g, s) || (s == from && e == e0)
  {
    if s == from {
      assert Outgoing(WithConnection(g, from, e0), s) == Outgoing(g, s) + [e0];
    }
  }

  lemma ConnectionAdds(g: Graph, from: Station, e0: Connection)
    ensures e0 in Outgoing(WithConnection(g, from, e0), from)
  {
  }

  /** Every edge of `g` leads to a member of `stations`. */
  ghost predicate DestinationsKnown(g: Graph, stations: set<Station>)
  {
    forall s, e :: e in Outgoing(g, s) ==> e.destination in stations
  }

  /** Every edge of `g` has a non-negative travel time and fare. */
  ghost predicate NonNegativeEdges(g: Graph)
  {
    forall s, e :: e in Outgoing(g, s) ==> e.travelTime >= 0.0 && e.cost >= 0.0
  }

  // ---------------------------------------------------------------------------
  // What connecting a line of stations adds to a graph

  /** The attributes shared by the two edges of one segment. */
  datatype Segment = Segment(travelTime: real, distance: real, cost: real)

  /** The edge record for travelling to `b` along a segment with attributes `seg`. */
  function Hop(b: Station, seg: Segment): Connection
  {
    Connection(b, seg.travelTime, seg.distance, seg.cost)
  }

  /** `g` with an edge a -> b and then an edge b -> a, both carrying the attributes `seg`. */
  function WithSegment(g: Graph, a: Station, b: Station, seg: Segment): Graph
  {
    WithConnection(WithConnection(g, a, Hop(b, seg)), b, Hop(a, seg))
  }

  /** `g` after connecting the first `n` consecutive pairs of `line`, pair i with attributes `segs[i]`. */
  function WithLine(g: Graph, line: seq<Station>, segs: seq<Segment>, n: nat): Graph
    requires n < |line| && n <= |segs|
  {
    if n == 0 then g else WithSegment(WithLine(g, line, segs, n - 1), line[n - 1], line[n], segs[n - 1])
  }

  /** Connecting one segment keeps every edge already present. */
  lemma WithSegmentKeeps(g: Graph, a: Station, b: Station, seg: Segment, s: Station, e: Connection)
    requires e in Outgoing(g, s)
    ensures e in Outgoing(WithSegment(g, a, b, seg), s)
  {
    ConnectionKeeps(g, a, Hop(b, seg), s, e);
    ConnectionKeeps(WithConnection(g, a, Hop(b, seg)), b, Hop(a, seg), s, e);
  }

  /** Connecting one segment adds its edge in each direction. */
  lemma WithSegmentAdds(g: Graph, a: Station, b: Station, seg: Segment)
    ensures Hop(b, seg) in Outgoing(WithSegment(g, a, b, seg), a)
    ensures Hop(a, seg) in Outgoing(WithSegment(g, a, b, seg), b)
  {
    var g1 := WithConnection(g, a, Hop(b, seg));
    ConnectionAdds(g, a, Hop(b, seg));
    ConnectionKeeps(g1, b, Hop(a, seg), a, Hop(b, seg));
    ConnectionAdds(g1, b, Hop(a, seg));
  }

  /** Connecting one segment adds nothing but its two edges. */
  lemma WithSegmentOnly(g: Graph, a: Station, b: Station, seg: Segment, s: Station, e: Connection)
    requires e in Outgoing(WithSegment(g, a, b, seg), s)
    ensures e in Outgoing(g, s) || (s == a && e == Hop(b, seg)) || (s == b && e == Hop(a, seg))
  {
    var g1 := WithConnection(g, a, Hop(b, seg));
    ConnectionOnly(g1, b, Hop(a, seg), s, e);
    if e in Outgoing(g1, s) {
      ConnectionOnly(g, a, Hop(b, seg), s, e);
    }
  }

  /** Connecting pairs never removes an edge. */
  lemma {:induction false} WithLineKeeps(g: Graph, line: seq<Station>, segs: seq<Segment>, n: nat, s: Station, e: Connection)
    requires n < |line| && n <= |segs|
    requires e in Outgoing(g, s)
    ensures e in Outgoing(WithLine(g, line, segs, n), s)
  {
    if n > 0 {
      WithLineKeeps(g, line, segs, n - 1, s, e);
      WithSegmentKeeps(WithLine(g, line, segs, n - 1), line[n - 1], line[n], segs[n - 1], s, e);
    }
  }

  /** Every connected pair gets both of its edges, with identical attributes. */
  lemma {:induction false} WithLineHasSegment(g: Graph, line: seq<Station>, segs: seq<Segment>, n: nat, i: nat)
    requires n < |line| && n <= |segs|
    requires i < n
    ensures Hop(line[i + 1], segs[i]) in Outgoing(WithLine(g, line, segs, n), line[i])
    ensures Hop(line[i], segs[i]) in Outgoing(WithLine(g, line, segs, n), line[i + 1])
  {
    var g0 := WithLine(g, line, segs, n - 1);
    assert WithLine(g, line, segs, n) == WithSegment(g0, line[n - 1], line[n], segs[n - 1]);
    if i < n - 1 {
      WithLineHasSegment(g, line, segs, n - 1, i);
      WithSegmentKeeps(g0, line[n - 1], line[n], segs[n - 1], line[i], Hop(line[i + 1], segs[i]));
      WithSegmentKeeps(g0, line[n - 1], line[n], segs[n - 1], line[i + 1], Hop(line[i], segs[i]));
    } else {
      WithSegmentAdds(g0, line[i], line[i + 1], segs[i]);
    }
  }

  /** Starting from no edges, the only edges are those of the connected pairs. */
  lemma {:induction false} WithLineOnlySegments(line: seq<Station>, segs: seq<Segment>, n: nat, s: Station, e: Connection)
    requires n < |line| && n <= |segs|
    requires e in Outgoing(WithLine(map[], line, segs, n), s)
    ensures exists i :: 0 <= i < n && ((s == line[i] && e == Hop(line[i + 1], segs[i])) || (s == line[i + 1] && e == Hop(line[i], segs[i])))
  {
    if n > 0 {
      var g0 := WithLine(map[], line, segs, n - 1);
      WithSegmentOnly(g0, line[n - 1], line[n], segs[n - 1], s, e);
      if e in Outgoing(g0, s) {
        WithLineOnlySegments(line, segs, n - 1, s, e);
      }
    }
  }

  /** Every edge of `g` leaves and enters a station of `line`. */
  ghost predicate EdgesWithin(g: Graph, line: seq<Station>)
  {
    forall s, e :: e in Outgoing(g, s) ==> s in line && e.destination in line
  }

  /** Every edge of a line built from segments with non-negative time and fare joins two stations of the line. */
  lemma LineGraphSound(line: seq<Station>, segs: seq<Segment>)
    requires |line| > 0 && |segs| == |line| - 1
    requires forall i :: 0 <= i < |segs| ==> segs[i].travelTime >= 0.0 && segs[i].cost >= 0.0
    ensures EdgesWithin(WithLine(map[], line, segs, |line| - 1), line)
    ensures NonNegativeEdges(WithLine(map[], line, segs, |line| - 1))
  {
    var g := WithLine(map[], line, segs, |line| - 1);
    forall s, e | e in Outgoing(g, s)
      ensures s in line && e.destination in line && e.travelTime >= 0.0 && e.cost >= 0.0
    {
      LineEdgeSound(line, segs, s, e);
    }
  }

  /** One edge of a built line: it joins two stations of the line and carries a segment's attributes. */
  lemma LineEdgeSound(line: seq<Station>, segs: seq<Segment>, s: Station, e: Connection)
    requires |line| > 0 && |segs| == |line| - 1
    requires forall i :: 0 <= i < |segs| ==> segs[i].travelTime >= 0.0 && segs[i].cost >= 0.0
    requires e in Outgoing(WithLine(map[], line, segs, |line| - 1), s)
    ensures s in line && e.destination in line && e.travelTime >= 0.0 && e.cost >= 0.0
  {
    WithLineOnlySegments(line, segs, |line| - 1, s, e);
    var i :| 0 <= i < |line| - 1 && ((s == line[i] && e == Hop(line[i + 1], segs[i])) || (s == line[i + 1] && e == Hop(line[i], segs[i])));
    assert line[i] in line && line[i + 1] in line;
    assert segs[i].travelTime >= 0.0 && segs[i].cost >= 0.0;
  }

  /** A graph whose edges stay within `line` only reaches stations of `stations` when the two agree. */
  lemma WithinKnown(g: Graph, line: seq<Station>, stations: set<Station>)
    requires EdgesWithin(g, line)
    requires forall s :: s in stations <==> s in line
    ensures DestinationsKnown(g, stations)
  {
  }
}
