/**
 * The Kochi Metro network: the constant lookup tables for travel time,
 * distance, fare and zone, and the class that builds Line 1 (the Blue Line).
 */
module MetroNetwork {
  import opened Graphs

  /** The stations of Line 1, in line order. */
  const Line1Stations: seq<Station> := [
    "Aluva", "Pulinchodu", "Companypady", "Ambattukavu", "Muttom",
    "Kalamassery", "Cusat", "Pathadipalam", "Edapally", "Changampuzha Park",
    "Palarivattom", "J.L.N Stadium", "Kaloor", "Lissie", "M.G Road",
    "Maharajas", "Ernakulam South", "Kadavanthra", "Elamkulam",
    "Vyttila", "Thaikoodam", "Petta", "Thripunithura"
  ]

  const BlueLine: string := "Blue Line"

  // ---------------------------------------------------------------------------
  // Constant lookups

  const BaseTime: real := 2.5
  const BaseDistance: real := 1.2
  const HopFare: real := 5.0

  /** Segments whose travel time (minutes) differs from the base time. */
  const SpecialSegments: map<(Station, Station), real> := map[
    ("Aluva", "Pulinchodu") := 3.0,
    ("Edapally", "Changampuzha Park") := 2.0,
    ("M.G Road", "Maharajas") := 1.5,
    ("Vyttila", "Thaikoodam") := 3.5
  ]

  /** Segments whose length (km) differs from the base distance. */
  const SpecialDistances: map<(Station, Station), real> := map[
    ("Aluva", "Pulinchodu") := 1.8,
    ("Vyttila", "Thaikoodam") := 2.1,
    ("M.G Road", "Maharajas") := 0.8
  ]

  /** Looks a segment up in `table` under either orientation, falling back to `base`. */
  function SegmentLookup(table: map<(Station, Station), real>, a: Station, b: Station, base: real): real
  {
    if (a, b) in table then table[(a, b)]
    else if (b, a) in table then table[(b, a)]
    else base
  }

  /** Minutes between adjacent stations: the special value of the segment in either orientation, else 2.5. */
  function CalculateTravelTime(a: Station, b: Station): (t: real)
    ensures (a, b) !in SpecialSegments && (b, a) !in SpecialSegments ==> t == BaseTime
    ensures 1.5 <= t <= 3.5
  {
    SegmentLookup(SpecialSegments, a, b, BaseTime)
  }

  /** Kilometres between adjacent stations: the special value in either orientation, else 1.2. */
  function CalculateDistance(a: Station, b: Station): (d: real)
    ensures (a, b) !in SpecialDistances && (b, a) !in SpecialDistances ==> d == BaseDistance
    ensures 0.8 <= d <= 2.1
  {
    SegmentLookup(SpecialDistances, a, b, BaseDistance)
  }

  /** The fare of one hop, the same for every pair of stations. */
  function CalculateCost(a: Station, b: Station): (c: real)
    ensures c == HopFare && c > 0.0
  {
    HopFare
  }

  const OuterNorth: seq<Station> := ["Aluva", "Pulinchodu", "Companypady"]
  const OuterSouth: seq<Station> := ["Thripunithura", "Petta", "Thaikoodam"]
  const Central: seq<Station> := ["M.G Road", "Maharajas", "Ernakulam South", "Lissie"]

  /** The fare zone of a station: the two ends are zone 3, the city centre zone 1, the rest zone 2. */
  function GetZone(station: Station): (z: string)
    ensures z == "Zone 3" <==> station in OuterNorth || station in OuterSouth
    ensures z == "Zone 1" <==> station in Central
    ensures z == "Zone 2" <==> !(station in OuterNorth || station in OuterSouth || station in Central)
  {
    if station in OuterNorth then "Zone 3"
    else if station in OuterSouth then "Zone 3"
    else if station in Central then "Zone 1"
    else "Zone 2"
  }

  /** A segment listed in either orientation takes its listed time and has its listed length. */
  lemma SpecialSegmentsApply(a: Station, b: Station)
    ensures (a, b) in SpecialSegments ==> CalculateTravelTime(a, b) == SpecialSegments[(a, b)]
    ensures (b, a) in SpecialSegments ==> CalculateTravelTime(a, b) == SpecialSegments[(b, a)]
    ensures (a, b) in SpecialDistances ==> CalculateDistance(a, b) == SpecialDistances[(a, b)]
    ensures (b, a) in SpecialDistances ==> CalculateDistance(a, b) == SpecialDistances[(b, a)]
  {
  }

  /** A segment takes as long in one direction as in the other. */
  lemma TravelTimeSymmetric(a: Station, b: Station)
    ensures CalculateTravelTime(a, b) == CalculateTravelTime(b, a)
  {
  }

  /** A segment is as long in one direction as in the other. */
  lemma DistanceSymmetric(a: Station, b: Station)
    ensures CalculateDistance(a, b) == CalculateDistance(b, a)
  {
  }

  // ---------------------------------------------------------------------------
  // The segments of a line

  /** The attributes the lookups give to the segment between `a` and `b`. */
  function SegmentBetween(a: Station, b: Station): Segment
  {
    Segment(CalculateTravelTime(a, b), CalculateDistance(a, b), CalculateCost(a, b))
  }

  /** The segment attributes of each consecutive pair of `line`. */
  function LineSegments(line: seq<Station>): (segs: seq<Segment>)
    requires |line| > 0
    ensures |segs| == |line| - 1
  {
    seq(|line| - 1, i requires 0 <= i < |line| - 1 => SegmentBetween(line[i], line[i + 1]))
  }

  /** Segment `i` of a line joins its `i`-th and `i+1`-th stations. */
  lemma LineSegmentAt(line: seq<Station>, i: nat)
    requires i < |line| - 1
    ensures LineSegments(line)[i] == SegmentBetween(line[i], line[i + 1])
  {
  }

  /** Every segment of a line has a non-negative travel time and fare. */
  lemma LineSegmentsNonNegative(line: seq<Station>)
    requires |line| > 0
    ensures forall i :: 0 <= i < |LineSegments(line)| ==> LineSegments(line)[i].travelTime >= 0.0 && LineSegments(line)[i].cost >= 0.0
  {
    forall i | 0 <= i < |LineSegments(line)|
      ensures LineSegments(line)[i].travelTime >= 0.0 && LineSegments(line)[i].cost >= 0.0
    {
      LineSegmentAt(line, i);
    }
  }

  /** The graph of Line 1, as the network builds it. */
  function Line1Graph(): Graph
  {
    WithLine(map[], Line1Stations, LineSegments(Line1Stations), |Line1Stations| - 1)
  }

  /** Every edge of Line 1 joins two Line 1 stations and has a non-negative time and fare. */
  lemma Line1Sound()
    ensures EdgesWithin(Line1Graph(), Line1Stations) && NonNegativeEdges(Line1Graph())
  {
    LineSegmentsNonNegative(Line1Stations);
    LineGraphSound(Line1Stations, LineSegments(Line1Stations));
  }

  /**
   * Each consecutive pair of Line 1 is joined both ways, the two edges carrying
   * the same travel time, distance and fare: those the lookups give the pair.
   */
  lemma Line1Connected(i: nat)
    requires i < |Line1Stations| - 1
    ensures var seg := SegmentBetween(Line1Stations[i], Line1Stations[i + 1]);
      Hop(Line1Stations[i + 1], seg) in Outgoing(Line1Graph(), Line1Stations[i]) &&
      Hop(Line1Stations[i], seg) in Outgoing(Line1Graph(), Line1Stations[i + 1])
  {
    WithLineHasSegment(map[], Line1Stations, LineSegments(Line1Stations), |Line1Stations| - 1, i);
    LineSegmentAt(Line1Stations, i);
  }

  // ---------------------------------------------------------------------------
  // The network object

  class KochiMetroNetwork {
    var graph: Graph
    var stations: set<Station>
    var stationInfo: map<Station, StationInfo>

    /** A network holding exactly Line 1. */
    constructor ()
      ensures forall s :: s in stations <==> s in Line1Stations
      ensures forall s :: s in stationInfo <==> s in Line1Stations
      ensures forall s :: s in stationInfo ==> stationInfo[s] == StationInfo(BlueLine, GetZone(s))
      ensures graph == Line1Graph()
      ensures DestinationsKnown(graph, stations) && NonNegativeEdges(graph)
    {
      graph := map[];
      stations := {};
      stationInfo := map[];
      new;
      BuildNetwork();
      Line1Sound();
      WithinKnown(graph, Line1Stations, stations);
    }

    /** Appends one edge record to the adjacency list of `station1`; the station set is left alone. */
    method AddConnection(station1: Station, station2: Station, travelTime: real, distance: real, cost: real)
      modifies this
      ensures graph == WithConnection(old(graph), station1, Connection(station2, travelTime, distance, cost))
      ensures stations == old(stations) && stationInfo == old(stationInfo)
    {
      graph := graph[station1 := Outgoing(graph, station1) + [Connection(station2, travelTime, distance, cost)]];
    }

    /** Registers the Line 1 stations, then connects each consecutive pair in both directions. */
    method BuildNetwork()
      modifies this
      ensures forall s :: s in stations <==> s in old(stations) || s in Line1Stations
      ensures forall s :: s in stationInfo <==> s in old(stationInfo) || s in Line1Stations
      ensures forall s :: s in stationInfo ==>
        stationInfo[s] == if s in Line1Stations then StationInfo(BlueLine, GetZone(s)) else old(stationInfo)[s]
      ensures graph == WithLine(old(graph), Line1Stations, LineSegments(Line1Stations), |Line1Stations| - 1)
    {
      var line1Stations := Line1Stations;
      AddStations(line1Stations);
      ConnectConsecutive(line1Stations);
    }

    /** Adds each station of `line` to the station set and records its line and zone. */
    method AddStations(line: seq<Station>)
      modifies this
      ensures forall s :: s in stations <==> s in old(stations) || s in line
      ensures forall s :: s in stationInfo <==> s in old(stationInfo) || s in line
      ensures forall s :: s in stationInfo ==>
        stationInfo[s] == if s in line then StationInfo(BlueLine, GetZone(s)) else old(stationInfo)[s]
      ensures graph == old(graph)
    {
      for i := 0 to |line|
        invariant forall s :: s in stations <==> s in old(stations) || s in line[..i]
        invariant forall s :: s in stationInfo <==> s in old(stationInfo) || s in line[..i]
        invariant forall s :: s in stationInfo ==>
          stationInfo[s] == if s in line[..i] then StationInfo(BlueLine, GetZone(s)) else old(stationInfo)[s]
        invariant graph == old(graph)
      {
        assert line[..i + 1] == line[..i] + [line[i]];
        stations := stations + {line[i]};
        stationInfo := stationInfo[line[i] := StationInfo(BlueLine, GetZone(line[i]))];
      }
      assert line[..|line|] == line;
    }

    /** Adds, for each consecutive pair of `line`, an edge each way with the attributes of that segment. */
    method ConnectConsecutive(line: seq<Station>)
      requires |line| > 0
      modifies this
      ensures graph == WithLine(old(graph), line, LineSegments(line), |line| - 1)
      ensures stations == old(stations) && stationInfo == old(stationInfo)
    {
      var i := 0;
      while i < |line| - 1
        invariant 0 <= i <= |line| - 1
        invariant graph == WithLine(old(graph), line, LineSegments(line), i)
        invariant stations == old(stations) && stationInfo == old(stationInfo)
      {
        ConnectNext(old(graph), line, i);
        i := i + 1;
      }
    }

    /** One pass of the line loop: connects pair `i` of `line`, extending the line graph built so far by one segment. */
    method ConnectNext(ghost start: Graph, line: seq<Station>, i: nat)
      requires i < |line| - 1
      requires graph == WithLine(start, line, LineSegments(line), i)
      modifies this
      ensures graph == WithLine(start, line, LineSegments(line), i + 1)
      ensures stations == old(stations) && stationInfo == old(stationInfo)
    {
      LineSegmentAt(line, i);
      ConnectPair(line[i], line[i + 1]);
    }

    /** One step of the line loop: looks up the segment's attributes and connects the pair both ways. */
    method ConnectPair(station1: Station, station2: Station)
      modifies this
      ensures graph == WithSegment(old(graph), station1, station2, SegmentBetween(station1, station2))
      ensures stations == old(stations) && stationInfo == old(stationInfo)
    {
      var travelTime := CalculateTravelTime(station1, station2);
      var distance := CalculateDistance(station1, station2);
      var cost := CalculateCost(station1, station2);
      AddConnection(station1, station2, travelTime, distance, cost);
      AddConnection(station2, station1, travelTime, distance, cost);
    }
  }
}
