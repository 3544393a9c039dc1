/**
 * Predecessor links as a shortest-path search leaves them: each station maps
 * to the station it was last reached from, or to nothing.  Following the links
 * back from a station gives its chain; reversing the chain gives the route.
 */
module Predecessors {
  import opened Graphs
  import opened Results

  type Links = map<Station, Option<Station>>

  /**
   * Every link goes to a station that has links of its own and a lower rank.
   * Links ranked this way contain no cycle, so every chain ends.
   */
  ghost predicate Ranked(previous: Links, rank: map<Station, nat>)
  {
    forall s :: s in previous && previous[s].Some? ==>
      s in rank && previous[s].value in previous && previous[s].value in rank && rank[previous[s].value] < rank[s]
  }

  /** The stations met when following the links back from `s`, starting with `s` itself. */
  ghost function Chain(previous: Links, rank: map<Station, nat>, s: Station): (chain: seq<Station>)
    requires Ranked(previous, rank) && s in previous
    ensures |chain| > 0 && chain[0] == s
    decreases if s in rank then rank[s] else 0
  {
    match previous[s]
    case None => [s]
    case Some(p) => [s] + Chain(previous, rank, p)
  }

  /** A chain starts at its station, follows one link per step and stops at a station without a link. */
  lemma {:induction false} ChainShape(previous: Links, rank: map<Station, nat>, s: Station)
    requires Ranked(previous, rank) && s in previous
    ensures |Chain(previous, rank, s)| > 0 && Chain(previous, rank, s)[0] == s
    ensures forall i :: 0 <= i < |Chain(previous, rank, s)| ==> Chain(previous, rank, s)[i] in previous
    ensures forall i :: 0 <= i < |Chain(previous, rank, s)| - 1 ==>
      previous[Chain(previous, rank, s)[i]] == Some(Chain(previous, rank, s)[i + 1])
    ensures previous[Chain(previous, rank, s)[|Chain(previous, rank, s)| - 1]] == None
    decreases if s in rank then rank[s] else 0
  {
    match previous[s]
    case None =>
    case Some(p) =>
      ChainShape(previous, rank, p);
      var rest := Chain(previous, rank, p);
      assert Chain(previous, rank, s) == [s] + rest;
      forall i | 0 <= i < |rest|
        ensures ([s] + rest)[i + 1] == rest[i]
      {
      }
  }

  /** The chain from `current`, or nothing when there is no station. */
  ghost function ChainFrom(previous: Links, rank: map<Station, nat>, current: Option<Station>): seq<Station>
    requires Ranked(previous, rank) && (current.Some? ==> current.value in previous)
  {
    match current
    case None => []
    case Some(s) => Chain(previous, rank, s)
  }

  /** Stepping from `s` to its link moves `s` from the chain still to follow onto the stations already met. */
  lemma ChainStep(previous: Links, rank: map<Station, nat>, met: seq<Station>, s: Station)
    requires Ranked(previous, rank) && s in previous
    ensures previous[s].Some? ==> previous[s].value in previous
    ensures met + Chain(previous, rank, s) == (met + [s]) + ChainFrom(previous, rank, previous[s])
  {
  }

  /** Each station of `path` after the first is linked to the one before it. */
  ghost predicate LinkedPath(previous: Links, path: seq<Station>)
  {
    forall i, j :: 0 <= i && j == i + 1 && j < |path| ==> path[j] in previous && previous[path[j]] == Some(path[i])
  }

  /** The reversed chain from `s` ends at `s`, starts at a station without a link, and follows the links forwards. */
  lemma ReversedChainLinked(previous: Links, rank: map<Station, nat>, s: Station)
    requires Ranked(previous, rank) && s in previous
    ensures var path := Reversed(Chain(previous, rank, s));
      |path| > 0 && path[|path| - 1] == s && path[0] in previous && previous[path[0]] == None &&
      LinkedPath(previous, path)
  {
    ChainShape(previous, rank, s);
    ReversedLinked(previous, Chain(previous, rank, s));
  }

  /** A sequence in which each station links to the next one, reversed, follows the links forwards. */
  lemma ReversedLinked(previous: Links, chain: seq<Station>)
    requires forall i :: 0 <= i < |chain| - 1 ==> chain[i] in previous && previous[chain[i]] == Some(chain[i + 1])
    ensures LinkedPath(previous, Reversed(chain))
  {
    var path := Reversed(chain);
    forall i, j | 0 <= i && j == i + 1 && j < |path|
      ensures path[j] in previous && previous[path[j]] == Some(path[i])
    {
      assert path[j] == chain[|chain| - 1 - j] && path[i] == chain[|chain| - 1 - j + 1];
    }
  }

  /** `xs` in the opposite order. */
  function Reversed<T>(xs: seq<T>): (r: seq<T>)
    ensures |r| == |xs|
    ensures forall i :: 0 <= i < |xs| ==> r[i] == xs[|xs| - 1 - i]
    decreases |xs|
  {
    if |xs| == 0 then [] else Reversed(xs[1..]) + [xs[0]]
  }
}
