/**
 * The search frontier: a pool of (score, station) entries from which the
 * entry of least score is taken next.  Entries are never updated in place; a
 * station whose score improves gets a fresh entry and its old ones go stale.
 */
module Frontier {
  import opened Graphs

  datatype Entry = Entry(score: real, station: Station)

  /** Position of the first entry of least score. */
  function MinIndex(pq: seq<Entry>): (i: nat)
    requires |pq| > 0
    ensures i < |pq|
    ensures forall j :: 0 <= j < |pq| ==> pq[i].score <= pq[j].score
    ensures forall j :: 0 <= j < i ==> pq[j].score > pq[i].score
    decreases |pq|
  {
    if |pq| == 1 then 0
    else
      var k := MinIndex(pq[1..]);
      if pq[0].score <= pq[k + 1].score then 0 else k + 1
  }

  /** `pq` without its entry at position `i`. */
  function RemoveAt(pq: seq<Entry>, i: nat): (rest: seq<Entry>)
    requires i < |pq|
    ensures |rest| == |pq| - 1
    ensures forall x :: x in rest ==> x in pq
    ensures forall j :: 0 <= j < |pq| && j != i ==> pq[j] in rest
    ensures multiset(rest) == multiset(pq) - multiset{pq[i]}
  {
    assert pq == pq[..i] + [pq[i]] + pq[i + 1..];
    assert forall j :: 0 <= j < i ==> pq[j] == (pq[..i] + pq[i + 1..])[j];
    assert forall j :: i < j < |pq| ==> pq[j] == (pq[..i] + pq[i + 1..])[j - 1];
    pq[..i] + pq[i + 1..]
  }

  /** Takes an entry of least score out of a non-empty frontier. */
  function PopMin(pq: seq<Entry>): (r: (Entry, seq<Entry>))
    requires |pq| > 0
    ensures r.0 in pq
    ensures forall x :: x in pq ==> r.0.score <= x.score
    ensures |r.1| == |pq| - 1
    ensures forall x :: x in r.1 ==> x in pq
    ensures forall x :: x in pq && x != r.0 ==> x in r.1
    ensures multiset(r.1) == multiset(pq) - multiset{r.0}
  {
    var i := MinIndex(pq);
    (pq[i], RemoveAt(pq, i))
  }
}
