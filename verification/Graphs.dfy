/** Finite directed graphs as adjacency maps, with paths and reachability. */
module Graphs {

  type Graph<V> = map<V, set<V>>

  /** `graph.get(v, ())`: a vertex without an entry has no successors. */
  function Succ<V>(g: Graph<V>, v: V): set<V> {
    if v in g then g[v] else {}
  }

  /** The graph has an edge from u to v. */
  predicate Arc<V(==)>(g: Graph<V>, u: V, v: V) {
    u in g && v in g[u]
  }

  /** The keys of the graph together with everything they point at. */
  function Vertices<V>(g: Graph<V>): set<V> {
    g.Keys + set u, w | u in g.Keys && w in g[u] :: w
  }

  ghost predicate IsPath<V>(g: Graph<V>, x: V, p: seq<V>, y: V) {
    && |p| > 0 && p[0] == x && p[|p| - 1] == y
    && forall i, j :: 0 <= i && j == i + 1 < |p| ==> Arc(g, p[i], p[j])
  }

  ghost predicate Reach<V(!new)>(g: Graph<V>, x: V, y: V) {
    exists p :: IsPath(g, x, p, y)
  }

  /** A cycle is a path of at least one edge back to its start. */
  ghost predicate IsCycle<V>(g: Graph<V>, p: seq<V>) {
    |p| >= 2 && IsPath(g, p[0], p, p[0])
  }

  lemma ReachSelf<V(!new)>(g: Graph<V>, x: V)
    ensures Reach(g, x, x)
  {
    assert IsPath(g, x, [x], x);
  }

  lemma ReachEdge<V(!new)>(g: Graph<V>, x: V, y: V)
    requires y in Succ(g, x)
    ensures Reach(g, x, y)
  {
    assert IsPath(g, x, [x, y], y);
  }

  lemma JoinPaths<V>(g: Graph<V>, x: V, p: seq<V>, y: V, q: seq<V>, z: V)
    requires IsPath(g, x, p, y) && IsPath(g, y, q, z)
    ensures IsPath(g, x, p + q[1..], z)
  {
  }

  lemma ReachTrans<V(!new)>(g: Graph<V>, x: V, y: V, z: V)
    requires Reach(g, x, y) && Reach(g, y, z)
    ensures Reach(g, x, z)
  {
    var p :| IsPath(g, x, p, y);
    var q :| IsPath(g, y, q, z);
    JoinPaths(g, x, p, y, q, z);
  }

  /** A set closed under successors keeps every path that starts in it. */
  lemma {:induction false} ClosedKeepsPath<V>(g: Graph<V>, s: set<V>, x: V, p: seq<V>, y: V)
    requires forall u :: u in s ==> Succ(g, u) <= s
    requires x in s && IsPath(g, x, p, y)
    ensures y in s
    decreases |p|
  {
    if |p| > 1 {
      ClosedKeepsPath(g, s, p[1], p[1..], y);
    }
  }

  lemma ClosedKeepsReach<V(!new)>(g: Graph<V>, s: set<V>, x: V, y: V)
    requires forall u :: u in s ==> Succ(g, u) <= s
    requires x in s && Reach(g, x, y)
    ensures y in s
  {
    var p :| IsPath(g, x, p, y);
    ClosedKeepsPath(g, s, x, p, y);
  }
}
