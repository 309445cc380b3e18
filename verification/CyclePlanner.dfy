/**
 The cycle report of scripts/analyze_root_crate.py: strongly connected components
 of the module graph, and for one of them the edges to cut.
 */
module CyclePlanner {
  import opened Graphs
  import opened Tarjan
  import opened Eades

  /** The weighted edges inside one component; an unrecorded reference counts once. */
  function Within<V(==)>(graph: Graph<V>, refs: Edges<V>, comp: seq<V>): Edges<V> {
    map n | n in comp ::
      map d | d in Succ(graph, n) && d in comp && d != n :: if Edge(refs, n, d) then refs[n][d] else 1
  }

  lemma WithinWellFormed<V>(graph: Graph<V>, refs: Edges<V>, done: seq<seq<V>>, k: nat)
    requires Partition(graph, done) && k < |done|
    ensures WellFormed(done[k], Within(graph, refs, done[k]))
  {
  }

  /** A path that leaves and comes back stays in one component. */
  lemma RoundTripStays<V(!new)>(graph: Graph<V>, done: seq<seq<V>>, k: nat, p: seq<V>, i: nat)
    requires Partition(graph, done) && ComponentsAreMaximal(graph, done) && k < |done| && i < |p|
    requires |p| > 0 && p[0] in done[k] && IsPath(graph, p[0], p, p[0])
    ensures p[i] in done[k]
  {
    var out, back := p[..i + 1], p[i..];
    assert IsPath(graph, p[0], out, p[i]);
    assert IsPath(graph, p[i], back, p[0]);
    assert Reach(graph, p[0], p[i]) && Reach(graph, p[i], p[0]);
    InVertices(graph, p, i);
    var l :| 0 <= l < |done| && p[i] in done[l];
  }

  lemma {:induction false} InVertices<V(!new)>(graph: Graph<V>, p: seq<V>, i: nat)
    requires i < |p| && p[0] in Vertices(graph) && IsPath(graph, p[0], p, p[|p| - 1])
    ensures p[i] in Vertices(graph)
  {
    if i > 0 {
      assert Arc(graph, p[i - 1], p[i]);
    }
  }

  /** So a component of two or more modules does contain a cycle. */
  lemma ComponentHasCycle<V(!new)>(graph: Graph<V>, done: seq<seq<V>>, k: nat)
    requires Partition(graph, done) && ComponentsAreMaximal(graph, done)
    requires k < |done| && |done[k]| > 1
    ensures exists c :: IsCycle(graph, c) && forall x :: x in c ==> x in done[k]
  {
    var x, y := done[k][0], done[k][1];
    assert Reach(graph, x, y) && Reach(graph, y, x);
    var p :| IsPath(graph, x, p, y);
    var q :| IsPath(graph, y, q, x);
    var r := p + q[1..];
    JoinPaths(graph, x, p, y, q, x);
    forall z | z in r ensures z in done[k] {
      var i :| 0 <= i < |r| && r[i] == z;
      RoundTripStays(graph, done, k, r, i);
    }
    assert IsCycle(graph, r);
  }

  /** A cycle of the graph that starts in the component is a cycle of its inner edges. */
  lemma CycleStaysWithin<V(!new)>(graph: Graph<V>, refs: Edges<V>, done: seq<seq<V>>, k: nat, c: seq<V>)
    requires Partition(graph, done) && ComponentsAreMaximal(graph, done) && k < |done|
    requires forall v :: v in graph ==> v !in graph[v]
    requires IsCycle(graph, c) && c[0] in done[k]
    ensures IsCycle(AsGraph(Within(graph, refs, done[k])), c)
  {
    var out := Within(graph, refs, done[k]);
    forall i, j | 0 <= i && j == i + 1 < |c| ensures Arc(AsGraph(out), c[i], c[j]) {
      RoundTripStays(graph, done, k, c, i);
      RoundTripStays(graph, done, k, c, j);
      assert Arc(graph, c[i], c[j]);
    }
  }

  // ----- the report, told from the graph and the reference counts -----

  /** How often u refers to v; an edge without a recorded count counts once. */
  ghost function RefCount<V>(refs: Edges<V>, u: V, v: V): nat {
    if u in refs && v in refs[u] then refs[u][v] else 1
  }

  ghost function RefsFrom<V>(graph: Graph<V>, refs: Edges<V>, u: V, vs: seq<V>): nat {
    if vs == [] then 0
    else (if Arc(graph, u, vs[0]) then RefCount(refs, u, vs[0]) else 0) + RefsFrom(graph, refs, u, vs[1..])
  }

  /** The reference counts of all edges of the graph from us to vs. */
  ghost function RefsAmong<V>(graph: Graph<V>, refs: Edges<V>, us: seq<V>, vs: seq<V>): nat {
    if us == [] then 0 else RefsFrom(graph, refs, us[0], vs) + RefsAmong(graph, refs, us[1..], vs)
  }

  ghost function SumOf<V>(back: seq<(nat, V, V)>): nat {
    if back == [] then 0 else SumOf(back[..|back| - 1]) + back[|back| - 1].0
  }

  lemma WithinIs<V>(graph: Graph<V>, refs: Edges<V>, comp: seq<V>, u: V, v: V)
    requires u in comp && v in comp && (forall x :: x in graph ==> x !in graph[x])
    ensures Edge(Within(graph, refs, comp), u, v) <==> Arc(graph, u, v)
    ensures Arc(graph, u, v) ==> W(Within(graph, refs, comp), u, v) == RefCount(refs, u, v)
  {
  }

  lemma {:induction false} RowOfRefs<V>(graph: Graph<V>, refs: Edges<V>, comp: seq<V>, u: V, vs: seq<V>)
    requires u in comp && (forall v :: v in vs ==> v in comp) && (forall x :: x in graph ==> x !in graph[x])
    ensures Row(vs, Within(graph, refs, comp), AllPairs(comp), u) == RefsFrom(graph, refs, u, vs)
  {
    if vs != [] {
      hide Within, Edge;
      WithinIs(graph, refs, comp, u, vs[0]);
      RowOfRefs(graph, refs, comp, u, vs[1..]);
      assert (u, vs[0]) in AllPairs(comp);
      NoEdgeNoWeight(Within(graph, refs, comp), u, vs[0]);
    }
  }

  lemma NoEdgeNoWeight<V>(out: Edges<V>, u: V, v: V)
    ensures !Edge(out, u, v) ==> W(out, u, v) == 0
  {
  }

  lemma {:induction false} WeightOfRefs<V>(graph: Graph<V>, refs: Edges<V>, comp: seq<V>, us: seq<V>, vs: seq<V>)
    requires (forall u :: u in us ==> u in comp) && (forall v :: v in vs ==> v in comp)
    requires forall x :: x in graph ==> x !in graph[x]
    ensures Weight(us, vs, Within(graph, refs, comp), AllPairs(comp)) == RefsAmong(graph, refs, us, vs)
  {
    if us != [] {
      RowOfRefs(graph, refs, comp, us[0], vs);
      WeightOfRefs(graph, refs, comp, us[1..], vs);
    }
  }

  /** The listed edges are edges of the graph inside the component, each once and with its count. */
  ghost predicate ListsEdges<V>(graph: Graph<V>, refs: Edges<V>, comp: seq<V>, back: seq<(nat, V, V)>) {
    && (forall e :: e in back ==>
          e.1 in comp && e.2 in comp && Arc(graph, e.1, e.2) && e.0 == RefCount(refs, e.1, e.2))
    && (forall i, j :: 0 <= i < j < |back| ==> (back[i].1, back[i].2) != (back[j].1, back[j].2))
  }

  /** They are exactly those that point backwards in an order of the component. */
  ghost predicate ListsBackward<V>(graph: Graph<V>, comp: seq<V>, order: seq<V>, back: seq<(nat, V, V)>) {
    && multiset(order) == multiset(comp)
    && forall u, v :: u in comp && v in comp && Arc(graph, u, v) ==>
         ((u, v) in Pairs(back) <==> Before(order, v, u))
  }

  ghost predicate CutBy<V>(c: seq<V>, back: seq<(nat, V, V)>) {
    exists i, j :: 0 <= i && j == i + 1 < |c| && (c[i], c[j]) in Pairs(back)
  }

  lemma {:induction false} TotalIsSum<V>(nodes: seq<V>, out: Edges<V>, back: seq<(nat, V, V)>, total: nat)
    requires Distinct(nodes) && (forall e :: e in back ==> e.1 in nodes && e.2 in nodes)
    requires Reports(nodes, out, back, total, Pairs(back))
    ensures total == SumOf(back)
  {
    if back == [] {
      NothingReported(nodes, out);
    } else {
      var n := |back| - 1;
      var front, e := back[..n], back[n];
      assert forall i :: 0 <= i < n ==> front[i] == back[i];
      assert back == front + [e];
      var fewer := Weight(nodes, nodes, out, Pairs(front));
      assert Reports(nodes, out, front, fewer, Pairs(front));
      TotalIsSum(nodes, out, front, fewer);
      assert e in back && e.0 == W(out, e.1, e.2);
      ReportOne(nodes, out, front, fewer, Pairs(front), e.1, e.2);
    }
  }

  /** What is said of the inner edges holds of the graph. */
  lemma ReportMeans<V(!new)>(graph: Graph<V>, refs: Edges<V>, comp: seq<V>, order: seq<V>,
                             back: seq<(nat, V, V)>, total: nat)
    requires forall x :: x in graph ==> x !in graph[x]
    requires WellFormed(comp, Within(graph, refs, comp)) && multiset(order) == multiset(comp)
    requires Reports(comp, Within(graph, refs, comp), back, total, AllBackward(comp, Within(graph, refs, comp), order))
    ensures ListsEdges(graph, refs, comp, back) && ListsBackward(graph, comp, order, back) && total == SumOf(back)
  {
    var out := Within(graph, refs, comp);
    forall u, v | u in comp && v in comp
      ensures Edge(out, u, v) <==> Arc(graph, u, v)
      ensures Arc(graph, u, v) ==> W(out, u, v) == RefCount(refs, u, v)
    {
      WithinIs(graph, refs, comp, u, v);
    }
    forall e | e in back ensures e.1 in comp && e.2 in comp && Edge(out, e.1, e.2) {
      assert (e.1, e.2) in AllBackward(comp, out, order);
    }
    TotalIsSum(comp, out, back, total);
  }

  /** Reports every edge of the component that points backwards in the computed order. */
  method ReportCycle<V(==, !new)>(graph: Graph<V>, refs: Edges<V>, done: seq<seq<V>>, k: nat)
    returns (back: seq<(nat, V, V)>, total: nat, ghost order: seq<V>)
    requires Partition(graph, done) && ComponentsAreMaximal(graph, done)
    requires k < |done| && |done[k]| > 1
    requires forall v :: v in graph ==> v !in graph[v]
    ensures back != [] && ListsEdges(graph, refs, done[k], back) && ListsBackward(graph, done[k], order, back)
    ensures total == SumOf(back) && 2 * total <= RefsAmong(graph, refs, done[k], done[k])
    ensures forall c :: IsCycle(graph, c) && c[0] in done[k] ==> CutBy(c, back)
  {
    hide Partition, ComponentsAreMaximal, WellFormed, Within, IsCycle, Distinct, ListsEdges, ListsBackward;
    var nodes, out := done[k], Within(graph, refs, done[k]);
    WithinWellFormed(graph, refs, done, k);
    var computed, _ := EadesOrder(nodes, out);
    back, total := BackEdges(nodes, out, computed);
    order := computed;
    ReportMeans(graph, refs, nodes, order, back, total);
    WeightOfRefs(graph, refs, nodes, nodes, nodes);
    AllCyclesCut(graph, refs, done, k, order, back);
    ComponentHasCycle(graph, done, k);
    SomethingListed(graph, done, k, back);
  }

  lemma AllCyclesCut<V(!new)>(graph: Graph<V>, refs: Edges<V>, done: seq<seq<V>>, k: nat, order: seq<V>,
                              back: seq<(nat, V, V)>)
    requires Partition(graph, done) && ComponentsAreMaximal(graph, done) && k < |done|
    requires forall v :: v in graph ==> v !in graph[v]
    requires Distinct(order) && (forall x :: x in done[k] ==> x in order)
    requires Pairs(back) == AllBackward(done[k], Within(graph, refs, done[k]), order)
    ensures forall c :: IsCycle(graph, c) && c[0] in done[k] ==> CutBy(c, back)
  {
    WithinWellFormed(graph, refs, done, k);
    forall c | IsCycle(graph, c) && c[0] in done[k] ensures CutBy(c, back) {
      CycleStaysWithin(graph, refs, done, k, c);
      CycleIsCut(done[k], Within(graph, refs, done[k]), order, c);
    }
  }

  lemma SomethingListed<V(!new)>(graph: Graph<V>, done: seq<seq<V>>, k: nat, back: seq<(nat, V, V)>)
    requires k < |done| && exists c :: IsCycle(graph, c) && forall x :: x in c ==> x in done[k]
    requires forall c :: IsCycle(graph, c) && c[0] in done[k] ==> CutBy(c, back)
    ensures back != []
  {
    var c :| IsCycle(graph, c) && forall x :: x in c ==> x in done[k];
    assert c[0] in done[k] && CutBy(c, back);
  }

  lemma CycleIsCut<V(!new)>(nodes: seq<V>, out: Edges<V>, order: seq<V>, c: seq<V>)
    requires WellFormed(nodes, out) && Distinct(order) && (forall x :: x in nodes ==> x in order)
    requires IsCycle(AsGraph(out), c)
    ensures exists i, j :: 0 <= i && j == i + 1 < |c| && (c[i], c[j]) in AllBackward(nodes, out, order)
  {
    CycleHasBackward(nodes, out, order, c);
    var i, j :| 0 <= i && j == i + 1 < |c| && Backward(out, order, c[i], c[j]);
    assert (c[i], c[j]) in AllBackward(nodes, out, order);
  }
}
