/**
 The greedy vertex order of Eades, Lin and Smyth and the feedback arc set read
 off it (scripts/analyze_root_crate.py). Weights are reference counts.
 */
module Eades {
  import opened Graphs

  type Edges<V> = map<V, map<V, nat>>

  predicate Distinct<V(==)>(s: seq<V>) {
    forall i, j :: 0 <= i < j < |s| ==> s[i] != s[j]
  }

  /** What the caller hands over: one row per node, no edge leaving the nodes, no self edge. */
  ghost predicate WellFormed<V>(nodes: seq<V>, out: Edges<V>) {
    && Distinct(nodes)
    && (forall u :: u in out ==> u in nodes)
    && forall u :: u in nodes ==> u in out && u !in out[u] && forall v :: v in out[u] ==> v in nodes
  }

  predicate Edge<V(==)>(out: Edges<V>, u: V, v: V) {
    u in out && v in out[u]
  }

  function W<V(==)>(out: Edges<V>, u: V, v: V): nat {
    if Edge(out, u, v) then out[u][v] else 0
  }

  ghost function AsGraph<V>(out: Edges<V>): Graph<V> {
    map u | u in out :: out[u].Keys
  }

  // ----- the weight of a set of vertex pairs -----

  ghost function Row<V>(vs: seq<V>, out: Edges<V>, p: set<(V, V)>, u: V): nat {
    if vs == [] then 0
    else (if (u, vs[0]) in p then W(out, u, vs[0]) else 0) + Row(vs[1..], out, p, u)
  }

  ghost function Weight<V>(us: seq<V>, vs: seq<V>, out: Edges<V>, p: set<(V, V)>): nat {
    if us == [] then 0 else Row(vs, out, p, us[0]) + Weight(us[1..], vs, out, p)
  }

  lemma {:induction false} RowAdd<V>(vs: seq<V>, out: Edges<V>, p: set<(V, V)>, q: set<(V, V)>, u: V)
    requires p !! q
    ensures Row(vs, out, p + q, u) == Row(vs, out, p, u) + Row(vs, out, q, u)
  {
    if vs != [] {
      RowAdd(vs[1..], out, p, q, u);
    }
  }

  lemma {:induction false} WeightAdd<V>(us: seq<V>, vs: seq<V>, out: Edges<V>, p: set<(V, V)>, q: set<(V, V)>)
    requires p !! q
    ensures Weight(us, vs, out, p + q) == Weight(us, vs, out, p) + Weight(us, vs, out, q)
  {
    if us != [] {
      RowAdd(vs, out, p, q, us[0]);
      WeightAdd(us[1..], vs, out, p, q);
    }
  }

  /** Only pairs that are edges carry weight. */
  ghost predicate EdgesWithin<V>(out: Edges<V>, p: set<(V, V)>, q: set<(V, V)>) {
    forall e :: e in p && Edge(out, e.0, e.1) ==> e in q
  }

  lemma {:induction false} RowMono<V>(vs: seq<V>, out: Edges<V>, p: set<(V, V)>, q: set<(V, V)>, u: V)
    requires EdgesWithin(out, p, q)
    ensures Row(vs, out, p, u) <= Row(vs, out, q, u)
  {
    if vs != [] {
      RowMono(vs[1..], out, p, q, u);
    }
  }

  lemma {:induction false} WeightMono<V>(us: seq<V>, vs: seq<V>, out: Edges<V>, p: set<(V, V)>, q: set<(V, V)>)
    requires EdgesWithin(out, p, q)
    ensures Weight(us, vs, out, p) <= Weight(us, vs, out, q)
  {
    if us != [] {
      RowMono(vs, out, p, q, us[0]);
      WeightMono(us[1..], vs, out, p, q);
    }
  }

  // ----- rows and columns of the weight matrix -----

  function OutWeight<V(==)>(nodes: seq<V>, out: Edges<V>, n: V, rem: set<V>): nat {
    if nodes == [] then 0
    else (if nodes[0] in rem then W(out, n, nodes[0]) else 0) + OutWeight(nodes[1..], out, n, rem)
  }

  function InWeight<V(==)>(nodes: seq<V>, out: Edges<V>, n: V, rem: set<V>): nat {
    if nodes == [] then 0
    else (if nodes[0] in rem then W(out, nodes[0], n) else 0) + InWeight(nodes[1..], out, n, rem)
  }

  ghost function FromTo<V>(a: set<V>, b: set<V>): set<(V, V)> {
    set u, v | u in a && v in b :: (u, v)
  }

  lemma {:induction false} RowIsOutWeight<V>(vs: seq<V>, out: Edges<V>, n: V, rem: set<V>)
    ensures Row(vs, out, FromTo({n}, rem), n) == OutWeight(vs, out, n, rem)
  {
    if vs != [] {
      RowIsOutWeight(vs[1..], out, n, rem);
    }
  }

  lemma {:induction false} RowElsewhere<V>(vs: seq<V>, out: Edges<V>, p: set<(V, V)>, u: V)
    requires forall v :: v in vs ==> (u, v) !in p
    ensures Row(vs, out, p, u) == 0
  {
    if vs != [] {
      RowElsewhere(vs[1..], out, p, u);
    }
  }

  /** The edges from n into rem weigh OutWeight. */
  lemma {:induction false} RowWeight<V>(us: seq<V>, vs: seq<V>, out: Edges<V>, n: V, rem: set<V>)
    requires Distinct(us)
    ensures Weight(us, vs, out, FromTo({n}, rem)) == if n in us then OutWeight(vs, out, n, rem) else 0
  {
    if us != [] {
      RowWeight(us[1..], vs, out, n, rem);
      if us[0] == n {
        RowIsOutWeight(vs, out, n, rem);
        assert n !in us[1..];
      } else {
        RowElsewhere(vs, out, FromTo({n}, rem), us[0]);
      }
    }
  }

  lemma {:induction false} ColumnRow<V>(vs: seq<V>, out: Edges<V>, n: V, rem: set<V>, u: V)
    requires Distinct(vs)
    ensures Row(vs, out, FromTo(rem, {n}), u) == if u in rem && n in vs then W(out, u, n) else 0
  {
    if vs != [] {
      ColumnRow(vs[1..], out, n, rem, u);
      assert vs[0] == n ==> n !in vs[1..];
    }
  }

  /** The edges from rem into n weigh InWeight. */
  lemma {:induction false} ColumnWeight<V>(us: seq<V>, vs: seq<V>, out: Edges<V>, n: V, rem: set<V>)
    requires Distinct(vs) && n in vs
    ensures Weight(us, vs, out, FromTo(rem, {n})) == InWeight(us, out, n, rem)
  {
    if us != [] {
      ColumnRow(vs, out, n, rem, us[0]);
      ColumnWeight(us[1..], vs, out, n, rem);
    }
  }

  // ----- the scores over the remaining nodes sum to zero -----

  ghost function Prefix<V>(nodes: seq<V>, k: nat, rem: set<V>): set<V>
    requires k <= |nodes|
  {
    set x | x in nodes[..k] && x in rem
  }

  lemma {:induction false} EmptyWeight<V>(us: seq<V>, vs: seq<V>, out: Edges<V>)
    ensures Weight(us, vs, out, {}) == 0
  {
    if us != [] {
      RowElsewhere(vs, out, {}, us[0]);
      EmptyWeight(us[1..], vs, out);
    }
  }

  lemma AddOne<V>(nodes: seq<V>, out: Edges<V>, rem: set<V>, s: set<V>, n: V)
    requires Distinct(nodes) && n in nodes && n !in s
    ensures Weight(nodes, nodes, out, FromTo(s + {n}, rem))
         == Weight(nodes, nodes, out, FromTo(s, rem)) + OutWeight(nodes, out, n, rem)
    ensures Weight(nodes, nodes, out, FromTo(rem, s + {n}))
         == Weight(nodes, nodes, out, FromTo(rem, s)) + InWeight(nodes, out, n, rem)
  {
    assert FromTo(s + {n}, rem) == FromTo(s, rem) + FromTo({n}, rem);
    assert FromTo(rem, s + {n}) == FromTo(rem, s) + FromTo(rem, {n});
    WeightAdd(nodes, nodes, out, FromTo(s, rem), FromTo({n}, rem));
    WeightAdd(nodes, nodes, out, FromTo(rem, s), FromTo(rem, {n}));
    RowWeight(nodes, nodes, out, n, rem);
    ColumnWeight(nodes, nodes, out, n, rem);
  }

  function Score<V(==)>(nodes: seq<V>, out: Edges<V>, n: V, rem: set<V>): int {
    OutWeight(nodes, out, n, rem) - InWeight(nodes, out, n, rem)
  }

  /** The scores of those of the first k nodes that remain. */
  ghost function ScoreSum<V>(nodes: seq<V>, out: Edges<V>, rem: set<V>, k: nat): int
    requires k <= |nodes|
  {
    if k == 0 then 0
    else ScoreSum(nodes, out, rem, k - 1) + if nodes[k - 1] in rem then Score(nodes, out, nodes[k - 1], rem) else 0
  }

  /** They sum to what leaves those nodes less what enters them, */
  lemma {:induction false} ScoreSumIsBalance<V>(nodes: seq<V>, out: Edges<V>, rem: set<V>, k: nat)
    requires Distinct(nodes) && k <= |nodes|
    ensures var s := Prefix(nodes, k, rem);
            ScoreSum(nodes, out, rem, k)
            == Weight(nodes, nodes, out, FromTo(s, rem)) - Weight(nodes, nodes, out, FromTo(rem, s))
  {
    if k == 0 {
      assert FromTo(Prefix(nodes, 0, rem), rem) == {} && FromTo(rem, Prefix(nodes, 0, rem)) == {};
    } else {
      ScoreSumIsBalance(nodes, out, rem, k - 1);
      var n, s := nodes[k - 1], Prefix(nodes, k - 1, rem);
      assert nodes[..k] == nodes[..k - 1] + [n];
      if n in rem {
        AddOne(nodes, out, rem, s, n);
        assert Prefix(nodes, k, rem) == s + {n};
      } else {
        assert Prefix(nodes, k, rem) == s;
      }
    }
  }

  /** hence to zero over all that remain. */
  lemma ScoresSumToZero<V>(nodes: seq<V>, out: Edges<V>, rem: set<V>)
    requires Distinct(nodes) && forall x :: x in rem ==> x in nodes
    ensures ScoreSum(nodes, out, rem, |nodes|) == 0
  {
    ScoreSumIsBalance(nodes, out, rem, |nodes|);
    assert nodes[..|nodes|] == nodes;
    assert Prefix(nodes, |nodes|, rem) == rem;
  }

  lemma {:induction false} NegativeSum<V>(nodes: seq<V>, out: Edges<V>, rem: set<V>, k: nat)
    requires k <= |nodes| && forall n :: n in rem ==> Score(nodes, out, n, rem) < 0
    ensures ScoreSum(nodes, out, rem, k) <= 0
    ensures Prefix(nodes, k, rem) != {} ==> ScoreSum(nodes, out, rem, k) < 0
  {
    if k > 0 {
      NegativeSum(nodes, out, rem, k - 1);
      assert nodes[..k] == nodes[..k - 1] + [nodes[k - 1]];
      assert nodes[k - 1] !in rem ==> Prefix(nodes, k, rem) == Prefix(nodes, k - 1, rem);
    }
  }

  /** So the best score is never negative. */
  lemma BestScoreNonNegative<V>(nodes: seq<V>, out: Edges<V>, rem: set<V>, pick: V)
    requires Distinct(nodes) && pick in rem && forall x :: x in rem ==> x in nodes
    requires forall n :: n in rem ==> Score(nodes, out, n, rem) <= Score(nodes, out, pick, rem)
    ensures Score(nodes, out, pick, rem) >= 0
  {
    ScoresSumToZero(nodes, out, rem);
    assert nodes[..|nodes|] == nodes;
    assert pick in Prefix(nodes, |nodes|, rem);
    if Score(nodes, out, pick, rem) < 0 {
      NegativeSum(nodes, out, rem, |nodes|);
    }
  }

  // ----- sinks, sources and cycles -----

  predicate IsSink<V(==)>(out: Edges<V>, rem: set<V>, n: V)
    requires n in out
  {
    forall v :: v in out[n] ==> v !in rem
  }

  ghost predicate NoSinks<V>(out: Edges<V>, rem: set<V>) {
    forall n {:trigger IsSink(out, rem, n)} :: n in rem && n in out ==> !IsSink(out, rem, n)
  }

  predicate IsSource<V(==)>(nodes: seq<V>, out: Edges<V>, rem: set<V>, n: V) {
    forall u :: u in nodes && Edge(out, u, n) ==> u !in rem
  }

  ghost predicate NoSources<V>(nodes: seq<V>, out: Edges<V>, rem: set<V>) {
    forall n {:trigger IsSource(nodes, out, rem, n)} :: n in rem ==> !IsSource(nodes, out, rem, n)
  }

  ghost predicate LeadsInto<V>(out: Edges<V>, n: V, rem: set<V>) {
    exists v :: v in rem && Edge(out, n, v)
  }

  ghost predicate ComesFrom<V>(out: Edges<V>, n: V, rem: set<V>) {
    exists u :: u in rem && Edge(out, u, n)
  }

  /** Every remaining node has an edge into what remains and one from it. */
  ghost predicate NoEnds<V>(out: Edges<V>, rem: set<V>) {
    && (forall n {:trigger LeadsInto(out, n, rem)} :: n in rem ==> LeadsInto(out, n, rem))
    && (forall n {:trigger ComesFrom(out, n, rem)} :: n in rem ==> ComesFrom(out, n, rem))
  }

  lemma NoEndsLeft<V>(nodes: seq<V>, out: Edges<V>, rem: set<V>)
    requires NoSinks(out, rem) && NoSources(nodes, out, rem)
    requires forall n :: n in rem ==> n in out
    ensures NoEnds(out, rem)
  {
    forall n | n in rem ensures LeadsInto(out, n, rem) {
      assert !IsSink(out, rem, n);
      var v :| v in out[n] && v in rem;
      assert Edge(out, n, v);
    }
    forall n | n in rem ensures ComesFrom(out, n, rem) {
      assert !IsSource(nodes, out, rem, n);
      var u :| u in nodes && Edge(out, u, n) && u in rem;
    }
  }

  /** A greedy pick is made only with no sink and no source left, and has the best score. */
  ghost predicate GreedyPick<V>(nodes: seq<V>, out: Edges<V>, rem: set<V>, v: V) {
    && NoEnds(out, rem)
    && forall n :: n in rem ==> Score(nodes, out, n, rem) <= Score(nodes, out, v, rem)
  }

  ghost predicate HasCycle<V(!new)>(out: Edges<V>) {
    exists p :: IsCycle(AsGraph(out), p)
  }

  ghost predicate Walk<V>(out: Edges<V>, p: seq<V>) {
    forall i, j :: 0 <= i && j == i + 1 < |p| ==> Edge(out, p[i], p[j])
  }

  lemma CloseWalk<V(!new)>(out: Edges<V>, p: seq<V>, i: nat)
    requires Walk(out, p) && i < |p| && Edge(out, p[|p| - 1], p[i])
    ensures HasCycle(out)
  {
    var c := p[i..] + [p[i]];
    forall k, l | 0 <= k && l == k + 1 < |c|
      ensures Arc(AsGraph(out), c[k], c[l])
    {
      assert c[k] == p[i + k];
      assert l < |c| - 1 ==> c[l] == p[i + l];
    }
    assert IsCycle(AsGraph(out), c);
  }

  /** A walk that cannot stop inside a finite set closes into a cycle. */
  lemma {:induction false} WalkCloses<V(!new)>(out: Edges<V>, rem: set<V>, p: seq<V>)
    requires NoEnds(out, rem)
    requires |p| > 0 && Walk(out, p) && forall x :: x in p ==> x in rem
    ensures HasCycle(out)
    decreases rem - set x | x in p
  {
    var last := p[|p| - 1];
    assert LeadsInto(out, last, rem);
    var next :| next in rem && Edge(out, last, next);
    if next in p {
      var i :| 0 <= i < |p| && p[i] == next;
      CloseWalk(out, p, i);
    } else {
      var a, b := (set x | x in p), (set x | x in p + [next]);
      assert next in p + [next] && forall x :: x in p ==> x in p + [next];
      assert next in rem - a && next !in rem - b;
      WalkCloses(out, rem, p + [next]);
    }
  }

  // ----- the loop state: left, remaining and right, and the greedy picks -----

  /** `picks[v]` is what remained besides v when v was picked greedily. */
  datatype Plan<V> = Plan(left: seq<V>, rem: set<V>, right: seq<V>, picks: map<V, set<V>>)

  ghost predicate Arranged<V>(nodes: seq<V>, p: Plan<V>) {
    && Distinct(p.left) && Distinct(p.right) && (forall x :: x in p.left ==> x !in p.right)
    && (forall x :: x in nodes ==> x in p.left || x in p.rem || x in p.right)
    && (forall x :: x in p.left ==> x in nodes && x !in p.rem)
    && (forall x :: x in p.right ==> x in nodes && x !in p.rem)
    && (forall x :: x in p.rem ==> x in nodes)
  }

  ghost predicate PickedOver<V>(p: Plan<V>, v: V, u: V) {
    v in p.picks && u in p.picks[v]
  }

  /** An edge into the left part from a node placed later was paid for by a pick. */
  ghost predicate LeftPicked<V>(out: Edges<V>, p: Plan<V>) {
    && (forall v, u :: v in p.left && u in p.rem && Edge(out, u, v) ==> PickedOver(p, v, u))
    && (forall v, u :: v in p.left && u in p.right && Edge(out, u, v) ==> PickedOver(p, v, u))
    && (forall i, j :: 0 <= i < j < |p.left| && Edge(out, p.left[j], p.left[i]) ==> PickedOver(p, p.left[i], p.left[j]))
  }

  /** What remained at a pick is placed after it. */
  ghost predicate PicksLater<V>(nodes: seq<V>, p: Plan<V>) {
    && (forall v :: v in p.picks ==> v in p.left && forall u :: u in p.picks[v] ==> u in nodes)
    && (forall i, j :: 0 <= j <= i < |p.left| ==> !PickedOver(p, p.left[i], p.left[j]))
  }

  /** A node on the right has no edge to what remains, nor to anything placed between. */
  ghost predicate RightClosed<V>(out: Edges<V>, p: Plan<V>) {
    && (forall u, v :: u in p.right && v in p.rem ==> !Edge(out, u, v))
    && (forall i, j :: 0 <= i < j < |p.right| ==> !Edge(out, p.right[j], p.right[i]))
  }

  ghost function BackPairs<V>(picks: map<V, set<V>>): set<(V, V)> {
    set v, u | v in picks.Keys && u in picks[v] :: (u, v)
  }

  ghost function ForwardPairs<V>(picks: map<V, set<V>>): set<(V, V)> {
    set v, u | v in picks.Keys && u in picks[v] :: (v, u)
  }

  ghost predicate Balanced<V>(nodes: seq<V>, out: Edges<V>, p: Plan<V>) {
    Weight(nodes, nodes, out, BackPairs(p.picks)) <= Weight(nodes, nodes, out, ForwardPairs(p.picks))
  }

  ghost predicate Greedy<V>(nodes: seq<V>, out: Edges<V>, picks: map<V, set<V>>) {
    forall v :: v in picks ==> GreedyPick(nodes, out, picks[v] + {v}, v)
  }

  ghost predicate PlanInv<V(!new)>(nodes: seq<V>, out: Edges<V>, p: Plan<V>) {
    && Arranged(nodes, p) && LeftPicked(out, p) && PicksLater(nodes, p) && RightClosed(out, p)
    && Balanced(nodes, out, p) && Greedy(nodes, out, p.picks)
    && (p.picks != map[] ==> HasCycle(out))
  }

  ghost function MoveRight<V>(p: Plan<V>, n: V): Plan<V> {
    p.(rem := p.rem - {n}, right := [n] + p.right)
  }

  ghost function MoveLeft<V>(p: Plan<V>, n: V): Plan<V> {
    p.(rem := p.rem - {n}, left := p.left + [n])
  }

  ghost function Pick<V>(p: Plan<V>, n: V): Plan<V> {
    MoveLeft(p, n).(picks := p.picks[n := p.rem - {n}])
  }

  lemma SinkStepShape<V(!new)>(nodes: seq<V>, out: Edges<V>, p: Plan<V>, n: V)
    requires Arranged(nodes, p) && RightClosed(out, p) && n in p.rem && n in out && IsSink(out, p.rem, n)
    ensures Arranged(nodes, MoveRight(p, n)) && RightClosed(out, MoveRight(p, n))
  {
    assert forall x :: x in [n] + p.right <==> x == n || x in p.right;
  }

  lemma SinkStep<V(!new)>(nodes: seq<V>, out: Edges<V>, p: Plan<V>, n: V)
    requires WellFormed(nodes, out) && PlanInv(nodes, out, p) && n in p.rem && n in out && IsSink(out, p.rem, n)
    ensures PlanInv(nodes, out, MoveRight(p, n))
  {
    SinkStepShape(nodes, out, p, n);
    hide Arranged, RightClosed, Balanced, Greedy, WellFormed, IsSink;
    var q := MoveRight(p, n);
    assert forall v, u :: PickedOver(q, v, u) == PickedOver(p, v, u);
    assert forall x :: x in q.right ==> x in p.rem || x in p.right;
    assert q.picks == p.picks && q.left == p.left;
  }

  lemma LeftStepShape<V(!new)>(nodes: seq<V>, out: Edges<V>, p: Plan<V>, n: V, picks: map<V, set<V>>)
    requires Arranged(nodes, p) && RightClosed(out, p) && n in p.rem
    ensures var q := MoveLeft(p, n).(picks := picks);
            Arranged(nodes, q) && RightClosed(out, q)
  {
  }

  /** A pick, or a source, keeps the account of the edges into the left part. */
  lemma LeftStepPicks<V(!new)>(nodes: seq<V>, out: Edges<V>, p: Plan<V>, n: V, picks: map<V, set<V>>)
    requires Arranged(nodes, p) && LeftPicked(out, p) && RightClosed(out, p)
    requires n in p.rem && (picks == p.picks || picks == p.picks[n := p.rem - {n}])
    requires picks == p.picks ==> IsSource(nodes, out, p.rem, n)
    ensures LeftPicked(out, MoveLeft(p, n).(picks := picks))
  {
  }

  lemma LeftStepLater<V(!new)>(nodes: seq<V>, p: Plan<V>, n: V, picks: map<V, set<V>>)
    requires Arranged(nodes, p) && PicksLater(nodes, p)
    requires n in p.rem && (picks == p.picks || picks == p.picks[n := p.rem - {n}])
    ensures PicksLater(nodes, MoveLeft(p, n).(picks := picks))
  {
  }

  lemma SourceStep<V(!new)>(nodes: seq<V>, out: Edges<V>, p: Plan<V>, n: V)
    requires WellFormed(nodes, out) && PlanInv(nodes, out, p) && n in p.rem && IsSource(nodes, out, p.rem, n)
    ensures PlanInv(nodes, out, MoveLeft(p, n))
  {
    LeftStepShape(nodes, out, p, n, p.picks);
    LeftStepPicks(nodes, out, p, n, p.picks);
    LeftStepLater(nodes, p, n, p.picks);
  }

  lemma {:induction false} NoSelfWeight<V>(nodes: seq<V>, out: Edges<V>, n: V, rem: set<V>)
    requires !Edge(out, n, n)
    ensures OutWeight(nodes, out, n, rem - {n}) == OutWeight(nodes, out, n, rem)
    ensures InWeight(nodes, out, n, rem - {n}) == InWeight(nodes, out, n, rem)
  {
    if nodes != [] {
      NoSelfWeight(nodes[1..], out, n, rem);
    }
  }

  lemma PickBalanced<V(!new)>(nodes: seq<V>, out: Edges<V>, p: Plan<V>, n: V)
    requires Distinct(nodes) && Balanced(nodes, out, p) && n in nodes && n !in p.picks && !Edge(out, n, n)
    requires Score(nodes, out, n, p.rem) >= 0
    ensures Balanced(nodes, out, Pick(p, n))
  {
    var rest, picks := p.rem - {n}, p.picks[n := p.rem - {n}];
    assert BackPairs(picks) == BackPairs(p.picks) + FromTo(rest, {n});
    assert ForwardPairs(picks) == ForwardPairs(p.picks) + FromTo({n}, rest);
    WeightAdd(nodes, nodes, out, BackPairs(p.picks), FromTo(rest, {n}));
    WeightAdd(nodes, nodes, out, ForwardPairs(p.picks), FromTo({n}, rest));
    ColumnWeight(nodes, nodes, out, n, rest);
    RowWeight(nodes, nodes, out, n, rest);
    NoSelfWeight(nodes, out, n, p.rem);
  }

  lemma PickStep<V(!new)>(nodes: seq<V>, out: Edges<V>, p: Plan<V>, n: V)
    requires WellFormed(nodes, out) && PlanInv(nodes, out, p) && n in p.rem
    requires GreedyPick(nodes, out, p.rem, n)
    ensures PlanInv(nodes, out, Pick(p, n))
  {
    assert p.rem - {n} + {n} == p.rem;
    var picks := p.picks[n := p.rem - {n}];
    LeftStepShape(nodes, out, p, n, picks);
    LeftStepPicks(nodes, out, p, n, picks);
    LeftStepLater(nodes, p, n, picks);
    BestScoreNonNegative(nodes, out, p.rem, n);
    PickBalanced(nodes, out, p, n);
    WalkCloses(out, p.rem, [n]);
  }

  // ----- what the finished order means -----

  ghost predicate Before<V>(order: seq<V>, x: V, y: V) {
    exists i, j :: 0 <= i < j < |order| && order[i] == x && order[j] == y
  }

  /** The edge u to v points backwards in the order. */
  ghost predicate Backward<V>(out: Edges<V>, order: seq<V>, u: V, v: V) {
    Edge(out, u, v) && Before(order, v, u)
  }

  ghost function AllBackward<V>(nodes: seq<V>, out: Edges<V>, order: seq<V>): set<(V, V)> {
    set u, v | u in nodes && v in nodes && Backward(out, order, u, v) :: (u, v)
  }

  ghost function AllPairs<V>(nodes: seq<V>): set<(V, V)> {
    set u, v | u in nodes && v in nodes :: (u, v)
  }

  lemma BackwardWasPicked<V(!new)>(nodes: seq<V>, out: Edges<V>, p: Plan<V>, u: V, v: V)
    requires Arranged(nodes, p) && LeftPicked(out, p) && RightClosed(out, p)
    requires u in nodes && Edge(out, u, v) && Before(p.left + p.right, v, u)
    ensures v in p.picks && u in p.picks[v]
  {
  }

  lemma PickedIsBackward<V(!new)>(nodes: seq<V>, p: Plan<V>, u: V, v: V)
    requires Arranged(nodes, p) && PicksLater(nodes, p) && p.rem == {}
    requires v in p.picks && u in p.picks[v]
    ensures Before(p.left + p.right, v, u)
  {
    var order := p.left + p.right;
    var i :| 0 <= i < |p.left| && p.left[i] == v;
    assert u in order && order[i] == v;
    var j :| 0 <= j < |order| && order[j] == u;
    assert PickedOver(p, p.left[i], u);
  }

  lemma HalfBound<V(!new)>(nodes: seq<V>, out: Edges<V>, p: Plan<V>)
    requires PlanInv(nodes, out, p) && p.rem == {}
    ensures 2 * Weight(nodes, nodes, out, AllBackward(nodes, out, p.left + p.right))
         <= Weight(nodes, nodes, out, AllPairs(nodes))
  {
    var back, forth := BackPairs(p.picks), ForwardPairs(p.picks);
    forall e | e in back ensures e !in forth {
      PicksAreOrdered(nodes, p, e.0, e.1);
    }
    WeightAdd(nodes, nodes, out, back, forth);
    forall e | e in back + forth ensures e in AllPairs(nodes) {
    }
    WeightMono(nodes, nodes, out, back + forth, AllPairs(nodes));
    forall e | e in AllBackward(nodes, out, p.left + p.right) ensures e in back {
      BackwardWasPicked(nodes, out, p, e.0, e.1);
    }
    WeightMono(nodes, nodes, out, AllBackward(nodes, out, p.left + p.right), back);
  }

  lemma PicksAreOrdered<V>(nodes: seq<V>, p: Plan<V>, u: V, v: V)
    requires PicksLater(nodes, p) && PickedOver(p, v, u)
    ensures !PickedOver(p, u, v)
  {
  }

  /** Along edges that all point forwards the position only grows. */
  lemma {:induction false} ForwardClimbs<V(!new)>(nodes: seq<V>, out: Edges<V>, order: seq<V>, c: seq<V>, k: nat)
    returns (at: nat)
    requires WellFormed(nodes, out) && forall x :: x in nodes ==> x in order
    requires |c| > 0 && Walk(out, c) && c[0] in order && k < |c|
    requires forall i, j :: 0 <= i && j == i + 1 < |c| ==> !Backward(out, order, c[i], c[j])
    requires Distinct(order)
    ensures at < |order| && order[at] == c[k]
    ensures k > 0 ==> exists j :: 0 <= j < at && order[j] == c[0]
  {
    if k == 0 {
      at :| 0 <= at < |order| && order[at] == c[0];
    } else {
      var prev := ForwardClimbs(nodes, out, order, c, k - 1);
      assert Edge(out, c[k - 1], c[k]);
      at :| 0 <= at < |order| && order[at] == c[k];
      assert at != prev;
      assert !Backward(out, order, c[k - 1], c[k]);
      assert prev < at;
    }
  }

  lemma CycleHasBackward<V(!new)>(nodes: seq<V>, out: Edges<V>, order: seq<V>, c: seq<V>)
    requires WellFormed(nodes, out) && Distinct(order) && (forall x :: x in nodes ==> x in order)
    requires IsCycle(AsGraph(out), c)
    ensures exists i, j :: 0 <= i && j == i + 1 < |c| && Backward(out, order, c[i], c[j])
  {
    if forall i, j :: 0 <= i && j == i + 1 < |c| ==> !Backward(out, order, c[i], c[j]) {
      forall i, j | 0 <= i && j == i + 1 < |c| ensures Edge(out, c[i], c[j]) {
        assert Arc(AsGraph(out), c[i], c[j]);
      }
      assert Edge(out, c[0], c[1]);
      var at := ForwardClimbs(nodes, out, order, c, |c| - 1);
    }
  }

  lemma {:induction false} DistinctMultiset<V>(s: seq<V>, x: V)
    requires Distinct(s)
    ensures multiset(s)[x] == if x in s then 1 else 0
  {
    if s != [] {
      DistinctMultiset(s[1..], x);
      assert s == [s[0]] + s[1..];
    }
  }

  lemma SamePermutation<V>(a: seq<V>, b: seq<V>)
    requires Distinct(a) && Distinct(b)
    requires (forall x :: x in a ==> x in b) && (forall x :: x in b ==> x in a)
    ensures multiset(a) == multiset(b)
  {
    forall x | x in multiset(a) || x in multiset(b) ensures multiset(a)[x] == multiset(b)[x] {
      DistinctMultiset(a, x);
      DistinctMultiset(b, x);
    }
  }

  /** What `eades_order` promises about its result, told without its loop state. */
  ghost predicate GoodOrder<V(!new)>(nodes: seq<V>, out: Edges<V>, order: seq<V>) {
    && multiset(order) == multiset(nodes) && Distinct(order) && (forall x :: x in nodes ==> x in order)
    && 2 * Weight(nodes, nodes, out, AllBackward(nodes, out, order)) <= Weight(nodes, nodes, out, AllPairs(nodes))
    && (AllBackward(nodes, out, order) == {} <==> !HasCycle(out))
  }

  /** The backward edges are those into a greedy pick from what remained then, and the picks were greedy. */
  ghost predicate Explained<V(!new)>(nodes: seq<V>, out: Edges<V>, order: seq<V>, picks: map<V, set<V>>) {
    && (forall u, v :: u in nodes && Edge(out, u, v) ==>
          (Before(order, v, u) <==> v in picks && u in picks[v]))
    && Greedy(nodes, out, picks)
  }

  lemma FinishedOrder<V(!new)>(nodes: seq<V>, out: Edges<V>, p: Plan<V>)
    requires WellFormed(nodes, out) && PlanInv(nodes, out, p) && p.rem == {}
    ensures GoodOrder(nodes, out, p.left + p.right) && Explained(nodes, out, p.left + p.right, p.picks)
  {
    var order := p.left + p.right;
    SamePermutation(order, nodes);
    forall u, v | u in nodes && Edge(out, u, v)
      ensures Before(order, v, u) <==> v in p.picks && u in p.picks[v]
    {
      if Before(order, v, u) { BackwardWasPicked(nodes, out, p, u, v); }
      if v in p.picks && u in p.picks[v] { PickedIsBackward(nodes, p, u, v); }
    }
    HalfBound(nodes, out, p);
    if HasCycle(out) {
      var c :| IsCycle(AsGraph(out), c);
      CycleHasBackward(nodes, out, order, c);
      var i, j :| 0 <= i && j == i + 1 < |c| && Backward(out, order, c[i], c[j]);
      assert (c[i], c[j]) in AllBackward(nodes, out, order);
    } else {
      forall e | e in AllBackward(nodes, out, order) ensures false {
        BackwardWasPicked(nodes, out, p, e.0, e.1);
      }
    }
  }

  lemma StartPlan<V(!new)>(nodes: seq<V>, out: Edges<V>)
    ensures PlanInv(nodes, out, Plan([], set n | n in nodes, [], map[]))
  {
    var none: map<V, set<V>> := map[];
    assert BackPairs(none) == {} && ForwardPairs(none) == {};
  }

  // ----- eades_order -----

  method PeelSinks<V(==, !new)>(nodes: seq<V>, out: Edges<V>, rem0: set<V>, right0: seq<V>, ghost p: Plan<V>)
    returns (rem: set<V>, right: seq<V>, changed: bool)
    requires WellFormed(nodes, out) && PlanInv(nodes, out, p) && p.rem == rem0 && p.right == right0
    ensures PlanInv(nodes, out, p.(rem := rem, right := right)) && rem <= rem0
    ensures changed ==> rem < rem0
    ensures !changed ==> rem == rem0 && right == right0 && NoSinks(out, rem)
  {
    hide PlanInv;
    rem, right, changed := rem0, right0, false;
    assert p == p.(rem := rem, right := right);
    var todo := rem0;
    while todo != {}
      invariant todo <= rem <= rem0 && (changed ==> rem < rem0)
      invariant PlanInv(nodes, out, p.(rem := rem, right := right))
      invariant !changed ==> rem == rem0 && right == right0
      invariant !changed ==>
                  forall n {:trigger IsSink(out, rem, n)} :: n in rem - todo && n in out ==> !IsSink(out, rem, n)
    {
      var n :| n in todo;
      todo := todo - {n};
      InNodes(nodes, out, p.(rem := rem, right := right), n);
      if IsSink(out, rem, n) {
        SinkStep(nodes, out, p.(rem := rem, right := right), n);
        right := [n] + right;
        rem := rem - {n};
        changed := true;
      }
    }
  }

  lemma InNodes<V(!new)>(nodes: seq<V>, out: Edges<V>, p: Plan<V>, n: V)
    requires WellFormed(nodes, out) && PlanInv(nodes, out, p) && n in p.rem
    ensures n in nodes && n in out
  {
  }

  lemma AllHaveRows<V(!new)>(nodes: seq<V>, out: Edges<V>, p: Plan<V>)
    requires WellFormed(nodes, out) && PlanInv(nodes, out, p)
    ensures forall n :: n in p.rem ==> n in out
  {
  }

  method PeelSources<V(==, !new)>(nodes: seq<V>, out: Edges<V>, rem0: set<V>, left0: seq<V>, ghost p: Plan<V>)
    returns (rem: set<V>, left: seq<V>, changed: bool)
    requires WellFormed(nodes, out) && PlanInv(nodes, out, p) && p.rem == rem0 && p.left == left0
    ensures PlanInv(nodes, out, p.(rem := rem, left := left)) && rem <= rem0
    ensures changed ==> rem < rem0
    ensures !changed ==> rem == rem0 && left == left0 && NoSources(nodes, out, rem)
  {
    hide PlanInv;
    rem, left, changed := rem0, left0, false;
    assert p == p.(rem := rem, left := left);
    var todo := rem0;
    while todo != {}
      invariant todo <= rem <= rem0 && (changed ==> rem < rem0)
      invariant PlanInv(nodes, out, p.(rem := rem, left := left))
      invariant !changed ==> rem == rem0 && left == left0
      invariant !changed ==>
                  forall n {:trigger IsSource(nodes, out, rem, n)} ::
                    n in rem - todo ==> !IsSource(nodes, out, rem, n)
    {
      var n :| n in todo;
      todo := todo - {n};
      if IsSource(nodes, out, rem, n) {
        SourceStep(nodes, out, p.(rem := rem, left := left), n);
        left := left + [n];
        rem := rem - {n};
        changed := true;
      }
    }
  }

  /** `max(remaining, key=score)` */
  method BestScore<V(==, !new)>(nodes: seq<V>, out: Edges<V>, rem: set<V>) returns (pick: V)
    requires rem != {}
    ensures pick in rem
    ensures forall n :: n in rem ==> Score(nodes, out, n, rem) <= Score(nodes, out, pick, rem)
  {
    pick :| pick in rem;
    var todo := rem - {pick};
    while todo != {}
      invariant todo <= rem && pick in rem
      invariant forall n :: n in rem - todo ==> Score(nodes, out, n, rem) <= Score(nodes, out, pick, rem)
    {
      var n :| n in todo;
      if Score(nodes, out, n, rem) > Score(nodes, out, pick, rem) {
        pick := n;
      }
      todo := todo - {n};
    }
  }

  method EadesOrder<V(==, !new)>(nodes: seq<V>, out: Edges<V>) returns (order: seq<V>, ghost picks: map<V, set<V>>)
    requires WellFormed(nodes, out)
    ensures GoodOrder(nodes, out, order)
    ensures Explained(nodes, out, order, picks)
  {
    var left, rem, right := [], (set n | n in nodes), [];
    picks := map[];
    hide PlanInv;
    StartPlan(nodes, out);
    while rem != {}
      invariant PlanInv(nodes, out, Plan(left, rem, right, picks))
      decreases rem
    {
      var changed := true;
      while changed
        invariant PlanInv(nodes, out, Plan(left, rem, right, picks))
        invariant !changed ==> NoSinks(out, rem) && NoSources(nodes, out, rem)
        decreases rem, changed
      {
        var sinks, sources;
        rem, right, sinks := PeelSinks(nodes, out, rem, right, Plan(left, rem, right, picks));
        rem, left, sources := PeelSources(nodes, out, rem, left, Plan(left, rem, right, picks));
        changed := sinks || sources;
      }
      if rem == {} {
        break;
      }
      var pick := BestScore(nodes, out, rem);
      AllHaveRows(nodes, out, Plan(left, rem, right, picks));
      NoEndsLeft(nodes, out, rem);
      PickStep(nodes, out, Plan(left, rem, right, picks), pick);
      left := left + [pick];
      picks := picks[pick := rem - {pick}];
      rem := rem - {pick};
    }
    FinishedOrder(nodes, out, Plan(left, rem, right, picks));
    order := left + right;
  }

  // ----- the feedback arc set reported from the order -----

  lemma {:induction false} OneRow<V>(vs: seq<V>, out: Edges<V>, u: V, v: V, x: V)
    requires Distinct(vs) && v in vs
    ensures Row(vs, out, {(u, v)}, x) == if x == u then W(out, u, v) else 0
  {
    if vs[0] == v {
      RowElsewhere(vs[1..], out, {(u, v)}, x);
    } else {
      OneRow(vs[1..], out, u, v, x);
    }
  }

  lemma {:induction false} OnePair<V>(us: seq<V>, vs: seq<V>, out: Edges<V>, u: V, v: V)
    requires Distinct(us) && Distinct(vs) && v in vs
    ensures Weight(us, vs, out, {(u, v)}) == if u in us then W(out, u, v) else 0
  {
    if us != [] {
      OneRow(vs, out, u, v, us[0]);
      OnePair(us[1..], vs, out, u, v);
      assert us[0] == u ==> u !in us[1..];
    }
  }

  ghost function Pairs<V>(back: seq<(nat, V, V)>): set<(V, V)> {
    set e | e in back :: (e.1, e.2)
  }

  /** The listed edges are the backward ones, each once and with its weight, and total their weight. */
  ghost predicate Reports<V>(nodes: seq<V>, out: Edges<V>, back: seq<(nat, V, V)>, total: nat, edges: set<(V, V)>) {
    && Pairs(back) == edges
    && (forall e :: e in back ==> e.0 == W(out, e.1, e.2))
    && (forall i, j :: 0 <= i < j < |back| ==> (back[i].1, back[i].2) != (back[j].1, back[j].2))
    && total == Weight(nodes, nodes, out, edges)
  }

  lemma NothingReported<V>(nodes: seq<V>, out: Edges<V>)
    ensures Reports(nodes, out, [], 0, {})
  {
    EmptyWeight(nodes, nodes, out);
  }

  lemma ReportOne<V>(nodes: seq<V>, out: Edges<V>, back: seq<(nat, V, V)>, total: nat, edges: set<(V, V)>, u: V, v: V)
    requires Reports(nodes, out, back, total, edges) && Distinct(nodes) && u in nodes && v in nodes
    requires (u, v) !in edges
    ensures Reports(nodes, out, back + [(W(out, u, v), u, v)], total + W(out, u, v), edges + {(u, v)})
  {
    WeightAdd(nodes, nodes, out, edges, {(u, v)});
    OnePair(nodes, nodes, out, u, v);
    var back' := back + [(W(out, u, v), u, v)];
    assert forall e :: e in back' <==> e in back || e == (W(out, u, v), u, v);
    assert Pairs(back') == edges + {(u, v)};
    forall i, j | 0 <= i < j < |back'|
      ensures (back'[i].1, back'[i].2) != (back'[j].1, back'[j].2)
    {
      assert back[i] in back;
    }
  }

  function Position<V(==)>(order: seq<V>, x: V): (i: nat)
    requires x in order
    ensures i < |order| && order[i] == x
  {
    if order[0] == x then 0 else 1 + Position(order[1..], x)
  }

  /** The backward edges found once the first k rows are done and `todo` is left of the next one. */
  ghost function Found<V>(nodes: seq<V>, out: Edges<V>, order: seq<V>, k: nat, todo: set<V>): set<(V, V)>
    requires k <= |nodes|
  {
    set e | e in AllBackward(nodes, out, order)
            && (e.0 in nodes[..k] || (k < |nodes| && e.0 == nodes[k] && e.1 !in todo))
  }

  lemma FoundStep<V>(nodes: seq<V>, out: Edges<V>, order: seq<V>, k: nat, todo: set<V>, v: V)
    requires WellFormed(nodes, out) && Distinct(order) && (forall x :: x in nodes ==> x in order)
    requires k < |nodes| && v in todo && v in out[nodes[k]]
    ensures v in nodes && (nodes[k], v) !in Found(nodes, out, order, k, todo)
    ensures Found(nodes, out, order, k, todo - {v})
         == if Position(order, v) < Position(order, nodes[k]) then Found(nodes, out, order, k, todo) + {(nodes[k], v)}
            else Found(nodes, out, order, k, todo)
  {
    var u := nodes[k];
    assert u !in nodes[..k];
    assert Before(order, v, u) <==> Position(order, v) < Position(order, u);
    assert (u, v) in AllBackward(nodes, out, order) <==> Before(order, v, u);
    hide AllBackward;
  }

  /** A new row starts with all its edges to do, and is done when none is left. */
  lemma FoundRow<V>(nodes: seq<V>, out: Edges<V>, order: seq<V>, k: nat)
    requires WellFormed(nodes, out) && k < |nodes|
    ensures Found(nodes, out, order, k, out[nodes[k]].Keys) == Found(nodes, out, order, k, (set x | x in nodes))
    ensures Found(nodes, out, order, k, {}) == Found(nodes, out, order, k + 1, (set x | x in nodes))
  {
    assert nodes[..k + 1] == nodes[..k] + [nodes[k]];
    assert forall e :: e in AllBackward(nodes, out, order) ==> e.1 in nodes && Edge(out, e.0, e.1);
    hide AllBackward;
  }

  lemma FoundEnds<V>(nodes: seq<V>, out: Edges<V>, order: seq<V>)
    ensures Found(nodes, out, order, 0, (set x | x in nodes)) == {}
    ensures Found(nodes, out, order, |nodes|, (set x | x in nodes)) == AllBackward(nodes, out, order)
  {
    assert nodes[..|nodes|] == nodes;
  }

  method BackEdges<V(==, !new)>(nodes: seq<V>, out: Edges<V>, order: seq<V>)
    returns (back: seq<(nat, V, V)>, total: nat)
    requires WellFormed(nodes, out) && Distinct(order) && forall x :: x in nodes ==> x in order
    ensures Reports(nodes, out, back, total, AllBackward(nodes, out, order))
  {
    hide Reports, Found, AllBackward, Distinct;
    back, total := [], 0;
    NothingReported(nodes, out);
    FoundEnds(nodes, out, order);
    for k := 0 to |nodes|
      invariant Reports(nodes, out, back, total, Found(nodes, out, order, k, (set x | x in nodes)))
    {
      var u := nodes[k];
      var todo := out[u].Keys;
      FoundRow(nodes, out, order, k);
      while todo != {}
        invariant todo <= out[u].Keys && Reports(nodes, out, back, total, Found(nodes, out, order, k, todo))
      {
        var v :| v in todo;
        FoundStep(nodes, out, order, k, todo, v);
        if Position(order, v) < Position(order, u) {
          ReportOne(nodes, out, back, total, Found(nodes, out, order, k, todo), u, v);
          back := back + [(out[u][v], u, v)];
          total := total + out[u][v];
        }
        todo := todo - {v};
      }
    }
  }
}
