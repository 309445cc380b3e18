/**
 Tarjan's strongly connected components over the module dependency graph
 (scripts/analyze_root_crate.py). The proofs speak about value snapshots of the
 mutable fields; `gray` is the set of vertices whose call is still open.
 */
module Tarjan {
  import opened Graphs

  datatype Snap<V> = Snap(index: map<V, nat>, stack: seq<V>, done: seq<seq<V>>, counter: nat)

  ghost function Emitted<V>(done: seq<seq<V>>): set<V> {
    set c, x | c in done && x in c :: x
  }

  // ----- what a list of components must satisfy -----

  ghost predicate NoDuplicates<V>(done: seq<seq<V>>) {
    && (forall k :: 0 <= k < |done| ==> |done[k]| > 0)
    && (forall k, i, j :: 0 <= k < |done| && 0 <= i < j < |done[k]| ==> done[k][i] != done[k][j])
    && (forall k, l, x :: 0 <= k < l < |done| && x in done[k] ==> x !in done[l])
  }

  ghost predicate MutuallyReachable<V(!new)>(g: Graph<V>, done: seq<seq<V>>) {
    forall k, x, y :: 0 <= k < |done| && x in done[k] && y in done[k] ==> Reach(g, x, y)
  }

  /** Every successor of component k lies in component k or in an earlier one. */
  ghost predicate LeavesFirst<V>(g: Graph<V>, done: seq<seq<V>>) {
    forall k, u, w :: 0 <= k < |done| && u in done[k] && w in Succ(g, u) ==> w in Emitted(done[..k + 1])
  }

  ghost predicate Components<V(!new)>(g: Graph<V>, done: seq<seq<V>>) {
    NoDuplicates(done) && MutuallyReachable(g, done) && LeavesFirst(g, done)
  }

  // ----- the search invariant -----

  ghost predicate Ordered<V>(s: Snap<V>) {
    && (forall x :: x in s.stack ==> x in s.index)
    && (forall i, j :: 0 <= i < j < |s.stack| ==> s.index[s.stack[i]] < s.index[s.stack[j]])
    && (forall x :: x in s.index ==> s.index[x] < s.counter)
  }

  /** Visited vertices are on the stack or emitted, never both. */
  ghost predicate Split<V(!new)>(s: Snap<V>) {
    && (forall x :: x in s.index <==> x in s.stack || x in Emitted(s.done))
    && (forall x :: x in s.stack ==> x !in Emitted(s.done))
  }

  ghost predicate BlackClosed<V>(g: Graph<V>, s: Snap<V>, gray: set<V>) {
    && (forall x :: x in gray ==> x in s.stack)
    && (forall x, w :: x in s.index && x !in gray && w in Succ(g, x) ==> w in s.index)
  }

  ghost predicate GrayReachesUp<V(!new)>(g: Graph<V>, s: Snap<V>, gray: set<V>)
    requires Ordered(s)
    requires forall x :: x in gray ==> x in s.stack
  {
    forall x, y :: x in gray && y in s.stack && s.index[x] <= s.index[y] ==> Reach(g, x, y)
  }

  ghost predicate Anchored<V(!new)>(g: Graph<V>, s: Snap<V>, gray: set<V>, y: V)
    requires Ordered(s) && y in s.stack
    requires forall x :: x in gray ==> x in s.stack
  {
    exists x :: x in gray && s.index[x] <= s.index[y] && Reach(g, y, x)
  }

  ghost predicate AllAnchored<V(!new)>(g: Graph<V>, s: Snap<V>, gray: set<V>)
    requires Ordered(s)
    requires forall x :: x in gray ==> x in s.stack
  {
    forall y {:trigger Anchored(g, s, gray, y)} :: y in s.stack ==> Anchored(g, s, gray, y)
  }

  ghost predicate Inv<V(!new)>(g: Graph<V>, s: Snap<V>, gray: set<V>) {
    && Ordered(s) && Split(s) && BlackClosed(g, s, gray)
    && Components(g, s.done)
    && s.index.Keys <= Vertices(g)
    && GrayReachesUp(g, s, gray)
    && AllAnchored(g, s, gray)
  }

  /** What a call may do to the state it was given. */
  ghost predicate Extends<V>(s: Snap<V>, t: Snap<V>) {
    && (forall x :: x in s.index ==> x in t.index && t.index[x] == s.index[x])
    && s.stack <= t.stack
    && s.done <= t.done
    && s.counter <= t.counter
  }

  /** Edges from the stack segment above `base` down into `base` stay at or above `low`. */
  ghost predicate LowBounds<V>(g: Graph<V>, t: Snap<V>, base: nat, low: nat)
    requires Ordered(t) && base <= |t.stack|
  {
    forall i, j :: 0 <= i < base <= j < |t.stack| && t.stack[i] in Succ(g, t.stack[j]) ==> low <= t.index[t.stack[i]]
  }

  /** `low` is the index of a vertex still on the stack that v reaches. */
  ghost predicate LowWitness<V(!new)>(g: Graph<V>, t: Snap<V>, v: V, low: nat)
    requires Ordered(t)
  {
    exists y :: y in t.stack && t.index[y] == low && Reach(g, v, y)
  }

  ghost function Push<V>(s: Snap<V>, v: V): Snap<V> {
    Snap(s.index[v := s.counter], s.stack + [v], s.done, s.counter + 1)
  }

  lemma PushShape<V(!new)>(g: Graph<V>, s: Snap<V>, gray: set<V>, v: V)
    requires Ordered(s) && Split(s) && BlackClosed(g, s, gray) && v !in s.index
    ensures Ordered(Push(s, v)) && Split(Push(s, v)) && BlackClosed(g, Push(s, v), gray + {v})
    ensures Extends(s, Push(s, v))
  {
  }

  lemma PushReach<V(!new)>(g: Graph<V>, s: Snap<V>, gray: set<V>, v: V)
    requires Ordered(s) && BlackClosed(g, s, gray) && v !in s.index
    requires GrayReachesUp(g, s, gray)
    requires AllAnchored(g, s, gray)
    requires Ordered(Push(s, v)) && BlackClosed(g, Push(s, v), gray + {v})
    requires forall x :: x in gray ==> Reach(g, x, v)
    ensures GrayReachesUp(g, Push(s, v), gray + {v})
    ensures AllAnchored(g, Push(s, v), gray + {v})
  {
    var t := Push(s, v);
    ReachSelf(g, v);
    forall x, y | x in gray + {v} && y in t.stack && t.index[x] <= t.index[y]
      ensures Reach(g, x, y)
    {
      assert y == v || y in s.stack;
    }
    forall y | y in t.stack
      ensures Anchored(g, t, gray + {v}, y)
    {
      if y == v {
        assert v in gray + {v};
      } else {
        assert y in s.stack && Anchored(g, s, gray, y);
        var x :| x in gray && s.index[x] <= s.index[y] && Reach(g, y, x);
        assert x in gray + {v};
      }
    }
  }

  lemma PushInv<V(!new)>(g: Graph<V>, s: Snap<V>, gray: set<V>, v: V)
    requires Inv(g, s, gray) && v in Vertices(g) && v !in s.index
    requires forall x :: x in gray ==> Reach(g, x, v)
    ensures Inv(g, Push(s, v), gray + {v}) && Extends(s, Push(s, v))
    ensures LowWitness(g, Push(s, v), v, s.counter)
  {
    PushShape(g, s, gray, v);
    PushReach(g, s, gray, v);
    ReachSelf(g, v);
    var t := Push(s, v);
    assert t.stack[|s.stack|] == v;
  }

  // ----- closing a vertex whose component continues below it -----

  lemma AnchorBelow<V(!new)>(g: Graph<V>, s: Snap<V>, gray: set<V>, v: V, low: nat, y: V)
    requires Ordered(s) && v in s.stack && y in s.stack
    requires forall x :: x in gray ==> x in s.stack
    requires AllAnchored(g, s, gray + {v})
    requires LowWitness(g, s, v, low) && low < s.index[v]
    ensures Anchored(g, s, gray, y)
  {
    assert Anchored(g, s, gray + {v}, y);
    var x :| x in gray + {v} && s.index[x] <= s.index[y] && Reach(g, y, x);
    if x == v {
      var u :| u in s.stack && s.index[u] == low && Reach(g, v, u);
      assert Anchored(g, s, gray + {v}, u);
      var z :| z in gray + {v} && s.index[z] <= s.index[u] && Reach(g, u, z);
      ReachTrans(g, y, v, u);
      ReachTrans(g, y, u, z);
      assert z in gray;
    }
  }

  lemma AnchorAllBelow<V(!new)>(g: Graph<V>, s: Snap<V>, gray: set<V>, v: V, low: nat)
    requires Ordered(s) && v in s.stack
    requires forall x :: x in gray ==> x in s.stack
    requires AllAnchored(g, s, gray + {v})
    requires LowWitness(g, s, v, low) && low < s.index[v]
    ensures AllAnchored(g, s, gray)
  {
    forall y | y in s.stack ensures Anchored(g, s, gray, y) {
      AnchorBelow(g, s, gray, v, low, y);
    }
  }

  lemma GrayShrinks<V(!new)>(g: Graph<V>, s: Snap<V>, gray: set<V>, v: V)
    requires Ordered(s) && BlackClosed(g, s, gray + {v}) && GrayReachesUp(g, s, gray + {v})
    requires v in s.stack && Succ(g, v) <= s.index.Keys
    ensures BlackClosed(g, s, gray) && GrayReachesUp(g, s, gray)
  {
  }

  lemma KeepBlack<V(!new)>(g: Graph<V>, s: Snap<V>, gray: set<V>, v: V, low: nat)
    requires Inv(g, s, gray + {v}) && v in s.stack
    requires Succ(g, v) <= s.index.Keys
    requires LowWitness(g, s, v, low) && low < s.index[v]
    ensures Inv(g, s, gray)
  {
    GrayShrinks(g, s, gray, v);
    AnchorAllBelow(g, s, gray, v, low);
  }

  // ----- closing a vertex that is the root of its component -----

  ghost function Pop<V>(s: Snap<V>, p: nat, comp: seq<V>): Snap<V>
    requires p <= |s.stack|
  {
    Snap(s.index, s.stack[..p], s.done + [comp], s.counter)
  }

  /** `comp` lists the stack from the top down to position p. */
  ghost predicate IsReversedTop<V>(stack: seq<V>, p: nat, comp: seq<V>)
    requires p <= |stack|
  {
    && |comp| == |stack| - p
    && forall i :: 0 <= i < |comp| ==> comp[i] == stack[|stack| - 1 - i]
  }

  lemma TopMembers<V>(stack: seq<V>, p: nat, comp: seq<V>, x: V)
    requires p <= |stack| && IsReversedTop(stack, p, comp)
    ensures x in comp <==> x in stack[p..]
  {
    if x in stack[p..] {
      var j :| 0 <= j < |stack| - p && stack[p..][j] == x;
      assert comp[|stack| - p - 1 - j] == x;
    }
    if x in comp {
      var i :| 0 <= i < |comp| && comp[i] == x;
      assert stack[p..][|stack| - p - 1 - i] == x;
    }
  }

  lemma EmittedAppend<V>(done: seq<seq<V>>, comp: seq<V>)
    ensures Emitted(done + [comp]) == Emitted(done) + set x | x in comp
  {
  }

  lemma ComponentStronglyConnected<V(!new)>(g: Graph<V>, s: Snap<V>, gray: set<V>, v: V, x: V, y: V)
    requires Ordered(s) && v in s.stack && BlackClosed(g, s, gray + {v})
    requires GrayReachesUp(g, s, gray + {v}) && AllAnchored(g, s, gray + {v})
    requires forall u :: u in gray ==> s.index[u] < s.index[v]
    requires x in s.stack && y in s.stack && s.index[v] <= s.index[x] && s.index[v] <= s.index[y]
    ensures Reach(g, x, y)
  {
    assert Anchored(g, s, gray + {v}, x);
    var a :| a in gray + {v} && s.index[a] <= s.index[x] && Reach(g, x, a);
    assert v in gray + {v};
    assert Reach(g, a, v);
    assert Reach(g, v, y);
    ReachTrans(g, x, a, v);
    ReachTrans(g, x, v, y);
  }

  lemma PopMembers<V(!new)>(s: Snap<V>, p: nat, comp: seq<V>, x: V)
    requires Ordered(s) && p <= |s.stack| && IsReversedTop(s.stack, p, comp)
    ensures x in s.stack <==> x in s.stack[..p] || x in comp
    ensures x in s.stack[..p] ==> x !in comp
  {
    TopMembers(s.stack, p, comp, x);
    assert s.stack == s.stack[..p] + s.stack[p..];
  }

  lemma PopSplit<V(!new)>(s: Snap<V>, p: nat, comp: seq<V>)
    requires Ordered(s) && Split(s) && p < |s.stack| && IsReversedTop(s.stack, p, comp)
    ensures Ordered(Pop(s, p, comp)) && Split(Pop(s, p, comp))
  {
    EmittedAppend(s.done, comp);
    forall x ensures x in s.stack <==> x in s.stack[..p] || x in comp {
      PopMembers(s, p, comp, x);
    }
    forall x | x in s.stack[..p] ensures x !in comp {
      PopMembers(s, p, comp, x);
    }
    hide IsReversedTop, Emitted;
  }

  lemma PopShape<V(!new)>(g: Graph<V>, s: Snap<V>, gray: set<V>, v: V, p: nat, comp: seq<V>)
    requires Ordered(s) && Split(s) && BlackClosed(g, s, gray + {v})
    requires p < |s.stack| && s.stack[p] == v && IsReversedTop(s.stack, p, comp)
    requires forall u :: u in gray ==> s.index[u] < s.index[v]
    requires Succ(g, v) <= s.index.Keys
    ensures Ordered(Pop(s, p, comp)) && Split(Pop(s, p, comp)) && BlackClosed(g, Pop(s, p, comp), gray)
  {
    hide Split, IsReversedTop;
    PopSplit(s, p, comp);
    forall x | x in gray ensures x in s.stack[..p] {
      assert x in gray + {v};
      var i :| 0 <= i < |s.stack| && s.stack[i] == x;
      assert s.stack[..p][i] == x;
    }
  }

  lemma PopReach<V(!new)>(g: Graph<V>, s: Snap<V>, gray: set<V>, v: V, p: nat, comp: seq<V>)
    requires Ordered(s) && BlackClosed(g, s, gray + {v})
    requires p < |s.stack| && s.stack[p] == v
    requires GrayReachesUp(g, s, gray + {v}) && AllAnchored(g, s, gray + {v})
    requires Ordered(Pop(s, p, comp)) && BlackClosed(g, Pop(s, p, comp), gray)
    ensures GrayReachesUp(g, Pop(s, p, comp), gray) && AllAnchored(g, Pop(s, p, comp), gray)
  {
    var t := Pop(s, p, comp);
    forall x, y | x in gray && y in t.stack && t.index[x] <= t.index[y]
      ensures Reach(g, x, y)
    {
      assert x in gray + {v} && y in s.stack;
    }
    forall y | y in t.stack
      ensures Anchored(g, t, gray, y)
    {
      assert y in s.stack && Anchored(g, s, gray + {v}, y);
      var x :| x in gray + {v} && s.index[x] <= s.index[y] && Reach(g, y, x);
      var i :| 0 <= i < p && s.stack[i] == y;
      assert x != v;
    }
  }

  lemma PopNoDuplicates<V(!new)>(s: Snap<V>, p: nat, comp: seq<V>)
    requires Ordered(s) && Split(s) && NoDuplicates(s.done)
    requires p < |s.stack| && IsReversedTop(s.stack, p, comp)
    ensures NoDuplicates(s.done + [comp])
  {
    var done := s.done + [comp];
    forall k, l, x | 0 <= k < l < |done| && x in done[k]
      ensures x !in done[l]
    {
      if l == |s.done| {
        assert done[k] in s.done && x in Emitted(s.done);
        TopMembers(s.stack, p, comp, x);
      }
    }
  }

  lemma PopMutual<V(!new)>(g: Graph<V>, s: Snap<V>, gray: set<V>, v: V, p: nat, comp: seq<V>)
    requires Ordered(s) && BlackClosed(g, s, gray + {v}) && MutuallyReachable(g, s.done)
    requires p < |s.stack| && s.stack[p] == v && IsReversedTop(s.stack, p, comp)
    requires forall u :: u in gray ==> s.index[u] < s.index[v]
    requires GrayReachesUp(g, s, gray + {v}) && AllAnchored(g, s, gray + {v})
    ensures MutuallyReachable(g, s.done + [comp])
  {
    var done := s.done + [comp];
    forall k, x, y | 0 <= k < |done| && x in done[k] && y in done[k]
      ensures Reach(g, x, y)
    {
      if k == |s.done| {
        var i :| 0 <= i < |comp| && comp[i] == x;
        var j :| 0 <= j < |comp| && comp[j] == y;
        ComponentStronglyConnected(g, s, gray, v, x, y);
      }
    }
  }

  lemma PopLeavesFirst<V(!new)>(g: Graph<V>, s: Snap<V>, gray: set<V>, v: V, p: nat, comp: seq<V>)
    requires Ordered(s) && Split(s) && BlackClosed(g, s, gray + {v}) && LeavesFirst(g, s.done)
    requires p < |s.stack| && s.stack[p] == v && IsReversedTop(s.stack, p, comp)
    requires forall u :: u in gray ==> s.index[u] < s.index[v]
    requires Succ(g, v) <= s.index.Keys
    requires LowBounds(g, s, p, s.index[v])
    ensures LeavesFirst(g, s.done + [comp])
  {
    var done := s.done + [comp];
    EmittedAppend(s.done, comp);
    forall k, u, w | 0 <= k < |done| && u in done[k] && w in Succ(g, u)
      ensures w in Emitted(done[..k + 1])
    {
      if k < |s.done| {
        assert done[..k + 1] == s.done[..k + 1];
      } else {
        assert done[..k + 1] == done;
        TopMembers(s.stack, p, comp, w);
        var j :| 0 <= j < |comp| && comp[j] == u;
        assert u in s.stack && s.index[v] <= s.index[u];
        assert w in s.index;
        if w !in Emitted(s.done) {
          var i :| 0 <= i < |s.stack| && s.stack[i] == w;
          assert i >= p;
          assert s.stack[p..][i - p] == w;
        }
      }
    }
  }

  lemma PopInv<V(!new)>(g: Graph<V>, s: Snap<V>, gray: set<V>, v: V, p: nat, comp: seq<V>)
    requires Inv(g, s, gray + {v})
    requires p < |s.stack| && s.stack[p] == v && IsReversedTop(s.stack, p, comp)
    requires forall u :: u in gray ==> s.index[u] < s.index[v]
    requires Succ(g, v) <= s.index.Keys
    requires LowBounds(g, s, p, s.index[v])
    ensures Inv(g, Pop(s, p, comp), gray)
  {
    PopShape(g, s, gray, v, p, comp);
    PopReach(g, s, gray, v, p, comp);
    PopNoDuplicates(s, p, comp);
    PopMutual(g, s, gray, v, p, comp);
    PopLeavesFirst(g, s, gray, v, p, comp);
  }

  // ----- one call of strongconnect, step by step -----

  ghost predicate CallPost<V(!new)>(g: Graph<V>, s: Snap<V>, t: Snap<V>, gray: set<V>, v: V, low: nat) {
    && Inv(g, t, gray) && Extends(s, t)
    && v in t.index && t.index[v] == s.counter && low <= t.index[v]
    && (LowWitness(g, t, v, low) || (v in Emitted(t.done) && low == t.index[v]))
    && LowBounds(g, t, |s.stack|, low)
  }

  /** `LowBounds`, leaving out the edges of v that the loop has not looked at. */
  ghost predicate LowBoundsSoFar<V>(g: Graph<V>, t: Snap<V>, base: nat, low: nat, v: V, todo: set<V>)
    requires Ordered(t) && base <= |t.stack|
  {
    forall i, j ::
      && 0 <= i < base <= j < |t.stack| && t.stack[i] in Succ(g, t.stack[j])
      && !(t.stack[j] == v && t.stack[i] in todo)
      ==> low <= t.index[t.stack[i]]
  }

  ghost predicate LoopInv<V(!new)>(g: Graph<V>, s: Snap<V>, t: Snap<V>, gray: set<V>, v: V, todo: set<V>, low: nat) {
    && Inv(g, t, gray + {v}) && Extends(Push(s, v), t)
    && (forall x :: x in gray ==> x in t.index && t.index[x] < s.counter)
    && low <= s.counter && LowWitness(g, t, v, low)
    && Succ(g, v) - todo <= t.index.Keys
    && LowBoundsSoFar(g, t, |s.stack|, low, v, todo)
  }

  lemma LoopStart<V(!new)>(g: Graph<V>, s: Snap<V>, gray: set<V>, v: V)
    requires Inv(g, s, gray) && v in Vertices(g) && v !in s.index
    requires forall x :: x in gray ==> Reach(g, x, v)
    ensures LoopInv(g, s, Push(s, v), gray, v, Succ(g, v), s.counter)
  {
    PushInv(g, s, gray, v);
  }

  lemma GrayReachesChild<V(!new)>(g: Graph<V>, t: Snap<V>, gray: set<V>, v: V, w: V, x: V)
    requires Ordered(t) && BlackClosed(g, t, gray + {v}) && GrayReachesUp(g, t, gray + {v})
    requires forall u :: u in gray ==> u in t.index && t.index[u] < t.index[v]
    requires v in t.stack && w in Succ(g, v) && x in gray + {v}
    ensures Reach(g, x, w)
  {
    assert v in gray + {v};
    ReachEdge(g, v, w);
    ReachTrans(g, x, v, w);
  }

  lemma CallAllowed<V(!new)>(g: Graph<V>, s: Snap<V>, t: Snap<V>, gray: set<V>, v: V, todo: set<V>, low: nat, w: V)
    requires LoopInv(g, s, t, gray, v, todo, low) && w in Succ(g, v)
    ensures Inv(g, t, gray + {v}) && w in Vertices(g)
    ensures forall x :: x in gray + {v} ==> Reach(g, x, w)
  {
    assert t.stack[|s.stack|] == v;
    forall x | x in gray + {v} ensures Reach(g, x, w) {
      GrayReachesChild(g, t, gray, v, w, x);
    }
  }

  function Min(a: nat, b: nat): nat { if a <= b then a else b }

  /** `w` was unvisited and its call has returned in state t' with lowlink low'. */
  lemma StepCall<V(!new)>(g: Graph<V>, s: Snap<V>, t: Snap<V>, gray: set<V>, v: V, todo: set<V>, low: nat,
                          w: V, t': Snap<V>, low': nat)
    requires LoopInv(g, s, t, gray, v, todo, low) && w in Succ(g, v) && w !in t.index
    requires CallPost(g, t, t', gray + {v}, w, low')
    ensures LoopInv(g, s, t', gray, v, todo - {w}, Min(low, low'))
  {
    StepCallBounds(g, s, t, v, todo, low, w, t', low');
    StepCallWitness(g, s, t, v, low, w, t', low');
  }

  lemma StepCallBounds<V(!new)>(g: Graph<V>, s: Snap<V>, t: Snap<V>, v: V, todo: set<V>, low: nat,
                                w: V, t': Snap<V>, low': nat)
    requires Ordered(t) && Ordered(t') && Extends(Push(s, v), t) && Extends(t, t') && w !in t.index
    requires LowBoundsSoFar(g, t, |s.stack|, low, v, todo) && LowBounds(g, t', |t.stack|, low')
    ensures LowBoundsSoFar(g, t', |s.stack|, Min(low, low'), v, todo - {w})
  {
  }

  lemma StepCallWitness<V(!new)>(g: Graph<V>, s: Snap<V>, t: Snap<V>, v: V, low: nat, w: V, t': Snap<V>, low': nat)
    requires Ordered(t) && Ordered(t') && Extends(Push(s, v), t) && Extends(t, t') && w in Succ(g, v)
    requires low <= s.counter && LowWitness(g, t, v, low)
    requires w in t'.index && t'.index[w] == t.counter
    requires LowWitness(g, t', w, low') || low' == t'.index[w]
    ensures LowWitness(g, t', v, Min(low, low'))
  {
    if low <= low' {
      var y :| y in t.stack && t.index[y] == low && Reach(g, v, y);
      assert y in t'.stack;
    } else {
      var y :| y in t'.stack && t'.index[y] == low' && Reach(g, w, y);
      ReachEdge(g, v, w);
      ReachTrans(g, v, w, y);
    }
  }

  /** `w` is visited: lowlink takes its index when it is still on the stack. */
  lemma StepVisited<V(!new)>(g: Graph<V>, s: Snap<V>, t: Snap<V>, gray: set<V>, v: V, todo: set<V>, low: nat, w: V)
    requires LoopInv(g, s, t, gray, v, todo, low) && w in Succ(g, v) && w in t.index
    ensures LoopInv(g, s, t, gray, v, todo - {w}, if w in t.stack then Min(low, t.index[w]) else low)
  {
    if w in t.stack && t.index[w] < low {
      ReachEdge(g, v, w);
      assert LowWitness(g, t, v, t.index[w]);
    }
    forall i, j | 0 <= i < |s.stack| <= j < |t.stack| && t.stack[i] in Succ(g, t.stack[j])
                  && !(t.stack[j] == v && t.stack[i] in todo - {w})
      ensures (if w in t.stack then Min(low, t.index[w]) else low) <= t.index[t.stack[i]]
    {
    }
  }

  lemma ExtendsPush<V(!new)>(s: Snap<V>, t: Snap<V>, v: V)
    requires Extends(Push(s, v), t) && v !in s.index
    ensures Extends(s, t) && v in t.index && t.index[v] == s.counter
    ensures |s.stack| < |t.stack| && t.stack[|s.stack|] == v && t.stack[..|s.stack|] == s.stack
  {
  }

  lemma LoopShape<V(!new)>(g: Graph<V>, s: Snap<V>, t: Snap<V>, gray: set<V>, v: V, todo: set<V>, low: nat)
    requires LoopInv(g, s, t, gray, v, todo, low) && v !in s.index
    ensures v in t.index && t.index[v] == s.counter
    ensures |s.stack| < |t.stack| && t.stack[|s.stack|] == v
    ensures forall i, j :: 0 <= i < j < |t.stack| ==> t.stack[i] != t.stack[j]
  {
  }

  lemma BoundsComplete<V>(g: Graph<V>, t: Snap<V>, base: nat, low: nat, v: V)
    requires Ordered(t) && base <= |t.stack| && LowBoundsSoFar(g, t, base, low, v, {})
    ensures LowBounds(g, t, base, low)
  {
  }

  /** lowlink stayed at the index: everything from v upwards is one component. */
  lemma FinishRoot<V(!new)>(g: Graph<V>, s: Snap<V>, t: Snap<V>, gray: set<V>, v: V, comp: seq<V>)
    requires LoopInv(g, s, t, gray, v, {}, s.counter) && v !in s.index
    requires IsReversedTop(t.stack, |s.stack|, comp)
    ensures CallPost(g, s, Pop(t, |s.stack|, comp), gray, v, s.counter)
  {
    var p := |s.stack|;
    ExtendsPush(s, t, v);
    BoundsComplete(g, t, p, s.counter, v);
    PopInv(g, t, gray, v, p, comp);
    PopExtends(s, t, p, comp, v);
  }

  lemma PopExtends<V>(s: Snap<V>, t: Snap<V>, p: nat, comp: seq<V>, v: V)
    requires Extends(s, t) && p == |s.stack| < |t.stack| && t.stack[p] == v
    requires IsReversedTop(t.stack, p, comp)
    ensures Extends(s, Pop(t, p, comp)) && v in Emitted(Pop(t, p, comp).done)
  {
    EmittedAppend(t.done, comp);
    assert comp[|comp| - 1] == v;
  }

  lemma FinishInner<V(!new)>(g: Graph<V>, s: Snap<V>, t: Snap<V>, gray: set<V>, v: V, low: nat)
    requires LoopInv(g, s, t, gray, v, {}, low) && low != s.counter && v !in s.index
    ensures CallPost(g, s, t, gray, v, low)
  {
    ExtendsPush(s, t, v);
    BoundsComplete(g, t, |s.stack|, low, v);
    assert v in t.stack;
    KeepBlack(g, t, gray, v, low);
  }

  // ----- what the finished list of components means -----

  ghost predicate Partition<V>(g: Graph<V>, done: seq<seq<V>>) {
    NoDuplicates(done) && Emitted(done) == Vertices(g)
  }

  /** Two vertices share a component exactly when each reaches the other. */
  ghost predicate ComponentsAreMaximal<V(!new)>(g: Graph<V>, done: seq<seq<V>>) {
    forall k, l, x, y :: 0 <= k < |done| && 0 <= l < |done| && x in done[k] && y in done[l] ==>
      (k == l <==> Reach(g, x, y) && Reach(g, y, x))
  }

  ghost predicate ReverseTopological<V>(g: Graph<V>, done: seq<seq<V>>) {
    forall k, l, u, w :: 0 <= k < |done| && 0 <= l < |done| && u in done[k] && w in done[l] && Arc(g, u, w) ==>
      l <= k
  }

  lemma PrefixClosed<V>(g: Graph<V>, done: seq<seq<V>>, k: nat, u: V)
    requires LeavesFirst(g, done) && k < |done| && u in Emitted(done[..k + 1])
    ensures Succ(g, u) <= Emitted(done[..k + 1])
  {
  }

  /** Whatever component k reaches was emitted with it or before it. */
  lemma ReachGoesBack<V(!new)>(g: Graph<V>, done: seq<seq<V>>, k: nat, l: nat, x: V, y: V)
    requires NoDuplicates(done) && LeavesFirst(g, done)
    requires k < |done| && l < |done| && x in done[k] && y in done[l] && Reach(g, x, y)
    ensures l <= k
  {
    var s := Emitted(done[..k + 1]);
    assert done[..k + 1][k] == done[k];
    forall u | u in s ensures Succ(g, u) <= s {
      PrefixClosed(g, done, k, u);
    }
    ClosedKeepsReach(g, s, x, y);
    var i :| 0 <= i < k + 1 && y in done[i];
  }

  lemma ComponentsTheorem<V(!new)>(g: Graph<V>, done: seq<seq<V>>)
    requires Components(g, done)
    ensures ComponentsAreMaximal(g, done) && ReverseTopological(g, done)
  {
    forall k, l, x, y | 0 <= k < |done| && 0 <= l < |done| && x in done[k] && y in done[l]
      ensures k == l <==> Reach(g, x, y) && Reach(g, y, x)
    {
      if Reach(g, x, y) && Reach(g, y, x) {
        ReachGoesBack(g, done, k, l, x, y);
        ReachGoesBack(g, done, l, k, y, x);
      }
    }
    forall k, l, u, w | 0 <= k < |done| && 0 <= l < |done| && u in done[k] && w in done[l] && Arc(g, u, w)
      ensures l <= k
    {
      ReachEdge(g, u, w);
      ReachGoesBack(g, done, k, l, u, w);
    }
  }

  /** With no open call the stack is empty, so every visited vertex is emitted. */
  lemma NothingLeft<V(!new)>(g: Graph<V>, s: Snap<V>)
    requires Inv(g, s, {}) && g.Keys <= s.index.Keys
    ensures s.stack == [] && Emitted(s.done) == Vertices(g)
  {
    assert |s.stack| == 0 || Anchored(g, s, {}, s.stack[0]);
    forall x | x in Vertices(g) ensures x in s.index {
      if x !in g {
        var u :| u in g.Keys && x in g[u];
        assert x in Succ(g, u);
      }
    }
  }

  /** The closure variables of `strongly_connected_components` and its inner function. */
  class Search<V(==, !new)> {
    const graph: Graph<V>
    var counter: nat
    var stack: seq<V>
    var onStack: map<V, bool>
    var index: map<V, nat>
    var lowlink: map<V, nat>
    var result: seq<seq<V>>

    ghost function State(): Snap<V>
      reads this
    {
      Snap(index, stack, result, counter)
    }

    ghost predicate Consistent()
      reads this
    {
      && lowlink.Keys == index.Keys
      && forall x :: (x in onStack && onStack[x]) <==> x in stack
    }

    constructor (graph: Graph<V>)
      ensures this.graph == graph && Consistent() && Inv(graph, State(), {})
    {
      this.graph := graph;
      counter, stack, onStack, index, lowlink, result := 0, [], map[], map[], map[], [];
    }

    method StrongConnect(v: V, ghost gray: set<V>)
      requires Consistent() && Inv(graph, State(), gray)
      requires v in Vertices(graph) && v !in index
      requires forall x :: x in gray ==> Reach(graph, x, v)
      modifies this
      ensures Consistent()
      ensures v in lowlink && CallPost(graph, old(State()), State(), gray, v, lowlink[v])
      ensures forall x :: x in old(lowlink) ==> x in lowlink && lowlink[x] == old(lowlink)[x]
      decreases Vertices(graph) - index.Keys, 0
    {
      hide LoopInv;
      hide Inv;
      hide CallPost;
      ghost var s := State();
      LoopStart(graph, s, gray, v);
      index := index[v := counter];
      lowlink := lowlink[v := counter];
      counter := counter + 1;
      stack := stack + [v];
      onStack := onStack[v := true];
      var todo := Succ(graph, v);
      while todo != {}
        invariant Consistent() && v in lowlink && todo <= Succ(graph, v)
        invariant LoopInv(graph, s, State(), gray, v, todo, lowlink[v])
        invariant forall x :: x in old(lowlink) ==> x in lowlink && lowlink[x] == old(lowlink)[x]
        decreases todo
      {
        var w :| w in todo;
        Visit(v, w, s, gray, todo);
        todo := todo - {w};
      }
      ghost var t := State();
      LoopShape(graph, s, t, gray, v, {}, lowlink[v]);
      if lowlink[v] == index[v] {
        var comp := PopComponent(v, |s.stack|);
        FinishRoot(graph, s, t, gray, v, comp);
        result := result + [comp];
        assert State() == Pop(t, |s.stack|, comp);
      } else {
        FinishInner(graph, s, t, gray, v, lowlink[v]);
      }
    }

    /** One turn of the successor loop of v. */
    method Visit(v: V, w: V, ghost s: Snap<V>, ghost gray: set<V>, ghost todo: set<V>)
      requires Consistent() && v in lowlink && w in todo && todo <= Succ(graph, v) && v !in s.index
      requires LoopInv(graph, s, State(), gray, v, todo, lowlink[v])
      modifies this
      ensures Consistent() && v in lowlink
      ensures LoopInv(graph, s, State(), gray, v, todo - {w}, lowlink[v])
      ensures forall x :: x in old(lowlink) && x != v ==> x in lowlink && lowlink[x] == old(lowlink)[x]
      decreases Vertices(graph) - index.Keys, 1
    {
      hide LoopInv;
      hide Inv;
      ghost var t, low := State(), lowlink[v];
      if w !in index {
        CallAllowed(graph, s, t, gray, v, todo, low, w);
        StrongConnect(w, gray + {v});
        StepCall(graph, s, t, gray, v, todo, low, w, State(), lowlink[w]);
        lowlink := lowlink[v := Min(lowlink[v], lowlink[w])];
      } else {
        StepVisited(graph, s, t, gray, v, todo, low, w);
        if w in onStack && onStack[w] {
          lowlink := lowlink[v := Min(lowlink[v], index[w])];
        }
      }
    }

    /** Pops down to and including v, which sits at position p. */
    method PopComponent(v: V, ghost p: nat) returns (comp: seq<V>)
      requires p < |stack| && stack[p] == v && Consistent()
      requires forall i, j :: 0 <= i < j < |stack| ==> stack[i] != stack[j]
      modifies this`stack, this`onStack
      ensures stack == old(stack)[..p] && Consistent()
      ensures IsReversedTop(old(stack), p, comp)
    {
      comp := [];
      var w := stack[|stack| - 1];
      stack := stack[..|stack| - 1];
      onStack := onStack[w := false];
      comp := comp + [w];
      while w != v
        invariant p <= |stack| < |old(stack)| && stack == old(stack)[..|stack|] && w == old(stack)[|stack|]
        invariant IsReversedTop(old(stack), |stack|, comp) && Consistent()
        decreases |stack|
      {
        w := stack[|stack| - 1];
        stack := stack[..|stack| - 1];
        onStack := onStack[w := false];
        comp := comp + [w];
      }
    }
  }

  method StronglyConnectedComponents<V(==, !new)>(graph: Graph<V>) returns (result: seq<seq<V>>)
    ensures Partition(graph, result)
    ensures ComponentsAreMaximal(graph, result)
    ensures ReverseTopological(graph, result)
  {
    var search := new Search(graph);
    var todo := graph.Keys;
    while todo != {}
      invariant search.Consistent() && Inv(graph, search.State(), {}) && todo <= graph.Keys
      invariant graph.Keys - todo <= search.index.Keys
    {
      var v :| v in todo;
      if v !in search.index {
        search.StrongConnect(v, {});
      }
      todo := todo - {v};
    }
    NothingLeft(graph, search.State());
    ComponentsTheorem(graph, search.result);
    result := search.result;
  }
}
