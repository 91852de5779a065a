/** Topological sorting of a directed graph given by its edges, and what it means for one to exist. */
module Toposort {

  import opened Wrappers

  datatype Edge<+N> = Edge(source: N, target: N)

  ghost predicate Follows<N(!new)>(edges: seq<Edge<N>>, w: seq<N>, i: nat) {
    i + 1 < |w| ==> Edge(w[i], w[i + 1]) in edges
  }

  /** Every step of `w` follows an edge. */
  ghost predicate Walk<N(!new)>(edges: seq<Edge<N>>, w: seq<N>) {
    forall i: nat :: Follows(edges, w, i)
  }

  ghost predicate ClosedWalk<N(!new)>(edges: seq<Edge<N>>, w: seq<N>) {
    |w| >= 2 && w[0] == w[|w| - 1] && Walk(edges, w)
  }

  ghost predicate Cyclic<N(!new)>(edges: seq<Edge<N>>) {
    exists w :: ClosedWalk(edges, w)
  }

  /** Every edge into an element of `order` starts earlier in `order`. */
  ghost predicate SourcesFirst<N(!new)>(edges: seq<Edge<N>>, order: seq<N>) {
    forall e, j | e in edges && 0 <= j < |order| && order[j] == e.target :: e.source in order[..j]
  }

  /** `order` lists the nodes below `n` once each, every edge pointing forwards. */
  ghost predicate TopologicalOrder(n: nat, edges: seq<Edge<nat>>, order: seq<nat>) {
    && Distinct(order)
    && (forall x: nat :: x in order <==> x < n)
    && SourcesFirst(edges, order)
  }

  // ---------------------------------------------------------------- an order excludes cycles

  /** Along a walk that stays in the order, positions only grow. */
  lemma {:induction false} WalkGoesForward<N(!new)>(edges: seq<Edge<N>>, order: seq<N>, w: seq<N>, p: nat, q: nat)
    requires SourcesFirst(edges, order) && Distinct(order) && Walk(edges, w) && |w| >= 2
    requires q < |order| && order[q] == w[|w| - 1] && p < |order| && order[p] == w[0]
    ensures p < q
  {
    var n := |w| - 1;
    assert Follows(edges, w, n - 1);
    assert w[n - 1] in order[..q];
    var r :| 0 <= r < q && order[r] == w[n - 1];
    if n > 1 {
      forall i: nat
        ensures Follows(edges, w[..n], i)
      {
        assert Follows(edges, w, i);
      }
      WalkGoesForward(edges, order, w[..n], p, r);
    }
  }

  lemma OrderExcludesCycles<N(!new)>(edges: seq<Edge<N>>, order: seq<N>)
    requires SourcesFirst(edges, order) && Distinct(order) && forall e | e in edges :: e.target in order
    ensures !Cyclic(edges)
  {
    if w :| ClosedWalk(edges, w) {
      var n := |w| - 1;
      assert Follows(edges, w, n - 1);
      var p :| 0 <= p < |order| && order[p] == w[n];
      WalkGoesForward(edges, order, w, p, p);
    }
  }

  // ---------------------------------------------------------------- no free node means a cycle

  lemma {:induction false} Pigeonhole<N(!new)>(w: seq<N>, s: set<N>)
    requires |w| > |s| && forall i | 0 <= i < |w| :: w[i] in s
    ensures !Distinct(w)
    decreases |w|
  {
    var last := w[|w| - 1];
    var front := w[..|w| - 1];
    if last in front {
      var i :| 0 <= i < |front| && front[i] == last;
      assert w[i] == w[|w| - 1];
    } else {
      assert |s - {last}| == |s| - 1;
      Pigeonhole(front, s - {last});
    }
  }

  ghost predicate Entered<N(!new)>(edges: seq<Edge<N>>, todo: set<N>, x: N) {
    exists e | e in edges :: e.target == x && e.source in todo
  }

  ghost predicate AllEntered<N(!new)>(edges: seq<Edge<N>>, todo: set<N>, some: set<N>) {
    forall x {:trigger Entered(edges, todo, x)} | x in some :: Entered(edges, todo, x)
  }

  lemma {:induction false} BackwardWalk<N(!new)>(edges: seq<Edge<N>>, todo: set<N>, k: nat) returns (w: seq<N>)
    requires AllEntered(edges, todo, todo) && todo != {}
    ensures |w| == k + 1 && Walk(edges, w) && forall i | 0 <= i < |w| :: w[i] in todo
  {
    if k == 0 {
      var x :| x in todo;
      w := [x];
    } else {
      var v := BackwardWalk(edges, todo, k - 1);
      assert v[0] in todo && Entered(edges, todo, v[0]);
      var e :| e in edges && e.target == v[0] && e.source in todo;
      w := [e.source] + v;
      forall i: nat
        ensures Follows(edges, w, i)
      {
        if i > 0 {
          assert Follows(edges, v, i - 1);
        }
      }
    }
  }

  lemma StuckMeansCyclic<N(!new)>(edges: seq<Edge<N>>, todo: set<N>)
    requires AllEntered(edges, todo, todo) && todo != {}
    ensures Cyclic(edges)
  {
    var w := BackwardWalk(edges, todo, |todo|);
    Pigeonhole(w, todo);
    var i, j :| 0 <= i < j < |w| && w[i] == w[j];
    var v := w[i..j + 1];
    forall k: nat
      ensures Follows(edges, v, k)
    {
      assert Follows(edges, w, i + k);
    }
    assert ClosedWalk(edges, v);
  }

  // ---------------------------------------------------------------- the sort

  /** A node of `todo` that no edge from `todo` enters. */
  method FindFree(edges: seq<Edge<nat>>, todo: set<nat>) returns (r: Option<nat>)
    ensures r.Some? ==> r.value in todo && !Entered(edges, todo, r.value)
    ensures r.None? ==> AllEntered(edges, todo, todo)
  {
    var rest := todo;
    while rest != {}
      invariant rest <= todo && AllEntered(edges, todo, todo - rest)
      decreases rest
    {
      var x :| x in rest;
      var free := true;
      for i := 0 to |edges|
        invariant free <==> forall k | 0 <= k < i :: !(edges[k].target == x && edges[k].source in todo)
      {
        if edges[i].target == x && edges[i].source in todo {
          free := false;
        }
      }
      if free {
        return Some(x);
      }
      rest := rest - {x};
    }
    assert todo - rest == todo;
    return None;
  }

  function Below(n: nat): (s: set<nat>)
    ensures forall x: nat :: x in s <==> x < n
  {
    if n == 0 then {} else Below(n - 1) + {n - 1}
  }

  lemma AppendFree(edges: seq<Edge<nat>>, order: seq<nat>, todo: set<nat>, x: nat)
    requires Distinct(order) && SourcesFirst(edges, order) && x in todo && !Entered(edges, todo, x)
    requires forall y | y in order :: y !in todo
    requires forall e | e in edges :: e.source in todo || e.source in order
    ensures Distinct(order + [x]) && SourcesFirst(edges, order + [x])
  {
    var longer := order + [x];
    forall e, j | e in edges && 0 <= j < |longer| && longer[j] == e.target
      ensures e.source in longer[..j]
    {
      assert longer[..j] == order[..j];
      if j == |order| {
        assert order[..j] == order;
      }
    }
  }

  /** Finds an order exactly when there is one, which is exactly when the graph has no cycle. */
  method Sort(n: nat, edges: seq<Edge<nat>>) returns (r: Option<seq<nat>>)
    requires forall e | e in edges :: e.source < n && e.target < n
    ensures r.Some? <==> !Cyclic(edges)
    ensures r.Some? ==> TopologicalOrder(n, edges, r.value)
  {
    var todo, order := Below(n), [];
    while todo != {}
      invariant Distinct(order) && SourcesFirst(edges, order)
      invariant forall x: nat :: x in Below(n) <==> x in todo || x in order
      invariant forall x | x in order :: x !in todo
      decreases todo
    {
      var free := FindFree(edges, todo);
      if free.None? {
        StuckMeansCyclic(edges, todo);
        return None;
      }
      AppendFree(edges, order, todo, free.value);
      order := order + [free.value];
      todo := todo - {free.value};
    }
    OrderExcludesCycles(edges, order);
    return Some(order);
  }

  // ---------------------------------------------------------------- relabelling

  function Relabel<A, B>(edges: seq<Edge<A>>, f: map<A, B>): seq<Edge<B>>
    requires forall e | e in edges :: e.source in f && e.target in f
  {
    seq(|edges|, i requires 0 <= i < |edges| => assert edges[i] in edges; Edge(f[edges[i].source], f[edges[i].target]))
  }

  ghost predicate Injective<A(!new), B>(f: map<A, B>) {
    forall a, b | a in f && b in f && f[a] == f[b] :: a == b
  }

  lemma RelabelKeepsCycle<A(!new), B(!new)>(edges: seq<Edge<A>>, f: map<A, B>)
    requires forall e | e in edges :: e.source in f && e.target in f
    requires Cyclic(edges)
    ensures Cyclic(Relabel(edges, f))
  {
    var w :| ClosedWalk(edges, w);
    forall i | 0 <= i < |w|
      ensures w[i] in f
    {
      if i > 0 {
        assert Follows(edges, w, i - 1);
      } else {
        assert Follows(edges, w, 0);
      }
    }
    var v := seq(|w|, i requires 0 <= i < |w| => f[w[i]]);
    forall i: nat
      ensures Follows(Relabel(edges, f), v, i)
    {
      assert Follows(edges, w, i);
      if i + 1 < |w| {
        var k :| 0 <= k < |edges| && edges[k] == Edge(w[i], w[i + 1]);
        assert Relabel(edges, f)[k] == Edge(v[i], v[i + 1]);
      }
    }
    assert ClosedWalk(Relabel(edges, f), v);
  }

  lemma RelabelAddsNoCycle<A(!new), B(!new)>(edges: seq<Edge<A>>, f: map<A, B>)
    requires forall e | e in edges :: e.source in f && e.target in f
    requires Injective(f) && Cyclic(Relabel(edges, f))
    ensures Cyclic(edges)
  {
    var es := Relabel(edges, f);
    var back: map<B, A> := map a | a in f :: f[a] := a;
    forall e | e in es
      ensures e.source in back && e.target in back
    {
      var k :| 0 <= k < |es| && es[k] == e;
      assert edges[k] in edges;
    }
    RelabelKeepsCycle(es, back);
    forall k | 0 <= k < |edges|
      ensures Relabel(es, back)[k] == edges[k]
    {
      assert edges[k] in edges && es[k] in es;
    }
    assert Relabel(es, back) == edges;
  }
}
