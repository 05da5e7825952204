/** Orders that respect the constraints between plugins: what `apply_plugins` in
    crates/zlim-app/src/app.rs looks for. */
module PluginOrder {
  import opened Wrappers

  /** The type of a plugin, which identifies it. */
  type TypeId = nat

  /** For each plugin, the ones to apply before it. */
  type Graph = map<TypeId, set<TypeId>>

  /** Only registered plugins are named. */
  ghost predicate Registered(g: Graph) {
    forall x :: x in g ==> g[x] <= g.Keys
  }

  /** Every plugin once, each after all it depends on. */
  ghost predicate LinearExtension(g: Graph, order: seq<TypeId>) {
    && NoRepeats(order) && Elements(order) == g.Keys
    && forall k :: 0 <= k < |order| ==> DependenciesBefore(g, order, k)
  }

  ghost predicate DependenciesBefore(g: Graph, order: seq<TypeId>, k: nat)
    requires k < |order|
  {
    order[k] in g && g[order[k]] <= Elements(order[..k])
  }

  /** A circle of plugins, each depending on the next one. */
  ghost predicate Cycle(g: Graph, c: seq<TypeId>) {
    && |c| > 0
    && forall k :: 0 <= k < |c| ==> DependsOn(g, c[k], c[if k + 1 < |c| then k + 1 else 0])
  }

  predicate DependsOn(g: Graph, x: TypeId, y: TypeId) {
    x in g && y in g[x]
  }

  /** The graph with one plugin taken out. */
  function Without(g: Graph, t: TypeId): Graph {
    map x | x in g && x != t :: g[x] - {t}
  }

  // ------------------------------------------------------------------------------------------
  // Orders exclude cycles
  // ------------------------------------------------------------------------------------------

  /** The position of a plugin in an order. */
  lemma PositionOf(order: seq<TypeId>, x: TypeId) returns (k: nat)
    requires x in order
    ensures k < |order| && order[k] == x
  {
    k :| 0 <= k < |order| && order[k] == x;
  }

  lemma {:induction false} DependencyEarlier(g: Graph, order: seq<TypeId>, k: nat, y: TypeId) returns (j: nat)
    requires LinearExtension(g, order) && k < |order| && DependsOn(g, order[k], y)
    ensures j < k && order[j] == y
  {
    assert DependenciesBefore(g, order, k);
    assert y in Elements(order[..k]);
    j := PositionOf(order[..k], y);
  }

  /** Following a cycle from its first plugin leads ever further to the front. */
  lemma {:induction false} CycleDescends(g: Graph, order: seq<TypeId>, c: seq<TypeId>, n: nat, k: nat) returns (j: nat)
    requires LinearExtension(g, order) && Cycle(g, c) && n < |c| && k < |order| && order[k] == c[0]
    ensures j < |order| && order[j] == c[n] && j <= k && (n > 0 ==> j < k)
  {
    j := k;
    if n > 0 {
      j := CycleDescends(g, order, c, n - 1, k);
      assert DependsOn(g, c[n - 1], c[n]);
      j := DependencyEarlier(g, order, j, c[n]);
    }
  }

  lemma NoCycleInOrder(g: Graph, order: seq<TypeId>, c: seq<TypeId>)
    requires LinearExtension(g, order)
    ensures !Cycle(g, c)
  {
    if Cycle(g, c) {
      assert DependsOn(g, c[0], c[if 0 + 1 < |c| then 1 else 0]);
      var k := PositionOf(order, c[0]);
      var last := CycleDescends(g, order, c, |c| - 1, k);
      assert DependsOn(g, c[|c| - 1], c[0]);
      var j := DependencyEarlier(g, order, last, c[0]);
    }
  }

  // ------------------------------------------------------------------------------------------
  // A stuck graph has a cycle
  // ------------------------------------------------------------------------------------------

  /** No plugin is ready: each depends on one that is still there. */
  ghost predicate Stuck(g: Graph) {
    g != map[] && forall x :: x in g ==> g[x] != {}
  }

  ghost predicate Walk(g: Graph, w: seq<TypeId>) {
    && (forall k :: 0 <= k < |w| ==> w[k] in g)
    && forall k :: 0 <= k < |w| - 1 ==> DependsOn(g, w[k], w[k + 1])
  }

  lemma {:induction false} WalkOn(g: Graph, n: nat) returns (w: seq<TypeId>)
    requires Registered(g) && Stuck(g)
    ensures Walk(g, w) && |w| == n + 1
  {
    if n == 0 {
      var x :| x in g;
      w := [x];
    } else {
      w := WalkOn(g, n - 1);
      var y :| y in g[w[n - 1]];
      w := w + [y];
    }
  }

  /** A list without repetition is no longer than the set its elements come from. */
  lemma {:induction false} OnceFits(s: seq<TypeId>, all: set<TypeId>)
    requires NoRepeats(s) && forall k :: 0 <= k < |s| ==> s[k] in all
    ensures |s| <= |all|
  {
    if s != [] {
      var last := |s| - 1;
      OnceFits(s[..last], all - {s[last]});
    }
  }

  lemma StuckHasCycle(g: Graph) returns (c: seq<TypeId>)
    requires Registered(g) && Stuck(g)
    ensures Cycle(g, c)
  {
    var w := WalkOn(g, |g.Keys|);
    if NoRepeats(w) {
      OnceFits(w, g.Keys);
    }
    var j, k :| 0 <= j < k < |w| && w[j] == w[k];
    c := w[j..k];
    forall i | 0 <= i < |c| ensures DependsOn(g, c[i], c[if i + 1 < |c| then i + 1 else 0]) {
      assert DependsOn(g, w[j + i], w[j + i + 1]);
    }
  }

  // ------------------------------------------------------------------------------------------
  // The loop
  // ------------------------------------------------------------------------------------------

  /** What is left of `g` after the plugins of `order` were taken out, each when it was ready. */
  ghost predicate Reduced(g: Graph, order: seq<TypeId>, left: Graph) {
    && NoRepeats(order) && Elements(order) <= g.Keys && left.Keys == g.Keys - Elements(order)
    && (forall x :: x in left ==> left[x] == g[x] - Elements(order))
    && forall k :: 0 <= k < |order| ==> DependenciesBefore(g, order, k)
  }

  lemma ReduceNext(g: Graph, order: seq<TypeId>, left: Graph, t: TypeId)
    requires Reduced(g, order, left) && t in left && left[t] == {}
    ensures Reduced(g, order + [t], Without(left, t))
  {
    var order' := order + [t];
    assert Elements(order') == Elements(order) + {t};
    forall j, k | 0 <= j < k < |order'| ensures order'[j] != order'[k] {
      assert order'[j] in Elements(order);
    }
    forall k | 0 <= k < |order'| ensures DependenciesBefore(g, order', k) {
      assert order'[..k] == order[..k];
      assert k < |order| ==> DependenciesBefore(g, order, k);
      assert order[..|order|] == order;
    }
  }

  lemma StuckReduced(g: Graph, order: seq<TypeId>, left: Graph)
    requires Registered(g) && Reduced(g, order, left) && Stuck(left)
    ensures exists c :: Cycle(g, c)
  {
    assert Registered(left);
    var c := StuckHasCycle(left);
    forall k | 0 <= k < |c| ensures DependsOn(g, c[k], c[if k + 1 < |c| then k + 1 else 0]) {
      assert DependsOn(left, c[k], c[if k + 1 < |c| then k + 1 else 0]);
    }
    assert Cycle(g, c);
  }
}
