/** What spawning a document builds: which of its parent links come true, and what the forest looks
    like afterwards (`World::spawn_dynamic_scene` in crates/zlim-core/src/scene.rs). */
module SpawnShape {
  import opened Wrappers
  import opened Forests
  import opened SceneBuilder
  import opened SceneDocument
  import opened SpawnPlan
  import opened SceneSpawn

  // ------------------------------------------------------------------------------------------
  // Which parent links come true
  // ------------------------------------------------------------------------------------------

  /** An entity that hangs below another one is attached to it exactly when it reaches a top, or else
      is declared after it. All others go below the outer parent. */
  lemma TurnsFollowPlan(docs: seq<DocEntity>, depth: seq<Option<nat>>, order: seq<nat>, q: nat)
    requires IsDepth(Links(docs), depth) && IsOrder(depth, order, |docs|) && q < |docs|
    ensures var (i, a) := (order[q], AttachedAt(docs, IndexOf(docs), order, q));
      match Above(docs, i)
      case None => a == None
      case Some(j) => (a.Some? <==> depth[i].Some? || j < i) && (a.Some? ==> order[a.value] == j)
  {
    AttachedAbove(docs, IndexOf(docs), Links(docs), depth, order, q);
  }

  lemma AttachedAbove(docs: seq<DocEntity>, indexOf: map<EntityId, nat>, up: Ups, depth: seq<Option<nat>>,
                      order: seq<nat>, q: nat)
    requires IsDepth(up, depth) && IsOrder(depth, order, |docs|) && q < |docs| == |up|
    requires forall x :: x in indexOf ==> indexOf[x] < |docs|
    requires up[order[q]] == AboveIn(docs, indexOf, order[q])
    ensures var (i, a) := (order[q], AttachedAt(docs, indexOf, order, q));
      match up[i]
      case None => a == None
      case Some(j) => (a.Some? <==> depth[i].Some? || j < i) && (a.Some? ==> order[a.value] == j)
  {
    var parent := docs[order[q]].parent;
    if parent.Some? && parent.value in indexOf {
      if indexOf[parent.value] == order[q] {
        TurnBefore(depth, order, |docs|, order[q], q);
      } else {
        LinkTurn(up, depth, order, indexOf[parent.value], q);
      }
    }
  }

  lemma LinkTurn(up: Ups, depth: seq<Option<nat>>, order: seq<nat>, j: nat, q: nat)
    requires IsDepth(up, depth) && IsOrder(depth, order, |up|) && q < |up| && up[order[q]] == Some(j) && j != order[q]
    ensures TurnOf(order, j, q).Some? <==> depth[order[q]].Some? || j < order[q]
  {
    TurnBefore(depth, order, |up|, j, q);
    ParentFirst(up, depth, order[q]);
  }

  /** An entity has had its turn before turn `q` exactly when it comes before that turn's entity. */
  lemma TurnBefore(depth: seq<Option<nat>>, order: seq<nat>, n: nat, j: nat, q: nat)
    requires IsOrder(depth, order, n) && j < n && q < n
    ensures TurnOf(order, j, q).Some? <==> Before(depth, j, order[q])
  {
    assert j in order;
    var t :| 0 <= t < n && order[t] == j;
    assert if t < q then SortedAt(depth, order, t, q) else t > q ==> SortedAt(depth, order, q, t);
    assert TurnOf(order, j, q).Some? ==> SortedAt(depth, order, TurnOf(order, j, q).value, q);
  }

  /** A document that names an undeclared parent plans the entity as a top, and still does not spawn:
      looking up the parent's place a second time has no guard. */
  lemma UndeclaredIsNoTop(docs: seq<DocEntity>)
    requires docs == [DocEntity(1, Some(2), [])]
    ensures Above(docs, 0) == None && Reaches(Links(docs), 0, 0)
    ensures !AllDeclared(docs, IndexOf(docs))
  {
    assert !Declared(docs, IndexOf(docs), 0);
  }

  // ------------------------------------------------------------------------------------------
  // The shape of what was spawned
  // ------------------------------------------------------------------------------------------

  /** The entities spawned in the first `n` turns below the one of turn `a`, or below the outer
      parent. */
  function Kids(attached: Turns, a: Option<nat>, n: nat, first: EntityId): seq<EntityId>
    requires n <= |attached|
  {
    if n == 0 then []
    else if attached[n - 1] == a then Kids(attached, a, n - 1, first) + [first + n - 1]
    else Kids(attached, a, n - 1, first)
  }

  /** The forest a spawn leaves, described entity by entity. */
  ghost predicate Shape(f: Forest, g: Forest, attached: Turns, n: nat, outer: Option<EntityId>, first: EntityId)
    requires n <= |attached|
  {
    && g.nodes.Keys == f.nodes.Keys + NewIds(first, n)
    && (forall q :: 0 <= q < n ==> NewShape(g, attached, n, outer, first, q))
    && (forall x :: x in f.nodes ==> OldShape(f, g, attached, n, outer, first, x))
    && g.roots == f.roots + (if outer.None? then Elements(Kids(attached, None, n, first)) else {})
  }

  ghost predicate NewShape(g: Forest, attached: Turns, n: nat, outer: Option<EntityId>, first: EntityId, q: nat)
    requires q < n <= |attached|
  {
    first + q in g.nodes &&
    g.nodes[first + q] == Node(SceneSpawn.Under(attached, q, outer, first), Kids(attached, Some(q), n, first), [])
  }

  ghost predicate OldShape(f: Forest, g: Forest, attached: Turns, n: nat, outer: Option<EntityId>, first: EntityId,
                           x: EntityId)
    requires n <= |attached| && x in f.nodes
  {
    x in g.nodes &&
    g.nodes[x] ==
      f.nodes[x].(children := f.Children(x) + (if outer == Some(x) then Kids(attached, None, n, first) else []))
  }

  lemma {:induction false} NoKidsYet(attached: Turns, q: nat, n: nat, first: EntityId)
    requires Earlier(attached) && n <= q + 1 && n <= |attached|
    ensures Kids(attached, Some(q), n, first) == []
    decreases n
  {
    if n > 0 {
      NoKidsYet(attached, q, n - 1, first);
    }
  }

  lemma {:induction false} GrownShape(f: Forest, attached: Turns, n: nat, outer: Option<EntityId>, first: EntityId)
    requires n <= |attached| && Earlier(attached) && (outer.Some? ==> outer.value in f.nodes)
    requires forall id :: id in f.nodes ==> id < first
    ensures Shape(f, Grown(f, attached, n, outer, first), attached, n, outer, first)
  {
    if n == 0 {
      StartShape(f, attached, outer, first);
    } else {
      var m := n - 1;
      GrownShape(f, attached, m, outer, first);
      ParentThere(f, Grown(f, attached, m, outer, first), attached, m, outer, first);
      GrownNext(f, attached, m, outer, first);
      ShapeNext(f, Grown(f, attached, m, outer, first), Grown(f, attached, n, outer, first), attached, m, n, outer,
                first);
    }
  }

  lemma StartShape(f: Forest, attached: Turns, outer: Option<EntityId>, first: EntityId)
    ensures Shape(f, f, attached, 0, outer, first)
  {
    forall x | x in f.nodes ensures OldShape(f, f, attached, 0, outer, first, x) {
      assert f.Children(x) + [] == f.Children(x);
    }
  }

  /** The parent of the next entity is one that was there, or an earlier new one. */
  lemma ParentThere(f: Forest, g: Forest, attached: Turns, n: nat, outer: Option<EntityId>, first: EntityId)
    requires n < |attached| && Earlier(attached) && (outer.Some? ==> outer.value in f.nodes)
    requires Shape(f, g, attached, n, outer, first)
    ensures var parent := SceneSpawn.Under(attached, n, outer, first); parent.Some? ==> parent.value in g.nodes
  {
    if attached[n].Some? {
      assert NewShape(g, attached, n, outer, first, attached[n].value);
    }
  }

  lemma NewShapeNext(g: Forest, attached: Turns, n: nat, outer: Option<EntityId>, first: EntityId, q: nat)
    requires q <= n < |attached| && Earlier(attached) && (outer.Some? ==> outer.value < first)
    requires q < n ==> NewShape(g, attached, n, outer, first, q)
    requires var parent := SceneSpawn.Under(attached, n, outer, first);
      parent.Some? ==> parent.value in g.nodes && parent.value != first + n
    ensures NewShape(Spawned(g, first + n, SceneSpawn.Under(attached, n, outer, first)), attached, n + 1, outer, first,
                     q)
  {
    if q == n {
      NoKidsYet(attached, n, n + 1, first);
    }
  }

  lemma OldShapeNext(f: Forest, g: Forest, attached: Turns, n: nat, outer: Option<EntityId>, first: EntityId,
                     x: EntityId)
    requires n < |attached| && x in f.nodes && x < first && OldShape(f, g, attached, n, outer, first, x)
    requires var parent := SceneSpawn.Under(attached, n, outer, first); parent.Some? ==> parent.value in g.nodes
    ensures OldShape(f, Spawned(g, first + n, SceneSpawn.Under(attached, n, outer, first)), attached, n + 1, outer,
                     first, x)
  {
    if outer == Some(x) && attached[n].None? {
      var kids := Kids(attached, None, n, first);
      assert f.Children(x) + (kids + [first + n]) == f.Children(x) + kids + [first + n];
    }
  }

  lemma ShapeNext(f: Forest, g: Forest, g': Forest, attached: Turns, n: nat, n': nat, outer: Option<EntityId>,
                  first: EntityId)
    requires n < |attached| && n' == n + 1 && Earlier(attached) && (outer.Some? ==> outer.value in f.nodes)
    requires (forall id :: id in f.nodes ==> id < first) && Shape(f, g, attached, n, outer, first)
    requires var parent := SceneSpawn.Under(attached, n, outer, first);
      (parent.Some? ==> parent.value in g.nodes) && g' == Spawned(g, first + n, parent)
    ensures Shape(f, g', attached, n', outer, first)
  {
    var parent := SceneSpawn.Under(attached, n, outer, first);
    forall q | 0 <= q < n' ensures NewShape(g', attached, n', outer, first, q) {
      NewShapeNext(g, attached, n, outer, first, q);
    }
    forall x | x in f.nodes ensures OldShape(f, g', attached, n', outer, first, x) {
      OldShapeNext(f, g, attached, n, outer, first, x);
    }
    RootsNext(f.roots, g.roots, attached, n, outer, first);
    KeysNext(f.nodes.Keys, g, first, n, parent);
  }

  lemma RootsNext(before: set<EntityId>, roots: set<EntityId>, attached: Turns, n: nat, outer: Option<EntityId>,
                  first: EntityId)
    requires n < |attached|
    requires roots == before + (if outer.None? then Elements(Kids(attached, None, n, first)) else {})
    ensures roots + (if SceneSpawn.Under(attached, n, outer, first).None? then {first + n} else {}) ==
      before + (if outer.None? then Elements(Kids(attached, None, n + 1, first)) else {})
  {
    var kids := Kids(attached, None, n, first);
    assert Elements(kids + [first + n]) == Elements(kids) + {first + n};
  }

  // ------------------------------------------------------------------------------------------
  // What the spawned entities refer to
  // ------------------------------------------------------------------------------------------

  /** Among the first `n` turns, `t` is the last one that spawns an entity with id `x`. */
  ghost predicate LastTurn(docs: seq<DocEntity>, order: seq<nat>, n: nat, x: EntityId, t: nat)
    requires IsPermutation(order, |docs|) && n <= |docs|
  {
    t < n && docs[order[t]].id == x && forall s :: t < s < n ==> docs[order[s]].id != x
  }

  lemma {:induction false} IdMapExactly(docs: seq<DocEntity>, order: seq<nat>, n: nat, first: EntityId, x: EntityId)
    requires IsPermutation(order, |docs|) && n <= |docs|
    ensures var m := IdMap(docs, order, n, first);
      && (x in m ==> m[x] >= first && LastTurn(docs, order, n, x, m[x] - first))
      && forall t: nat :: LastTurn(docs, order, n, x, t) ==> x in m && m[x] == first + t
  {
    if n > 0 {
      IdMapExactly(docs, order, n - 1, first, x);
      if docs[order[n - 1]].id == x {
        assert LastTurn(docs, order, n, x, n - 1);
      } else {
        assert forall t: nat :: LastTurn(docs, order, n - 1, x, t) <==> LastTurn(docs, order, n, x, t);
      }
    }
  }

  /** What reference `r` of the document has become: the entity last spawned for that id; without one, the
      entity it names, if that is alive, or else the placeholder. */
  ghost predicate RefStands(docs: seq<DocEntity>, order: seq<nat>, first: EntityId, live: set<EntityId>, r: EntityId,
                            r': EntityId)
    requires IsPermutation(order, |docs|)
  {
    && (forall t: nat :: LastTurn(docs, order, |docs|, r, t) ==> r' == first + t)
    && ((forall t: nat :: !LastTurn(docs, order, |docs|, r, t)) ==> r' == if r in live then r else PLACEHOLDER)
  }

  lemma {:induction false} ResolvedStands(docs: seq<DocEntity>, order: seq<nat>, first: EntityId, live: set<EntityId>,
                                          r: EntityId)
    requires IsPermutation(order, |docs|) && NewIds(first, |docs|) <= live
    ensures RefStands(docs, order, first, live, r, Resolved(r, IdMap(docs, order, |docs|, first), live))
  {
    IdMapExactly(docs, order, |docs|, first, r);
    forall t: nat | LastTurn(docs, order, |docs|, r, t)
      ensures Resolved(r, IdMap(docs, order, |docs|, first), live) == first + t
    {
      assert first + t in NewIds(first, |docs|);
    }
  }

  lemma {:induction false} OutgrownShape(f: Forest, g: Forest, docs: seq<DocEntity>, order: seq<nat>,
                                         outer: Option<EntityId>, first: EntityId)
    returns (attached: Turns, grown: Forest)
    requires IsPermutation(order, |docs|) && Outgrown(f, g, docs, order, outer, first)
    requires (outer.Some? ==> outer.value in f.nodes) && forall id :: id in f.nodes ==> id < first
    ensures AttachedAs(docs, IndexOf(docs), order, attached)
    ensures Shape(f, grown, attached, |docs|, outer, first)
    ensures g.nodes == Filled(grown.nodes, docs, order, |docs|, first, IdMap(docs, order, |docs|, first))
    ensures g.nodes.Keys == grown.nodes.Keys == f.nodes.Keys + NewIds(first, |docs|)
  {
    attached := Attachments(docs, IndexOf(docs), order);
    grown := Grown(f, attached, |docs|, outer, first);
    GrownShape(f, attached, |docs|, outer, first);
    assert AttachedAs(docs, IndexOf(docs), order, attached);
  }

  /** Every document entity has become a new entity with its references; the entities that were there keep
      what they refer to. */
  lemma {:induction false} SpawnedRefs(f: Forest, g: Forest, docs: seq<DocEntity>, order: seq<nat>,
                                       outer: Option<EntityId>, first: EntityId)
    requires IsPermutation(order, |docs|) && Outgrown(f, g, docs, order, outer, first)
    requires (outer.Some? ==> outer.value in f.nodes) && forall id :: id in f.nodes ==> id < first
    ensures g.nodes.Keys == f.nodes.Keys + NewIds(first, |docs|)
    ensures forall q :: 0 <= q < |docs| ==> RefsStand(g, docs, order, first, q)
    ensures forall id :: id in f.nodes ==> g.nodes[id].refs == f.nodes[id].refs
  {
    var attached, grown := OutgrownShape(f, g, docs, order, outer, first);
    forall q | 0 <= q < |docs| ensures RefsStand(g, docs, order, first, q) {
      assert NewShape(grown, attached, |docs|, outer, first, q);
      TurnRefs(grown, g, docs, order, first, q);
    }
    forall id | id in f.nodes ensures g.nodes[id].refs == f.nodes[id].refs {
      assert OldShape(f, grown, attached, |docs|, outer, first, id);
    }
  }

  ghost predicate RefsStand(g: Forest, docs: seq<DocEntity>, order: seq<nat>, first: EntityId, q: nat)
    requires IsPermutation(order, |docs|) && q < |docs|
  {
    && first + q in g.nodes
    && |g.nodes[first + q].refs| == |docs[order[q]].refs|
    && forall k {:trigger docs[order[q]].refs[k]} :: 0 <= k < |docs[order[q]].refs| ==>
         RefStands(docs, order, first, g.nodes.Keys, docs[order[q]].refs[k], g.nodes[first + q].refs[k])
  }

  lemma {:induction false} TurnRefs(grown: Forest, g: Forest, docs: seq<DocEntity>, order: seq<nat>, first: EntityId,
                                    q: nat)
    requires IsPermutation(order, |docs|) && q < |docs| && first + q in grown.nodes
    requires g.nodes == Filled(grown.nodes, docs, order, |docs|, first, IdMap(docs, order, |docs|, first))
    requires g.nodes.Keys == grown.nodes.Keys && NewIds(first, |docs|) <= g.nodes.Keys
    ensures RefsStand(g, docs, order, first, q)
  {
    var refs := docs[order[q]].refs;
    forall k | 0 <= k < |refs|
      ensures RefStands(docs, order, first, g.nodes.Keys, refs[k], g.nodes[first + q].refs[k])
    {
      ResolvedStands(docs, order, first, g.nodes.Keys, refs[k]);
    }
  }

  /** The entity of turn `q` names the one of turn `t`: the last declaration of that id. */
  predicate Names(docs: seq<DocEntity>, order: seq<nat>, q: nat, t: nat)
    requires IsPermutation(order, |docs|) && q < |docs| && t < |docs|
  {
    docs[order[q]].parent.Some? && LastDeclared(docs, docs[order[q]].parent.value, order[t])
  }

  /** An entity hangs below the one it names, if that had its turn before, or else below the outer parent. */
  ghost predicate ParentStands(g: Forest, docs: seq<DocEntity>, order: seq<nat>, outer: Option<EntityId>,
                               first: EntityId, q: nat)
    requires IsPermutation(order, |docs|) && q < |docs|
  {
    && first + q in g.nodes
    && (forall t: nat :: t < q && Names(docs, order, q, t) ==> g.Parent(first + q) == Some(first + t))
    && ((forall t: nat :: t < q ==> !Names(docs, order, q, t)) ==> g.Parent(first + q) == outer)
  }

  lemma {:induction false} SpawnedParent(f: Forest, g: Forest, docs: seq<DocEntity>, order: seq<nat>,
                                         outer: Option<EntityId>, first: EntityId, q: nat)
    requires IsPermutation(order, |docs|) && Outgrown(f, g, docs, order, outer, first) && q < |docs|
    requires (outer.Some? ==> outer.value in f.nodes) && forall id :: id in f.nodes ==> id < first
    ensures ParentStands(g, docs, order, outer, first, q)
  {
    var attached, grown := OutgrownShape(f, g, docs, order, outer, first);
    assert NewShape(grown, attached, |docs|, outer, first, q);
    LinksKept(grown, g, docs, order, first, q);
    AttachedStands(g, docs, order, attached, outer, first, q);
  }

  lemma {:induction false} AttachedStands(g: Forest, docs: seq<DocEntity>, order: seq<nat>, attached: Turns,
                                          outer: Option<EntityId>, first: EntityId, q: nat)
    requires IsPermutation(order, |docs|) && q < |docs| && first + q in g.nodes
    requires AttachedAs(docs, IndexOf(docs), order, attached)
    requires g.Parent(first + q) == SceneSpawn.Under(attached, q, outer, first)
    ensures ParentStands(g, docs, order, outer, first, q)
  {
    assert attached[q] == AttachedAt(docs, IndexOf(docs), order, q);
    AttachedExactly(docs, order, q);
  }

  lemma {:induction false} LinksKept(grown: Forest, g: Forest, docs: seq<DocEntity>, order: seq<nat>, first: EntityId,
                                     q: nat)
    requires IsPermutation(order, |docs|) && q < |docs| && first + q in grown.nodes
    requires g.nodes == Filled(grown.nodes, docs, order, |docs|, first, IdMap(docs, order, |docs|, first))
    ensures first + q in g.nodes && g.Parent(first + q) == grown.Parent(first + q)
  {
  }

  lemma {:induction false} AttachedExactly(docs: seq<DocEntity>, order: seq<nat>, q: nat)
    requires IsPermutation(order, |docs|) && q < |docs|
    ensures var a := AttachedAt(docs, IndexOf(docs), order, q);
      && (forall t: nat :: t < q && Names(docs, order, q, t) ==> a == Some(t))
      && (a.Some? ==> Names(docs, order, q, a.value))
  {
    var named, a := docs[order[q]].parent, AttachedAt(docs, IndexOf(docs), order, q);
    forall t: nat | t < q && Names(docs, order, q, t) ensures a == Some(t) {
      IndexOfExactly(docs, named.value, order[t]);
      OneTurn(order, |docs|, q, t);
    }
    if a.Some? {
      IndexOfExactly(docs, named.value, order[a.value]);
    }
  }

  lemma OneTurn(order: seq<nat>, n: nat, q: nat, t: nat)
    requires IsPermutation(order, n) && t < q < n
    ensures TurnOf(order, order[t], q) == Some(t)
  {
    var a := TurnOf(order, order[t], q);
    assert a.Some? && a.value < t ==> Differ(order, a.value, t);
    assert a.Some? && a.value > t ==> Differ(order, t, a.value);
  }
}
