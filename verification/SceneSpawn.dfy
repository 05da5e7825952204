/** Spawning a document into a world: `World::spawn_dynamic_scene` of
    crates/zlim-core/src/scene.rs. */
module SceneSpawn {
  import opened Wrappers
  import opened Forests
  import opened SceneDocument
  import opened SpawnPlan

  /** How a spawn ends. `UndeclaredParent` is the panic of looking up a parent id that the document
      does not declare. */
  datatype Outcome = Done | NoSuchParent | Failed | UndeclaredParent

  /** The entity spawned in turn `q` hangs below the one spawned in turn `attached[q]`, or below the
      outer parent. */
  type Turns = seq<Option<nat>>

  ghost predicate Earlier(attached: Turns) {
    forall q :: 0 <= q < |attached| && attached[q].Some? ==> attached[q].value < q
  }

  function Under(attached: Turns, q: nat, outer: Option<EntityId>, first: EntityId): Option<EntityId>
    requires q < |attached|
  {
    if attached[q].Some? then Some(first + attached[q].value) else outer
  }

  /** The forest after one more entity, or the same one when its parent is missing. */
  function Tried(f: Forest, id: EntityId, parent: Option<EntityId>): Forest {
    if parent.Some? && parent.value !in f.nodes then f else Spawned(f, id, parent)
  }

  /** The forest after `n` turns, which hand out the ids from `first` on. */
  ghost function Grown(f: Forest, attached: Turns, n: nat, outer: Option<EntityId>, first: EntityId): Forest
    requires n <= |attached|
  {
    if n == 0 then f
    else Tried(Grown(f, attached, n - 1, outer, first), first + n - 1, Under(attached, n - 1, outer, first))
  }

  lemma {:induction false} GrownKeys(f: Forest, attached: Turns, n: nat, outer: Option<EntityId>, first: EntityId)
    requires n <= |attached| && Earlier(attached) && (outer.Some? ==> outer.value in f.nodes)
    ensures Grown(f, attached, n, outer, first).nodes.Keys == f.nodes.Keys + NewIds(first, n)
  {
    if n > 0 {
      GrownKeys(f, attached, n - 1, outer, first);
      KeysNext(f.nodes.Keys, Grown(f, attached, n - 1, outer, first), first, n - 1,
               Under(attached, n - 1, outer, first));
    }
  }

  /** No turn is refused. */
  lemma GrownNext(f: Forest, attached: Turns, n: nat, outer: Option<EntityId>, first: EntityId)
    requires n < |attached| && Earlier(attached) && (outer.Some? ==> outer.value in f.nodes)
    ensures var (g, parent) := (Grown(f, attached, n, outer, first), Under(attached, n, outer, first));
      && g.nodes.Keys == f.nodes.Keys + NewIds(first, n)
      && (parent.Some? ==> parent.value in g.nodes)
      && Grown(f, attached, n + 1, outer, first) == Spawned(g, first + n, parent)
  {
    GrownKeys(f, attached, n, outer, first);
  }

  /** `g` is `f` with one more entity. */
  ghost predicate OneMore(f: Forest, g: Forest, id: EntityId, parent: Option<EntityId>) {
    id !in f.nodes && (parent.Some? ==> parent.value in f.nodes) && g == Spawned(f, id, parent)
  }

  lemma GrownByOne(f: Forest, attached: Turns, n: nat, outer: Option<EntityId>, first: EntityId)
    requires 0 < n <= |attached| && Earlier(attached) && (outer.Some? ==> outer.value in f.nodes)
    requires forall id :: id in f.nodes ==> id < first
    ensures OneMore(Grown(f, attached, n - 1, outer, first), Grown(f, attached, n, outer, first), first + n - 1,
                    Under(attached, n - 1, outer, first))
  {
    GrownNext(f, attached, n - 1, outer, first);
  }

  /** The turn in which document entity `j` is spawned, among the first `n`. */
  function TurnOf(order: seq<nat>, j: nat, n: nat): (r: Option<nat>)
    requires n <= |order|
    ensures r.Some? ==> r.value < n && order[r.value] == j
    ensures r.None? ==> forall k :: 0 <= k < n ==> order[k] != j
  {
    if n == 0 then None
    else if order[n - 1] == j then Some(n - 1)
    else TurnOf(order, j, n - 1)
  }

  function AttachedAt(docs: seq<DocEntity>, indexOf: map<EntityId, nat>, order: seq<nat>, q: nat): (r: Option<nat>)
    requires q < |order| && order[q] < |docs|
    ensures r.Some? ==> r.value < q
  {
    var parent := docs[order[q]].parent;
    if parent.Some? && parent.value in indexOf then TurnOf(order, indexOf[parent.value], q) else None
  }

  function Attachments(docs: seq<DocEntity>, indexOf: map<EntityId, nat>, order: seq<nat>): (attached: Turns)
    requires forall q :: 0 <= q < |order| ==> order[q] < |docs|
    ensures |attached| == |order| && Earlier(attached)
    ensures forall q :: 0 <= q < |order| ==> attached[q] == AttachedAt(docs, indexOf, order, q)
  {
    seq(|order|, q requires 0 <= q < |order| => AttachedAt(docs, indexOf, order, q))
  }

  ghost predicate AttachedAs(docs: seq<DocEntity>, indexOf: map<EntityId, nat>, order: seq<nat>, attached: Turns) {
    && |attached| == |order| && Earlier(attached)
    && forall q {:trigger AttachedAt(docs, indexOf, order, q)} :: 0 <= q < |order| ==>
      order[q] < |docs| && attached[q] == AttachedAt(docs, indexOf, order, q)
  }

  /** Every parent that an entity names is declared. */
  ghost predicate AllDeclared(docs: seq<DocEntity>, indexOf: map<EntityId, nat>) {
    forall i :: 0 <= i < |docs| ==> Declared(docs, indexOf, i)
  }

  predicate Declared(docs: seq<DocEntity>, indexOf: map<EntityId, nat>, i: nat)
    requires i < |docs|
  {
    docs[i].parent.Some? ==> docs[i].parent.value in indexOf
  }

  /** A spawn order: every entity once. */
  ghost predicate IsPermutation(order: seq<nat>, n: nat) {
    && |order| == n
    && (forall q :: 0 <= q < n ==> order[q] < n)
    && (forall i :: 0 <= i < n ==> i in order)
    && (forall a, b {:trigger Differ(order, a, b)} :: 0 <= a < b < n ==> Differ(order, a, b))
  }

  predicate Differ(order: seq<nat>, a: nat, b: nat)
    requires a < |order| && b < |order|
  {
    order[a] != order[b]
  }

  // ------------------------------------------------------------------------------------------
  // The passes
  // ------------------------------------------------------------------------------------------

  /** Which entity each document id became, after `n` turns. */
  function IdMap(docs: seq<DocEntity>, order: seq<nat>, n: nat, first: EntityId): map<EntityId, EntityId>
    requires n <= |order| && forall q :: 0 <= q < |order| ==> order[q] < |docs|
  {
    if n == 0 then map[] else IdMap(docs, order, n - 1, first)[docs[order[n - 1]].id := first + n - 1]
  }

  /** A childless entity whose parent, if it has one, is there. */
  predicate LastOne(g: Forest, id: EntityId) {
    id in g.nodes && g.Children(id) == [] && (g.Parent(id).Some? ==> g.Parent(id).value in g.nodes)
  }

  /** The forests differ in the references of new entities only. */
  ghost predicate SameLinks(g: Forest, h: Forest, first: EntityId) {
    && h.roots == g.roots && h.nodes.Keys == g.nodes.Keys
    && forall id :: id in g.nodes ==> SameNode(g, h, first, id)
  }

  predicate SameNode(g: Forest, h: Forest, first: EntityId, id: EntityId)
    requires id in g.nodes && id in h.nodes
  {
    && h.Parent(id) == g.Parent(id) && h.Children(id) == g.Children(id)
    && (id < first ==> h.nodes[id] == g.nodes[id])
  }

  lemma SameLinksRemoved(g: Forest, h: Forest, first: EntityId, id: EntityId)
    requires SameLinks(g, h, first) && id in g.nodes && (g.Parent(id).Some? ==> g.Parent(id).value in g.nodes)
    ensures h.Parent(id) == g.Parent(id) && SameLinks(Removed(g, id), Removed(h, id), first)
  {
    assert SameNode(g, h, first, id);
    forall x | x in Removed(g, id).nodes ensures SameNode(Removed(g, id), Removed(h, id), first, x) {
      assert SameNode(g, h, first, x);
    }
  }

  lemma NoNewLeft(f: Forest, h: Forest, first: EntityId)
    requires SameLinks(f, h, first) && forall id :: id in f.nodes ==> id < first
    ensures h == f
  {
    forall id | id in f.nodes ensures h.nodes[id] == f.nodes[id] {
      assert SameNode(f, h, first, id);
    }
    assert h.nodes == f.nodes;
  }

  ghost predicate UndoneAt(stages: seq<Forest>, first: EntityId, k: nat)
    requires k + 1 < |stages|
  {
    LastOne(stages[k + 1], first + k) && Removed(stages[k + 1], first + k) == stages[k]
  }

  /** `stages` are the forests before and after each turn: each turn is undone by one removal. */
  ghost predicate AllUndone(stages: seq<Forest>, first: EntityId) {
    forall k: nat {:trigger UndoneAt(stages, first, k)} :: k + 1 < |stages| ==> UndoneAt(stages, first, k)
  }

  lemma StageAdded(stages: seq<Forest>, first: EntityId, g: Forest, parent: Option<EntityId>)
    requires |stages| > 0 && AllUndone(stages, first)
    requires var f := stages[|stages| - 1];
      OneMore(f, g, first + |stages| - 1, parent) && f.roots <= f.nodes.Keys
    ensures AllUndone(stages + [g], first) && g.roots <= g.nodes.Keys
  {
    RemoveUndoesSpawn(stages[|stages| - 1], first + |stages| - 1, parent);
    forall k: nat | k + 1 < |stages + [g]| ensures UndoneAt(stages + [g], first, k) {
      assert k + 1 < |stages| ==> UndoneAt(stages, first, k);
    }
  }

  lemma {:induction false} Stages(f: Forest, attached: Turns, n: nat, outer: Option<EntityId>, first: EntityId)
    returns (stages: seq<Forest>)
    requires n <= |attached| && Earlier(attached) && (outer.Some? ==> outer.value in f.nodes)
    requires f.roots <= f.nodes.Keys && forall id :: id in f.nodes ==> id < first
    ensures |stages| == n + 1 && stages[0] == f && stages[n] == Grown(f, attached, n, outer, first)
    ensures stages[n].roots <= stages[n].nodes.Keys && AllUndone(stages, first)
  {
    if n == 0 {
      stages := [f];
    } else {
      var before := Stages(f, attached, n - 1, outer, first);
      var g := Grown(f, attached, n, outer, first);
      GrownByOne(f, attached, n, outer, first);
      StageAdded(before, first, g, Under(attached, n - 1, outer, first));
      stages := before + [g];
    }
  }

  /** Despawns what was spawned, last one first, whatever components it has by then. Each entity is
      childless in its turn, so its despawn takes out that entity alone. */
  method DropAll(world: World, n: nat, ghost stages: seq<Forest>, first: EntityId)
    requires |stages| == n + 1 && SameLinks(stages[n], world.State(), first) && AllUndone(stages, first)
    modifies world`nodes, world`roots
    ensures SameLinks(stages[0], world.State(), first)
  {
    var k := n;
    while k > 0
      invariant 0 <= k <= n && SameLinks(stages[k], world.State(), first)
    {
      k := k - 1;
      assert UndoneAt(stages, first, k);
      DropLast(world, first + k, stages[k + 1], stages[k], first);
    }
  }

  /** One turn of that loop. */
  method DropLast(world: World, id: EntityId, ghost g: Forest, ghost before: Forest, ghost first: EntityId)
    requires SameLinks(g, world.State(), first) && LastOne(g, id) && Removed(g, id) == before
    modifies world`nodes, world`roots
    ensures SameLinks(before, world.State(), first)
  {
    SameLinksRemoved(g, world.State(), first, id);
    world.RemoveOne(id);
  }

  method DropSpawned(world: World, n: nat, ghost f: Forest, ghost attached: Turns, ghost outer: Option<EntityId>,
                     first: EntityId)
    requires n <= |attached| && Earlier(attached) && (outer.Some? ==> outer.value in f.nodes)
    requires f.roots <= f.nodes.Keys && forall id :: id in f.nodes ==> id < first
    requires SameLinks(Grown(f, attached, n, outer, first), world.State(), first)
    modifies world`nodes, world`roots
    ensures world.State() == f
  {
    ghost var stages := Stages(f, attached, n, outer, first);
    DropAll(world, n, stages, first);
    NoNewLeft(f, world.State(), first);
  }

  /** `worldOf` after `n` turns. */
  ghost predicate Recorded(worldOf: seq<Option<EntityId>>, order: seq<nat>, n: nat, first: EntityId) {
    n <= |order| && forall i :: 0 <= i < |worldOf| ==> worldOf[i] == EntityOf(order, n, first, i)
  }

  function EntityOf(order: seq<nat>, n: nat, first: EntityId, i: nat): Option<EntityId>
    requires n <= |order|
  {
    var turn := TurnOf(order, i, n);
    if turn.Some? then Some(first + turn.value) else None
  }

  /** What the bookkeeping says after `n` turns. */
  ghost predicate Progress(docs: seq<DocEntity>, indexOf: map<EntityId, nat>, order: seq<nat>, n: nat, first: EntityId,
                           worldOf: seq<Option<EntityId>>, idMap: map<EntityId, EntityId>)
    requires IsPermutation(order, |docs|) && n <= |docs|
  {
    && |worldOf| == |docs| && Recorded(worldOf, order, n, first)
    && idMap == IdMap(docs, order, n, first)
    && forall k :: 0 <= k < n ==> Declared(docs, indexOf, order[k])
  }

  lemma ProgressStart(docs: seq<DocEntity>, indexOf: map<EntityId, nat>, order: seq<nat>, first: EntityId)
    requires IsPermutation(order, |docs|)
    ensures Progress(docs, indexOf, order, 0, first, seq(|docs|, _ => None), map[])
  {
  }

  lemma ProgressNext(docs: seq<DocEntity>, indexOf: map<EntityId, nat>, order: seq<nat>, n: nat, first: EntityId,
                     worldOf: seq<Option<EntityId>>, idMap: map<EntityId, EntityId>)
    requires IsPermutation(order, |docs|) && n < |docs| && Progress(docs, indexOf, order, n, first, worldOf, idMap)
    requires Declared(docs, indexOf, order[n])
    ensures Progress(docs, indexOf, order, n + 1, first, worldOf[order[n] := Some(first + n)],
                     idMap[docs[order[n]].id := first + n])
  {
  }

  /** One turn: the parent is the entity that the named one became, if it is there already. */
  method ChooseParent(docs: seq<DocEntity>, indexOf: map<EntityId, nat>, worldOf: seq<Option<EntityId>>, index: nat,
                      outer: Option<EntityId>, ghost order: seq<nat>, ghost q: nat, ghost first: EntityId,
                      ghost attached: Turns)
    returns (r: Result<Option<EntityId>, Outcome>)
    requires index < |docs| && (forall x :: x in indexOf ==> indexOf[x] < |docs|)
    requires q < |order| && order[q] == index && |worldOf| == |docs| && Recorded(worldOf, order, q, first)
    requires AttachedAs(docs, indexOf, order, attached)
    ensures r == if Declared(docs, indexOf, index)
      then Success(Under(attached, q, outer, first)) else Failure(UndeclaredParent)
  {
    assert attached[q] == AttachedAt(docs, indexOf, order, q);
    var parent := outer;
    if docs[index].parent.Some? {
      if docs[index].parent.value !in indexOf {
        return Failure(UndeclaredParent);
      }
      var named := worldOf[indexOf[docs[index].parent.value]];
      if named.Some? {
        parent := named;
      }
    }
    r := Success(parent);
  }

  /** The spawn of one turn, which the world does not refuse. */
  method SpawnNext(world: World, parent: Option<EntityId>, ghost f: Forest, ghost attached: Turns, ghost q: nat,
                   ghost outer: Option<EntityId>, ghost first: EntityId) returns (id: EntityId)
    requires world.nextId == first + q
    requires q < |attached| && Earlier(attached) && (outer.Some? ==> outer.value in f.nodes)
    requires world.State() == Grown(f, attached, q, outer, first) && parent == Under(attached, q, outer, first)
    modifies world
    ensures world.nextId == first + q + 1 && id == first + q
    ensures world.State() == Grown(f, attached, q + 1, outer, first)
  {
    GrownNext(f, attached, q, outer, first);
    ghost var g := Grown(f, attached, q, outer, first);
    var spawned := world.TrySpawnEmpty(parent);
    assert world.State() == Spawned(g, first + q, parent);
    id := spawned.value;
  }

  /** One turn: the named parent is looked up, the world may refuse, and the spawned entity is
      recorded. */
  method SpawnTurn(world: World, docs: seq<DocEntity>, indexOf: map<EntityId, nat>, order: seq<nat>, q: nat,
                   outer: Option<EntityId>, refused: bool, ghost f: Forest, ghost first: EntityId,
                   ghost attached: Turns, worldOf: seq<Option<EntityId>>, idMap: map<EntityId, EntityId>)
    returns (r: Outcome, worldOf': seq<Option<EntityId>>, idMap': map<EntityId, EntityId>)
    requires (forall x :: x in indexOf ==> indexOf[x] < |docs|) && IsPermutation(order, |docs|)
    requires q < |docs| && world.nextId == first + q && (outer.Some? ==> outer.value in f.nodes)
    requires AttachedAs(docs, indexOf, order, attached) && world.State() == Grown(f, attached, q, outer, first)
    requires Progress(docs, indexOf, order, q, first, worldOf, idMap)
    modifies world
    ensures r == (if !Declared(docs, indexOf, order[q]) then UndeclaredParent else if refused then Failed else Done)
    ensures r != Done ==> world.State() == old(world.State()) && world.nextId == old(world.nextId)
    ensures r == Done ==>
      && world.nextId == first + q + 1
      && world.State() == Grown(f, attached, q + 1, outer, first)
      && Progress(docs, indexOf, order, q + 1, first, worldOf', idMap')
  {
    var index := order[q];
    worldOf', idMap' := worldOf, idMap;
    var parent := ChooseParent(docs, indexOf, worldOf, index, outer, order, q, first, attached);
    if parent.Failure? {
      return UndeclaredParent, worldOf, idMap;
    }
    if refused {
      return Failed, worldOf, idMap;
    }
    var id := SpawnNext(world, parent.value, f, attached, q, outer, first);
    ProgressNext(docs, indexOf, order, q, first, worldOf, idMap);
    worldOf' := worldOf[index := Some(id)];
    idMap' := idMap[docs[index].id := id];
    r := Done;
  }

  /** What spawning all entities, empty, leaves. */
  ghost predicate SpawnedAll(f: Forest, g: Forest, docs: seq<DocEntity>, indexOf: map<EntityId, nat>, order: seq<nat>,
                             attached: Turns, outer: Option<EntityId>, first: EntityId,
                             worldOf: seq<Option<EntityId>>, idMap: map<EntityId, EntityId>)
    requires IsPermutation(order, |docs|) && |attached| == |docs| && Earlier(attached)
    requires outer.Some? ==> outer.value in f.nodes
  {
    && AllDeclared(docs, indexOf)
    && g == Grown(f, attached, |docs|, outer, first)
    && |worldOf| == |docs| && Recorded(worldOf, order, |docs|, first)
    && idMap == IdMap(docs, order, |docs|, first)
  }

  /** Spawns every entity, empty, in the planned order. `failAt` is the turn in which the world
      refuses to spawn, if it does; then what was spawned before goes again. */
  method SpawnEmpty(world: World, docs: seq<DocEntity>, indexOf: map<EntityId, nat>, order: seq<nat>,
                    outer: Option<EntityId>, failAt: Option<nat>, ghost attached: Turns)
    returns (r: Outcome, worldOf: seq<Option<EntityId>>, idMap: map<EntityId, EntityId>)
    requires forall x :: x in indexOf ==> indexOf[x] < |docs|
    requires (outer.Some? ==> outer.value in world.nodes) && IsPermutation(order, |docs|)
    requires AttachedAs(docs, indexOf, order, attached)
    requires world.roots <= world.nodes.Keys && forall id :: id in world.nodes ==> id < world.nextId
    modifies world
    ensures r != NoSuchParent
    ensures r == Done ==>
      && world.nextId == old(world.nextId) + |docs|
      && SpawnedAll(old(world.State()), world.State(), docs, indexOf, order, attached, outer, old(world.nextId),
                    worldOf, idMap)
    ensures r == Failed ==>
      && failAt.Some? && failAt.value < |docs|
      && world.State() == old(world.State()) && world.nextId >= old(world.nextId)
    ensures r == UndeclaredParent ==> !AllDeclared(docs, indexOf)
  {
    ghost var f := world.State();
    var first := world.nextId;
    worldOf, idMap := seq(|docs|, _ => None), map[];
    ProgressStart(docs, indexOf, order, first);
    var q := 0;
    while q < |docs|
      invariant 0 <= q <= |docs| && world.nextId == first + q
      invariant world.State() == Grown(f, attached, q, outer, first)
      invariant Progress(docs, indexOf, order, q, first, worldOf, idMap)
    {
      ghost var g := world.State();
      r, worldOf, idMap := SpawnTurn(world, docs, indexOf, order, q, outer, failAt == Some(q), f, first, attached,
                                     worldOf, idMap);
      if r == UndeclaredParent {
        assert !Declared(docs, indexOf, order[q]);
        return;
      } else if r == Failed {
        assert world.State() == g;
        SameLinksSelf(g, first);
        DropSpawned(world, q, f, attached, outer, first);
        return;
      }
      q := q + 1;
    }
    ProgressEnd(f, docs, indexOf, order, attached, outer, first, worldOf, idMap);
    r := Done;
  }

  lemma ProgressEnd(f: Forest, docs: seq<DocEntity>, indexOf: map<EntityId, nat>, order: seq<nat>, attached: Turns,
                    outer: Option<EntityId>, first: EntityId, worldOf: seq<Option<EntityId>>,
                    idMap: map<EntityId, EntityId>)
    requires IsPermutation(order, |docs|) && |attached| == |docs| && Earlier(attached)
    requires outer.Some? ==> outer.value in f.nodes
    requires Progress(docs, indexOf, order, |docs|, first, worldOf, idMap)
    ensures SpawnedAll(f, Grown(f, attached, |docs|, outer, first), docs, indexOf, order, attached, outer, first,
                       worldOf, idMap)
  {
    EveryoneDeclared(docs, indexOf, order);
  }

  lemma EveryoneDeclared(docs: seq<DocEntity>, indexOf: map<EntityId, nat>, order: seq<nat>)
    requires IsPermutation(order, |docs|) && forall k :: 0 <= k < |docs| ==> Declared(docs, indexOf, order[k])
    ensures AllDeclared(docs, indexOf)
  {
    forall i | 0 <= i < |docs| ensures Declared(docs, indexOf, i) {
      assert i in order;
    }
  }

  // ------------------------------------------------------------------------------------------
  // The components
  // ------------------------------------------------------------------------------------------

  /** What a reference of a document becomes: the entity its id became, or the id itself when that
      names a live entity, or else the placeholder. */
  function Resolved(ref: EntityId, idMap: map<EntityId, EntityId>, live: set<EntityId>): EntityId {
    var r := if ref in idMap then idMap[ref] else ref;
    if r in live then r else PLACEHOLDER
  }

  function ResolvedAll(refs: seq<EntityId>, idMap: map<EntityId, EntityId>, live: set<EntityId>): seq<EntityId> {
    seq(|refs|, k requires 0 <= k < |refs| => Resolved(refs[k], idMap, live))
  }

  /** The nodes with the components of the first `n` document entities filled in. */
  function Filled(nodes: map<EntityId, Node>, docs: seq<DocEntity>, order: seq<nat>, n: nat, first: EntityId,
                  idMap: map<EntityId, EntityId>): map<EntityId, Node>
    requires IsPermutation(order, |docs|)
  {
    map id | id in nodes ::
      if first <= id < first + |docs| && order[id - first] < n then
        nodes[id].(refs := ResolvedAll(docs[order[id - first]].refs, idMap, nodes.Keys))
      else nodes[id]
  }

  /** The second pass. `failAt` is the entity whose components cannot be applied, if there is one: it
      gets none of them. */
  method FillComponents(world: World, docs: seq<DocEntity>, worldOf: seq<Option<EntityId>>,
                        idMap: map<EntityId, EntityId>, failAt: Option<nat>, ghost order: seq<nat>,
                        ghost first: EntityId) returns (ok: bool)
    requires IsPermutation(order, |docs|) && |worldOf| == |docs| && Recorded(worldOf, order, |docs|, first)
    requires NewIds(first, |docs|) <= world.nodes.Keys
    modifies world`nodes
    ensures ok <==> failAt.None? || failAt.value >= |docs|
    ensures world.nodes == Filled(old(world.nodes), docs, order, if ok then |docs| else failAt.value, first, idMap)
  {
    ghost var nodes := world.nodes;
    assert Filled(nodes, docs, order, 0, first, idMap) == nodes;
    var index := 0;
    while index < |docs|
      invariant 0 <= index <= |docs| && (failAt.Some? ==> index <= failAt.value)
      invariant world.nodes == Filled(nodes, docs, order, index, first, idMap)
    {
      if failAt == Some(index) {
        return false;
      }
      TurnExists(order, index, |docs|);
      var target := worldOf[index].value;
      FilledNext(nodes, docs, order, index, first, idMap, target);
      var refs := ResolvedAll(docs[index].refs, idMap, world.nodes.Keys);
      world.nodes := world.nodes[target := world.nodes[target].(refs := refs)];
      index := index + 1;
    }
    ok := true;
  }

  lemma FilledKeepsLinks(g: Forest, docs: seq<DocEntity>, order: seq<nat>, n: nat, first: EntityId,
                         idMap: map<EntityId, EntityId>)
    requires IsPermutation(order, |docs|)
    ensures SameLinks(g, Forest(Filled(g.nodes, docs, order, n, first, idMap), g.roots), first)
  {
    var h := Forest(Filled(g.nodes, docs, order, n, first, idMap), g.roots);
    assert h.nodes.Keys == g.nodes.Keys;
    forall id | id in g.nodes ensures SameNode(g, h, first, id) {
    }
  }

  lemma TurnExists(order: seq<nat>, i: nat, n: nat)
    requires IsPermutation(order, n) && i < n
    ensures TurnOf(order, i, n).Some?
  {
    assert i in order;
  }

  lemma FilledNext(nodes: map<EntityId, Node>, docs: seq<DocEntity>, order: seq<nat>, n: nat, first: EntityId,
                   idMap: map<EntityId, EntityId>, target: EntityId)
    requires IsPermutation(order, |docs|) && n < |docs| && NewIds(first, |docs|) <= nodes.Keys
    requires first <= target < first + |docs| && order[target - first] == n
    ensures var filled := Filled(nodes, docs, order, n, first, idMap);
      target in filled && filled.Keys == nodes.Keys &&
      filled[target := filled[target].(refs := ResolvedAll(docs[n].refs, idMap, filled.Keys))] ==
        Filled(nodes, docs, order, n + 1, first, idMap)
  {
    var filled, filled' := Filled(nodes, docs, order, n, first, idMap), Filled(nodes, docs, order, n + 1, first, idMap);
    assert target in NewIds(first, |docs|);
    assert filled.Keys == nodes.Keys && filled'.Keys == nodes.Keys;
    forall id | id in nodes && id != target ensures filled'[id] == filled[id] {
      if first <= id < first + |docs| {
        var a, b := id - first, target - first;
        assert if a < b then Differ(order, a, b) else Differ(order, b, a);
      }
    }
  }

  /** Spawning keeps a forest well-formed, turn by turn. */
  lemma {:induction false} GrownKeeps(f: Forest, attached: Turns, n: nat, outer: Option<EntityId>, first: EntityId,
                                      g: Forest)
    requires n <= |attached| && Earlier(attached) && (outer.Some? ==> outer.value in f.nodes)
    requires f.WellFormed() && forall id :: id in f.nodes ==> id < first
    requires g == Grown(f, attached, n, outer, first)
    ensures g.WellFormed()
  {
    if n == 0 {
      assert g == f;
    } else {
      var h := Grown(f, attached, n - 1, outer, first);
      GrownKeeps(f, attached, n - 1, outer, first, h);
      GrownByOne(f, attached, n, outer, first);
      OneMoreKeeps(h, g, first + n - 1, Under(attached, n - 1, outer, first));
    }
  }

  lemma OneMoreKeeps(f: Forest, g: Forest, id: EntityId, parent: Option<EntityId>)
    requires f.WellFormed() && OneMore(f, g, id, parent)
    ensures g.WellFormed()
  {
    SpawnKeeps(f, id, parent);
  }

  lemma FilledKeepsForm(f: Forest, nodes: map<EntityId, Node>)
    requires f.WellFormed() && nodes.Keys == f.nodes.Keys
    requires forall id :: id in nodes ==> nodes[id].parent == f.Parent(id) && nodes[id].children == f.Children(id)
    ensures Forest(nodes, f.roots).WellFormed()
  {
    var g := Forest(nodes, f.roots);
    var rank :| f.Ranked(rank);
    forall id | id in nodes ensures g.LinkedUp(id) && g.LinkedDown(id) && g.RankedAt(rank, id) {
      assert f.LinkedUp(id) && f.LinkedDown(id) && f.RankedAt(rank, id);
    }
    assert g.Ranked(rank);
  }

  // ------------------------------------------------------------------------------------------
  // The whole call
  // ------------------------------------------------------------------------------------------

  /** Spawns a document under `outer`. A missing outer parent changes nothing, a failure in either pass
      leaves nothing behind, and an undeclared parent id is a panic; otherwise the world grows by
      exactly the document's entities, attached in spawn order, with their references resolved. */
  method SpawnDynamicScene(world: World, docs: seq<DocEntity>, outer: Option<EntityId>, failAt: Option<nat>,
                           failFill: Option<nat>)
    returns (r: Outcome, ghost depth: seq<Option<nat>>, ghost order: seq<nat>)
    requires world.Valid()
    modifies world
    ensures IsDepth(Links(docs), depth) && IsOrder(depth, order, |docs|) && IsPermutation(order, |docs|)
    ensures r == NoSuchParent <==> outer.Some? && outer.value !in old(world.nodes)
    ensures r in {NoSuchParent, Failed} ==> world.State() == old(world.State())
    ensures r in {NoSuchParent, Failed, Done} ==> world.Valid()
    ensures r == Failed ==> (failAt.Some? && failAt.value < |docs|) || (failFill.Some? && failFill.value < |docs|)
    ensures r == UndeclaredParent ==> !AllDeclared(docs, IndexOf(docs))
    ensures r == Done ==> AllDeclared(docs, IndexOf(docs)) && (failFill.Some? ==> failFill.value >= |docs|)
    ensures failAt.None? && failFill.None? && (outer.Some? ==> outer.value in old(world.nodes)) ==>
      (r == Done <==> AllDeclared(docs, IndexOf(docs)))
    ensures r == Done ==> Outgrown(old(world.State()), world.State(), docs, order, outer, old(world.nextId))
  {
    var indexOf := BuildIndex(docs);
    var planned;
    depth, planned := Plan(docs, indexOf);
    order := planned;
    OrderIsPermutation(depth, order, |docs|);
    if outer.Some? && outer.value !in world.nodes {
      return NoSuchParent, depth, order;
    }
    var first := world.nextId;
    var worldOf, idMap;
    ghost var f, attached := world.State(), Attachments(docs, indexOf, order);
    r, worldOf, idMap := SpawnEmpty(world, docs, indexOf, planned, outer, failAt, attached);
    if r == Done {
      var ok := Furnish(world, docs, worldOf, idMap, failFill, order, first, f, attached, outer);
      r := if ok then Done else Failed;
    }
  }

  lemma SameLinksSelf(g: Forest, first: EntityId)
    ensures SameLinks(g, g, first)
  {
  }

  /** The second pass over a spawned document; when it fails, everything spawned goes again. */
  method FillOrDrop(world: World, docs: seq<DocEntity>, worldOf: seq<Option<EntityId>>, idMap: map<EntityId, EntityId>,
                    failAt: Option<nat>, ghost order: seq<nat>, first: EntityId, ghost f: Forest, ghost attached: Turns,
                    ghost outer: Option<EntityId>) returns (ok: bool)
    requires IsPermutation(order, |docs|) && |worldOf| == |docs| && Recorded(worldOf, order, |docs|, first)
    requires |attached| == |docs| && Earlier(attached) && (outer.Some? ==> outer.value in f.nodes)
    requires f.roots <= f.nodes.Keys && forall id :: id in f.nodes ==> id < first
    requires world.State() == Grown(f, attached, |docs|, outer, first)
    modifies world`nodes, world`roots
    ensures ok <==> failAt.None? || failAt.value >= |docs|
    ensures !ok ==> world.State() == f
    ensures ok ==> world.State() == Furnished(Grown(f, attached, |docs|, outer, first), docs, order, first, idMap)
  {
    ghost var g := world.State();
    GrownKeys(f, attached, |docs|, outer, first);
    ok := FillComponents(world, docs, worldOf, idMap, failAt, order, first);
    if !ok {
      FilledKeepsLinks(g, docs, order, failAt.value, first, idMap);
      DropSpawned(world, |docs|, f, attached, outer, first);
    }
  }

  /** The forest with all components filled in. */
  ghost function Furnished(g: Forest, docs: seq<DocEntity>, order: seq<nat>, first: EntityId,
                           idMap: map<EntityId, EntityId>): Forest
    requires IsPermutation(order, |docs|)
  {
    Forest(Filled(g.nodes, docs, order, |docs|, first, idMap), g.roots)
  }

  lemma FurnishedKeeps(f: Forest, attached: Turns, outer: Option<EntityId>, first: EntityId, docs: seq<DocEntity>,
                       order: seq<nat>, idMap: map<EntityId, EntityId>)
    requires IsPermutation(order, |docs|) && |attached| == |docs| && Earlier(attached)
    requires f.WellFormed() && (outer.Some? ==> outer.value in f.nodes) && forall id :: id in f.nodes ==> id < first
    ensures var g := Furnished(Grown(f, attached, |docs|, outer, first), docs, order, first, idMap);
      g.WellFormed() && g.nodes.Keys == f.nodes.Keys + NewIds(first, |docs|)
  {
    var g := Grown(f, attached, |docs|, outer, first);
    GrownKeys(f, attached, |docs|, outer, first);
    GrownKeeps(f, attached, |docs|, outer, first, g);
    FilledKeepsForm(g, Filled(g.nodes, docs, order, |docs|, first, idMap));
  }

  method Furnish(world: World, docs: seq<DocEntity>, worldOf: seq<Option<EntityId>>, idMap: map<EntityId, EntityId>,
                 failAt: Option<nat>, ghost order: seq<nat>, first: EntityId, ghost f: Forest, ghost attached: Turns,
                 ghost outer: Option<EntityId>) returns (ok: bool)
    requires IsPermutation(order, |docs|) && |worldOf| == |docs| && Recorded(worldOf, order, |docs|, first)
    requires |attached| == |docs| && Earlier(attached) && (outer.Some? ==> outer.value in f.nodes)
    requires f.WellFormed() && first >= FIRST_ID && forall id :: id in f.nodes ==> FIRST_ID <= id < first
    requires world.State() == Grown(f, attached, |docs|, outer, first) && world.nextId == first + |docs|
    modifies world`nodes, world`roots
    ensures ok <==> failAt.None? || failAt.value >= |docs|
    ensures world.Valid()
    ensures !ok ==> world.State() == f
    ensures ok ==> world.State() == Furnished(Grown(f, attached, |docs|, outer, first), docs, order, first, idMap)
  {
    FurnishedKeeps(f, attached, outer, first, docs, order, idMap);
    ok := FillOrDrop(world, docs, worldOf, idMap, failAt, order, first, f, attached, outer);
  }

  /** The world after a document was spawned. */
  ghost predicate Outgrown(f: Forest, g: Forest, docs: seq<DocEntity>, order: seq<nat>, outer: Option<EntityId>,
                           first: EntityId)
    requires IsPermutation(order, |docs|)
  {
    var grown := Grown(f, Attachments(docs, IndexOf(docs), order), |docs|, outer, first);
    g == Furnished(grown, docs, order, first, IdMap(docs, order, |docs|, first))
  }

  lemma OrderIsPermutation(depth: seq<Option<nat>>, order: seq<nat>, n: nat)
    requires IsOrder(depth, order, n)
    ensures IsPermutation(order, n)
  {
    forall a, b | 0 <= a < b < n ensures Differ(order, a, b) {
      assert SortedAt(depth, order, a, b);
    }
  }
}
