/** The entity hierarchy: nodes with a parent link and an ordered child list, and the set of roots
    (crates/zlim-core/src/entity/entities.rs). */
module Forests {
  import opened Wrappers

  /** An entity id as its 64-bit pattern. A live entity has a non-zero generation in its high half. */
  type EntityId = nat

  const FIRST_ID: EntityId := 0x1_0000_0000
  const PLACEHOLDER: EntityId := 0xFFFF_FFFF_FFFF_FFFF

  /** A spawned entity: its links, and the entity references that its components carry. */
  datatype Node = Node(parent: Option<EntityId>, children: seq<EntityId>, refs: seq<EntityId>)

  datatype Forest = Forest(nodes: map<EntityId, Node>, roots: set<EntityId>)
  {
    predicate Contains(id: EntityId) {
      id in nodes
    }

    function Parent(id: EntityId): Option<EntityId>
      requires id in nodes
    {
      nodes[id].parent
    }

    function Children(id: EntityId): seq<EntityId>
      requires id in nodes
    {
      nodes[id].children
    }

    /** Up and down links agree, and nothing is listed twice. */
    ghost predicate Linked() {
      && (forall id {:trigger LinkedUp(id)} :: id in nodes ==> LinkedUp(id))
      && (forall id {:trigger LinkedDown(id)} :: id in nodes ==> LinkedDown(id))
      && (forall id :: id in roots ==> id in nodes && Parent(id) == None)
    }

    ghost predicate LinkedUp(id: EntityId)
      requires id in nodes
    {
      match Parent(id)
      case None => id in roots
      case Some(p) => p in nodes && id in Children(p)
    }

    ghost predicate LinkedDown(id: EntityId)
      requires id in nodes
    {
      && NoRepeats(Children(id))
      && forall k :: 0 <= k < |Children(id)| ==> Children(id)[k] in nodes && Parent(Children(id)[k]) == Some(id)
    }

    /** A measure that grows along parent links: there is no cycle. */
    ghost predicate Ranked(rank: map<EntityId, nat>) {
      && nodes.Keys <= rank.Keys
      && forall id {:trigger RankedAt(rank, id)} :: id in nodes ==> RankedAt(rank, id)
    }

    ghost predicate RankedAt(rank: map<EntityId, nat>, id: EntityId)
      requires id in nodes && nodes.Keys <= rank.Keys
    {
      Parent(id).Some? && Parent(id).value in nodes ==> rank[Parent(id).value] < rank[id]
    }

    ghost predicate WellFormed() {
      Linked() && exists rank :: Ranked(rank)
    }

    /** The entity `n` parent links above `id`. */
    ghost function Up(id: EntityId, n: nat): Option<EntityId>
      decreases n
    {
      if n == 0 then Some(id)
      else if id in nodes && Parent(id).Some? then Up(Parent(id).value, n - 1)
      else None
    }

    /** `id` is `top` or somewhere below it. */
    ghost predicate Under(id: EntityId, top: EntityId) {
      exists n: nat :: Up(id, n) == Some(top)
    }

    ghost function Subtree(top: EntityId): set<EntityId> {
      set id | id in nodes && Under(id, top)
    }
  }

  predicate IsNew(first: EntityId, n: nat, id: EntityId) {
    first <= id < first + n
  }

  /** The ids of `n` entities spawned from `first` on. */
  ghost function NewIds(first: EntityId, n: nat): (ids: set<EntityId>)
    ensures forall id :: id in ids <==> first <= id < first + n
  {
    set id {:trigger IsNew(first, n, id)} | first <= id < first + n
  }

  ghost predicate Increasing(s: seq<EntityId>) {
    forall j, k :: 0 <= j < k < |s| ==> s[j] < s[k]
  }

  /** The last position of `x`, which is how child lists are searched. */
  function LastPosition(s: seq<EntityId>, x: EntityId): (k: nat)
    requires x in s
    ensures k < |s| && s[k] == x && x !in s[k + 1..]
  {
    if s[|s| - 1] == x then |s| - 1 else LastPosition(s[..|s| - 1], x)
  }

  function Without(s: seq<EntityId>, x: EntityId): seq<EntityId> {
    if x in s then s[..LastPosition(s, x)] + s[LastPosition(s, x) + 1..] else s
  }

  /** A new childless entity at the end of its parent's children, or among the roots. */
  function Spawned(f: Forest, id: EntityId, parent: Option<EntityId>): Forest
    requires parent.Some? ==> parent.value in f.nodes
  {
    match parent
    case None => Forest(f.nodes[id := Node(None, [], [])], f.roots + {id})
    case Some(p) =>
      Forest(f.nodes[p := f.nodes[p].(children := f.Children(p) + [id])][id := Node(parent, [], [])], f.roots)
  }

  /** Taking out one entity: its children become roots. */
  function Removed(f: Forest, id: EntityId): Forest
    requires id in f.nodes
    requires f.Parent(id).Some? ==> f.Parent(id).value in f.nodes
  {
    var freed := f.Children(id);
    var kept := map x | x in f.nodes && x != id ::
      var node := f.nodes[x];
      Node(if x in freed then None else node.parent,
           if f.Parent(id) == Some(x) then Without(node.children, id) else node.children,
           node.refs);
    Forest(kept, (if f.Parent(id).None? then f.roots - {id} else f.roots) + Elements(freed))
  }

  lemma SpawnedKeys(g: Forest, id: EntityId, parent: Option<EntityId>)
    requires parent.Some? ==> parent.value in g.nodes
    ensures Spawned(g, id, parent).nodes.Keys == g.nodes.Keys + {id}
  {
  }

  lemma KeysNext(before: set<EntityId>, g: Forest, first: EntityId, n: nat, parent: Option<EntityId>)
    requires g.nodes.Keys == before + NewIds(first, n) && (parent.Some? ==> parent.value in g.nodes)
    ensures Spawned(g, first + n, parent).nodes.Keys == before + NewIds(first, n + 1)
  {
    SpawnedKeys(g, first + n, parent);
    assert NewIds(first, n + 1) == NewIds(first, n) + {first + n};
  }

  lemma SpawnKeepsLinks(f: Forest, id: EntityId, parent: Option<EntityId>)
    requires f.Linked() && id !in f.nodes && (parent.Some? ==> parent.value in f.nodes)
    ensures Spawned(f, id, parent).Linked()
  {
    var f' := Spawned(f, id, parent);
    forall x | x in f'.nodes ensures f'.LinkedUp(x) && f'.LinkedDown(x) {
      if x in f.nodes {
        assert f.LinkedUp(x) && f.LinkedDown(x);
      }
      if x == id && parent.Some? {
        var p := parent.value;
        assert f'.Children(p)[|f.Children(p)|] == id;
      }
    }
  }

  lemma SpawnKeepsRank(f: Forest, id: EntityId, parent: Option<EntityId>, rank: map<EntityId, nat>)
    requires f.Linked() && f.Ranked(rank) && id !in f.nodes && (parent.Some? ==> parent.value in f.nodes)
    ensures Spawned(f, id, parent).Ranked(rank[id := if parent.Some? then rank[parent.value] + 1 else 0])
  {
    var f' := Spawned(f, id, parent);
    var rank' := rank[id := if parent.Some? then rank[parent.value] + 1 else 0];
    forall x | x in f'.nodes ensures f'.RankedAt(rank', x) {
      if x in f.nodes {
        assert f.RankedAt(rank, x) && f.LinkedUp(x);
      }
    }
  }

  lemma SpawnKeeps(f: Forest, id: EntityId, parent: Option<EntityId>)
    requires f.WellFormed() && id !in f.nodes && (parent.Some? ==> parent.value in f.nodes)
    ensures Spawned(f, id, parent).WellFormed()
  {
    var rank :| f.Ranked(rank);
    SpawnKeepsLinks(f, id, parent);
    SpawnKeepsRank(f, id, parent, rank);
  }

  /** Removing an entity right after spawning it restores the forest. */
  lemma RemoveUndoesSpawn(f: Forest, id: EntityId, parent: Option<EntityId>)
    requires id !in f.roots && id !in f.nodes && (parent.Some? ==> parent.value in f.nodes)
    ensures var f' := Spawned(f, id, parent);
      f'.Children(id) == [] && Removed(f', id) == f
  {
    RestUndone(f, id, parent);
    forall x | x in f.nodes ensures SameAt(f, Removed(Spawned(f, id, parent), id), x) {
      NodeUndone(f, id, parent, x);
    }
    SameForest(f, Removed(Spawned(f, id, parent), id));
  }

  ghost predicate SameAt(f: Forest, g: Forest, x: EntityId)
    requires x in f.nodes
  {
    x in g.nodes && g.nodes[x] == f.nodes[x]
  }

  lemma SameForest(f: Forest, g: Forest)
    requires g.nodes.Keys == f.nodes.Keys && g.roots == f.roots && forall x :: x in f.nodes ==> SameAt(f, g, x)
    ensures g == f
  {
    assert forall x :: x in f.nodes ==> SameAt(f, g, x) && g.nodes[x] == f.nodes[x];
    assert g.nodes == f.nodes;
  }

  lemma RestUndone(f: Forest, id: EntityId, parent: Option<EntityId>)
    requires id !in f.roots && id !in f.nodes && (parent.Some? ==> parent.value in f.nodes)
    ensures var g := Removed(Spawned(f, id, parent), id); g.nodes.Keys == f.nodes.Keys && g.roots == f.roots
  {
    var g := Removed(Spawned(f, id, parent), id);
    assert forall x :: x in g.nodes <==> x in f.nodes;
  }

  lemma NodeUndone(f: Forest, id: EntityId, parent: Option<EntityId>, x: EntityId)
    requires id !in f.nodes && x in f.nodes && (parent.Some? ==> parent.value in f.nodes)
    ensures SameAt(f, Removed(Spawned(f, id, parent), id), x)
  {
    if parent == Some(x) {
      WithoutLast(f.Children(x), id);
    }
  }

  lemma WithoutLast(s: seq<EntityId>, x: EntityId)
    ensures Without(s + [x], x) == s
  {
    assert LastPosition(s + [x], x) == |s|;
  }

  lemma WithoutOnly(s: seq<EntityId>, x: EntityId)
    requires NoRepeats(s)
    ensures NoRepeats(Without(s, x)) && forall y :: y in Without(s, x) <==> y in s && y != x
  {
    if x in s {
      var k, t := LastPosition(s, x), Without(s, x);
      forall y ensures y in t <==> y in s && y != x {
        if y in s && y != x {
          var j :| 0 <= j < |s| && s[j] == y;
          assert if j < k then t[j] == y else t[j - 1] == y;
        }
      }
    }
  }

  /** What the others make of a removal: children stay in the order they were in. */
  lemma RemovedNode(f: Forest, id: EntityId, x: EntityId)
    requires f.Linked() && id in f.nodes && x in f.nodes && x != id
    ensures f.Parent(id).Some? ==> f.Parent(id).value in f.nodes
    ensures var g := Removed(f, id);
      && x in g.nodes && g.nodes[x].refs == f.nodes[x].refs
      && g.Parent(x) == (if f.Parent(x) == Some(id) then None else f.Parent(x))
      && NoRepeats(g.Children(x)) && (forall y :: y in g.Children(x) <==> y in f.Children(x) && y != id)
      && (id !in f.Children(x) ==> g.Children(x) == f.Children(x))
      && forall k :: 0 <= k < |f.Children(x)| && f.Children(x)[k] == id ==>
           g.Children(x) == f.Children(x)[..k] + f.Children(x)[k + 1..]
  {
    assert f.LinkedUp(id) && f.LinkedDown(id) && f.LinkedUp(x) && f.LinkedDown(x);
    WithoutOnly(f.Children(x), id);
    if id in f.Children(x) {
      assert f.Children(x)[LastPosition(f.Children(x), id)] == id;
    }
  }

  lemma RemovedRoots(f: Forest, rank: map<EntityId, nat>, id: EntityId, r: EntityId)
    requires f.Linked() && f.Ranked(rank) && id in f.nodes
    ensures f.Parent(id).Some? ==> f.Parent(id).value in f.nodes
    ensures var g := Removed(f, id);
      r in g.roots <==> r in g.nodes && g.Parent(r) == None
  {
    assert f.LinkedUp(id) && f.LinkedDown(id) && f.RankedAt(rank, id);
    if r in f.nodes && r != id {
      RemovedNode(f, id, r);
      assert f.LinkedUp(r);
    }
  }

  /** Taking out an entity keeps the forest well-formed: all others stay, with the children in the
      order they had, and exactly its own children lose their parent and become roots. */
  lemma RemoveKeeps(f: Forest, id: EntityId)
    requires f.WellFormed() && id in f.nodes
    ensures f.Parent(id).Some? ==> f.Parent(id).value in f.nodes
    ensures var g := Removed(f, id);
      && g.WellFormed() && g.nodes.Keys == f.nodes.Keys - {id}
      && forall x :: x in g.nodes ==> g.Parent(x) == if f.Parent(x) == Some(id) then None else f.Parent(x)
  {
    assert f.LinkedUp(id);
    var g := Removed(f, id);
    var rank :| f.Ranked(rank);
    forall x | x in g.nodes
      ensures g.LinkedUp(x) && g.LinkedDown(x) && g.RankedAt(rank, x)
      ensures g.Parent(x) == if f.Parent(x) == Some(id) then None else f.Parent(x)
    {
      RemovedLinks(f, rank, id, x);
    }
    forall r ensures r in g.roots <==> r in g.nodes && g.Parent(r) == None {
      RemovedRoots(f, rank, id, r);
    }
    assert g.Ranked(rank);
  }

  lemma RemovedLinks(f: Forest, rank: map<EntityId, nat>, id: EntityId, x: EntityId)
    requires f.Linked() && f.Ranked(rank) && id in f.nodes && x in f.nodes && x != id
    requires f.Parent(id).Some? ==> f.Parent(id).value in f.nodes
    ensures var g := Removed(f, id);
      && x in g.nodes && g.LinkedUp(x) && g.LinkedDown(x) && g.nodes.Keys <= rank.Keys && g.RankedAt(rank, x)
      && g.Parent(x) == if f.Parent(x) == Some(id) then None else f.Parent(x)
  {
    var g := Removed(f, id);
    RemovedNode(f, id, x);
    RemovedRoots(f, rank, id, x);
    assert f.LinkedUp(x) && f.LinkedDown(x) && f.RankedAt(rank, x);
    if g.Parent(x).Some? {
      RemovedNode(f, id, g.Parent(x).value);
    }
    forall k | 0 <= k < |g.Children(x)| ensures g.Children(x)[k] in g.nodes && g.Parent(g.Children(x)[k]) == Some(x) {
      var c := g.Children(x)[k];
      assert c in f.Children(x) && c != id;
      RemovedNode(f, id, c);
    }
  }

  /** A set of entities that contains the parent of each of its members is empty. */
  lemma {:induction false} NoEndlessClimb(f: Forest, rank: map<EntityId, nat>, s: set<EntityId>, id: EntityId)
    requires f.Ranked(rank) && s <= f.nodes.Keys
    requires forall x :: x in s ==> f.Parent(x).Some? && f.Parent(x).value in s
    ensures id !in s
    decreases if id in rank then rank[id] else 0
  {
    if id in s {
      assert f.RankedAt(rank, id);
      NoEndlessClimb(f, rank, s, f.Parent(id).value);
    }
  }

  lemma {:induction false} UpCompose(f: Forest, id: EntityId, m: nat, n: nat)
    requires f.Up(id, m).Some?
    ensures f.Up(id, m + n) == f.Up(f.Up(id, m).value, n)
    decreases m
  {
    if m > 0 {
      UpCompose(f, f.Parent(id).value, m - 1, n);
    }
  }

  lemma UnderParent(f: Forest, id: EntityId, top: EntityId)
    requires id in f.nodes && f.Parent(id).Some? && f.Under(f.Parent(id).value, top)
    ensures f.Under(id, top)
  {
    var n: nat :| f.Up(f.Parent(id).value, n) == Some(top);
    assert f.Up(id, n + 1) == Some(top);
  }

  lemma UnderSelf(f: Forest, id: EntityId)
    ensures f.Under(id, id)
  {
    assert f.Up(id, 0) == Some(id);
  }

  /** A set closed under children that contains `top` contains everything below it. */
  lemma {:induction false} ClosedHolds(f: Forest, s: set<EntityId>, id: EntityId, top: EntityId, n: nat)
    requires f.Linked() && id in f.nodes && f.Up(id, n) == Some(top)
    requires top in s && forall x, k :: x in s && x in f.nodes && 0 <= k < |f.Children(x)| ==> f.Children(x)[k] in s
    ensures id in s
    decreases n
  {
    if n > 0 {
      var p := f.Parent(id).value;
      assert f.LinkedUp(id);
      ClosedHolds(f, s, p, top, n - 1);
    }
  }

  /** The entities of one world, with the operations the scene and clone code drives. Ids are never
      handed out twice: an id that comes back has a new generation, which makes it a new id. */
  class World {
    var nodes: map<EntityId, Node>
    var roots: set<EntityId>
    var nextId: EntityId

    function State(): Forest
      reads this
    {
      Forest(nodes, roots)
    }

    ghost predicate Valid()
      reads this
    {
      && State().WellFormed() && nextId >= FIRST_ID
      && forall id :: id in nodes ==> FIRST_ID <= id < nextId
    }

    constructor ()
      ensures Valid() && State() == Forest(map[], {})
    {
      nodes, roots, nextId := map[], {}, FIRST_ID;
      new;
      assert State().Ranked(map[]);
    }

    /** Spawns under `parent`; `None` when the parent is not a live entity. */
    method TrySpawnEmpty(parent: Option<EntityId>) returns (r: Option<EntityId>)
      modifies this
      ensures old(Valid()) ==> Valid()
      ensures parent.Some? && parent.value !in old(nodes) ==>
        r == None && State() == old(State()) && nextId == old(nextId)
      ensures parent.Some? ==> parent.value in old(nodes) || r == None
      ensures parent.None? || parent.value in old(nodes) ==>
        r == Some(old(nextId)) && nextId == old(nextId) + 1 && State() == Spawned(old(State()), old(nextId), parent)
    {
      if parent.Some? && parent.value !in nodes {
        return None;
      }
      if State().WellFormed() && nextId !in nodes {
        SpawnKeeps(State(), nextId, parent);
      }
      var id := nextId;
      nextId := nextId + 1;
      match parent
      case None =>
        nodes := nodes[id := Node(None, [], [])];
        roots := roots + {id};
        r := Some(id);
      case Some(p) =>
        nodes := nodes[p := nodes[p].(children := nodes[p].children + [id])];
        nodes := nodes[id := Node(parent, [], [])];
        r := Some(id);
    }

    /** Spawns a copy of `source` that carries its parent as a placeholder and that nobody lists. */
    method SpawnUninit(source: EntityId) returns (id: EntityId)
      requires source in nodes
      modifies this`nodes, this`nextId
      ensures id == old(nextId) && nextId == old(nextId) + 1
      ensures nodes == old(nodes)[id := Node(old(nodes)[source].parent, [], old(nodes)[source].refs)]
    {
      id := nextId;
      nextId := nextId + 1;
      nodes := nodes[id := Node(nodes[source].parent, [], nodes[source].refs)];
    }

    /** Where a child list is searched from the end. */
    method PositionEntity(id: EntityId, ids: seq<EntityId>) returns (k: Option<nat>)
      ensures k == if id in ids then Some(LastPosition(ids, id)) else None
    {
      var n := |ids|;
      while n > 0
        invariant 0 <= n <= |ids| && id !in ids[n..]
      {
        n := n - 1;
        assert ids[n..] == [ids[n]] + ids[n + 1..];
        if ids[n] == id {
          OnlyLast(ids, id, n);
          return Some(n);
        }
      }
      assert ids[n..] == ids;
      k := None;
    }

    /** Takes `id` out of the children of `p`. */
    method Unlist(id: EntityId, p: EntityId)
      requires p in nodes
      modifies this`nodes
      ensures nodes == old(nodes)[p := old(nodes)[p].(children := Without(old(nodes)[p].children, id))]
    {
      var siblings := nodes[p].children;
      var k := PositionEntity(id, siblings);
      if k.Some? {
        nodes := nodes[p := nodes[p].(children := siblings[..k.value] + siblings[k.value + 1..])];
      } else {
        assert nodes == nodes[p := nodes[p].(children := siblings)];
      }
    }

    /** Makes roots of `children`. */
    method Free(children: seq<EntityId>)
      modifies this`nodes, this`roots
      ensures nodes == Freed(old(nodes), children) && roots == old(roots) + Elements(children)
    {
      var k := 0;
      assert Freed(nodes, []) == nodes;
      while k < |children|
        invariant 0 <= k <= |children|
        invariant nodes == Freed(old(nodes), children[..k]) && roots == old(roots) + Elements(children[..k])
      {
        var c := children[k];
        assert children[..k + 1] == children[..k] + [c];
        ElementsAppend(children[..k], c);
        FreedNext(old(nodes), children[..k], c);
        if c in nodes {
          nodes := nodes[c := nodes[c].(parent := None)];
        }
        roots := roots + {c};
        k := k + 1;
      }
      assert children[..k] == children;
    }

    /** Takes one entity out of the hierarchy: out of its parent's children, or the roots; its own
        children become roots. */
    method RemoveOne(id: EntityId)
      requires id in nodes && (nodes[id].parent.Some? ==> nodes[id].parent.value in nodes)
      modifies this`nodes, this`roots
      ensures State() == Removed(old(State()), id)
      ensures old(Valid()) ==> Valid()
    {
      var node := nodes[id];
      if node.parent.Some? {
        Unlist(id, node.parent.value);
      } else {
        roots := roots - {id};
      }
      nodes := nodes - {id};
      Free(node.children);
      RemovedInSteps(old(State()), id);
      if old(State()).WellFormed() {
        RemoveKeeps(old(State()), id);
      }
    }
  }

  function Freed(nodes: map<EntityId, Node>, children: seq<EntityId>): map<EntityId, Node> {
    map x | x in nodes :: if x in children then nodes[x].(parent := None) else nodes[x]
  }

  lemma FreedNext(nodes: map<EntityId, Node>, children: seq<EntityId>, c: EntityId)
    ensures var freed := Freed(nodes, children);
      Freed(nodes, children + [c]) == if c in freed then freed[c := freed[c].(parent := None)] else freed
  {
  }

  /** The steps of a removal, put together. */
  lemma RemovedInSteps(f: Forest, id: EntityId)
    requires id in f.nodes && (f.Parent(id).Some? ==> f.Parent(id).value in f.nodes)
    ensures var p := f.Parent(id);
      var unlisted := if p.None? then f.nodes
        else f.nodes[p.value := f.nodes[p.value].(children := Without(f.Children(p.value), id))];
      Removed(f, id).nodes == Freed(unlisted - {id}, f.Children(id))
  {
  }

  lemma OnlyLast(s: seq<EntityId>, x: EntityId, k: nat)
    requires k < |s| && s[k] == x && x !in s[k + 1..]
    ensures x in s && LastPosition(s, x) == k
  {
    var j := LastPosition(s, x);
    assert forall i :: k < i < |s| ==> s[i] == s[k + 1..][i - k - 1];
    assert forall i :: j < i < |s| ==> s[i] == s[j + 1..][i - j - 1];
  }
}
