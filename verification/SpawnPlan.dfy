/** The order in which a document's entities are spawned: the first part of
    `World::spawn_dynamic_scene` in crates/zlim-core/src/scene.rs. */
module SpawnPlan {
  import opened Wrappers
  import opened Forests
  import opened SceneDocument

  /** Where each id sits in the document; a repeated id counts where it is declared last. */
  function IndexOf(docs: seq<DocEntity>): (m: map<EntityId, nat>)
    ensures forall x :: x in m ==> m[x] < |docs| && docs[m[x]].id == x
    ensures forall k :: 0 <= k < |docs| ==> docs[k].id in m
  {
    if docs == [] then map[]
    else IndexOf(docs[..|docs| - 1])[docs[|docs| - 1].id := |docs| - 1]
  }

  /** `x` is declared at `k`, and not again after that. */
  predicate LastDeclared(docs: seq<DocEntity>, x: EntityId, k: nat) {
    k < |docs| && docs[k].id == x && forall j :: k < j < |docs| ==> docs[j].id != x
  }

  lemma LastDeclaredNext(docs: seq<DocEntity>, x: EntityId, k: nat)
    requires docs != []
    ensures LastDeclared(docs, x, k) <==>
      if docs[|docs| - 1].id == x then k == |docs| - 1 else LastDeclared(docs[..|docs| - 1], x, k)
  {
  }

  lemma {:induction false} IndexOfExactly(docs: seq<DocEntity>, x: EntityId, k: nat)
    ensures LastDeclared(docs, x, k) <==> x in IndexOf(docs) && IndexOf(docs)[x] == k
  {
    if docs != [] {
      IndexOfExactly(docs[..|docs| - 1], x, k);
      LastDeclaredNext(docs, x, k);
    }
  }

  lemma IndexOfNext(docs: seq<DocEntity>, k: nat)
    requires k < |docs|
    ensures IndexOf(docs[..k + 1]) == IndexOf(docs[..k])[docs[k].id := k]
  {
    assert docs[..k + 1][..k] == docs[..k];
  }

  method BuildIndex(docs: seq<DocEntity>) returns (m: map<EntityId, nat>)
    ensures m == IndexOf(docs)
  {
    m := map[];
    var k := 0;
    while k < |docs|
      invariant 0 <= k <= |docs| && m == IndexOf(docs[..k])
    {
      IndexOfNext(docs, k);
      m := m[docs[k].id := k];
      k := k + 1;
    }
    assert docs[..k] == docs;
  }

  /** The entity that entity `i` hangs below: none if it names no parent, an undeclared one, or
      itself. */
  function Above(docs: seq<DocEntity>, i: nat): (r: Option<nat>)
    requires i < |docs|
    ensures r.Some? ==> r.value < |docs|
  {
    AboveIn(docs, IndexOf(docs), i)
  }

  function AboveIn(docs: seq<DocEntity>, indexOf: map<EntityId, nat>, i: nat): Option<nat>
    requires i < |docs|
  {
    var parent := docs[i].parent;
    if parent.Some? && parent.value in indexOf && indexOf[parent.value] != i then Some(indexOf[parent.value]) else None
  }

  /** It hangs below the last declaration of the id it names, unless that is the entity itself. */
  lemma AboveExactly(docs: seq<DocEntity>, i: nat, j: nat)
    requires i < |docs|
    ensures Above(docs, i) == Some(j) <==>
      j != i && docs[i].parent.Some? && LastDeclared(docs, docs[i].parent.value, j)
  {
    if docs[i].parent.Some? {
      IndexOfExactly(docs, docs[i].parent.value, j);
    }
  }

  /** The links of a whole document: for each entity the one it hangs below. */
  function Links(docs: seq<DocEntity>): (up: Ups)
    ensures |up| == |docs| && forall i :: 0 <= i < |up| ==> up[i] == Above(docs, i)
  {
    seq(|docs|, i requires 0 <= i < |docs| => Above(docs, i))
  }

  predicate WithinBounds(up: seq<Option<nat>>) {
    forall i :: 0 <= i < |up| && up[i].Some? ==> up[i].value < |up|
  }

  type Ups = up: seq<Option<nat>> | WithinBounds(up)

  /** Entity `i` reaches a top entity in `d` steps upwards. */
  ghost predicate Reaches(up: Ups, i: nat, d: nat)
    requires i < |up|
    decreases d
  {
    match up[i]
    case None => d == 0
    case Some(j) => d > 0 && Reaches(up, j, d - 1)
  }

  lemma {:induction false} ReachesOnce(up: Ups, i: nat, d: nat, e: nat)
    requires i < |up| && Reaches(up, i, d) && Reaches(up, i, e)
    ensures d == e
    decreases d
  {
    if d > 0 {
      ReachesOnce(up, up[i].value, d - 1, e - 1);
    }
  }

  // ------------------------------------------------------------------------------------------
  // Families
  // ------------------------------------------------------------------------------------------

  ghost predicate Lists(up: Ups, members: seq<nat>, above: Option<nat>, n: nat)
    requires n <= |up|
  {
    && (forall k :: 0 <= k < |members| ==> members[k] < n && up[members[k]] == above)
    && (forall i :: 0 <= i < n && up[i] == above ==> i in members)
  }

  lemma ListsNext(up: Ups, members: seq<nat>, above: Option<nat>, n: nat)
    requires n < |up| && Lists(up, members, above, n)
    ensures up[n] == above ==> Lists(up, members + [n], above, n + 1)
    ensures up[n] != above ==> Lists(up, members, above, n + 1)
  {
    var members' := members + [n];
    assert members'[|members|] == n;
    forall i | i in members ensures i in members' {
      var k :| 0 <= k < |members| && members[k] == i;
      assert members'[k] == i;
    }
  }

  /** The families among the first `n` entities. */
  ghost predicate Sorted(up: Ups, children: seq<seq<nat>>, tops: seq<nat>, n: nat)
    requires n <= |up|
  {
    && |children| == |up| && Lists(up, tops, None, n)
    && forall j {:trigger children[j]} :: 0 <= j < |up| ==> Lists(up, children[j], Some(j), n)
  }

  lemma FamilyNext(up: Ups, children: seq<seq<nat>>, tops: seq<nat>, n: nat)
    requires n < |up| && Sorted(up, children, tops, n)
    ensures match up[n]
      case None => Sorted(up, children, tops + [n], n + 1)
      case Some(j) => Sorted(up, children[j := children[j] + [n]], tops, n + 1)
  {
    ListsNext(up, tops, None, n);
    forall j | 0 <= j < |up|
      ensures up[n] == Some(j) ==> Lists(up, children[j] + [n], Some(j), n + 1)
      ensures up[n] != Some(j) ==> Lists(up, children[j], Some(j), n + 1)
    {
      ListsNext(up, children[j], Some(j), n);
    }
  }

  method Families(docs: seq<DocEntity>, indexOf: map<EntityId, nat>, ghost up: Ups)
    returns (children: seq<seq<nat>>, tops: seq<nat>)
    requires |up| == |docs| && forall i :: 0 <= i < |docs| ==> up[i] == AboveIn(docs, indexOf, i)
    ensures Sorted(up, children, tops, |up|)
  {
    children, tops := seq(|docs|, _ => []), [];
    var i := 0;
    while i < |docs|
      invariant 0 <= i <= |docs| && Sorted(up, children, tops, i)
    {
      FamilyNext(up, children, tops, i);
      assert up[i] == AboveIn(docs, indexOf, i);
      var p := docs[i].parent;
      if p.Some? && p.value in indexOf && indexOf[p.value] != i {
        var j := indexOf[p.value];
        children := children[j := children[j] + [i]];
      } else {
        tops := tops + [i];
      }
      i := i + 1;
    }
  }

  // ------------------------------------------------------------------------------------------
  // Depths
  // ------------------------------------------------------------------------------------------

  /** The depth of every entity that reaches a top; `None` stands for `usize::MAX`. */
  ghost predicate IsDepth(up: Ups, depth: seq<Option<nat>>) {
    |depth| == |up| && forall i :: 0 <= i < |up| ==> DepthAt(up, depth[i], i)
  }

  ghost predicate DepthAt(up: Ups, d: Option<nat>, i: nat)
    requires i < |up|
  {
    match d
    case Some(at) => Reaches(up, i, at)
    case None => forall e: nat :: !Reaches(up, i, e)
  }

  /** An entity that the walk must still have in its stack when its depth is not set. */
  ghost predicate Covered(up: Ups, depth: seq<Option<nat>>, stack: seq<(nat, nat)>, i: nat)
    requires |depth| == |up| && i < |up|
  {
    (up[i].None? || depth[up[i].value].Some?) ==>
      depth[i].Some? || exists k :: 0 <= k < |stack| && stack[k].0 == i
  }

  ghost predicate Walking(up: Ups, depth: seq<Option<nat>>, stack: seq<(nat, nat)>) {
    && |depth| == |up|
    && (forall i :: 0 <= i < |up| && depth[i].Some? ==> Reaches(up, i, depth[i].value))
    && (forall k :: 0 <= k < |stack| ==> stack[k].0 < |up| && Reaches(up, stack[k].0, stack[k].1))
    && (forall i :: 0 <= i < |up| ==> Covered(up, depth, stack, i))
  }

  lemma SkipKeeps(up: Ups, depth: seq<Option<nat>>, stack: seq<(nat, nat)>)
    requires Walking(up, depth, stack) && stack != [] && depth[stack[|stack| - 1].0].Some?
    ensures Walking(up, depth, stack[..|stack| - 1])
  {
    var rest := stack[..|stack| - 1];
    forall i | 0 <= i < |up| ensures Covered(up, depth, rest, i) {
      assert Covered(up, depth, stack, i);
      if k :| 0 <= k < |stack| && stack[k].0 == i {
        assert k < |rest| ==> rest[k] == stack[k];
      }
    }
  }

  /** The stack entries for the members of a family. */
  function Entries(members: seq<nat>, at: nat): seq<(nat, nat)> {
    seq(|members|, k requires 0 <= k < |members| => (members[k], at))
  }

  lemma VisitKeeps(up: Ups, depth: seq<Option<nat>>, stack: seq<(nat, nat)>, members: seq<nat>)
    requires Walking(up, depth, stack) && stack != []
    requires Lists(up, members, Some(stack[|stack| - 1].0), |up|)
    ensures var (index, at) := stack[|stack| - 1];
      Walking(up, depth[index := Some(at)], stack[..|stack| - 1] + Entries(members, at + 1))
  {
    var (index, at) := stack[|stack| - 1];
    var rest, entries := stack[..|stack| - 1], Entries(members, at + 1);
    var depth', stack' := depth[index := Some(at)], rest + entries;
    forall k | 0 <= k < |stack'| ensures stack'[k].0 < |up| && Reaches(up, stack'[k].0, stack'[k].1) {
      assert k >= |rest| ==> stack'[k] == entries[k - |rest|];
    }
    forall i | 0 <= i < |up| ensures Covered(up, depth', stack', i) {
      assert Covered(up, depth, stack, i);
      if up[i] == Some(index) {
        var k :| 0 <= k < |members| && members[k] == i;
        assert stack'[|rest| + k] == entries[k];
      } else if k :| 0 <= k < |stack| && stack[k].0 == i {
        assert k < |rest| ==> stack'[k] == stack[k];
      }
    }
  }

  /** With an empty stack every entity that reaches a top has its depth. */
  lemma {:induction false} AllCovered(up: Ups, depth: seq<Option<nat>>, i: nat, d: nat)
    requires Walking(up, depth, []) && i < |up| && Reaches(up, i, d)
    ensures depth[i].Some?
    decreases d
  {
    assert Covered(up, depth, [], i);
    if d > 0 {
      AllCovered(up, depth, up[i].value, d - 1);
    }
  }

  ghost function Unset(depth: seq<Option<nat>>): set<nat> {
    set i | 0 <= i < |depth| && depth[i].None?
  }

  lemma WalkStarts(up: Ups, tops: seq<nat>)
    requires Lists(up, tops, None, |up|)
    ensures Walking(up, seq(|up|, _ => None), Entries(tops, 0))
  {
    var depth: seq<Option<nat>>, stack := seq(|up|, _ => None), Entries(tops, 0);
    forall i | 0 <= i < |up| ensures Covered(up, depth, stack, i) {
      if up[i].None? {
        var k :| 0 <= k < |tops| && tops[k] == i;
        assert stack[k].0 == i;
      }
    }
  }

  lemma WalkEnds(up: Ups, depth: seq<Option<nat>>)
    requires Walking(up, depth, [])
    ensures IsDepth(up, depth)
  {
    forall i | 0 <= i < |up| ensures DepthAt(up, depth[i], i) {
      if depth[i].None? {
        forall e: nat ensures !Reaches(up, i, e) {
          if Reaches(up, i, e) {
            AllCovered(up, depth, i, e);
          }
        }
      }
    }
  }

  /** The walk from the tops downwards terminates, on documents with parent cycles too. */
  method Depths(up: Ups, children: seq<seq<nat>>, tops: seq<nat>) returns (depth: seq<Option<nat>>)
    requires Sorted(up, children, tops, |up|)
    ensures IsDepth(up, depth)
  {
    depth := seq(|up|, _ => None);
    var stack := Entries(tops, 0);
    WalkStarts(up, tops);
    while stack != []
      invariant Walking(up, depth, stack)
      decreases Unset(depth), |stack|
    {
      var (index, at) := stack[|stack| - 1];
      if depth[index].Some? && depth[index].value <= at {
        SkipKeeps(up, depth, stack);
        stack := stack[..|stack| - 1];
        continue;
      }
      assert depth[index].Some? ==> Reaches(up, index, depth[index].value);
      if depth[index].Some? {
        ReachesOnce(up, index, at, depth[index].value);
      }
      VisitKeeps(up, depth, stack, children[index]);
      assert index in Unset(depth);
      depth := depth[index := Some(at)];
      stack := stack[..|stack| - 1] + Entries(children[index], at + 1);
    }
    WalkEnds(up, depth);
  }

  // ------------------------------------------------------------------------------------------
  // Order
  // ------------------------------------------------------------------------------------------

  predicate Shallower(x: Option<nat>, y: Option<nat>) {
    x.Some? && (y.None? || x.value < y.value)
  }

  /** Entity `i` comes before entity `j`: by depth, and in document order within one depth. */
  predicate Before(depth: seq<Option<nat>>, i: nat, j: nat)
    requires i < |depth| && j < |depth|
  {
    Shallower(depth[i], depth[j]) || (depth[i] == depth[j] && i < j)
  }

  /** The indices below `n`, sorted. */
  ghost predicate IsOrder(depth: seq<Option<nat>>, order: seq<nat>, n: nat) {
    && n <= |depth| && |order| == n
    && (forall k :: 0 <= k < n ==> order[k] < n)
    && (forall i :: 0 <= i < n ==> i in order)
    && forall a, b {:trigger SortedAt(depth, order, a, b)} :: 0 <= a < b < n ==> SortedAt(depth, order, a, b)
  }

  predicate SortedAt(depth: seq<Option<nat>>, order: seq<nat>, a: nat, b: nat)
    requires a < |order| && b < |order|
  {
    order[a] < |depth| && order[b] < |depth| && Before(depth, order[a], order[b])
  }

  /** The stable sort by depth. */
  method SortByDepth(depth: seq<Option<nat>>) returns (order: seq<nat>)
    ensures IsOrder(depth, order, |depth|)
  {
    order := [];
    var i := 0;
    while i < |depth|
      invariant 0 <= i <= |depth| && IsOrder(depth, order, i)
    {
      var p := i;
      while p > 0 && Shallower(depth[i], depth[order[p - 1]])
        invariant 0 <= p <= i
        invariant forall k :: p <= k < i ==> Before(depth, i, order[k])
      {
        p := p - 1;
      }
      InsertKeeps(depth, order, i, p);
      order := order[..p] + [i] + order[p..];
      i := i + 1;
    }
  }

  lemma InsertKeeps(depth: seq<Option<nat>>, order: seq<nat>, i: nat, p: nat)
    requires i < |depth| && IsOrder(depth, order, i) && p <= i
    requires forall k :: p <= k < i ==> Before(depth, i, order[k])
    requires p > 0 ==> !Shallower(depth[i], depth[order[p - 1]])
    ensures IsOrder(depth, order[..p] + [i] + order[p..], i + 1)
  {
    var order' := order[..p] + [i] + order[p..];
    forall j | 0 <= j < i + 1 ensures j in order' {
      if j == i {
        assert order'[p] == i;
      } else {
        assert j in order;
        var k :| 0 <= k < |order| && order[k] == j;
        assert order'[if k < p then k else k + 1] == j;
      }
    }
    forall a, b | 0 <= a < b < i + 1 ensures SortedAt(depth, order', a, b) {
      var a', b' := if a < p then a else a - 1, if b < p then b else b - 1;
      if b == p {
        assert Before(depth, order[p - 1], i);
        assert a < p - 1 ==> SortedAt(depth, order, a, p - 1);
      } else if a != p {
        assert SortedAt(depth, order, a', b');
      }
    }
  }

  /** The plan: for each document the spawn order its depths give. */
  method Plan(docs: seq<DocEntity>, indexOf: map<EntityId, nat>) returns (depth: seq<Option<nat>>, order: seq<nat>)
    requires indexOf == IndexOf(docs)
    ensures IsDepth(Links(docs), depth) && IsOrder(depth, order, |docs|)
  {
    var children, tops := Families(docs, indexOf, Links(docs));
    depth := Depths(Links(docs), children, tops);
    order := SortByDepth(depth);
  }

  /** When an entity hangs below another one, that one comes earlier exactly when the entity reaches
      a top, or else is declared later: chains are spawned parents first, and a cycle is cut at the
      entity of it that is declared first. */
  lemma ParentFirst(up: Ups, depth: seq<Option<nat>>, i: nat)
    requires IsDepth(up, depth) && i < |up| && up[i].Some?
    ensures Before(depth, up[i].value, i) <==> depth[i].Some? || up[i].value < i
  {
    var j := up[i].value;
    assert DepthAt(up, depth[i], i) && DepthAt(up, depth[j], j);
    if depth[i].Some? {
      var d := depth[i].value;
      assert Reaches(up, j, d - 1);
      if depth[j].Some? {
        ReachesOnce(up, j, d - 1, depth[j].value);
      }
    } else if depth[j].Some? {
      assert Reaches(up, i, depth[j].value + 1);
    }
  }
}
