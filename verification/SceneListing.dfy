/** Listing the selected entities of a world, parents before children: the second half of
    `BorrowedSceneBuilder::finish` in crates/zlim-core/src/scene.rs. */
module SceneListing {
  import opened Wrappers
  import opened Forests
  import opened SceneBuilder

  /** The parent an entity has within the selection. */
  function SceneParent(f: Forest, chosen: set<EntityId>, id: EntityId): Option<EntityId> {
    if id in f.nodes && f.Parent(id).Some? && f.Parent(id).value in chosen then f.Parent(id) else None
  }

  /** Where `id` stands among the children of `parent`. */
  function Place(f: Forest, parent: EntityId, id: EntityId): int {
    if parent in f.nodes && id in f.Children(parent) then LastPosition(f.Children(parent), id) else -1
  }

  function Ids(out: seq<Listed>): set<EntityId> {
    set k | 0 <= k < |out| :: out[k].id
  }

  lemma IdsAppend(out: seq<Listed>, e: Listed)
    ensures Ids(out + [e]) == Ids(out) + {e.id}
  {
    var out' := out + [e];
    assert out'[|out|] == e;
    forall x | x in Ids(out) ensures x in Ids(out') {
      var k :| 0 <= k < |out| && out[k].id == x;
      assert out'[k].id == x;
    }
  }

  /** One entry says what it must about its entity. */
  ghost predicate Entry(f: Forest, chosen: set<EntityId>, e: Listed) {
    e.id in f.nodes && e.id in chosen && e == Listed(e.id, SceneParent(f, chosen, e.id), f.nodes[e.id].refs)
  }

  ghost predicate ParentsEarlier(out: seq<Listed>) {
    forall k {:trigger ParentListed(out, k)} :: 0 <= k < |out| ==> ParentListed(out, k)
  }

  ghost predicate ParentListed(out: seq<Listed>, k: nat)
    requires k < |out|
  {
    out[k].parent.Some? ==> out[k].parent.value in Ids(out[..k])
  }

  ghost predicate SiblingsPlaced(f: Forest, out: seq<Listed>, j: nat, k: nat)
    requires j < |out| && k < |out|
  {
    out[j].parent == out[k].parent && out[j].parent.Some? ==>
      Place(f, out[j].parent.value, out[j].id) < Place(f, out[j].parent.value, out[k].id)
  }

  /** Entries do not repeat, parents come before children, and siblings are in world order. */
  ghost predicate InOrder(f: Forest, out: seq<Listed>) {
    && Distinct(out) && ParentsEarlier(out)
    && forall j, k {:trigger SiblingsPlaced(f, out, j, k)} :: 0 <= j < k < |out| ==> SiblingsPlaced(f, out, j, k)
  }

  ghost predicate IsListing(f: Forest, chosen: set<EntityId>, out: seq<Listed>) {
    && Ids(out) == chosen
    && (forall k :: 0 <= k < |out| ==> Entry(f, chosen, out[k]))
    && InOrder(f, out)
  }

  /** The listed entities without a listed parent, in listing order. */
  function Tops(listing: seq<Listed>): seq<EntityId> {
    if listing == [] then []
    else
      var last := listing[|listing| - 1];
      Tops(listing[..|listing| - 1]) + if last.parent.None? then [last.id] else []
  }

  /** Those of `keys` whose parent is not selected. */
  function TopKeys(f: Forest, chosen: set<EntityId>, keys: seq<EntityId>): seq<EntityId> {
    if keys == [] then []
    else
      var last := keys[|keys| - 1];
      TopKeys(f, chosen, keys[..|keys| - 1]) + if SceneParent(f, chosen, last).None? then [last] else []
  }

  lemma {:induction false} TopKeysAre(f: Forest, chosen: set<EntityId>, keys: seq<EntityId>, x: EntityId)
    ensures x in TopKeys(f, chosen, keys) <==> x in keys && SceneParent(f, chosen, x).None?
  {
    if keys != [] {
      TopKeysAre(f, chosen, keys[..|keys| - 1], x);
    }
  }

  lemma {:induction false} TopKeysFront(f: Forest, chosen: set<EntityId>, keys: seq<EntityId>, s: set<EntityId>)
    requires Front(keys, s)
    ensures Front(TopKeys(f, chosen, keys), s)
  {
    if keys != [] {
      var front, last := keys[..|keys| - 1], keys[|keys| - 1];
      TopKeysFront(f, chosen, front, s);
      var tops := TopKeys(f, chosen, front);
      forall b | 0 <= b < |tops| && last in s ensures tops[b] in s {
        TopKeysAre(f, chosen, front, tops[b]);
        var j :| 0 <= j < |front| && front[j] == tops[b];
        assert keys[j] == tops[b];
      }
    }
  }

  /** Depth first: an entity with a listed parent comes right behind something at or below that parent. */
  ghost predicate DepthFirst(f: Forest, out: seq<Listed>) {
    forall k :: 0 < k < |out| && out[k].parent.Some? ==> f.Under(out[k - 1].id, out[k].parent.value)
  }

  // ------------------------------------------------------------------------------------------
  // The depth-first loop
  // ------------------------------------------------------------------------------------------

  type Stack = seq<(EntityId, Option<EntityId>)>

  /** What was listed so far; `left` is what is still in the graph. */
  ghost predicate Listing(f: Forest, chosen: set<EntityId>, left: set<EntityId>, out: seq<Listed>) {
    && left <= chosen && Ids(out) == chosen - left
    && (forall k :: 0 <= k < |out| ==> Entry(f, chosen, out[k]))
    && InOrder(f, out)
    && (forall x, y :: x in chosen - left && y in left ==> ListedFirst(f, chosen, x, y))
  }

  /** A listed sibling stands before one that is left. */
  ghost predicate ListedFirst(f: Forest, chosen: set<EntityId>, x: EntityId, y: EntityId) {
    var p := SceneParent(f, chosen, x);
    p.Some? && SceneParent(f, chosen, y) == p ==> Place(f, p.value, x) < Place(f, p.value, y)
  }

  ghost predicate StackEntry(f: Forest, chosen: set<EntityId>, left: set<EntityId>, top: EntityId,
                             e: (EntityId, Option<EntityId>))
  {
    && e.0 in f.nodes
    && match e.1
       case None => e.0 == top && SceneParent(f, chosen, top) == None
       case Some(p) => f.Parent(e.0) == Some(p) && p in chosen && p !in left
  }

  /** What is left waits for its turn: a top entity in `todo` or on the stack, any other behind its
      parent or on the stack. */
  ghost predicate Waits(f: Forest, chosen: set<EntityId>, left: set<EntityId>, stack: Stack, todo: set<EntityId>,
                        x: EntityId) {
    match SceneParent(f, chosen, x)
    case None => x in todo || (x, None) in stack
    case Some(p) => p in left || (x, Some(p)) in stack
  }

  ghost predicate Stacked(f: Forest, chosen: set<EntityId>, left: set<EntityId>, stack: Stack, todo: set<EntityId>,
                          top: EntityId) {
    && (forall k :: 0 <= k < |stack| ==> StackEntry(f, chosen, left, top, stack[k]))
    && (forall x :: x in left ==> Waits(f, chosen, left, stack, todo, x))
    && FamiliesInOrder(f, stack)
  }

  /** Siblings lie on the stack with the first one on top. */
  ghost predicate FamiliesInOrder(f: Forest, stack: Stack) {
    forall a, b :: 0 <= a < b < |stack| && stack[a].1 == stack[b].1 && stack[a].1.Some? ==>
      Place(f, stack[a].1.value, stack[b].0) < Place(f, stack[a].1.value, stack[a].0)
  }

  /** The children of `id`, last one first, as stack entries. */
  function Pushed(children: seq<EntityId>, id: EntityId): Stack {
    seq(|children|, k requires 0 <= k < |children| => (children[|children| - 1 - k], Some(id)))
  }

  lemma ChildPlaces(f: Forest, id: EntityId)
    requires f.Linked() && id in f.nodes
    ensures forall k :: 0 <= k < |f.Children(id)| ==> Place(f, id, f.Children(id)[k]) == k
  {
    assert f.LinkedDown(id);
  }

  lemma SkipKeeps(f: Forest, chosen: set<EntityId>, left: set<EntityId>, stack: Stack, todo: set<EntityId>,
                  top: EntityId)
    requires Stacked(f, chosen, left, stack, todo, top) && stack != [] && stack[|stack| - 1].0 !in left
    ensures Stacked(f, chosen, left, stack[..|stack| - 1], todo, top)
  {
    var last := |stack| - 1;
    forall x | x in left ensures Waits(f, chosen, left, stack[..last], todo, x) {
      assert Waits(f, chosen, left, stack, todo, x);
      assert stack == stack[..last] + [stack[last]];
    }
  }

  /** The children of an entity go onto the stack in reverse world order, above entries of other
      families. */
  lemma PushKeepsOrder(f: Forest, stack: Stack, id: EntityId)
    requires f.Linked() && id in f.nodes && FamiliesInOrder(f, stack)
    requires forall k :: 0 <= k < |stack| ==> stack[k].1 != Some(id)
    ensures FamiliesInOrder(f, stack + Pushed(f.Children(id), id))
  {
    var pushed := Pushed(f.Children(id), id);
    var stack' := stack + pushed;
    ChildPlaces(f, id);
    forall a, b | 0 <= a < b < |stack'| && stack'[a].1 == stack'[b].1 && stack'[a].1.Some?
      ensures Place(f, stack'[a].1.value, stack'[b].0) < Place(f, stack'[a].1.value, stack'[a].0)
    {
      if b >= |stack| {
        assert stack'[b] == pushed[b - |stack|];
        assert a >= |stack|;
        assert stack'[a] == pushed[a - |stack|];
      }
    }
  }

  /** What is left still waits when an entity moves from the stack to its children. */
  lemma TakeKeepsWaiting(f: Forest, chosen: set<EntityId>, left: set<EntityId>, stack: Stack, todo: set<EntityId>,
                         e: (EntityId, Option<EntityId>), x: EntityId)
    requires f.Linked() && left <= chosen && e.0 in f.nodes && x in left - {e.0}
    requires Waits(f, chosen, left, stack + [e], todo, x)
    ensures Waits(f, chosen, left - {e.0}, stack + Pushed(f.Children(e.0), e.0), todo, x)
  {
    var children := f.Children(e.0);
    var pushed := Pushed(children, e.0);
    if SceneParent(f, chosen, x) == Some(e.0) {
      assert f.LinkedUp(x);
      var k :| 0 <= k < |children| && children[k] == x;
      assert pushed[|children| - 1 - k] == (x, Some(e.0));
    }
  }

  lemma TakeKeepsEntries(f: Forest, chosen: set<EntityId>, left: set<EntityId>, stack: Stack, top: EntityId,
                         e: (EntityId, Option<EntityId>))
    requires f.Linked() && left <= chosen && e.0 in left && e.0 in f.nodes
    requires forall k :: 0 <= k < |stack| ==> StackEntry(f, chosen, left, top, stack[k])
    ensures var stack' := stack + Pushed(f.Children(e.0), e.0);
      forall k :: 0 <= k < |stack'| ==> StackEntry(f, chosen, left - {e.0}, top, stack'[k])
    ensures forall k :: 0 <= k < |stack| ==> stack[k].1 != Some(e.0)
  {
    var pushed := Pushed(f.Children(e.0), e.0);
    var stack' := stack + pushed;
    assert f.LinkedDown(e.0);
    forall k | 0 <= k < |stack'| ensures StackEntry(f, chosen, left - {e.0}, top, stack'[k]) {
      assert if k < |stack| then StackEntry(f, chosen, left, top, stack[k]) else stack'[k] == pushed[k - |stack|];
    }
    forall k | 0 <= k < |stack| ensures stack[k].1 != Some(e.0) {
      assert StackEntry(f, chosen, left, top, stack[k]);
    }
  }

  lemma TakeKeepsStack(f: Forest, chosen: set<EntityId>, left: set<EntityId>, stack: Stack, todo: set<EntityId>,
                       top: EntityId)
    requires f.Linked() && left <= chosen
    requires Stacked(f, chosen, left, stack, todo, top) && stack != [] && stack[|stack| - 1].0 in left
    ensures var id := stack[|stack| - 1].0;
      id in f.nodes &&
      Stacked(f, chosen, left - {id}, stack[..|stack| - 1] + Pushed(f.Children(id), id), todo, top)
  {
    var rest, e := stack[..|stack| - 1], stack[|stack| - 1];
    assert StackEntry(f, chosen, left, top, e);
    assert stack == rest + [e];
    TakeKeepsEntries(f, chosen, left, rest, top, e);
    forall x | x in left - {e.0} ensures Waits(f, chosen, left - {e.0}, rest + Pushed(f.Children(e.0), e.0), todo, x) {
      TakeKeepsWaiting(f, chosen, left, rest, todo, e, x);
    }
    PushKeepsOrder(f, rest, e.0);
  }

  /** The entry on top of the stack stands before every sibling that is left. */
  lemma TopIsFirst(f: Forest, chosen: set<EntityId>, left: set<EntityId>, stack: Stack, todo: set<EntityId>,
                   top: EntityId, y: EntityId)
    requires left <= chosen && y in left
    requires Stacked(f, chosen, left, stack, todo, top) && stack != [] && stack[|stack| - 1].0 in left - {y}
    ensures SceneParent(f, chosen, stack[|stack| - 1].0) == stack[|stack| - 1].1
    ensures ListedFirst(f, chosen, stack[|stack| - 1].0, y)
  {
    var last := |stack| - 1;
    var p := stack[last].1;
    assert StackEntry(f, chosen, left, top, stack[last]);
    if p.Some? && SceneParent(f, chosen, y) == p {
      assert Waits(f, chosen, left, stack, todo, y);
      var a :| 0 <= a < |stack| && stack[a] == (y, p);
    }
  }

  lemma TakeKeepsListing(f: Forest, chosen: set<EntityId>, left: set<EntityId>, out: seq<Listed>, e: Listed)
    requires Listing(f, chosen, left, out) && e.id in left && Entry(f, chosen, e)
    requires e.parent.Some? ==> e.parent.value !in left
    requires forall y :: y in left - {e.id} ==> ListedFirst(f, chosen, e.id, y)
    ensures Listing(f, chosen, left - {e.id}, out + [e])
  {
    var out' := out + [e];
    assert forall k :: 0 <= k < |out| ==> out'[k] == out[k];
    IdsAppend(out, e);
    forall j, k | 0 <= j < k < |out'| ensures SiblingsPlaced(f, out', j, k) && DifferentIds(out', j, k) {
      if k == |out| {
        assert Entry(f, chosen, out[j]) && out[j].id in Ids(out);
        assert ListedFirst(f, chosen, out[j].id, e.id);
      } else {
        assert SiblingsPlaced(f, out, j, k) && DifferentIds(out, j, k);
      }
    }
    forall k | 0 <= k < |out'| ensures ParentListed(out', k) {
      assert out'[..k] == out[..k];
      assert k < |out| ==> ParentListed(out, k);
      assert out[..|out|] == out;
    }
    forall x, y | x in chosen - (left - {e.id}) && y in left - {e.id} ensures ListedFirst(f, chosen, x, y) {
      assert x in chosen - left || x == e.id;
    }
  }

  /** The stack holds families along the way down to what was listed last. */
  ghost predicate Descends(f: Forest, stack: Stack, out: seq<Listed>) {
    && (forall k :: 0 <= k < |stack| && stack[k].1.Some? ==>
          && stack[k].0 in f.nodes && f.Parent(stack[k].0) == stack[k].1
          && out != [] && f.Under(out[|out| - 1].id, stack[k].1.value))
    && (forall a, b :: 0 <= a < b < |stack| && stack[a].1.Some? ==>
          stack[b].1.Some? && f.Under(stack[b].1.value, stack[a].1.value))
  }

  /** The top entity was listed, and is the last one without a listed parent. */
  ghost predicate TopDone(stack: Stack, listed: seq<Listed>, out: seq<Listed>, top: EntityId) {
    Tops(out) == Tops(listed) + [top] && forall k :: 0 <= k < |stack| ==> stack[k].1.Some?
  }

  lemma TakeDescends(f: Forest, rest: Stack, e: (EntityId, Option<EntityId>), out: seq<Listed>, entry: Listed)
    requires f.Linked() && e.0 in f.nodes && entry.id == e.0 && entry.parent == e.1
    requires Descends(f, rest + [e], out) && DepthFirst(f, out)
    ensures DepthFirst(f, out + [entry]) && Descends(f, rest + Pushed(f.Children(e.0), e.0), out + [entry])
  {
    var stack, pushed := rest + [e], Pushed(f.Children(e.0), e.0);
    assert stack[|rest|] == e && forall k :: 0 <= k < |rest| ==> stack[k] == rest[k];
    UnderSelf(f, e.0);
    forall k | 0 <= k < |rest| && rest[k].1.Some? ensures f.Under(e.0, rest[k].1.value) {
      assert f.Under(stack[|rest|].1.value, stack[k].1.value);
      UnderParent(f, e.0, rest[k].1.value);
    }
    assert f.LinkedDown(e.0);
  }

  /** What one descent has listed so far, and in which order. */
  ghost predicate Descending(f: Forest, stack: Stack, left: set<EntityId>, listed: seq<Listed>, out: seq<Listed>,
                             top: EntityId) {
    && DepthFirst(f, out) && Descends(f, stack, out)
    && if top in left then stack == [(top, None)] && out == listed else TopDone(stack, listed, out, top)
  }

  lemma SkipDescends(f: Forest, stack: Stack, left: set<EntityId>, listed: seq<Listed>, out: seq<Listed>,
                     top: EntityId)
    requires Descending(f, stack, left, listed, out, top) && stack != [] && stack[|stack| - 1].0 !in left
    ensures Descending(f, stack[..|stack| - 1], left, listed, out, top)
  {
  }

  lemma NextDescends(f: Forest, stack: Stack, left: set<EntityId>, listed: seq<Listed>, out: seq<Listed>,
                     top: EntityId, e: Listed)
    requires f.Linked() && Descending(f, stack, left, listed, out, top) && stack != [] && e.id in left
    requires stack[|stack| - 1] == (e.id, e.parent) && e.id in f.nodes
    ensures Descending(f, stack[..|stack| - 1] + Pushed(f.Children(e.id), e.id), left - {e.id}, listed, out + [e], top)
  {
    TakeDescends(f, stack[..|stack| - 1], (e.id, e.parent), out, e);
    assert stack == stack[..|stack| - 1] + [(e.id, e.parent)];
    assert (out + [e])[..|out|] == out;
  }

  /** Lists one top entity and what is selected below it. */
  method ListFrom(f: Forest, ghost chosen: set<EntityId>, graph: set<EntityId>, listed: seq<Listed>, top: EntityId,
                  ghost todo: set<EntityId>)
    returns (left: set<EntityId>, out: seq<Listed>)
    requires f.Linked() && Listing(f, chosen, graph, listed)
    requires chosen <= f.nodes.Keys && top in graph && top !in todo && SceneParent(f, chosen, top) == None
    requires Stacked(f, chosen, graph, [(top, None)], todo, top) && DepthFirst(f, listed)
    ensures Listing(f, chosen, left, out) && left <= graph
    ensures DepthFirst(f, out) && Tops(out) == Tops(listed) + [top]
    ensures Stacked(f, chosen, left, [], todo, top)
    ensures top !in left && forall x :: x in graph - left ==> x == top || SceneParent(f, chosen, x).Some?
  {
    left, out := graph, listed;
    var stack: Stack := [(top, None)];
    assert Descending(f, stack, left, listed, out, top);
    while stack != []
      invariant Listing(f, chosen, left, out) && left <= graph
      invariant Stacked(f, chosen, left, stack, todo, top)
      invariant Descending(f, stack, left, listed, out, top)
      invariant forall x :: x in graph - left ==> x == top || SceneParent(f, chosen, x).Some?
      decreases left, |stack|
    {
      var (id, parent) := stack[|stack| - 1];
      if id !in left {
        SkipKeeps(f, chosen, left, stack, todo, top);
        SkipDescends(f, stack, left, listed, out, top);
        stack := stack[..|stack| - 1];
        continue;
      }
      TakeKeepsStack(f, chosen, left, stack, todo, top);
      assert StackEntry(f, chosen, left, top, (id, parent));
      forall y | y in left - {id} ensures ListedFirst(f, chosen, id, y) {
        TopIsFirst(f, chosen, left, stack, todo, top, y);
      }
      var e := Listed(id, parent, f.nodes[id].refs);
      TakeKeepsListing(f, chosen, left, out, e);
      NextDescends(f, stack, left, listed, out, top, e);
      out := out + [e];
      left := left - {id};
      stack := stack[..|stack| - 1] + Pushed(f.Children(id), id);
    }
    assert top in left ==> Waits(f, chosen, left, [], todo, top);
  }

  /** Builds the scene. A demanded entity that is missing is the error, unless missing entities are
      skipped; otherwise the result lists exactly the selection. */
  method Finish(f: Forest, requests: seq<Request>, skipMissing: bool) returns (r: Result<seq<Listed>, EntityId>)
    requires f.WellFormed()
    ensures r.Success? ==> IsListing(f, Selection(f, requests), r.value)
    ensures r.Success? ==> forall x :: x in Ids(r.value) <==> LastWord(f, requests, x)
    ensures r.Success? ==> DepthFirst(f, r.value)
    ensures r.Success? && AddsOnly(requests) ==> TopsByRequest(f, requests, r.value)
    ensures r.Success? <==> skipMissing || !exists k: nat :: FailsAt(f, requests, k)
    ensures r.Failure? ==> exists k: nat :: FailsAt(f, requests, k) && r.error == requests[k].id
  {
    var selected := Select(f, requests, skipMissing);
    if selected.Failure? {
      return Failure(selected.error);
    }
    SelectedLive(f, requests);
    var out := ListAll(f, selected.value, Selection(f, requests));
    if AddsOnly(requests) {
      KeysToTops(f, requests, selected.value, out);
    }
    forall x ensures x in Selection(f, requests) <==> LastWord(f, requests, x) {
      SelectionExactly(f, requests, x);
    }
    r := Success(out);
  }

  /** What earlier requests selected is listed before what only later ones add, as far as it has no listed
      parent. */
  ghost predicate TopsByRequest(f: Forest, requests: seq<Request>, out: seq<Listed>) {
    forall k :: 0 <= k <= |requests| ==> Front(Tops(out), Selection(f, requests[..k]))
  }

  lemma KeysToTops(f: Forest, requests: seq<Request>, keys: Graph, out: seq<Listed>)
    requires ByRequest(f, requests, |requests|, keys) && Tops(out) == TopKeys(f, Selection(f, requests), keys)
    ensures TopsByRequest(f, requests, out)
  {
    forall k | 0 <= k <= |requests| ensures Front(Tops(out), Selection(f, requests[..k])) {
      TopKeysFront(f, Selection(f, requests), keys, Selection(f, requests[..k]));
    }
  }

  lemma {:induction false} TopKeysOnce(f: Forest, chosen: set<EntityId>, keys: Graph)
    requires NoRepeats(keys)
    ensures NoRepeats(TopKeys(f, chosen, keys))
  {
    if keys != [] {
      var front, last := keys[..|keys| - 1], keys[|keys| - 1];
      TopKeysOnce(f, chosen, front);
      TopKeysAre(f, chosen, front, last);
      assert last !in front;
    }
  }

  /** The entities whose parent is not selected. */
  method FindTops(f: Forest, keys: Graph, ghost chosen: set<EntityId>) returns (roots: seq<EntityId>)
    requires Elements(keys) == chosen <= f.nodes.Keys
    ensures roots == TopKeys(f, chosen, keys)
  {
    roots := [];
    var k := 0;
    while k < |keys|
      invariant 0 <= k <= |keys| && roots == TopKeys(f, chosen, keys[..k])
    {
      assert keys[..k + 1][..k] == keys[..k];
      assert keys[k] in chosen;
      var parent := f.Parent(keys[k]);
      if parent.None? || parent.value !in keys {
        roots := roots + [keys[k]];
      }
      k := k + 1;
    }
    assert keys[..k] == keys;
  }

  /** What is left when the tops in `todo` are still to come. */
  ghost predicate TopsWait(f: Forest, chosen: set<EntityId>, left: set<EntityId>, todo: set<EntityId>) {
    && todo <= left && (forall x :: x in left ==> Waits(f, chosen, left, [], todo, x))
    && forall x :: x in todo ==> SceneParent(f, chosen, x) == None
  }

  lemma StartTop(f: Forest, chosen: set<EntityId>, left: set<EntityId>, todo: set<EntityId>, top: EntityId)
    requires TopsWait(f, chosen, left, todo + {top}) && chosen <= f.nodes.Keys && left <= chosen
    ensures Stacked(f, chosen, left, [(top, None)], todo, top)
  {
    forall x | x in left ensures Waits(f, chosen, left, [(top, None)], todo, x) {
      assert Waits(f, chosen, left, [], todo + {top}, x);
    }
  }

  lemma EndTop(f: Forest, chosen: set<EntityId>, before: set<EntityId>, left: set<EntityId>, todo: set<EntityId>,
               top: EntityId)
    requires TopsWait(f, chosen, before, todo + {top}) && top !in todo
    requires Stacked(f, chosen, left, [], todo, top)
    requires forall x :: x in before - left ==> x == top || SceneParent(f, chosen, x).Some?
    ensures TopsWait(f, chosen, left, todo)
  {
    assert forall x :: x in todo ==> x in todo + {top};
  }

  lemma TopsStart(f: Forest, chosen: set<EntityId>, keys: Graph)
    requires Elements(keys) == chosen
    ensures TopsWait(f, chosen, chosen, Elements(TopKeys(f, chosen, keys)))
  {
    forall x ensures x in Elements(TopKeys(f, chosen, keys)) <==> x in chosen && SceneParent(f, chosen, x) == None {
      TopKeysAre(f, chosen, keys, x);
    }
  }

  lemma NextRoot(roots: seq<EntityId>, k: nat)
    requires k < |roots| && NoRepeats(roots)
    ensures Elements(roots[k..]) == Elements(roots[k + 1..]) + {roots[k]} && roots[k] !in Elements(roots[k + 1..])
    ensures roots[..k + 1] == roots[..k] + [roots[k]]
  {
    assert roots[k..] == [roots[k]] + roots[k + 1..];
  }

  method ListAll(f: Forest, keys: Graph, ghost chosen: set<EntityId>) returns (out: seq<Listed>)
    requires f.WellFormed() && NoRepeats(keys) && Elements(keys) == chosen <= f.nodes.Keys
    ensures IsListing(f, chosen, out) && DepthFirst(f, out) && Tops(out) == TopKeys(f, chosen, keys)
  {
    var roots := FindTops(f, keys, chosen);
    TopKeysOnce(f, chosen, keys);
    TopsStart(f, chosen, keys);
    out := [];
    var graph := Elements(keys);
    var k := 0;
    while k < |roots|
      invariant 0 <= k <= |roots| && TopsWait(f, chosen, graph, Elements(roots[k..]))
      invariant Listing(f, chosen, graph, out) && DepthFirst(f, out) && Tops(out) == roots[..k]
    {
      var top := roots[k];
      ghost var todo, before := Elements(roots[k + 1..]), graph;
      NextRoot(roots, k);
      StartTop(f, chosen, graph, todo, top);
      graph, out := ListFrom(f, chosen, graph, out, top, todo);
      EndTop(f, chosen, before, graph, todo, top);
      k := k + 1;
    }
    assert roots[..k] == roots && roots[k..] == [];
    NothingLeft(f, chosen, graph);
  }

  /** When every entity left waits for its parent, none is left. */
  lemma NothingLeft(f: Forest, chosen: set<EntityId>, left: set<EntityId>)
    requires f.WellFormed() && left <= chosen <= f.nodes.Keys
    requires forall x :: x in left ==> Waits(f, chosen, left, [], {}, x)
    ensures left == {}
  {
    var rank :| f.Ranked(rank);
    forall x | x in left ensures f.Parent(x).Some? && f.Parent(x).value in left {
      assert Waits(f, chosen, left, [], {}, x);
    }
    if x :| x in left {
      NoEndlessClimb(f, rank, left, x);
    }
  }
}
