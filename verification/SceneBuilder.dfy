/** Selecting entities of a world and listing them as a scene: `BorrowedSceneBuilder::finish` of
    crates/zlim-core/src/scene.rs. */
module SceneBuilder {
  import opened Wrappers
  import opened Forests

  datatype Request =
    | All
    | With(id: EntityId)
    | WithRecursive(id: EntityId)
    | Without(id: EntityId)
    | WithoutRecursive(id: EntityId)

  /** One listed entity: its parent in the scene, if that is selected too, and the entity references
      its persisted components carry. */
  datatype Listed = Listed(id: EntityId, parent: Option<EntityId>, refs: seq<EntityId>)

  ghost predicate Distinct(entities: seq<Listed>) {
    forall j, k {:trigger DifferentIds(entities, j, k)} :: 0 <= j < k < |entities| ==> DifferentIds(entities, j, k)
  }

  predicate DifferentIds(entities: seq<Listed>, j: nat, k: nat)
    requires j < |entities| && k < |entities|
  {
    entities[j].id != entities[k].id
  }

  lemma SamePlace(entities: seq<Listed>, j: nat, k: nat)
    requires Distinct(entities) && j < |entities| && k < |entities| && entities[j].id == entities[k].id
    ensures j == k
  {
    assert j < k ==> DifferentIds(entities, j, k);
    assert k < j ==> DifferentIds(entities, k, j);
  }

  // ------------------------------------------------------------------------------------------
  // What the requests select
  // ------------------------------------------------------------------------------------------

  /** The request names an entity that must be there. */
  predicate Demands(r: Request) {
    r.With? || r.WithRecursive?
  }

  /** One request applied to what was selected before. */
  ghost function Choose(f: Forest, chosen: set<EntityId>, r: Request): set<EntityId> {
    match r
    case All => f.nodes.Keys
    case With(id) => if id in f.nodes then chosen + {id} else chosen
    case WithRecursive(id) => if id in f.nodes then chosen + f.Subtree(id) else chosen
    case Without(id) => chosen - {id}
    case WithoutRecursive(id) => if id in f.nodes then chosen - f.Subtree(id) else chosen
  }

  /** All requests, in order: a later one wins. */
  ghost function Selection(f: Forest, requests: seq<Request>): set<EntityId> {
    if requests == [] then {}
    else Choose(f, Selection(f, requests[..|requests| - 1]), requests[|requests| - 1])
  }

  /** The first request that demands a missing entity. */
  ghost predicate FailsAt(f: Forest, requests: seq<Request>, k: nat) {
    && k < |requests| && Demands(requests[k]) && requests[k].id !in f.nodes
    && forall j :: 0 <= j < k && Demands(requests[j]) ==> requests[j].id in f.nodes
  }

  /** The request takes `x` in. */
  ghost predicate TakesIn(f: Forest, r: Request, x: EntityId) {
    match r
    case All => true
    case With(id) => x == id
    case WithRecursive(id) => id in f.nodes && exists n: nat :: f.Up(x, n) == Some(id)
    case _ => false
  }

  /** The request leaves `x` out. */
  ghost predicate LeavesOut(f: Forest, r: Request, x: EntityId) {
    match r
    case Without(id) => x == id
    case WithoutRecursive(id) => id in f.nodes && exists n: nat :: f.Up(x, n) == Some(id)
    case _ => false
  }

  /** The last request that concerns `x` takes it in. */
  ghost predicate LastWord(f: Forest, requests: seq<Request>, x: EntityId) {
    && x in f.nodes
    && exists k :: 0 <= k < |requests| && TakesIn(f, requests[k], x) &&
         forall j :: k < j < |requests| ==> !LeavesOut(f, requests[j], x)
  }

  /** An entity is selected exactly when it is live and some request takes it in that no later one
      overrules. */
  lemma {:induction false} SelectionExactly(f: Forest, requests: seq<Request>, x: EntityId)
    ensures x in Selection(f, requests) <==> LastWord(f, requests, x)
  {
    if requests != [] {
      var last := |requests| - 1;
      var before, r := requests[..last], requests[last];
      SelectionExactly(f, before, x);
      ChosenExactly(f, Selection(f, before), r, x);
      LastWordNext(f, before, r, x);
      assert requests == before + [r];
    }
  }

  lemma ChosenExactly(f: Forest, chosen: set<EntityId>, r: Request, x: EntityId)
    ensures x in Choose(f, chosen, r) <==>
      (x in f.nodes && TakesIn(f, r, x)) || (x in chosen && !LeavesOut(f, r, x) && (r.All? ==> x in f.nodes))
  {
    UnderSelf(f, x);
  }

  lemma LastWordNext(f: Forest, before: seq<Request>, r: Request, x: EntityId)
    ensures LastWord(f, before + [r], x) <==>
      x in f.nodes && (TakesIn(f, r, x) || (LastWord(f, before, x) && !LeavesOut(f, r, x)))
  {
    var requests := before + [r];
    assert requests[|before|] == r && forall k :: 0 <= k < |before| ==> requests[k] == before[k];
    if x in f.nodes && TakesIn(f, r, x) {
      assert TakesIn(f, requests[|before|], x);
    }
    if LastWord(f, before, x) && !LeavesOut(f, r, x) {
      var k :| 0 <= k < |before| && TakesIn(f, before[k], x) &&
        forall j :: k < j < |before| ==> !LeavesOut(f, before[j], x);
      assert TakesIn(f, requests[k], x);
    }
    if LastWord(f, requests, x) {
      var k :| 0 <= k < |requests| && TakesIn(f, requests[k], x) &&
        forall j :: k < j < |requests| ==> !LeavesOut(f, requests[j], x);
      if k < |before| {
        assert TakesIn(f, before[k], x) && !LeavesOut(f, requests[|before|], x);
        forall j | k < j < |before| ensures !LeavesOut(f, before[j], x) {
          assert !LeavesOut(f, requests[j], x);
        }
      }
    }
  }

  /** Some demanded entity is missing: it is asked for, alone or with what is below it. */
  lemma FailsExactly(f: Forest, requests: seq<Request>)
    ensures (exists k: nat :: FailsAt(f, requests, k)) <==>
      exists j :: 0 <= j < |requests| && exists id ::
        id !in f.nodes && (requests[j] == With(id) || requests[j] == WithRecursive(id))
    ensures forall k: nat :: FailsAt(f, requests, k) ==>
      k < |requests| && !requests[k].All? && requests[k].id !in f.nodes &&
      forall j, id :: 0 <= j < k && (requests[j] == With(id) || requests[j] == WithRecursive(id)) ==> id in f.nodes
  {
    if j :| 0 <= j < |requests| && exists id ::
      id !in f.nodes && (requests[j] == With(id) || requests[j] == WithRecursive(id)) {
      FirstFailure(f, requests, j);
    }
    if k: nat :| FailsAt(f, requests, k) {
      var id := requests[k].id;
      assert id !in f.nodes && (requests[k] == With(id) || requests[k] == WithRecursive(id));
    }
  }

  lemma {:induction false} FirstFailure(f: Forest, requests: seq<Request>, j: nat)
    requires j < |requests| && Demands(requests[j]) && requests[j].id !in f.nodes
    ensures exists k: nat :: FailsAt(f, requests, k)
  {
    if i: nat :| i < j && Demands(requests[i]) && requests[i].id !in f.nodes {
      FirstFailure(f, requests, i);
    } else {
      assert FailsAt(f, requests, j);
    }
  }

  // ------------------------------------------------------------------------------------------
  // The insertion-ordered graph
  // ------------------------------------------------------------------------------------------

  /** The keys of the insertion-ordered map. The parent stored with a key is always the one the
      borrowed world gives it, so the keys are all there is to keep. */
  type Graph = seq<EntityId>

  function Inserted(g: Graph, id: EntityId): (g': Graph)
    ensures Elements(g') == Elements(g) + {id}
    ensures NoRepeats(g) ==> NoRepeats(g')
  {
    if id in g then g else g + [id]
  }

  /** Removal moves the last key into the gap. */
  function SwapRemoved(g: Graph, id: EntityId): (g': Graph)
    requires NoRepeats(g)
    ensures Elements(g') == Elements(g) - {id}
    ensures NoRepeats(g')
  {
    if id !in g then g
    else
      var k, last := LastPosition(g, id), |g| - 1;
      var g' := g[k := g[last]][..last];
      assert forall x :: x in g && x != id ==> x in g' by {
        forall x | x in g && x != id ensures x in g' {
          var j :| 0 <= j < |g| && g[j] == x;
          assert if j == last then g'[k] == x else g'[j] == x;
        }
      }
      assert id !in g' by {
        assert forall j :: 0 <= j < |g'| ==> g'[j] != id;
      }
      g'
  }

  lemma GapFilled(g: Graph, k: nat)
    requires k < |g|
    ensures g[k := g[|g| - 1]][..|g| - 1] ==
      if k == |g| - 1 then g[..k] else g[..k] + [g[|g| - 1]] + g[k + 1..|g| - 1]
  {
  }

  lemma OnlyPosition(g: Graph, id: EntityId, k: nat)
    requires NoRepeats(g) && k < |g| && g[k] == id
    ensures LastPosition(g, id) == k
  {
  }

  /** Where the last key goes. */
  lemma SwapRemovedExactly(g: Graph, id: EntityId, k: nat)
    requires NoRepeats(g) && k < |g| && g[k] == id
    ensures SwapRemoved(g, id) == if k == |g| - 1 then g[..k] else g[..k] + [g[|g| - 1]] + g[k + 1..|g| - 1]
  {
    OnlyPosition(g, id, k);
    GapFilled(g, k);
  }

  /** The keys in `s` stand before all others. */
  ghost predicate Front(g: seq<EntityId>, s: set<EntityId>) {
    forall a, b :: 0 <= a < |g| && 0 <= b < |g| && g[a] in s && g[b] !in s ==> a < b
  }

  lemma FrontMore(g: Graph, g': Graph, s: set<EntityId>)
    requires g <= g' && NoRepeats(g') && Front(g, s) && s <= Elements(g)
    ensures Front(g', s)
  {
    forall a, b | 0 <= a < |g'| && 0 <= b < |g'| && g'[a] in s && g'[b] !in s ensures a < b {
      var k :| 0 <= k < |g| && g[k] == g'[a];
      assert g'[k] == g[k] && k == a;
      assert b < |g| ==> g[b] == g'[b];
    }
  }

  // ------------------------------------------------------------------------------------------
  // Walking subtrees
  // ------------------------------------------------------------------------------------------

  /** Siblings to start a walk from: all the roots, or all the children of one entity. */
  ghost predicate Start(f: Forest, start: seq<EntityId>, above: Option<EntityId>) {
    && NoRepeats(start)
    && forall k :: 0 <= k < |start| ==> start[k] in f.nodes && f.Parent(start[k]) == above
  }

  ghost predicate Below(f: Forest, start: seq<EntityId>, id: EntityId) {
    exists k :: 0 <= k < |start| && f.Under(id, start[k])
  }

  /** The walk so far: `done` was taken from the queue, `queued` is in it. */
  ghost predicate Walked(f: Forest, rank: map<EntityId, nat>, start: seq<EntityId>, above: Option<EntityId>,
                         done: set<EntityId>, queued: set<EntityId>)
  {
    && f.Ranked(rank) && done !! queued && Elements(start) <= done + queued
    && (forall id :: id in done + queued ==> Reached(f, rank, start, above, done, id))
    && (forall id :: id in done ==> id in f.nodes && Elements(f.Children(id)) <= done + queued)
  }

  ghost predicate Reached(f: Forest, rank: map<EntityId, nat>, start: seq<EntityId>, above: Option<EntityId>,
                          done: set<EntityId>, id: EntityId)
  {
    && id in f.nodes && id in rank && Below(f, start, id)
    && (id in start || (f.Parent(id).Some? && f.Parent(id).value in done))
    && (above.Some? && above.value in rank ==> rank[above.value] < rank[id])
  }

  /** The children of the next entity were not met before: an entity has one parent. */
  lemma FreshChild(f: Forest, rank: map<EntityId, nat>, start: seq<EntityId>, above: Option<EntityId>,
                   done: set<EntityId>, queued: set<EntityId>, id: EntityId, c: EntityId)
    requires f.Linked() && Start(f, start, above) && Walked(f, rank, start, above, done, queued) && id in queued
    requires (above.Some? ==> above.value in f.nodes) && id in f.nodes && c in f.Children(id)
    ensures c !in done + queued && Reached(f, rank, start, above, done + {id}, c)
  {
    assert f.LinkedDown(id);
    assert f.Parent(c) == Some(id);
    assert f.RankedAt(rank, c);
    assert Reached(f, rank, start, above, done, id);
    assert c in start ==> above == Some(id);
    assert c in done + queued ==> Reached(f, rank, start, above, done, c);
    var j :| 0 <= j < |start| && f.Under(id, start[j]);
    UnderParent(f, c, start[j]);
  }

  lemma WalkStep(f: Forest, rank: map<EntityId, nat>, start: seq<EntityId>, above: Option<EntityId>,
                 done: set<EntityId>, queued: set<EntityId>, id: EntityId)
    requires f.Linked() && Start(f, start, above) && Walked(f, rank, start, above, done, queued) && id in queued
    requires above.Some? ==> above.value in f.nodes
    ensures id in f.nodes && id !in done && NoRepeats(f.Children(id)) && Elements(f.Children(id)) !! done + queued
    ensures Walked(f, rank, start, above, done + {id}, queued - {id} + Elements(f.Children(id)))
  {
    assert Reached(f, rank, start, above, done, id);
    assert f.LinkedDown(id);
    forall c | c in f.Children(id) ensures c !in done + queued && Reached(f, rank, start, above, done + {id}, c) {
      FreshChild(f, rank, start, above, done, queued, id, c);
    }
    forall x | x in done + queued ensures Reached(f, rank, start, above, done + {id}, x) {
      assert Reached(f, rank, start, above, done, x);
    }
  }

  /** A finished walk has taken exactly what lies below its start. */
  lemma WalkEnds(f: Forest, rank: map<EntityId, nat>, start: seq<EntityId>, above: Option<EntityId>,
                 done: set<EntityId>)
    requires f.Linked() && Start(f, start, above) && Walked(f, rank, start, above, done, {})
    ensures done == set id | id in f.nodes && Below(f, start, id)
  {
    forall id | id in f.nodes && Below(f, start, id) ensures id in done {
      var k :| 0 <= k < |start| && f.Under(id, start[k]);
      var n: nat :| f.Up(id, n) == Some(start[k]);
      assert start[k] in start;
      ClosedHolds(f, done, id, start[k], n);
    }
    forall id | id in done ensures Below(f, start, id) {
      assert Reached(f, rank, start, above, done, id);
    }
  }

  /** The queue after its first entity made room for others. */
  lemma QueueNext(pending: seq<EntityId>, more: seq<EntityId>)
    requires pending != [] && NoRepeats(pending) && NoRepeats(more) && Elements(pending) !! Elements(more)
    ensures NoRepeats(pending[1..] + more)
    ensures Elements(pending[1..] + more) == Elements(pending) - {pending[0]} + Elements(more)
  {
    assert pending == [pending[0]] + pending[1..];
    assert Elements(pending[1..]) == Elements(pending) - {pending[0]};
    NoRepeatsAppend(pending[1..], more);
  }

  /** The loop that inserts (or removes) everything below `start`, level by level. */
  method Walk(f: Forest, graph: Graph, start: seq<EntityId>, adding: bool,
              ghost above: Option<EntityId>) returns (g: Graph)
    requires f.WellFormed() && NoRepeats(graph) && Start(f, start, above)
    requires above.Some? ==> above.value in f.nodes
    ensures NoRepeats(g) && (adding ==> graph <= g)
    ensures var below := set id | id in f.nodes && Below(f, start, id);
      Elements(g) == if adding then Elements(graph) + below else Elements(graph) - below
  {
    ghost var rank :| f.Ranked(rank);
    ghost var done: set<EntityId> := {};
    g := graph;
    var pending := start;
    StartWalked(f, rank, start, above);
    while pending != []
      invariant NoRepeats(g) && NoRepeats(pending) && (adding ==> graph <= g)
      invariant Walked(f, rank, start, above, done, Elements(pending))
      invariant Elements(g) == if adding then Elements(graph) + done else Elements(graph) - done
      decreases f.nodes.Keys - done
    {
      var child := pending[0];
      WalkStep(f, rank, start, above, done, Elements(pending), child);
      QueueNext(pending, f.Children(child));
      pending := pending[1..] + f.Children(child);
      g := if adding then Inserted(g, child) else SwapRemoved(g, child);
      done := done + {child};
    }
    WalkEnds(f, rank, start, above, done);
  }

  lemma StartWalked(f: Forest, rank: map<EntityId, nat>, start: seq<EntityId>, above: Option<EntityId>)
    requires f.Ranked(rank) && Start(f, start, above) && (above.Some? ==> above.value in f.nodes)
    ensures Walked(f, rank, start, above, {}, Elements(start))
  {
    forall id | id in start ensures Reached(f, rank, start, above, {}, id) {
      var k :| 0 <= k < |start| && start[k] == id;
      assert f.RankedAt(rank, id);
      UnderSelf(f, id);
    }
  }

  // ------------------------------------------------------------------------------------------
  // Applying the requests
  // ------------------------------------------------------------------------------------------

  /** The root set as a queue. The source lists it in ascending order; nothing proved here depends
      on which order it is. */
  method ListRoots(roots: set<EntityId>) returns (queue: seq<EntityId>)
    ensures NoRepeats(queue) && Elements(queue) == roots
  {
    queue := [];
    var todo := roots;
    while todo != {}
      invariant todo <= roots && NoRepeats(queue) && Elements(queue) == roots - todo
      decreases todo
    {
      var id :| id in todo;
      assert Elements([id]) == {id};
      NoRepeatsAppend(queue, [id]);
      queue := queue + [id];
      todo := todo - {id};
    }
  }

  lemma {:induction false} RootAbove(f: Forest, rank: map<EntityId, nat>, id: EntityId)
    requires f.Linked() && f.Ranked(rank) && id in f.nodes
    ensures exists r :: r in f.roots && f.Under(id, r)
    decreases rank[id]
  {
    assert f.LinkedUp(id) && f.RankedAt(rank, id);
    if f.Parent(id).Some? {
      RootAbove(f, rank, f.Parent(id).value);
      var r :| r in f.roots && f.Under(f.Parent(id).value, r);
      UnderParent(f, id, r);
    } else {
      UnderSelf(f, id);
    }
  }

  lemma RootsCoverAll(f: Forest, start: seq<EntityId>)
    requires f.WellFormed() && NoRepeats(start) && Elements(start) == f.roots
    ensures Start(f, start, None)
    ensures (set id | id in f.nodes && Below(f, start, id)) == f.nodes.Keys
  {
    RootsStart(f, start);
    forall id | id in f.nodes ensures Below(f, start, id) {
      RootCovers(f, start, id);
    }
  }

  lemma RootsStart(f: Forest, start: seq<EntityId>)
    requires f.Linked() && NoRepeats(start) && Elements(start) == f.roots
    ensures Start(f, start, None)
  {
    assert forall k :: 0 <= k < |start| ==> start[k] in Elements(start);
  }

  lemma RootCovers(f: Forest, start: seq<EntityId>, id: EntityId)
    requires f.WellFormed() && id in f.nodes && Elements(start) == f.roots
    ensures Below(f, start, id)
  {
    var rank :| f.Ranked(rank);
    RootAbove(f, rank, id);
    var r :| r in f.roots && f.Under(id, r);
    assert r in Elements(start);
  }

  lemma SubtreeIsChildren(f: Forest, id: EntityId)
    requires f.WellFormed() && id in f.nodes
    ensures Start(f, f.Children(id), Some(id))
    ensures f.Subtree(id) == {id} + set x | x in f.nodes && Below(f, f.Children(id), x)
  {
    assert f.LinkedDown(id);
    UnderSelf(f, id);
    forall x | x in f.nodes ensures f.Under(x, id) <==> x == id || Below(f, f.Children(id), x) {
      if f.Under(x, id) && x != id {
        var n: nat :| f.Up(x, n) == Some(id);
        UpSplit(f, x, n);
        var c := f.Up(x, n - 1).value;
        assert f.LinkedUp(c) && f.Under(x, c);
      }
      if Below(f, f.Children(id), x) {
        var k :| 0 <= k < |f.Children(id)| && f.Under(x, f.Children(id)[k]);
        var n: nat :| f.Up(x, n) == Some(f.Children(id)[k]);
        UpCompose(f, x, n, 1);
        assert f.Up(x, n + 1) == Some(id);
      }
    }
  }

  lemma {:induction false} UpSplit(f: Forest, x: EntityId, n: nat)
    requires n > 0 && f.Up(x, n).Some?
    ensures f.Up(x, n - 1).Some? && f.Up(x, n - 1).value in f.nodes
    ensures f.Parent(f.Up(x, n - 1).value) == f.Up(x, n)
    decreases n
  {
    if n > 1 {
      UpSplit(f, f.Parent(x).value, n - 1);
    }
  }

  predicate Adds(r: Request) {
    !r.Without? && !r.WithoutRecursive?
  }

  predicate AddsOnly(requests: seq<Request>) {
    forall k :: 0 <= k < |requests| ==> Adds(requests[k])
  }

  /** What earlier requests selected stands before what only later ones add. */
  ghost predicate ByRequest(f: Forest, requests: seq<Request>, n: nat, g: seq<EntityId>)
    requires n <= |requests|
  {
    forall k :: 0 <= k <= n ==> Front(g, Selection(f, requests[..k])) && Selection(f, requests[..k]) <= Elements(g)
  }

  lemma ByRequestNext(f: Forest, requests: seq<Request>, n: nat, g: Graph, g': Graph)
    requires n < |requests| && ByRequest(f, requests, n, g) && g <= g' && NoRepeats(g')
    requires Elements(g') == Selection(f, requests[..n + 1])
    ensures ByRequest(f, requests, n + 1, g')
  {
    assert forall x :: x in g ==> x in g';
    forall k | 0 <= k <= n + 1
      ensures Front(g', Selection(f, requests[..k])) && Selection(f, requests[..k]) <= Elements(g')
    {
      if k <= n {
        FrontMore(g, g', Selection(f, requests[..k]));
      }
    }
  }

  /** One request. One that adds leaves the keys in the order they have. */
  method ApplyRequest(f: Forest, graph: Graph, request: Request) returns (g: Graph)
    requires f.WellFormed() && NoRepeats(graph) && Elements(graph) <= f.nodes.Keys
    ensures NoRepeats(g) && Elements(g) == Choose(f, Elements(graph), request)
    ensures Adds(request) ==> graph <= g
    ensures request.Without? ==> g == SwapRemoved(graph, request.id)
  {
    g := graph;
    match request
    case All =>
      var start := ListRoots(f.roots);
      RootsCoverAll(f, start);
      g := Walk(f, g, start, true, None);
    case With(id) =>
      if id in f.nodes {
        g := Inserted(g, id);
      }
    case WithRecursive(id) =>
      if id in f.nodes {
        SubtreeIsChildren(f, id);
        g := Walk(f, Inserted(g, id), f.Children(id), true, Some(id));
      }
    case Without(id) =>
      g := SwapRemoved(g, id);
    case WithoutRecursive(id) =>
      if id in f.nodes {
        SubtreeIsChildren(f, id);
        g := Walk(f, SwapRemoved(g, id), f.Children(id), false, Some(id));
      }
  }

  /** The requests applied in order; a demanded entity that is missing ends the build, unless
      missing entities are to be skipped. */
  method Select(f: Forest, requests: seq<Request>, skipMissing: bool) returns (r: Result<Graph, EntityId>)
    requires f.WellFormed()
    ensures r.Success? ==> NoRepeats(r.value) && Elements(r.value) == Selection(f, requests)
    ensures r.Success? ==> forall x :: x in r.value <==> LastWord(f, requests, x)
    ensures r.Success? && AddsOnly(requests) ==> ByRequest(f, requests, |requests|, r.value)
    ensures r.Success? <==> skipMissing || !exists k: nat :: FailsAt(f, requests, k)
    ensures r.Failure? ==> exists k: nat :: FailsAt(f, requests, k) && r.error == requests[k].id
  {
    var graph: Graph := [];
    var k := 0;
    while k < |requests|
      invariant 0 <= k <= |requests| && NoRepeats(graph)
      invariant Elements(graph) == Selection(f, requests[..k])
      invariant AddsOnly(requests) ==> ByRequest(f, requests, k, graph)
      invariant !skipMissing ==> forall j :: 0 <= j < k && Demands(requests[j]) ==> requests[j].id in f.nodes
    {
      if Demands(requests[k]) && requests[k].id !in f.nodes && !skipMissing {
        assert FailsAt(f, requests, k);
        return Failure(requests[k].id);
      }
      assert requests[..k + 1][..k] == requests[..k];
      SelectedLive(f, requests[..k]);
      ghost var before := graph;
      graph := ApplyRequest(f, graph, requests[k]);
      if AddsOnly(requests) {
        ByRequestNext(f, requests, k, before, graph);
      }
      k := k + 1;
    }
    assert requests[..k] == requests;
    forall x ensures x in graph <==> LastWord(f, requests, x) {
      SelectionExactly(f, requests, x);
      assert x in graph <==> x in Elements(graph);
    }
    r := Success(graph);
  }

  lemma {:induction false} SelectedLive(f: Forest, requests: seq<Request>)
    ensures Selection(f, requests) <= f.nodes.Keys
  {
    if requests != [] {
      SelectedLive(f, requests[..|requests| - 1]);
    }
  }
}
