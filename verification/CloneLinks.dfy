/** The hierarchy around a clone run: clones that nobody lists yet, and linking them in (steps 1 to 3
    of `EntityCloner::run` in crates/zlim-core/src/clone.rs). */
module CloneLinks {
  import opened Wrappers
  import opened Forests

  /** The clone of `sources[k]` is the `k`-th id handed out; a source that is cloned again is mapped to
      its last clone. */
  function MapperOf(sources: seq<EntityId>, first: EntityId): (m: map<EntityId, EntityId>)
    ensures m.Keys == Elements(sources)
    ensures forall x :: x in m ==> first <= m[x] < first + |sources| && sources[m[x] - first] == x
  {
    if sources == [] then map[]
    else
      var last := |sources| - 1;
      assert Elements(sources) == Elements(sources[..last]) + {sources[last]} by {
        assert sources == sources[..last] + [sources[last]];
      }
      MapperOf(sources[..last], first)[sources[last] := first + last]
  }

  /** `id` is the last clone made of `x`. */
  predicate LastClone(sources: seq<EntityId>, first: EntityId, x: EntityId, id: EntityId) {
    && first <= id < first + |sources| && sources[id - first] == x
    && forall k :: id - first < k < |sources| ==> sources[k] != x
  }

  lemma MapperNext(sources: seq<EntityId>, first: EntityId, source: EntityId)
    ensures MapperOf(sources + [source], first) == MapperOf(sources, first)[source := first + |sources|]
  {
    assert (sources + [source])[..|sources|] == sources;
  }

  lemma LastCloneMore(sources: seq<EntityId>, source: EntityId, first: EntityId, x: EntityId, id: EntityId)
    requires LastClone(sources, first, x, id) && x != source
    ensures LastClone(sources + [source], first, x, id)
  {
  }

  lemma {:induction false} MapperLast(sources: seq<EntityId>, first: EntityId, x: EntityId)
    requires x in Elements(sources)
    ensures x in MapperOf(sources, first) && LastClone(sources, first, x, MapperOf(sources, first)[x])
  {
    var front, source := sources[..|sources| - 1], sources[|sources| - 1];
    assert sources == front + [source];
    MapperNext(front, first, source);
    if x != source {
      ElementsAppend(front, source);
      MapperLast(front, first, x);
      LastCloneMore(front, source, first, x, MapperOf(front, first)[x]);
    }
  }

  function Mapped(m: map<EntityId, EntityId>, x: EntityId): EntityId {
    if x in m then m[x] else x
  }

  function MapAll(refs: seq<EntityId>, m: map<EntityId, EntityId>): seq<EntityId> {
    seq(|refs|, k requires 0 <= k < |refs| => Mapped(m, refs[k]))
  }

  // ------------------------------------------------------------------------------------------
  // The forest between the steps
  // ------------------------------------------------------------------------------------------

  ghost predicate AllLive(f: Forest, sources: seq<EntityId>) {
    forall k :: 0 <= k < |sources| ==> sources[k] in f.nodes
  }

  ghost predicate AllBelow(f: Forest, first: EntityId) {
    forall id :: id in f.nodes ==> id < first
  }

  /** The clones from number `from` on, uninitialised: they carry the parent of their source as a
      placeholder, and nobody lists them. */
  ghost function Uninit(f: Forest, sources: seq<EntityId>, first: EntityId, from: nat): Forest
    requires AllLive(f, sources) && from <= |sources|
  {
    Forest(map id | id in f.nodes.Keys + (NewIds(first, |sources|) - NewIds(first, from)) ::
             if id in f.nodes then f.nodes[id] else CloneNode(f, sources[id - first]),
           f.roots)
  }

  function CloneNode(f: Forest, source: EntityId): Node
    requires source in f.nodes
  {
    Node(f.Parent(source), [], f.nodes[source].refs)
  }

  lemma UninitNext(f: Forest, sources: seq<EntityId>, first: EntityId, source: EntityId)
    requires AllLive(f, sources) && AllBelow(f, first) && source in f.nodes
    ensures AllLive(f, sources + [source])
    ensures var g := Uninit(f, sources, first, 0);
      source in g.nodes && g.nodes[source] == f.nodes[source] &&
      Forest(g.nodes[first + |sources| := CloneNode(f, source)], g.roots) == Uninit(f, sources + [source], first, 0)
  {
    var g, g' := Uninit(f, sources, first, 0), Uninit(f, sources + [source], first, 0);
    assert g'.nodes.Keys == g.nodes.Keys + {first + |sources|};
  }

  lemma UninitNone(f: Forest, first: EntityId)
    ensures Uninit(f, [], first, 0) == f
  {
    assert Uninit(f, [], first, 0).nodes == f.nodes;
  }

  lemma UninitDone(f: Forest, sources: seq<EntityId>, first: EntityId)
    requires AllLive(f, sources)
    ensures Uninit(f, sources, first, |sources|) == f
  {
    assert Uninit(f, sources, first, |sources|).nodes == f.nodes;
  }

  lemma ForgetNext(f: Forest, sources: seq<EntityId>, first: EntityId, from: nat) returns (g': Forest)
    requires f.Linked() && AllLive(f, sources) && AllBelow(f, first) && from < |sources|
    ensures g' == Uninit(f, sources, first, from + 1)
    ensures var (g, id) := (Uninit(f, sources, first, from), first + from);
      id in g.nodes && (g.Parent(id).Some? ==> g.Parent(id).value in g.nodes) && g' == Removed(g, id)
  {
    var g, id := Uninit(f, sources, first, from), first + from;
    g' := Uninit(f, sources, first, from + 1);
    assert f.LinkedUp(sources[from]);
    assert id in NewIds(first, |sources|) - NewIds(first, from);
    assert g.nodes[id] == CloneNode(f, sources[from]);
    assert g'.nodes == g.nodes - {id};
    forall x | x in g.nodes ensures id !in g.Children(x) {
      NotListed(f, sources, first, from, x, id);
    }
    RemovedUnlisted(g, id);
  }

  /** Removing an entity without children that no one lists takes out that entity alone. */
  lemma RemovedUnlisted(g: Forest, id: EntityId)
    requires id in g.nodes && g.Children(id) == [] && id !in g.roots
    requires g.Parent(id).Some? ==> g.Parent(id).value in g.nodes
    requires forall x :: x in g.nodes ==> id !in g.Children(x)
    ensures Removed(g, id) == Forest(g.nodes - {id}, g.roots)
  {
    var removed := Removed(g, id);
    forall x | x in removed.nodes ensures removed.nodes[x] == g.nodes[x] {
    }
    assert removed.nodes == g.nodes - {id};
  }

  lemma NotListed(f: Forest, sources: seq<EntityId>, first: EntityId, from: nat, x: EntityId, id: EntityId)
    requires f.Linked() && AllLive(f, sources) && AllBelow(f, first) && from <= |sources| && id >= first
    requires x in Uninit(f, sources, first, from).nodes
    ensures id !in Uninit(f, sources, first, from).Children(x)
  {
    if x in f.nodes {
      assert f.LinkedDown(x);
    }
  }

  // ------------------------------------------------------------------------------------------
  // Linking the clones in
  // ------------------------------------------------------------------------------------------

  /** The references of the first `m` clones mapped. */
  ghost function Unlinked(f: Forest, sources: seq<EntityId>, first: EntityId, mapper: map<EntityId, EntityId>,
                          m: nat): Forest
    requires AllLive(f, sources)
  {
    Forest(map id | id in f.nodes.Keys + NewIds(first, |sources|) ::
             if id in f.nodes then f.nodes[id]
             else if id - first < m then MappedNode(f, sources[id - first], mapper)
             else CloneNode(f, sources[id - first]),
           f.roots)
  }

  function MappedNode(f: Forest, source: EntityId, mapper: map<EntityId, EntityId>): Node
    requires source in f.nodes
  {
    Node(f.Parent(source), [], MapAll(f.nodes[source].refs, mapper))
  }

  lemma UnlinkedStart(f: Forest, sources: seq<EntityId>, first: EntityId, mapper: map<EntityId, EntityId>)
    requires AllLive(f, sources)
    ensures Unlinked(f, sources, first, mapper, 0) == Uninit(f, sources, first, 0)
  {
    assert Unlinked(f, sources, first, mapper, 0).nodes == Uninit(f, sources, first, 0).nodes;
  }

  lemma UnlinkedNext(f: Forest, sources: seq<EntityId>, first: EntityId, mapper: map<EntityId, EntityId>, m: nat)
    requires AllLive(f, sources) && AllBelow(f, first) && m < |sources|
    ensures var (g, id) := (Unlinked(f, sources, first, mapper, m), first + m);
      && id in g.nodes
      && Unlinked(f, sources, first, mapper, m + 1) ==
           Forest(g.nodes[id := g.nodes[id].(refs := MapAll(g.nodes[id].refs, mapper))], g.roots)
  {
    var g, id := Unlinked(f, sources, first, mapper, m), first + m;
    assert id in NewIds(first, |sources|);
    assert Unlinked(f, sources, first, mapper, m + 1).nodes ==
      g.nodes[id := g.nodes[id].(refs := MapAll(g.nodes[id].refs, mapper))];
  }

  /** The parent that each clone gets: the clone of its source's parent, or that parent itself when it
      was not cloned. */
  function Aboves(f: Forest, sources: seq<EntityId>, mapper: map<EntityId, EntityId>): (above: seq<Option<EntityId>>)
    requires AllLive(f, sources)
    ensures |above| == |sources|
    ensures forall k {:trigger above[k]} :: 0 <= k < |above| ==> above[k] == MappedParent(f, sources[k], mapper)
  {
    seq(|sources|, k requires 0 <= k < |sources| && AllLive(f, sources) => MappedParent(f, sources[k], mapper))
  }

  function MappedParent(f: Forest, source: EntityId, mapper: map<EntityId, EntityId>): Option<EntityId>
    requires source in f.nodes
  {
    if f.Parent(source).Some? then Some(Mapped(mapper, f.Parent(source).value)) else None
  }

  /** The clones among the first `n` that go under `p`, or among the roots. */
  function ClonesUnder(above: seq<Option<EntityId>>, p: Option<EntityId>, n: nat, first: EntityId): seq<EntityId>
    requires n <= |above|
  {
    if n == 0 then []
    else if above[n - 1] == p then ClonesUnder(above, p, n - 1, first) + [first + n - 1]
    else ClonesUnder(above, p, n - 1, first)
  }

  lemma {:induction false} ClonesUnderAre(above: seq<Option<EntityId>>, p: Option<EntityId>, n: nat, first: EntityId)
    requires n <= |above|
    ensures forall id :: id in ClonesUnder(above, p, n, first) <==> first <= id < first + n && above[id - first] == p
    ensures NoRepeats(ClonesUnder(above, p, n, first))
  {
    if n > 0 {
      ClonesUnderAre(above, p, n - 1, first);
      var before := ClonesUnder(above, p, n - 1, first);
      assert forall j :: 0 <= j < |before| ==> before[j] in before;
    }
  }

  /** One clone linked in, as the relinking loop does it. */
  function LinkedIn(f: Forest, id: EntityId, parent: Option<EntityId>): Forest
    requires id in f.nodes && (parent.Some? ==> parent.value in f.nodes)
  {
    var nodes := f.nodes[id := f.nodes[id].(parent := parent)];
    match parent
    case None => Forest(nodes, f.roots + {id})
    case Some(p) => Forest(nodes[p := nodes[p].(children := nodes[p].children + [id])], f.roots)
  }

  /** The forest after the first `n` clones were linked in, entity by entity. */
  ghost predicate Relinked(f: Forest, g: Forest, sources: seq<EntityId>, mapper: map<EntityId, EntityId>,
                           first: EntityId, above: seq<Option<EntityId>>, n: nat)
    requires AllLive(f, sources) && |above| == |sources| && n <= |above|
  {
    && g.nodes.Keys == f.nodes.Keys + NewIds(first, |sources|)
    && (forall k :: 0 <= k < |sources| ==> CloneAt(f, g, sources, mapper, first, above, n, k))
    && (forall x :: x in f.nodes ==> OldAt(f, g, first, above, n, x))
    && g.roots == f.roots + Elements(ClonesUnder(above, None, n, first))
  }

  ghost predicate CloneAt(f: Forest, g: Forest, sources: seq<EntityId>, mapper: map<EntityId, EntityId>,
                          first: EntityId, above: seq<Option<EntityId>>, n: nat, k: nat)
    requires AllLive(f, sources) && k < |sources| == |above| && n <= |above|
  {
    first + k in g.nodes &&
    g.nodes[first + k] == Node(if k < n then above[k] else f.Parent(sources[k]),
                               ClonesUnder(above, Some(first + k), n, first), MapAll(f.nodes[sources[k]].refs, mapper))
  }

  ghost predicate OldAt(f: Forest, g: Forest, first: EntityId, above: seq<Option<EntityId>>, n: nat, x: EntityId)
    requires x in f.nodes && n <= |above|
  {
    x in g.nodes && g.nodes[x] == f.nodes[x].(children := f.Children(x) + ClonesUnder(above, Some(x), n, first))
  }

  lemma RelinkStart(f: Forest, sources: seq<EntityId>, mapper: map<EntityId, EntityId>, first: EntityId)
    requires AllLive(f, sources) && AllBelow(f, first)
    ensures Relinked(f, Unlinked(f, sources, first, mapper, |sources|), sources, mapper, first,
                     Aboves(f, sources, mapper), 0)
  {
    var g, above := Unlinked(f, sources, first, mapper, |sources|), Aboves(f, sources, mapper);
    forall k | 0 <= k < |sources| ensures CloneAt(f, g, sources, mapper, first, above, 0, k) {
      assert first + k in NewIds(first, |sources|);
    }
    forall x | x in f.nodes ensures OldAt(f, g, first, above, 0, x) {
      assert f.Children(x) + [] == f.Children(x);
    }
  }

  lemma CloneAtNext(f: Forest, g: Forest, sources: seq<EntityId>, mapper: map<EntityId, EntityId>, first: EntityId,
                    above: seq<Option<EntityId>>, n: nat, k: nat)
    requires AllLive(f, sources) && k < |sources| == |above| && n < |above|
    requires CloneAt(f, g, sources, mapper, first, above, n, k)
    requires first + n in g.nodes && (above[n].Some? ==> above[n].value in g.nodes)
    ensures CloneAt(f, LinkedIn(g, first + n, above[n]), sources, mapper, first, above, n + 1, k)
  {
  }

  lemma OldAtNext(f: Forest, g: Forest, first: EntityId, above: seq<Option<EntityId>>, n: nat, x: EntityId)
    requires x in f.nodes && x < first && n < |above| && OldAt(f, g, first, above, n, x)
    requires first + n in g.nodes && (above[n].Some? ==> above[n].value in g.nodes)
    ensures OldAt(f, LinkedIn(g, first + n, above[n]), first, above, n + 1, x)
  {
    if above[n] == Some(x) {
      var clones := ClonesUnder(above, Some(x), n, first);
      assert f.Children(x) + (clones + [first + n]) == f.Children(x) + clones + [first + n];
    }
  }

  lemma AboveLive(f: Forest, sources: seq<EntityId>, first: EntityId, n: nat)
    requires f.Linked() && AllLive(f, sources) && n < |sources|
    ensures var above := Aboves(f, sources, MapperOf(sources, first));
      above[n].Some? ==> above[n].value in f.nodes.Keys + NewIds(first, |sources|)
  {
    assert f.LinkedUp(sources[n]);
  }

  lemma RelinkNext(f: Forest, g: Forest, sources: seq<EntityId>, mapper: map<EntityId, EntityId>, first: EntityId,
                   above: seq<Option<EntityId>>, n: nat)
    requires AllLive(f, sources) && AllBelow(f, first) && |above| == |sources| && n < |sources|
    requires Relinked(f, g, sources, mapper, first, above, n)
    requires above[n].Some? ==> above[n].value in g.nodes
    ensures first + n in g.nodes && Relinked(f, LinkedIn(g, first + n, above[n]), sources, mapper, first, above, n + 1)
  {
    assert CloneAt(f, g, sources, mapper, first, above, n, n);
    var g', n' := LinkedIn(g, first + n, above[n]), n + 1;
    forall k | 0 <= k < |sources| ensures CloneAt(f, g', sources, mapper, first, above, n', k) {
      CloneAtNext(f, g, sources, mapper, first, above, n, k);
    }
    forall x | x in f.nodes ensures OldAt(f, g', first, above, n', x) {
      OldAtNext(f, g, first, above, n, x);
    }
    ElementsAppend(ClonesUnder(above, None, n, first), first + n);
  }

  /** The placeholder parent of clone `k`, mapped, is live. */
  ghost predicate AboveAt(f: Forest, sources: seq<EntityId>, mapper: map<EntityId, EntityId>, first: EntityId,
                          above: seq<Option<EntityId>>, k: nat)
    requires AllLive(f, sources) && k < |sources| == |above|
  {
    && above[k] == MappedParent(f, sources[k], mapper)
    && (above[k].Some? ==> above[k].value in f.nodes.Keys + NewIds(first, |sources|))
  }

  ghost predicate AllAbove(f: Forest, sources: seq<EntityId>, mapper: map<EntityId, EntityId>, first: EntityId,
                           above: seq<Option<EntityId>>)
    requires AllLive(f, sources)
  {
    && |above| == |sources|
    && forall k {:trigger AboveAt(f, sources, mapper, first, above, k)} :: 0 <= k < |sources| ==>
         AboveAt(f, sources, mapper, first, above, k)
  }

  lemma AbovesAre(f: Forest, sources: seq<EntityId>, first: EntityId)
    requires f.Linked() && AllLive(f, sources)
    ensures AllAbove(f, sources, MapperOf(sources, first), first, Aboves(f, sources, MapperOf(sources, first)))
  {
    forall k | 0 <= k < |sources|
      ensures AboveAt(f, sources, MapperOf(sources, first), first, Aboves(f, sources, MapperOf(sources, first)), k)
    {
      AboveLive(f, sources, first, k);
    }
  }

  /** One turn of the relinking loop. */
  lemma RelinkTurn(f: Forest, g: Forest, sources: seq<EntityId>, mapper: map<EntityId, EntityId>, first: EntityId,
                   above: seq<Option<EntityId>>, n: nat)
    returns (g': Forest)
    requires AllLive(f, sources) && AllBelow(f, first) && n < |sources| && AllAbove(f, sources, mapper, first, above)
    requires Relinked(f, g, sources, mapper, first, above, n)
    ensures first + n in g.nodes
    ensures var p := g.Parent(first + n);
      var parent := if p.Some? then Some(Mapped(mapper, p.value)) else None;
      (parent.Some? ==> parent.value in g.nodes) && g' == LinkedIn(g, first + n, parent)
    ensures Relinked(f, g', sources, mapper, first, above, n + 1)
  {
    assert AboveAt(f, sources, mapper, first, above, n);
    assert CloneAt(f, g, sources, mapper, first, above, n, n);
    RelinkNext(f, g, sources, mapper, first, above, n);
    g' := LinkedIn(g, first + n, above[n]);
  }

  // ------------------------------------------------------------------------------------------
  // What a run leaves
  // ------------------------------------------------------------------------------------------

  /** The forest after a run that cloned `sources`. */
  ghost predicate Cloned(f: Forest, g: Forest, sources: seq<EntityId>, first: EntityId) {
    && AllLive(f, sources)
    && var mapper := MapperOf(sources, first);
       Relinked(f, g, sources, mapper, first, Aboves(f, sources, mapper), |sources|)
  }

  function OldChildren(f: Forest, x: EntityId): seq<EntityId> {
    if x in f.nodes then f.Children(x) else []
  }

  /** An entity has its old children, if any, and then the clones that go under it. */
  lemma ChildrenAfter(f: Forest, g: Forest, sources: seq<EntityId>, first: EntityId, x: EntityId)
    requires Cloned(f, g, sources, first) && x in g.nodes && AllBelow(f, first)
    ensures var above := Aboves(f, sources, MapperOf(sources, first));
      g.Children(x) == OldChildren(f, x) + ClonesUnder(above, Some(x), |sources|, first)
  {
    var mapper := MapperOf(sources, first);
    var above, n := Aboves(f, sources, mapper), |sources|;
    if x in f.nodes {
      assert OldAt(f, g, first, above, n, x);
    } else {
      assert CloneAt(f, g, sources, mapper, first, above, n, x - first);
      assert [] + ClonesUnder(above, Some(x), n, first) == ClonesUnder(above, Some(x), n, first);
    }
  }

  /** An old entity keeps its parent; a clone has the parent that its source's parent is mapped to. */
  lemma ParentAfter(f: Forest, g: Forest, sources: seq<EntityId>, first: EntityId, x: EntityId)
    requires Cloned(f, g, sources, first) && x in g.nodes && AllBelow(f, first)
    ensures x in f.nodes ==> g.Parent(x) == f.Parent(x)
    ensures x !in f.nodes ==>
      && first <= x < first + |sources|
      && g.Parent(x) == MappedParent(f, sources[x - first], MapperOf(sources, first))
  {
    var mapper := MapperOf(sources, first);
    var above, n := Aboves(f, sources, mapper), |sources|;
    if x in f.nodes {
      assert OldAt(f, g, first, above, n, x);
    } else {
      assert CloneAt(f, g, sources, mapper, first, above, n, x - first);
    }
  }

  lemma LinkedUpAfter(f: Forest, g: Forest, sources: seq<EntityId>, first: EntityId, x: EntityId)
    requires f.Linked() && Cloned(f, g, sources, first) && x in g.nodes && AllBelow(f, first)
    ensures g.LinkedUp(x)
  {
    var above := Aboves(f, sources, MapperOf(sources, first));
    ParentAfter(f, g, sources, first, x);
    ClonesUnderAre(above, g.Parent(x), |sources|, first);
    if x in f.nodes {
      assert f.LinkedUp(x);
    } else {
      AboveLive(f, sources, first, x - first);
    }
    if g.Parent(x).Some? {
      ChildrenAfter(f, g, sources, first, g.Parent(x).value);
    }
  }

  lemma LinkedDownAfter(f: Forest, g: Forest, sources: seq<EntityId>, first: EntityId, x: EntityId)
    requires f.Linked() && Cloned(f, g, sources, first) && x in g.nodes && AllBelow(f, first)
    ensures g.LinkedDown(x)
  {
    var above := Aboves(f, sources, MapperOf(sources, first));
    var old', clones := OldChildren(f, x), ClonesUnder(above, Some(x), |sources|, first);
    ChildrenAfter(f, g, sources, first, x);
    ClonesUnderAre(above, Some(x), |sources|, first);
    assert x in f.nodes ==> f.LinkedDown(x);
    forall k | 0 <= k < |old'| ensures old'[k] in f.nodes && g.Parent(old'[k]) == Some(x) {
      ParentAfter(f, g, sources, first, old'[k]);
    }
    forall k | 0 <= k < |clones| ensures clones[k] in g.nodes && g.Parent(clones[k]) == Some(x) && clones[k] >= first {
      assert clones[k] in clones;
      assert clones[k] in NewIds(first, |sources|);
      ParentAfter(f, g, sources, first, clones[k]);
    }
  }

  /** What an entity is a copy of: an old one of itself. */
  function SourceOf(f: Forest, sources: seq<EntityId>, first: EntityId, x: EntityId): EntityId
    requires x in f.nodes || first <= x < first + |sources|
  {
    if x in f.nodes then x else sources[x - first]
  }

  lemma MappedSource(f: Forest, sources: seq<EntityId>, first: EntityId, q: EntityId)
    requires AllLive(f, sources) && AllBelow(f, first) && q in f.nodes
    ensures var p := Mapped(MapperOf(sources, first), q);
      (p in f.nodes || first <= p < first + |sources|) && SourceOf(f, sources, first, p) == q
  {
  }

  /** Parent links after the run mirror those before it. */
  lemma SourceParent(f: Forest, g: Forest, sources: seq<EntityId>, first: EntityId, x: EntityId)
    requires f.Linked() && Cloned(f, g, sources, first) && AllBelow(f, first) && x in g.nodes && g.Parent(x).Some?
    ensures var (p, source) := (g.Parent(x).value, SourceOf(f, sources, first, x));
      && source in f.nodes && (p in f.nodes || first <= p < first + |sources|)
      && f.Parent(source) == Some(SourceOf(f, sources, first, p))
  {
    var source := SourceOf(f, sources, first, x);
    ParentAfter(f, g, sources, first, x);
    assert f.LinkedUp(source);
    if x !in f.nodes {
      MappedSource(f, sources, first, f.Parent(source).value);
    }
  }

  ghost function RankAfter(f: Forest, g: Forest, sources: seq<EntityId>, first: EntityId,
                           rank: map<EntityId, nat>): map<EntityId, nat>
    requires AllLive(f, sources) && f.nodes.Keys <= rank.Keys
    requires forall x :: x in g.nodes ==> x in f.nodes || first <= x < first + |sources|
  {
    map x | x in g.nodes :: rank[SourceOf(f, sources, first, x)]
  }

  /** A clone ranks as its source does: no parent link leads into a cycle. */
  lemma RankedAfter(f: Forest, g: Forest, sources: seq<EntityId>, first: EntityId, rank: map<EntityId, nat>)
    requires f.Linked() && f.Ranked(rank) && Cloned(f, g, sources, first) && AllBelow(f, first)
    ensures g.Ranked(RankAfter(f, g, sources, first, rank))
  {
    var rank' := RankAfter(f, g, sources, first, rank);
    forall x | x in g.nodes ensures g.RankedAt(rank', x) {
      if g.Parent(x).Some? {
        SourceParent(f, g, sources, first, x);
        assert f.RankedAt(rank, SourceOf(f, sources, first, x));
      }
    }
  }

  /** A run keeps the forest a forest, whatever it is asked to clone. */
  lemma CloneKeeps(f: Forest, g: Forest, sources: seq<EntityId>, first: EntityId)
    requires f.WellFormed() && Cloned(f, g, sources, first) && AllBelow(f, first)
    ensures g.WellFormed()
  {
    forall x | x in g.nodes ensures g.LinkedUp(x) && g.LinkedDown(x) {
      LinkedUpAfter(f, g, sources, first, x);
      LinkedDownAfter(f, g, sources, first, x);
    }
    RootsAfter(f, g, sources, first);
    var rank :| f.Ranked(rank);
    RankedAfter(f, g, sources, first, rank);
  }

  lemma IdsAfter(f: Forest, g: Forest, sources: seq<EntityId>, first: EntityId)
    requires Cloned(f, g, sources, first) && first >= FIRST_ID && forall id :: id in f.nodes ==> FIRST_ID <= id < first
    ensures forall id :: id in g.nodes ==> FIRST_ID <= id < first + |sources|
  {
  }

  lemma RootsAfter(f: Forest, g: Forest, sources: seq<EntityId>, first: EntityId)
    requires f.Linked() && Cloned(f, g, sources, first) && AllBelow(f, first)
    ensures forall x :: x in g.roots <==> x in g.nodes && g.Parent(x) == None
  {
    var above := Aboves(f, sources, MapperOf(sources, first));
    ClonesUnderAre(above, None, |sources|, first);
    forall x ensures x in g.roots <==> x in g.nodes && g.Parent(x) == None {
      if x in g.nodes {
        ParentAfter(f, g, sources, first, x);
        assert x in f.nodes ==> f.LinkedUp(x);
      }
      if x in g.roots && x !in f.roots {
        assert x in NewIds(first, |sources|);
      }
    }
  }

  // ------------------------------------------------------------------------------------------
  // Runs that clone nothing twice
  // ------------------------------------------------------------------------------------------

  /** Each source has one clone: `sources[k]` became the `k`-th id handed out. */
  ghost predicate OneToOne(sources: seq<EntityId>, first: EntityId, mapper: map<EntityId, EntityId>) {
    && mapper.Keys == Elements(sources)
    && forall k {:trigger ClonedAs(sources, first, mapper, k)} :: 0 <= k < |sources| ==>
      ClonedAs(sources, first, mapper, k)
  }

  predicate ClonedAs(sources: seq<EntityId>, first: EntityId, mapper: map<EntityId, EntityId>, k: nat)
    requires k < |sources|
  {
    sources[k] in mapper && mapper[sources[k]] == first + k
  }

  lemma MapperIsOneToOne(sources: seq<EntityId>, first: EntityId)
    requires NoRepeats(sources)
    ensures OneToOne(sources, first, MapperOf(sources, first))
  {
    forall k | 0 <= k < |sources| ensures ClonedAs(sources, first, MapperOf(sources, first), k) {
      assert sources[k] in Elements(sources);
    }
  }

  ghost predicate RelinkedAll(f: Forest, g: Forest, sources: seq<EntityId>, mapper: map<EntityId, EntityId>,
                              first: EntityId) {
    && AllLive(f, sources) && AllBelow(f, first) && OneToOne(sources, first, mapper)
    && Relinked(f, g, sources, mapper, first, Aboves(f, sources, mapper), |sources|)
  }

  lemma ClonedOneToOne(f: Forest, g: Forest, sources: seq<EntityId>, first: EntityId)
    requires Cloned(f, g, sources, first) && AllBelow(f, first) && NoRepeats(sources)
    ensures RelinkedAll(f, g, sources, MapperOf(sources, first), first)
  {
    MapperIsOneToOne(sources, first);
  }

  lemma ClonedChild(f: Forest, sources: seq<EntityId>, mapper: map<EntityId, EntityId>, first: EntityId, j: nat, k: nat)
    requires f.Linked() && AllLive(f, sources) && AllBelow(f, first) && OneToOne(sources, first, mapper)
    requires j < |sources| && k < |sources|
    ensures MappedParent(f, sources[j], mapper) == Some(first + k) <==> sources[j] in f.Children(sources[k])
    ensures MappedParent(f, sources[j], mapper) != Some(sources[k])
  {
    assert f.LinkedUp(sources[j]) && f.LinkedDown(sources[k]);
    assert ClonedAs(sources, first, mapper, k);
    if f.Parent(sources[j]).Some? {
      var p := f.Parent(sources[j]).value;
      if p in mapper {
        assert p in Elements(sources);
        var i :| 0 <= i < |sources| && sources[i] == p;
        assert ClonedAs(sources, first, mapper, i);
      }
    }
  }

  lemma RelinkedChildren(f: Forest, g: Forest, sources: seq<EntityId>, mapper: map<EntityId, EntityId>,
                         first: EntityId, k: nat)
    requires f.Linked() && RelinkedAll(f, g, sources, mapper, first) && k < |sources|
    ensures sources[k] in f.nodes && sources[k] in g.nodes && first + k in g.nodes
    ensures var siblings := g.Children(first + k);
      forall id :: id in siblings <==> first <= id < first + |sources| && sources[id - first] in f.Children(sources[k])
    ensures g.Children(sources[k]) == f.Children(sources[k])
  {
    var above, n, x := Aboves(f, sources, mapper), |sources|, sources[k];
    assert CloneAt(f, g, sources, mapper, first, above, n, k) && OldAt(f, g, first, above, n, x);
    ClonesUnderAre(above, Some(first + k), n, first);
    ClonesUnderAre(above, Some(x), n, first);
    forall j | 0 <= j < n
      ensures above[j] == Some(first + k) <==> sources[j] in f.Children(x)
      ensures above[j] != Some(x)
    {
      ClonedChild(f, sources, mapper, first, j, k);
    }
    NothingUnder(above, Some(x), n, first);
    assert f.Children(x) + [] == f.Children(x);
    assert g.Children(first + k) == ClonesUnder(above, Some(first + k), n, first);
  }

  lemma {:induction false} NothingUnder(above: seq<Option<EntityId>>, p: Option<EntityId>, n: nat, first: EntityId)
    requires n <= |above| && forall k :: 0 <= k < n ==> above[k] != p
    ensures ClonesUnder(above, p, n, first) == []
  {
    if n > 0 {
      NothingUnder(above, p, n - 1, first);
    }
  }

  /** What an entity is for the clones: its last clone if it was cloned, else itself. */
  predicate Counterpart(sources: seq<EntityId>, first: EntityId, x: EntityId, id: EntityId) {
    if x in sources then LastClone(sources, first, x, id) else id == x
  }

  lemma MappedStands(sources: seq<EntityId>, first: EntityId, x: EntityId)
    ensures Counterpart(sources, first, x, Mapped(MapperOf(sources, first), x))
  {
    assert x in sources <==> x in Elements(sources);
    if x in sources {
      MapperLast(sources, first, x);
    }
  }

  /** The clones carry the references of their sources, and each reference to a cloned entity leads to the
      last clone of that; any other stays, and so does everything that old entities refer to. */
  lemma CloneRefs(f: Forest, g: Forest, sources: seq<EntityId>, first: EntityId, k: nat)
    requires Cloned(f, g, sources, first) && AllBelow(f, first) && k < |sources|
    ensures sources[k] in f.nodes && first + k in g.nodes && first + k !in f.nodes
    ensures var (refs, source) := (g.nodes[first + k].refs, f.nodes[sources[k]].refs);
      && |refs| == |source|
      && forall j :: 0 <= j < |refs| ==> Counterpart(sources, first, source[j], refs[j])
    ensures forall x :: x in f.nodes ==> x in g.nodes && g.nodes[x].refs == f.nodes[x].refs
  {
    var mapper := MapperOf(sources, first);
    var above, n := Aboves(f, sources, mapper), |sources|;
    assert CloneAt(f, g, sources, mapper, first, above, n, k);
    var source := f.nodes[sources[k]].refs;
    forall j | 0 <= j < |source| ensures Counterpart(sources, first, source[j], g.nodes[first + k].refs[j]) {
      MappedStands(sources, first, source[j]);
    }
    forall x | x in f.nodes ensures x in g.nodes && g.nodes[x].refs == f.nodes[x].refs {
      assert OldAt(f, g, first, above, n, x);
    }
  }

  /** The clone of an entity hangs below the last clone of its parent, if that was cloned, and else below
      the parent itself; old entities keep their parents. */
  lemma CloneParent(f: Forest, g: Forest, sources: seq<EntityId>, first: EntityId, k: nat)
    requires Cloned(f, g, sources, first) && AllBelow(f, first) && k < |sources|
    ensures sources[k] in f.nodes && first + k in g.nodes && first + k !in f.nodes
    ensures match f.Parent(sources[k])
      case None => g.Parent(first + k) == None && first + k in g.roots
      case Some(p) => g.Parent(first + k).Some? && Counterpart(sources, first, p, g.Parent(first + k).value)
    ensures forall x :: x in f.nodes ==> x in g.nodes && g.Parent(x) == f.Parent(x)
  {
    var above := Aboves(f, sources, MapperOf(sources, first));
    assert CloneAt(f, g, sources, MapperOf(sources, first), first, above, |sources|, k);
    ClonesUnderAre(above, None, |sources|, first);
    if f.Parent(sources[k]).Some? {
      MappedStands(sources, first, f.Parent(sources[k]).value);
    }
    forall x | x in f.nodes ensures x in g.nodes && g.Parent(x) == f.Parent(x) {
      assert OldAt(f, g, first, above, |sources|, x);
    }
  }

  lemma {:induction false} ClonesUnderIncrease(above: seq<Option<EntityId>>, p: Option<EntityId>, n: nat,
                                               first: EntityId)
    requires n <= |above|
    ensures Increasing(ClonesUnder(above, p, n, first))
  {
    if n > 0 {
      ClonesUnderIncrease(above, p, n - 1, first);
      ClonesUnderAre(above, p, n - 1, first);
      var before := ClonesUnder(above, p, n - 1, first);
      forall i | 0 <= i < |before| ensures before[i] < first + n - 1 {
        assert before[i] in before;
      }
      assert Increasing(before);
    }
  }

  /** Every entity has the children it had, if it is an old one, and behind them the clones that hang below
      it, in the order in which they were made. */
  lemma CloneFamilies(f: Forest, g: Forest, sources: seq<EntityId>, first: EntityId, x: EntityId)
    returns (added: seq<EntityId>)
    requires Cloned(f, g, sources, first) && AllBelow(f, first) && x in g.nodes
    ensures g.Children(x) == (if x in f.nodes then f.Children(x) else []) + added
    ensures Increasing(added)
    ensures forall id :: id in added <==> first <= id < first + |sources| && id in g.nodes && g.Parent(id) == Some(x)
  {
    var above := Aboves(f, sources, MapperOf(sources, first));
    added := ClonesUnder(above, Some(x), |sources|, first);
    ChildrenAfter(f, g, sources, first, x);
    ClonesUnderIncrease(above, Some(x), |sources|, first);
    ClonesUnderAre(above, Some(x), |sources|, first);
    forall id | first <= id < first + |sources| ensures id in g.nodes && g.Parent(id) == above[id - first] {
      assert CloneAt(f, g, sources, MapperOf(sources, first), first, above, |sources|, id - first);
    }
  }

  /** After a run that cloned nothing twice the children of a clone are exactly the clones of those children
      that were cloned; a cloned entity itself keeps its children and gets no clones. */
  lemma CloneChildren(f: Forest, g: Forest, sources: seq<EntityId>, first: EntityId, k: nat)
    requires f.Linked() && Cloned(f, g, sources, first) && AllBelow(f, first) && NoRepeats(sources) && k < |sources|
    ensures sources[k] in f.nodes && sources[k] in g.nodes && first + k in g.nodes
    ensures var siblings := g.Children(first + k);
      forall id :: id in siblings <==> first <= id < first + |sources| && sources[id - first] in f.Children(sources[k])
    ensures g.Children(sources[k]) == f.Children(sources[k])
  {
    ClonedOneToOne(f, g, sources, first);
    RelinkedChildren(f, g, sources, MapperOf(sources, first), first, k);
  }
}
