/** Cloning entities: `EntityCloner::run` of crates/zlim-core/src/clone.rs. */
module CloneRun {
  import opened Wrappers
  import opened Forests
  import opened CloneLinks

  // ------------------------------------------------------------------------------------------
  // Which entities a run clones
  // ------------------------------------------------------------------------------------------

  /** What the component cloners of an entity ask to be cloned as well. */
  type Defers = map<EntityId, seq<EntityId>>

  function Deferred(defers: Defers, x: EntityId): seq<EntityId> {
    if x in defers then defers[x] else []
  }

  ghost predicate Closed(defers: Defers, inputs: seq<EntityId>, t: set<EntityId>) {
    Elements(inputs) <= t && forall x :: x in t ==> Elements(Deferred(defers, x)) <= t
  }

  lemma ClosedExactly(defers: Defers, inputs: seq<EntityId>, t: set<EntityId>)
    ensures Closed(defers, inputs, t) <==>
      && (forall k :: 0 <= k < |inputs| ==> inputs[k] in t)
      && (forall x, k :: x in defers && x in t && 0 <= k < |defers[x]| ==> defers[x][k] in t)
  {
    assert forall x, k :: x in defers && 0 <= k < |defers[x]| ==> defers[x][k] in Elements(Deferred(defers, x));
  }

  /** The least set that holds the inputs and is closed under deferrals. */
  ghost predicate LeastClosed(defers: Defers, inputs: seq<EntityId>, s: set<EntityId>) {
    Closed(defers, inputs, s) && forall t :: Closed(defers, inputs, t) ==> s <= t
  }

  /** The worklist: what was cloned and what waits. */
  ghost predicate Worklist(defers: Defers, inputs: seq<EntityId>, done: set<EntityId>, wait: set<EntityId>) {
    && Elements(inputs) <= done + wait
    && (forall x :: x in done ==> Elements(Deferred(defers, x)) <= done + wait)
    && (forall t :: Closed(defers, inputs, t) ==> done + wait <= t)
  }

  lemma WorklistStep(defers: Defers, inputs: seq<EntityId>, done: set<EntityId>, wait: set<EntityId>,
                     rest: set<EntityId>, x: EntityId)
    requires Worklist(defers, inputs, done, wait) && wait == rest + {x}
    ensures Worklist(defers, inputs, done + {x}, rest + (Elements(Deferred(defers, x)) - (done + {x})))
  {
    forall t | Closed(defers, inputs, t)
      ensures done + {x} + (rest + (Elements(Deferred(defers, x)) - (done + {x}))) <= t
    {
      assert done + wait <= t && x in t;
    }
  }

  lemma WorklistEmpty(defers: Defers, inputs: seq<EntityId>, done: set<EntityId>)
    requires Worklist(defers, inputs, done, {})
    ensures LeastClosed(defers, inputs, done)
  {
    assert done + {} == done;
  }

  // ------------------------------------------------------------------------------------------
  // The cloner
  // ------------------------------------------------------------------------------------------

  /** A run so far: the sources of the clones, in order, and what they make of mapper and world. */
  ghost predicate Cloning(f: Forest, g: Forest, first: EntityId, sources: seq<EntityId>,
                          mapper: map<EntityId, EntityId>, cloned: seq<EntityId>, nextId: EntityId)
  {
    && AllLive(f, sources) && g == Uninit(f, sources, first, 0)
    && mapper == MapperOf(sources, first) && nextId == first + |sources|
    && |cloned| == |sources| && forall k :: 0 <= k < |cloned| ==> cloned[k] == first + k
  }

  lemma CloningNext(f: Forest, g: Forest, first: EntityId, sources: seq<EntityId>, mapper: map<EntityId, EntityId>,
                    cloned: seq<EntityId>, nextId: EntityId, source: EntityId)
    requires Cloning(f, g, first, sources, mapper, cloned, nextId) && AllBelow(f, first) && source in f.nodes
    ensures source in g.nodes && Cloning(f, Forest(g.nodes[nextId := CloneNode(g, source)], g.roots), first,
                                         sources + [source], mapper[source := nextId], cloned + [nextId], nextId + 1)
  {
    UninitNext(f, sources, first, source);
    MapperNext(sources, first, source);
  }

  /** Without repeated inputs nothing is cloned twice. */
  ghost predicate EachOnce(sources: seq<EntityId>, wait: seq<EntityId>) {
    NoRepeats(sources) && NoRepeats(wait) && Elements(sources) !! Elements(wait)
  }

  lemma EachOnceNext(sources: seq<EntityId>, wait: seq<EntityId>, wait': seq<EntityId>)
    requires wait != [] && EachOnce(sources, wait) && NoRepeats(wait')
    requires forall x :: x in wait' ==> x in wait[1..] || x !in sources + [wait[0]]
    ensures EachOnce(sources + [wait[0]], wait')
  {
    var sources' := sources + [wait[0]];
    forall x | x in wait' ensures x !in sources' {
      if x in wait[1..] {
        var k :| 0 <= k < |wait| - 1 && wait[1..][k] == x;
        assert wait[k + 1] == x && wait[k + 1] in Elements(wait);
      }
    }
    forall j, k | 0 <= j < k < |sources'| ensures sources'[j] != sources'[k] {
      assert sources[j] in Elements(sources) && wait[0] in Elements(wait);
    }
  }

  /** Those of `deferred` that are not known yet, each once, in order. */
  function Joining(deferred: seq<EntityId>, known: set<EntityId>): seq<EntityId> {
    if deferred == [] then []
    else
      var last := deferred[|deferred| - 1];
      var before := Joining(deferred[..|deferred| - 1], known);
      if last in known || last in before then before else before + [last]
  }

  lemma JoiningNext(deferred: seq<EntityId>, k: nat, known: set<EntityId>)
    requires k < |deferred|
    ensures var before := Joining(deferred[..k], known);
      Joining(deferred[..k + 1], known) ==
        if deferred[k] in known || deferred[k] in before then before else before + [deferred[k]]
  {
    assert deferred[..k + 1][..k] == deferred[..k];
  }

  lemma {:induction false} JoiningHolds(deferred: seq<EntityId>, known: set<EntityId>)
    ensures Elements(Joining(deferred, known)) == Elements(deferred) - known && NoRepeats(Joining(deferred, known))
  {
    if deferred != [] {
      var front, last := deferred[..|deferred| - 1], deferred[|deferred| - 1];
      JoiningHolds(front, known);
      assert deferred == front + [last];
      ElementsAppend(front, last);
      var before := Joining(front, known);
      ElementsAppend(before, last);
      assert last !in known && last !in before ==> last !in Elements(before);
    }
  }

  ghost predicate FirstAt(s: seq<EntityId>, x: EntityId, k: nat) {
    k < |s| && s[k] == x && forall j :: 0 <= j < k ==> s[j] != x
  }

  /** They come in the order in which they are first deferred. */
  lemma {:induction false} JoiningInOrder(deferred: seq<EntityId>, known: set<EntityId>, a: nat, b: nat, j: nat, k: nat)
    requires a < b < |Joining(deferred, known)|
    requires FirstAt(deferred, Joining(deferred, known)[a], j) && FirstAt(deferred, Joining(deferred, known)[b], k)
    ensures j < k
  {
    var front, last := deferred[..|deferred| - 1], deferred[|deferred| - 1];
    var before, joining := Joining(front, known), Joining(deferred, known);
    JoiningHolds(front, known);
    forall i | 0 <= i < |before| ensures before[i] in front {
      assert before[i] in Elements(before) && before[i] in Elements(front);
    }
    assert joining[a] == before[a];
    var i :| 0 <= i < |front| && front[i] == before[a];
    assert j <= i;
    if b < |before| {
      var i' :| 0 <= i' < |front| && front[i'] == before[b];
      JoiningInOrder(front, known, a, b, j, k);
    } else {
      assert last !in Elements(before) && last !in Elements(front);
      assert forall i :: 0 <= i < |front| ==> front[i] in Elements(front);
    }
  }

  /** Everything that was in the queue by turn `n`, in the order in which it came in. */
  ghost function Queued(defers: Defers, inputs: seq<EntityId>, n: nat): seq<EntityId> {
    if n == 0 then inputs
    else
      var before := Queued(defers, inputs, n - 1);
      if n - 1 < |before| then before + Joining(Deferred(defers, before[n - 1]), Elements(before)) else before
  }

  /** The sources are cloned in the order of the queue: the inputs, and then what they defer, turn by turn. */
  ghost predicate QueueOrder(defers: Defers, inputs: seq<EntityId>, sources: seq<EntityId>) {
    inputs <= sources && sources == Queued(defers, inputs, |sources|)
  }

  /** The first entity in the queue that is not live. */
  ghost predicate FirstDead(defers: Defers, inputs: seq<EntityId>, live: set<EntityId>, sources: seq<EntityId>,
                            dead: EntityId) {
    && Elements(sources) <= live && dead !in live
    && sources + [dead] <= Queued(defers, inputs, |sources|)
  }

  lemma WholeQueue(defers: Defers, inputs: seq<EntityId>, sources: seq<EntityId>, wait: seq<EntityId>)
    requires sources + wait == Queued(defers, inputs, |sources|) && wait == []
    ensures QueueOrder(defers, inputs, sources)
  {
    assert sources + wait == sources;
    InputsFirst(defers, inputs, |sources|);
  }

  lemma DeadInQueue(defers: Defers, inputs: seq<EntityId>, f: Forest, sources: seq<EntityId>, wait: seq<EntityId>)
    requires sources + wait == Queued(defers, inputs, |sources|) && wait != [] && AllLive(f, sources)
    requires wait[0] !in f.nodes
    ensures FirstDead(defers, inputs, f.nodes.Keys, sources, wait[0])
  {
    assert sources + wait == sources + [wait[0]] + wait[1..];
  }

  lemma {:induction false} InputsFirst(defers: Defers, inputs: seq<EntityId>, n: nat)
    ensures inputs <= Queued(defers, inputs, n)
  {
    if n > 0 {
      InputsFirst(defers, inputs, n - 1);
    }
  }

  /** The inputs and the deferred entities were there, alive or dead, before the run. */
  ghost predicate OnlyExisting(defers: Defers, inputs: seq<EntityId>, first: EntityId) {
    Elements(inputs) <= NewIds(0, first) && forall x :: x in defers ==> Elements(defers[x]) <= NewIds(0, first)
  }

  ghost predicate Queue(defers: Defers, inputs: seq<EntityId>, sources: seq<EntityId>, wait: seq<EntityId>,
                        first: EntityId) {
    && Worklist(defers, inputs, Elements(sources), Elements(wait))
    && sources + wait == Queued(defers, inputs, |sources|)
    && OnlyExisting(defers, inputs, first) && Elements(sources) + Elements(wait) <= NewIds(0, first)
    && (NoRepeats(inputs) ==> EachOnce(sources, wait))
  }

  lemma QueueNext(defers: Defers, inputs: seq<EntityId>, sources: seq<EntityId>, wait: seq<EntityId>, first: EntityId)
    requires Queue(defers, inputs, sources, wait, first) && wait != []
    ensures wait[0] < first && forall t :: Closed(defers, inputs, t) ==> wait[0] in t
  {
    assert wait[0] in Elements(wait) && wait[0] in NewIds(0, first);
  }

  lemma SeenStep(done: set<EntityId>, rest: set<EntityId>, x: EntityId, deferred: set<EntityId>)
    ensures done + {x} + (rest + (deferred - (done + {x}))) == done + (rest + {x}) + deferred
  {
  }

  ghost function Unseen(sources: seq<EntityId>, wait: seq<EntityId>, first: EntityId): set<EntityId> {
    NewIds(0, first) - (Elements(sources) + Elements(wait))
  }

  /** One turn of the queue: what is taken out is cloned, and deferred entities that are neither cloned nor
      waiting come in at the end. */
  ghost predicate Turned(defers: Defers, sources: seq<EntityId>, wait: seq<EntityId>, wait': seq<EntityId>) {
    && wait != []
    && wait' == wait[1..] + Joining(Deferred(defers, wait[0]), Elements(sources) + Elements(wait))
  }

  lemma TurnedHolds(defers: Defers, sources: seq<EntityId>, wait: seq<EntityId>, wait': seq<EntityId>)
    requires Turned(defers, sources, wait, wait')
    ensures Elements(wait') ==
      Elements(wait[1..]) + (Elements(Deferred(defers, wait[0])) - (Elements(sources) + {wait[0]}))
    ensures NoRepeats(wait[1..]) ==> NoRepeats(wait')
    ensures wait' != wait[1..] ==> exists x :: x in wait' && x !in wait[1..] && x !in Elements(sources) + {wait[0]}
  {
    var known := Elements(sources) + Elements(wait);
    var joining := Joining(Deferred(defers, wait[0]), known);
    JoiningHolds(Deferred(defers, wait[0]), known);
    HeadAndRest(wait);
    ElementsOfBoth(wait[1..], joining);
    if joining != [] {
      assert joining[0] in Elements(joining) && joining[0] in Elements(wait');
    }
    if NoRepeats(wait[1..]) {
      NoRepeatsAppend(wait[1..], joining);
    }
  }

  lemma QueuedNext(defers: Defers, inputs: seq<EntityId>, sources: seq<EntityId>, wait: seq<EntityId>,
                   wait': seq<EntityId>)
    requires sources + wait == Queued(defers, inputs, |sources|) && Turned(defers, sources, wait, wait')
    ensures sources + [wait[0]] + wait' == Queued(defers, inputs, |sources| + 1)
  {
    var before, joining := sources + wait, Joining(Deferred(defers, wait[0]), Elements(sources) + Elements(wait));
    ElementsOfBoth(sources, wait);
    assert before[|sources|] == wait[0];
    assert sources + [wait[0]] + (wait[1..] + joining) == before + joining;
  }

  lemma HeadAndRest(wait: seq<EntityId>)
    requires wait != []
    ensures Elements(wait) == Elements(wait[1..]) + {wait[0]} && (NoRepeats(wait) ==> NoRepeats(wait[1..]))
  {
    assert wait == [wait[0]] + wait[1..];
  }

  lemma SeenSoFar(wait: seq<EntityId>, sources: seq<EntityId>, cloned: set<EntityId>)
    requires wait != [] && cloned == Elements(sources) + {wait[0]}
    ensures cloned + Elements(wait[1..]) == Elements(sources) + Elements(wait)
  {
    HeadAndRest(wait);
  }

  lemma QueueStep(defers: Defers, inputs: seq<EntityId>, sources: seq<EntityId>, wait: seq<EntityId>,
                  wait': seq<EntityId>, first: EntityId)
    requires Queue(defers, inputs, sources, wait, first) && Turned(defers, sources, wait, wait')
    ensures Queue(defers, inputs, sources + [wait[0]], wait', first)
  {
    TurnedHolds(defers, sources, wait, wait');
    QueuedNext(defers, inputs, sources, wait, wait');
    HeadAndRest(wait);
    ElementsAppend(sources, wait[0]);
    WorklistStep(defers, inputs, Elements(sources), Elements(wait), Elements(wait[1..]), wait[0]);
    assert Elements(Deferred(defers, wait[0])) <= NewIds(0, first);
    if NoRepeats(inputs) {
      assert forall x :: x in wait' ==> x in Elements(wait');
      EachOnceNext(sources, wait, wait');
    }
  }

  /** The queue gets shorter, unless an entity not seen before comes in. */
  lemma QueueShrinks(defers: Defers, inputs: seq<EntityId>, sources: seq<EntityId>, wait: seq<EntityId>,
                     wait': seq<EntityId>, first: EntityId)
    requires Turned(defers, sources, wait, wait') && Queue(defers, inputs, sources + [wait[0]], wait', first)
    ensures Unseen(sources + [wait[0]], wait', first) < Unseen(sources, wait, first) ||
            (Unseen(sources + [wait[0]], wait', first) == Unseen(sources, wait, first) && |wait'| < |wait|)
  {
    TurnedHolds(defers, sources, wait, wait');
    HeadAndRest(wait);
    ElementsAppend(sources, wait[0]);
    var deferred := Elements(Deferred(defers, wait[0]));
    SeenStep(Elements(sources), Elements(wait[1..]), wait[0], deferred);
    var seen, seen' := Elements(sources) + Elements(wait), Elements(sources + [wait[0]]) + Elements(wait');
    assert seen' == seen + deferred;
    if wait' == wait[1..] {
      assert seen' == seen;
    } else {
      var x :| x in wait' && x !in wait[1..] && x !in Elements(sources) + {wait[0]};
      assert x in Unseen(sources, wait, first) && x !in Unseen(sources + [wait[0]], wait', first);
    }
  }

  class EntityCloner {
    const world: World
    var mapper: map<EntityId, EntityId>
    var cloned: seq<EntityId>
    var wait: seq<EntityId>

    constructor (world: World)
      ensures this.world == world && mapper == map[] && cloned == [] && wait == []
    {
      this.world := world;
      mapper, cloned, wait := map[], [], [];
    }

    /** Deferred entities that are neither cloned nor waiting go to the end of the queue. */
    method Enqueue(deferred: seq<EntityId>)
      modifies this`wait
      ensures wait == old(wait) + Joining(deferred, mapper.Keys + Elements(old(wait)))
    {
      ghost var before, known := wait, mapper.Keys + Elements(wait);
      var k := 0;
      while k < |deferred|
        invariant 0 <= k <= |deferred| && wait == before + Joining(deferred[..k], known)
      {
        var entity := deferred[k];
        JoiningNext(deferred, k, known);
        if entity !in mapper && entity !in wait {
          wait := wait + [entity];
        }
        k := k + 1;
      }
      assert deferred[..k] == deferred;
    }

    /** What the guard does when a run panics. */
    method ForgetAll(ghost f: Forest, ghost first: EntityId, ghost sources: seq<EntityId>)
      requires f.Linked() && AllBelow(f, first) && AllLive(f, sources) && world.State() == Uninit(f, sources, first, 0)
      requires |cloned| == |sources| && forall k :: 0 <= k < |cloned| ==> cloned[k] == first + k
      modifies world
      ensures world.State() == f && world.nextId == old(world.nextId)
    {
      var k := 0;
      while k < |cloned|
        invariant 0 <= k <= |cloned| && world.nextId == old(world.nextId)
        invariant world.State() == Uninit(f, sources, first, k)
      {
        ghost var g := ForgetNext(f, sources, first, k);
        world.RemoveOne(cloned[k]);
        assert world.State() == g;
        k := k + 1;
      }
      UninitDone(f, sources, first);
    }

    method CloneOne(source: EntityId, ghost f: Forest, ghost first: EntityId, ghost sources: seq<EntityId>)
      requires Cloning(f, world.State(), first, sources, mapper, cloned, world.nextId)
      requires AllBelow(f, first) && source in f.nodes && source in world.nodes
      modifies world, this`mapper, this`cloned
      ensures Cloning(f, world.State(), first, sources + [source], mapper, cloned, world.nextId)
    {
      CloningNext(f, world.State(), first, sources, mapper, cloned, world.nextId, source);
      var target := world.SpawnUninit(source);
      mapper := mapper[source := target];
      cloned := cloned + [target];
    }

    /** One turn of step 1. The run panics when it meets an entity that is not live; then every clone
        is forgotten. */
    method CloneNext(defers: Defers, ghost inputs: seq<EntityId>, ghost f: Forest, ghost first: EntityId,
                     ghost sources: seq<EntityId>)
      returns (live: bool)
      requires wait != [] && f.Linked() && AllBelow(f, first)
      requires Cloning(f, world.State(), first, sources, mapper, cloned, world.nextId)
      requires Queue(defers, inputs, sources, wait, first)
      modifies this, world
      ensures live <==> old(wait)[0] in f.nodes
      ensures live ==>
        && Cloning(f, world.State(), first, sources + [old(wait)[0]], mapper, cloned, world.nextId)
        && Turned(defers, sources, old(wait), wait)
      ensures !live ==> world.State() == f && world.nextId == first + |sources|
    {
      var source := wait[0];
      QueueNext(defers, inputs, sources, wait, first);
      if source !in world.nodes {
        ForgetAll(f, first, sources);
        return false;
      }
      wait := wait[1..];
      CloneOne(source, f, first, sources);
      ElementsAppend(sources, source);
      SeenSoFar(old(wait), sources, mapper.Keys);
      Enqueue(Deferred(defers, source));
      live := true;
    }

    /** Step 1: clones the queue and whatever gets deferred meanwhile. */
    method CloneAll(defers: Defers) returns (dead: Option<EntityId>, ghost sources: seq<EntityId>)
      requires world.Valid() && mapper == map[] && cloned == []
      requires OnlyExisting(defers, wait, world.nextId)
      modifies this, world
      ensures dead.None? ==>
        && Cloning(old(world.State()), world.State(), old(world.nextId), sources, mapper, cloned, world.nextId)
        && LeastClosed(defers, old(wait), Elements(sources)) && (NoRepeats(old(wait)) ==> NoRepeats(sources))
        && QueueOrder(defers, old(wait), sources)
      ensures dead.Some? ==>
        && world.State() == old(world.State()) && world.Valid()
        && FirstDead(defers, old(wait), old(world.nodes).Keys, sources, dead.value)
        && forall t :: Closed(defers, old(wait), t) ==> dead.value in t
    {
      ghost var f, first, inputs := world.State(), world.nextId, wait;
      sources := [];
      UninitNone(f, first);
      while wait != []
        invariant Cloning(f, world.State(), first, sources, mapper, cloned, world.nextId)
        invariant Queue(defers, inputs, sources, wait, first)
        decreases Unseen(sources, wait, first), |wait|
      {
        ghost var before := wait;
        var source := wait[0];
        QueueNext(defers, inputs, sources, wait, first);
        var live := CloneNext(defers, inputs, f, first, sources);
        if !live {
          DeadInQueue(defers, inputs, f, sources, before);
          return Some(source), sources;
        }
        QueueStep(defers, inputs, sources, before, wait, first);
        QueueShrinks(defers, inputs, sources, before, wait, first);
        sources := sources + [source];
      }
      WorklistEmpty(defers, inputs, Elements(sources));
      WholeQueue(defers, inputs, sources, wait);
      dead := None;
    }

    /** Step 2, for one clone. */
    method MapRefs(id: EntityId)
      requires id in world.nodes
      modifies world`nodes
      ensures var nodes := old(world.nodes);
        world.nodes == nodes[id := nodes[id].(refs := MapAll(nodes[id].refs, mapper))]
    {
      world.nodes := world.nodes[id := world.nodes[id].(refs := MapAll(world.nodes[id].refs, mapper))];
    }

    /** Step 2: the references that the clones carry follow the mapper. */
    method MapReferences(ghost f: Forest, ghost first: EntityId, ghost sources: seq<EntityId>)
      requires AllBelow(f, first) && AllLive(f, sources) && world.State() == Uninit(f, sources, first, 0)
      requires |cloned| == |sources| && forall k :: 0 <= k < |cloned| ==> cloned[k] == first + k
      modifies world`nodes
      ensures world.State() == Unlinked(f, sources, first, mapper, |sources|)
    {
      UnlinkedStart(f, sources, first, mapper);
      var k := 0;
      while k < |cloned|
        invariant 0 <= k <= |cloned| && world.State() == Unlinked(f, sources, first, mapper, k)
      {
        UnlinkedNext(f, sources, first, mapper, k);
        MapRefs(cloned[k]);
        k := k + 1;
      }
    }

    /** Step 3, for one clone. */
    method LinkIn(id: EntityId)
      requires id in world.nodes
      requires var p := world.nodes[id].parent; p.Some? ==> Mapped(mapper, p.value) in world.nodes
      modifies world`nodes, world`roots
      ensures var p := old(world.nodes)[id].parent;
        world.State() == LinkedIn(old(world.State()), id, if p.Some? then Some(Mapped(mapper, p.value)) else None)
    {
      var parent := world.nodes[id].parent;
      if parent.Some? {
        parent := Some(Mapped(mapper, parent.value));
      }
      world.nodes := world.nodes[id := world.nodes[id].(parent := parent)];
      if parent.Some? {
        var p := parent.value;
        world.nodes := world.nodes[p := world.nodes[p].(children := world.nodes[p].children + [id])];
      } else {
        world.roots := world.roots + {id};
      }
    }

    method LinkNext(ghost f: Forest, ghost first: EntityId, ghost sources: seq<EntityId>,
                    ghost above: seq<Option<EntityId>>, k: nat)
      requires AllBelow(f, first) && AllLive(f, sources) && AllAbove(f, sources, mapper, first, above)
      requires k < |cloned| == |sources| && cloned[k] == first + k
      requires Relinked(f, world.State(), sources, mapper, first, above, k)
      modifies world`nodes, world`roots
      ensures Relinked(f, world.State(), sources, mapper, first, above, k + 1)
    {
      ghost var g := RelinkTurn(f, world.State(), sources, mapper, first, above, k);
      LinkIn(cloned[k]);
      assert world.State() == g;
    }

    method LinkAll(ghost f: Forest, ghost first: EntityId, ghost sources: seq<EntityId>,
                   ghost above: seq<Option<EntityId>>)
      requires AllBelow(f, first) && AllLive(f, sources) && AllAbove(f, sources, mapper, first, above)
      requires |cloned| == |sources| && forall k :: 0 <= k < |cloned| ==> cloned[k] == first + k
      requires Relinked(f, world.State(), sources, mapper, first, above, 0)
      modifies world`nodes, world`roots
      ensures Relinked(f, world.State(), sources, mapper, first, above, |sources|)
    {
      var k := 0;
      while k < |cloned|
        invariant 0 <= k <= |cloned| && Relinked(f, world.State(), sources, mapper, first, above, k)
      {
        LinkNext(f, first, sources, above, k);
        k := k + 1;
      }
    }

    /** Step 3: completes the hierarchy, clone by clone. */
    method Relink(ghost f: Forest, ghost first: EntityId, ghost sources: seq<EntityId>)
      requires f.Linked() && AllBelow(f, first) && AllLive(f, sources) && mapper == MapperOf(sources, first)
      requires |cloned| == |sources| && forall k :: 0 <= k < |cloned| ==> cloned[k] == first + k
      requires world.State() == Unlinked(f, sources, first, mapper, |sources|)
      modifies world`nodes, world`roots
      ensures Cloned(f, world.State(), sources, first)
    {
      RelinkStart(f, sources, mapper, first);
      AbovesAre(f, sources, first);
      LinkAll(f, first, sources, Aboves(f, sources, mapper));
    }

    /** Steps 2 and 3. */
    method Complete(ghost f: Forest, ghost first: EntityId, ghost sources: seq<EntityId>)
      requires f.Linked() && AllBelow(f, first)
      requires Cloning(f, world.State(), first, sources, mapper, cloned, world.nextId)
      modifies world`nodes, world`roots
      ensures Cloned(f, world.State(), sources, first)
    {
      MapReferences(f, first, sources);
      Relink(f, first, sources);
    }

    /** Everything after step 1: the hierarchy, the answer, and an empty cloner. */
    method Close(inputs: seq<EntityId>, ghost f: Forest, ghost first: EntityId, ghost sources: seq<EntityId>)
      returns (output: seq<EntityId>)
      requires f.WellFormed() && first >= FIRST_ID && forall id :: id in f.nodes ==> FIRST_ID <= id < first
      requires Cloning(f, world.State(), first, sources, mapper, cloned, world.nextId)
      requires Elements(inputs) <= Elements(sources)
      modifies this, world
      ensures world.Valid() && Cloned(f, world.State(), sources, first)
      ensures Answers(inputs, output, MapperOf(sources, first))
      ensures mapper == map[] && cloned == [] && wait == []
    {
      Complete(f, first, sources);
      ghost var g := world.State();
      CloneKeeps(f, g, sources, first);
      IdsAfter(f, g, sources, first);
      output := MapOutput(inputs);
      mapper, cloned, wait := map[], [], [];
      assert world.State() == g;
    }

    /** The whole run. The queue holds the inputs; the answer names the clone of each. */
    method Run(defers: Defers) returns (r: Result<seq<EntityId>, EntityId>, ghost sources: seq<EntityId>)
      requires world.Valid() && mapper == map[] && cloned == []
      requires OnlyExisting(defers, wait, world.nextId)
      modifies this, world
      ensures r.Success? ==>
        && world.Valid() && Cloned(old(world.State()), world.State(), sources, old(world.nextId))
        && LeastClosed(defers, old(wait), Elements(sources)) && (NoRepeats(old(wait)) ==> NoRepeats(sources))
        && QueueOrder(defers, old(wait), sources)
        && Answers(old(wait), r.value, MapperOf(sources, old(world.nextId)))
        && mapper == map[] && cloned == [] && wait == []
      ensures r.Failure? ==>
        && world.State() == old(world.State()) && world.Valid()
        && FirstDead(defers, old(wait), old(world.nodes).Keys, sources, r.error)
        && forall t :: Closed(defers, old(wait), t) ==> r.error in t
    {
      ghost var f, first := world.State(), world.nextId;
      var inputs := wait;
      var dead;
      dead, sources := CloneAll(defers);
      if dead.Some? {
        return Failure(dead.value), sources;
      }
      var output := Close(inputs, f, first, sources);
      r := Success(output);
    }

    method MapOutput(inputs: seq<EntityId>) returns (output: seq<EntityId>)
      requires Elements(inputs) <= mapper.Keys
      ensures Answers(inputs, output, mapper)
    {
      output := inputs;
      var k := 0;
      while k < |output|
        invariant 0 <= k <= |output| == |inputs|
        invariant forall j :: 0 <= j < k ==> inputs[j] in mapper && output[j] == mapper[inputs[j]]
        invariant forall j :: k <= j < |output| ==> output[j] == inputs[j]
      {
        assert inputs[k] in Elements(inputs);
        output := output[k := Mapped(mapper, output[k])];
        k := k + 1;
      }
    }
  }

  /** Each input is answered with its clone. */
  ghost predicate Answers(inputs: seq<EntityId>, outputs: seq<EntityId>, mapper: map<EntityId, EntityId>) {
    && |outputs| == |inputs|
    && forall j :: 0 <= j < |inputs| ==> inputs[j] in mapper && outputs[j] == mapper[inputs[j]]
  }

  /** Each input is answered with its last clone, so distinct inputs get distinct clones, all of them new. */
  lemma AnswersDiffer(f: Forest, sources: seq<EntityId>, first: EntityId, inputs: seq<EntityId>, outputs: seq<EntityId>)
    requires AllBelow(f, first) && Answers(inputs, outputs, MapperOf(sources, first))
    ensures |outputs| == |inputs|
    ensures forall j :: 0 <= j < |outputs| ==>
      LastClone(sources, first, inputs[j], outputs[j]) && outputs[j] !in f.nodes
    ensures NoRepeats(inputs) ==> NoRepeats(outputs)
  {
    forall j | 0 <= j < |outputs| ensures LastClone(sources, first, inputs[j], outputs[j]) {
      assert inputs[j] in MapperOf(sources, first);
      MapperLast(sources, first, inputs[j]);
    }
  }
}
