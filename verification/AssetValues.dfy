/** Which value an asset id gives: the store as a map from ids to values, and over every run of
    `AssetRuns`. */
module AssetValues {
  import opened Wrappers
  import opened Ident
  import opened AssetTables
  import opened AssetStore
  import opened AssetRuns
  import opened AssetEvents
  import opened AssetTheorems

  // ------------------------------------------------------------------------------------------
  // One operation
  // ------------------------------------------------------------------------------------------

  /** Storing, overwriting and removing are the map's update and removal at that id alone, for slot ids and
      for keys. */
  lemma StoreIsAMap<A>(s: Store<A>, key: AssetId, asset: A, id: AssetId)
    ensures s.Accepts(key) ==> s.Insert(key, asset).Lookup(id) == if id == key then Some(asset) else s.Lookup(id)
    ensures s.Contains(key) ==> s.Overwrite(key, asset).Lookup(id) == if id == key then Some(asset) else s.Lookup(id)
    ensures s.Remove(key).Lookup(id) == if id == key then None else s.Lookup(id)
    ensures s.RemoveUntracked(key).Lookup(id) == if id == key then None else s.Lookup(id)
  {
  }

  /** The end of a slot id, likewise. */
  lemma RetireForgets<A>(s: Store<A>, index: AssetIndex, id: AssetId)
    ensures s.Retire(index).Lookup(id) == if id == Index(index) then None else s.Lookup(id)
  {
  }

  /** A flush changes no value. */
  lemma FlushKeepsValues<A>(w: World<A>, id: AssetId)
    requires Sound(w)
    ensures w.store.Ready() && w.store.Flushed().Lookup(id) == w.store.Lookup(id)
  {
    FlushIsInvisible(w, if id.Index? then id.index else AssetIndex(0, 0));
    if id.Index? {
      ViewLookup(w.store.table, id.index);
      ViewLookup(w.store.table.Flush(), id.index);
    }
  }

  /** What upgrading an id tells: whether there is a value, what kind of handle it gets, and, for the
      refusal, that its slot has as many duplicates as it may. */
  lemma ResolveTells<A>(s: Store<A>, id: AssetId)
    ensures var (s', r) := s.ResolveHandle(id);
      && (r == Missing <==> s.Lookup(id) == None)
      && (r.KeyedHandle? ==> id == Keyed(r.uuid)) && (r.StrongHandle? ==> id == Index(r.index))
      && (r == Overflow <==> s.Lookup(id) != None && id.Index? && s.Duplicates(id.index) >= MAX_DUPLICATES)
      && (forall x: AssetIndex :: s'.Duplicates(x) == s.Duplicates(x) + if r == StrongHandle(x) then 1 else 0)
      && s'.table == s.table && s'.keyed == s.keyed && s'.events == s.events
  {
  }

  // ------------------------------------------------------------------------------------------
  // Runs
  // ------------------------------------------------------------------------------------------

  /** What the last step that concerned `id` left for it: a stored value, or none. */
  ghost function LastStored<A>(steps: seq<Step<A>>, id: AssetId): Option<A>
    requires Legal(steps)
    decreases |steps|
  {
    if steps == [] then None
    else
      var before := steps[..|steps| - 1];
      Leaves(After(before), steps[|steps| - 1], id, LastStored(before, id))
  }

  /** What a step leaves for `id`, which had `value`. */
  ghost function Leaves<A>(w: World<A>, step: Step<A>, id: AssetId, value: Option<A>): Option<A>
    requires Enabled(w, step)
  {
    match step
    case Use(Insert(key, asset)) => if key == id && w.store.Accepts(id) then Some(asset) else value
    case Use(Touch(key, asset)) => if key == id then Some(asset) else value
    case Use(Remove(key)) => if key == id then None else value
    case Use(RemoveUntracked(key)) => if key == id then None else value
    case Retire => if id == Index(w.hand.id) then None else value
    case _ => value
  }

  lemma TableStepKeeps<A>(w: World<A>, step: Step<A>, id: AssetId)
    requires Sound(w) && Enabled(w, step) && (step.Grow? || step.Install?)
    ensures Apply(w, step).store.Lookup(id) == w.store.Lookup(id)
  {
    if step.Install? {
      InstallKeeps(w.store.table, w.shared.mid, w.shared.over, w.shared.uses);
      InstallInvisible(w.store.table);
    }
  }

  lemma UseStep<A>(w: World<A>, op: StoreStep<A>, id: AssetId)
    requires Enabled(w, Use(op))
    ensures Apply(w, Use(op)).store.Lookup(id) == Leaves(w, Use(op), id, w.store.Lookup(id))
  {
    match op
    case Insert(key, asset) => StoreIsAMap(w.store, key, asset, id);
    case Touch(key, asset) => StoreIsAMap(w.store, key, asset, id);
    case Remove(key) => RemovalsForget(w.store, key, id);
    case RemoveUntracked(key) => RemovalsForget(w.store, key, id);
  }

  lemma RemovalsForget<A>(s: Store<A>, key: AssetId, id: AssetId)
    ensures s.Remove(key).Lookup(id) == if id == key then None else s.Lookup(id)
    ensures s.RemoveUntracked(key).Lookup(id) == if id == key then None else s.Lookup(id)
  {
  }

  lemma LookupStep<A>(w: World<A>, step: Step<A>, id: AssetId)
    requires Sound(w) && Enabled(w, step)
    ensures Apply(w, step).store.Lookup(id) == Leaves(w, step, id, w.store.Lookup(id))
  {
    match step
    case Grow | Install => TableStepKeeps(w, step, id);
    case Use(op) => UseStep(w, op, id);
    case Retire => RetireForgets(w.store, w.hand.id, id);
    case _ =>
  }

  /** Looking an id up gives the value that was last stored or written under it, unless it was removed or
      its slot handed back since. */
  lemma {:induction false} LookupIsLastStored<A>(steps: seq<Step<A>>, id: AssetId)
    requires Legal(steps)
    ensures After(steps).store.Lookup(id) == LastStored(steps, id)
    decreases |steps|
  {
    if steps != [] {
      var before := steps[..|steps| - 1];
      LookupIsLastStored(before, id);
      SoundRuns(before);
      LookupStep(After(before), steps[|steps| - 1], id);
    }
  }

  /** Every change of a value is announced, as what it is, except by untracked removals. */
  lemma ChangesAnnounced<A(!new)>(w: World<A>, step: Step<A>, id: AssetId)
    requires Sound(w) && Enabled(w, step) && !Untracks(step)
    ensures var (before, after, said) := (w.store.Lookup(id), Apply(w, step).store.Lookup(id), Emits(w, step));
      && (Added(id) in said <==> before.None? && after.Some?)
      && (Event.Removed(id) in said <==> before.Some? && after.None?)
      && (Modified(id) in said ==> before.Some? && after.Some?)
      && (before != after && before.Some? && after.Some? ==> Modified(id) in said)
  {
    LookupStep(w, step, id);
  }

  // ------------------------------------------------------------------------------------------
  // Refusals
  // ------------------------------------------------------------------------------------------

  /** Why a slot that was handed out refuses an id: it waits to be handed out again, or it belongs to the
      id that is current now. */
  lemma RefusalTells<A>(w: World<A>, id: AssetIndex)
    requires Sound(w) && id.index < |w.shared.uses|
    ensures w.store.Ready()
    ensures var (t, current) := (w.store.table.Flush(), Current(w.shared.uses, id.index));
      || t.Hit(id)
      || t.Refusal(id) ==
           if current in w.store.table.alloc.queue || current in w.shared.mid then SlotError.Removed(id)
           else Occupied(id, current.generation)
  {
    var current := Current(w.shared.uses, id.index);
    FlushIsInvisible(w, id);
    FlushIsInvisible(w, current);
    var flushed := WithTable(w, w.store.table.Flush());
    assert Places(flushed.store.table, w.shared.mid, w.shared.uses, id.index) == 1;
  }

  /** No slot gets more upgraded handles than the limit. */
  lemma {:induction false} DuplicatesBounded<A>(steps: seq<Step<A>>, id: AssetIndex)
    requires Legal(steps)
    ensures After(steps).store.Duplicates(id) <= MAX_DUPLICATES
    decreases |steps|
  {
    if steps != [] {
      var before := steps[..|steps| - 1];
      DuplicatesBounded(before, id);
      DuplicatesStep(After(before), steps[|steps| - 1], id);
    }
  }

  lemma DuplicatesStep<A>(w: World<A>, step: Step<A>, id: AssetIndex)
    requires Enabled(w, step) && w.store.Duplicates(id) <= MAX_DUPLICATES
    ensures Apply(w, step).store.Duplicates(id) <= MAX_DUPLICATES
  {
    if step.Use? {
      StoreShape(w.store, step.use);
    }
  }
}
