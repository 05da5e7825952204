/** What the queued change events say about the store, over every run of `AssetRuns`. */
module AssetEvents {
  import opened Ident
  import opened AssetTables
  import opened AssetStore
  import opened AssetRuns

  /** Which ids a log says are present: the last `Added` or `Removed` decides. */
  function Replay(log: seq<Event>, id: AssetId): bool {
    if log == [] then false
    else match log[|log| - 1]
      case Added(x) => x == id || Replay(log[..|log| - 1], id)
      case Removed(x) => x != id && Replay(log[..|log| - 1], id)
      case _ => Replay(log[..|log| - 1], id)
  }

  /** An event fits a log: additions are of absent ids, everything but `Unused` else of present ones. */
  ghost predicate Fits(log: seq<Event>, e: Event) {
    match e
    case Added(id) => !Replay(log, id)
    case Modified(id) => Replay(log, id)
    case Removed(id) => Replay(log, id)
    case Unused(_) => true
  }

  ghost predicate WellLogged(log: seq<Event>) {
    forall k :: 0 <= k < |log| ==> Fits(log[..k], log[k])
  }

  lemma ReplayAppend(log: seq<Event>, e: Event, id: AssetId)
    ensures Replay(log + [e], id) == match e
      case Added(x) => x == id || Replay(log, id)
      case Removed(x) => x != id && Replay(log, id)
      case _ => Replay(log, id)
  {
    assert (log + [e])[..|log|] == log;
  }

  lemma WellLoggedAppend(log: seq<Event>, e: Event)
    requires WellLogged(log) && Fits(log, e)
    ensures WellLogged(log + [e])
  {
    forall k | 0 <= k < |log + [e]| ensures Fits((log + [e])[..k], (log + [e])[k]) {
      assert (log + [e])[..k] == log[..k];
    }
  }

  /** Which ids a step leaves present. */
  ghost predicate PresentAfter<A>(w: World<A>, step: Step<A>, id: AssetId) {
    match step
    case Use(Insert(key, _)) => w.store.Contains(id) || (id == key && w.store.Accepts(key))
    case Use(Remove(key)) => w.store.Contains(id) && id != key
    case Use(RemoveUntracked(key)) => w.store.Contains(id) && id != key
    case Retire => w.store.Contains(id) && (w.hand.Dying? ==> id != Index(w.hand.id))
    case _ => w.store.Contains(id)
  }

  lemma StorePresence<A>(store: Store<A>, step: StoreStep<A>, id: AssetId)
    ensures ApplyStore(store, step).Contains(id) == match step
      case Insert(key, _) => store.Contains(id) || (id == key && store.Accepts(key))
      case Touch(_, _) => store.Contains(id)
      case _ => store.Contains(id) && id != step.key
  {
  }

  lemma FlushPresence<A>(w: World<A>, step: Step<A>, id: AssetId)
    requires Sound(w) && Enabled(w, step) && (step.Grow? || step.Install?)
    ensures Apply(w, step).store.Contains(id) == w.store.Contains(id)
  {
    if step.Install? {
      InstallKeeps(w.store.table, w.shared.mid, w.shared.over, w.shared.uses);
      InstallInvisible(w.store.table);
    }
  }

  lemma RetirePresence<A>(w: World<A>, id: AssetId)
    requires Enabled(w, Retire)
    ensures Apply(w, Retire).store.Contains(id) == (w.store.Contains(id) && id != Index(w.hand.id))
  {
  }

  lemma PresenceStep<A>(w: World<A>, step: Step<A>, id: AssetId)
    requires Sound(w) && Enabled(w, step)
    ensures Apply(w, step).store.Contains(id) == PresentAfter(w, step, id)
  {
    match step
    case Use(use) => StorePresence(w.store, use, id);
    case Grow | Install => FlushPresence(w, step, id);
    case Retire => RetirePresence(w, id);
    case _ =>
  }

  /** On runs without untracked removals the log is well formed and replaying it gives exactly what
      the store contains. */
  ghost predicate Replayed<A>(w: World<A>) {
    w.tracked ==> WellLogged(w.log) && forall id :: Replay(w.log, id) == w.store.Contains(id)
  }

  predicate Untracks<A>(step: Step<A>) {
    step.Use? && step.use.RemoveUntracked?
  }

  /** What an emitted event says is what the step does to presence, and it fits the log. */
  lemma EmittedFits<A>(w: World<A>, step: Step<A>)
    requires Enabled(w, step) && Emits(w, step) != []
    requires forall id :: Replay(w.log, id) == w.store.Contains(id)
    ensures Fits(w.log, Emits(w, step)[0])
  {
  }

  lemma EmittedMatches<A>(w: World<A>, step: Step<A>, id: AssetId)
    requires Enabled(w, step)
    ensures !Untracks(step) ==> (PresentAfter(w, step, id) == (
      if Emits(w, step) == [] then w.store.Contains(id)
      else match Emits(w, step)[0]
        case Added(x) => x == id || w.store.Contains(id)
        case Removed(x) => x != id && w.store.Contains(id)
        case _ => w.store.Contains(id)))
  {
  }

  lemma ReplayedStep<A>(w: World<A>, step: Step<A>)
    requires Sound(w) && Enabled(w, step) && Replayed(w)
    ensures Replayed(Apply(w, step))
  {
    var w' := Apply(w, step);
    if w'.tracked {
      EmitsIsQueued(w, step);
      var emitted := Emits(w, step);
      if emitted != [] {
        assert emitted == [emitted[0]];
        EmittedFits(w, step);
        WellLoggedAppend(w.log, emitted[0]);
      } else {
        assert w'.log == w.log;
      }
      forall id ensures Replay(w'.log, id) == w'.store.Contains(id) {
        PresenceStep(w, step, id);
        EmittedMatches(w, step, id);
        if emitted != [] {
          ReplayAppend(w.log, emitted[0], id);
        }
      }
    }
  }

  // ------------------------------------------------------------------------------------------
  // The change table
  // ------------------------------------------------------------------------------------------

  lemma DrainAppend(keys: set<AssetId>, events: seq<Event>, e: Event)
    ensures DrainInto(keys, events + [e]) ==
      if e.Added? || e.Modified? then DrainInto(keys, events) + {e.id} else DrainInto(keys, events) - {e.id}
  {
    assert (events + [e])[..|events|] == events;
  }

  /** The change table should have `id`. */
  ghost predicate Shown<A>(w: World<A>, id: AssetId) {
    w.store.Contains(id) && !Announced(w, id)
  }

  ghost predicate TabledAt<A>(w: World<A>, id: AssetId) {
    id in DrainInto(w.keys, w.store.events) <==> Shown(w, id)
  }

  /** On runs without untracked removals, draining the queue leaves exactly the present ids in the
      change table; only the id that is being recycled is taken out a moment early. */
  ghost predicate Tabled<A>(w: World<A>) {
    w.tracked ==> forall id :: TabledAt(w, id)
  }

  /** The id that the job has announced as unused and not yet recycled. */
  ghost predicate Announced<A>(w: World<A>, id: AssetId) {
    w.hand.Dying? && id == Index(w.hand.id)
  }

  lemma AnnouncedStep<A>(w: World<A>, step: Step<A>, id: AssetId)
    requires Enabled(w, step)
    ensures Announced(Apply(w, step), id) == match step
      case Count => Emits(w, step) == [Unused(id)]
      case Retire => false
      case _ => Announced(w, id)
    ensures Announced(w, id) && !step.Retire? ==> Emits(w, step) == []
    ensures step.Retire? && Emits(w, step) != [] ==> Emits(w, step)[0].Removed? && Announced(w, Emits(w, step)[0].id)
  {
  }

  lemma TabledDrain<A>(w: World<A>)
    requires Sound(w) && Enabled(w, Drain) && Tabled(w)
    ensures Tabled(Apply(w, Drain))
  {
    var w' := Apply(w, Drain);
    if w'.tracked {
      forall id ensures TabledAt(w', id) {
        assert TabledAt(w, id);
        PresenceStep(w, Drain, id);
      }
    }
  }

  /** What draining one more event, or none, does to one id. */
  lemma DrainEmitted(keys: set<AssetId>, events: seq<Event>, emitted: seq<Event>, id: AssetId)
    requires |emitted| <= 1
    ensures id in DrainInto(keys, events + emitted) <==>
      if emitted == [] then id in DrainInto(keys, events)
      else if emitted[0].Added? || emitted[0].Modified? then id == emitted[0].id || id in DrainInto(keys, events)
      else id != emitted[0].id && id in DrainInto(keys, events)
  {
    if emitted == [] {
      assert events + emitted == events;
    } else {
      assert emitted == [emitted[0]];
      DrainAppend(keys, events, emitted[0]);
    }
  }

  /** What a step does to that is what its event does to the change table. */
  lemma ShownAfter<A>(w: World<A>, step: Step<A>, id: AssetId)
    requires Sound(w) && Enabled(w, step) && !step.Drain? && !Untracks(step)
    ensures var emitted := Emits(w, step);
      && |emitted| <= 1
      && (Shown(Apply(w, step), id) <==>
            if emitted == [] then Shown(w, id)
            else if emitted[0].Added? || emitted[0].Modified? then id == emitted[0].id || Shown(w, id)
            else id != emitted[0].id && Shown(w, id))
  {
    PresenceStep(w, step, id);
    EmittedMatches(w, step, id);
    AnnouncedStep(w, step, id);
  }

  lemma TabledId<A>(w: World<A>, step: Step<A>, id: AssetId)
    requires Sound(w) && Enabled(w, step) && !step.Drain? && !Untracks(step) && TabledAt(w, id)
    ensures TabledAt(Apply(w, step), id)
  {
    ShownAfter(w, step, id);
    EmitsIsQueued(w, step);
    DrainEmitted(w.keys, w.store.events, Emits(w, step), id);
  }

  lemma TabledStep<A>(w: World<A>, step: Step<A>)
    requires Sound(w) && Enabled(w, step) && Tabled(w)
    ensures Tabled(Apply(w, step))
  {
    if step.Drain? {
      TabledDrain(w);
    } else if Apply(w, step).tracked {
      forall id ensures TabledAt(Apply(w, step), id) {
        assert TabledAt(w, id);
        TabledId(w, step, id);
      }
    }
  }

  // ------------------------------------------------------------------------------------------
  // The end of an id
  // ------------------------------------------------------------------------------------------

  /** No slot was handed out again so often that its generation came round. */
  ghost predicate NoWrap<A>(w: World<A>) {
    forall i :: 0 <= i < |w.shared.uses| ==> w.shared.uses[i] < GENERATIONS
  }

  /** The last handle of the id is gone: a newer use of the slot exists, or the slot is queued for
      one, or the job is about to queue it. */
  ghost predicate Spent<A>(w: World<A>, id: AssetIndex) {
    SpentIn(w.store.table.alloc, w.shared.uses, id) || (w.hand.Dying? && w.hand.id == id)
  }

  ghost predicate SpentIn(alloc: Alloc, uses: seq<nat>, id: AssetIndex) {
    id.index < |uses| && (id.generation < uses[id.index] || (id == Current(uses, id.index) && id in alloc.queue))
  }

  /** After `Unused` an id gets at most the `Removed` that directly follows. */
  ghost predicate EndsWithUnused(log: seq<Event>) {
    forall k, j :: 0 <= k < j < |log| && log[k].Unused? && log[j].id == log[k].id ==>
      j == k + 1 && log[j].Removed?
  }

  ghost predicate Ended<A>(w: World<A>) {
    NoWrap(w) ==>
      && (forall id: AssetIndex :: Unused(Index(id)) in w.log <==> Spent(w, id))
      && (forall k :: 0 <= k < |w.log| && w.log[k].Unused? ==> w.log[k].id.Index?)
      && EndsWithUnused(w.log)
      && (w.hand.Dying? ==> w.log != [] && w.log[|w.log| - 1] == Unused(Index(w.hand.id)))
  }

  lemma EndsAppend(log: seq<Event>, e: Event)
    requires EndsWithUnused(log)
    requires Unused(e.id) !in log || (log[|log| - 1] == Unused(e.id) && Unused(e.id) !in log[..|log| - 1] && e.Removed?)
    ensures EndsWithUnused(log + [e])
  {
    forall k, j | 0 <= k < j < |log + [e]| && (log + [e])[k].Unused? && (log + [e])[j].id == (log + [e])[k].id
      ensures j == k + 1 && (log + [e])[j].Removed?
    {
      if j == |log| {
        assert log[k] == Unused(e.id);
        assert log == log[..|log| - 1] + [log[|log| - 1]];
      }
    }
  }

  lemma SpentThread(alloc: Alloc, sh: Shared, step: ThreadStep, id: AssetIndex)
    requires ThreadEnabled(alloc, sh, step) && AllCurrent(sh.uses, alloc.queue)
    requires forall i :: 0 <= i < |sh.uses| ==> sh.uses[i] < GENERATIONS
    ensures var (alloc', sh') := ApplyThread(alloc, sh, step);
      SpentIn(alloc', sh'.uses, id) == SpentIn(alloc, sh.uses, id)
  {
    if step.ReservePop? {
      assert alloc.queue == [alloc.queue[0]] + alloc.queue[1..];
      assert IsCurrent(sh.uses, alloc.queue[0]);
    }
  }

  /** Only the announcement of a last drop makes an id spent, and nothing undoes it. */
  lemma SpentStep<A>(w: World<A>, step: Step<A>, id: AssetIndex)
    requires Sound(w) && Enabled(w, step) && NoWrap(w)
    ensures Spent(Apply(w, step), id) == (Spent(w, id) || Emits(w, step) == [Unused(Index(id))])
  {
    match step
    case Thread(thread) => SpentThread(w.store.table.alloc, w.shared, thread, id);
    case Use(use) => StoreShape(w.store, use);
    case Retire => SpentRetire(w, id);
    case _ =>
  }

  lemma SpentRetire<A>(w: World<A>, id: AssetIndex)
    requires Sound(w) && Enabled(w, Retire)
    ensures Spent(Apply(w, Retire), id) == Spent(w, id) && Emits(w, Retire) != [Unused(Index(id))]
  {
    ConservedRetire(w);
    assert Balanced(w.store.table.alloc, w.shared, w.hand, w.store.duplicates, w.hand.id);
    KeysOfRecycled(w.store.table.alloc.queue, w.hand.id);
  }

  lemma KeysOfRecycled(queue: seq<AssetIndex>, id: AssetIndex)
    ensures forall x :: x in queue + [id] <==> x in queue || x == id
  {
  }

  lemma WrapStep<A>(w: World<A>, step: Step<A>)
    requires Enabled(w, step) && NoWrap(Apply(w, step))
    ensures NoWrap(w)
  {
    var w' := Apply(w, step);
    forall i | 0 <= i < |w.shared.uses| ensures w.shared.uses[i] < GENERATIONS {
      assert w'.shared.uses[i] >= w.shared.uses[i];
    }
  }

  /** Events are queued for ids that are not spent, except for the removal that ends one. */
  lemma EmitterUnspent<A>(w: World<A>, step: Step<A>, id: AssetIndex)
    requires Sound(w) && Enabled(w, step) && NoWrap(w) && !step.Retire?
    requires Emits(w, step) != [] && Emits(w, step)[0].id == Index(id)
    ensures !Spent(w, id)
  {
    match step
    case Count =>
      assert Balanced(w.store.table.alloc, w.shared, w.hand, w.store.duplicates, id);
    case Use(_) =>
      if id.index < |w.shared.uses| {
        HitIsLive(w, id);
      }
  }

  lemma DyingStep<A>(w: World<A>, step: Step<A>)
    requires Enabled(w, step)
    ensures var w' := Apply(w, step);
      w'.hand.Dying? ==> Emits(w, step) == [Unused(Index(w'.hand.id))] || (Emits(w, step) == [] && w'.hand == w.hand)
    ensures Emits(w, step) != [] && step.Retire? ==> Emits(w, step) == [Event.Removed(Index(w.hand.id))]
    ensures Emits(w, step) != [] && Emits(w, step)[0].Unused? ==> Emits(w, step)[0].id.Index?
    ensures |Emits(w, step)| <= 1
  {
  }

  /** An event that may follow a log in which nothing follows an `Unused` but its removal. */
  lemma MayFollow<A>(w: World<A>, step: Step<A>)
    requires Sound(w) && Enabled(w, step) && NoWrap(w) && Ended(w) && Emits(w, step) != []
    ensures EndsWithUnused(w.log + [Emits(w, step)[0]])
  {
    var e := Emits(w, step)[0];
    DyingStep(w, step);
    if step.Retire? {
      OnlyOneUnused(w.log);
    } else if e.id.Index? {
      EmitterUnspent(w, step, e.id.index);
      assert !Spent(w, e.id.index);
    }
    EndsAppend(w.log, e);
  }

  /** The invariant after a step that queued `emitted`. */
  lemma EndedNext<A>(w: World<A>, w': World<A>, emitted: seq<Event>)
    requires NoWrap(w) && Ended(w) && w'.log == w.log + emitted && |emitted| <= 1
    requires forall id: AssetIndex :: Spent(w', id) == (Spent(w, id) || emitted == [Unused(Index(id))])
    requires emitted != [] && emitted[0].Unused? ==> emitted[0].id.Index?
    requires w'.hand.Dying? ==> emitted == [Unused(Index(w'.hand.id))] || (emitted == [] && w'.hand == w.hand)
    requires EndsWithUnused(w'.log)
    ensures Ended(w')
  {
    forall id: AssetIndex ensures Unused(Index(id)) in w'.log <==> Spent(w', id) {
      assert Unused(Index(id)) in w.log <==> Spent(w, id);
    }
  }

  lemma EndedStep<A>(w: World<A>, step: Step<A>)
    requires Sound(w) && Enabled(w, step) && Ended(w)
    ensures Ended(Apply(w, step))
  {
    if NoWrap(Apply(w, step)) {
      WrapStep(w, step);
      EmitsIsQueued(w, step);
      DyingStep(w, step);
      var emitted := Emits(w, step);
      forall id: AssetIndex ensures Spent(Apply(w, step), id) == (Spent(w, id) || emitted == [Unused(Index(id))]) {
        SpentStep(w, step, id);
      }
      if emitted == [] {
        assert w.log + emitted == w.log;
      } else {
        assert emitted == [emitted[0]];
        MayFollow(w, step);
      }
      EndedNext(w, Apply(w, step), emitted);
    }
  }

  lemma OnlyOneUnused(log: seq<Event>)
    requires EndsWithUnused(log) && log != [] && log[|log| - 1].Unused?
    ensures log[|log| - 1] !in log[..|log| - 1]
  {
  }

  /** The properties of the log, together. */
  ghost predicate Logged<A>(w: World<A>) {
    Replayed(w) && Tabled(w) && Ended(w)
  }

  lemma {:induction false} LoggedRuns<A>(steps: seq<Step<A>>)
    requires Legal(steps)
    ensures Logged(After(steps))
    decreases |steps|
  {
    if steps != [] {
      var before := steps[..|steps| - 1];
      var step := steps[|steps| - 1];
      LoggedRuns(before);
      SoundRuns(before);
      ReplayedStep(After(before), step);
      TabledStep(After(before), step);
      EndedStep(After(before), step);
    }
  }
}
