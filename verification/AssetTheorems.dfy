/** What every run of the asset store guarantees. Each theorem speaks of an arbitrary legal run. */
module AssetTheorems {
  import opened Wrappers
  import opened Ident
  import opened AssetTables
  import opened AssetStore
  import opened AssetRuns
  import opened AssetEvents

  // ------------------------------------------------------------------------------------------
  // Handles
  // ------------------------------------------------------------------------------------------

  /** Conservation: a live slot has as many handles, coming handles and pending drop events as one
      plus its duplicate counter; an id that is not live has none of them. */
  lemma HandlesConserved<A>(steps: seq<Step<A>>, id: AssetIndex)
    requires Legal(steps)
    ensures var w := After(steps);
      w.shared.handles[id] + w.shared.unbuilt[id] + Times(w.shared.drops, id) +
      (if !w.hand.Idle? && w.hand.id == id then 1 else 0) ==
      if Live(w, id) then 1 + w.store.Duplicates(id) else 0
  {
    SoundRuns(steps);
    var w := After(steps);
    assert Balanced(w.store.table.alloc, w.shared, w.hand, w.store.duplicates, id);
  }

  /** A strong handle never names a recycled slot or a slot at another generation: its id is the
      current one, and as soon as a flush has caught up it addresses its entry. */
  lemma HandleNamesItsSlot<A>(steps: seq<Step<A>>, id: AssetIndex)
    requires Legal(steps) && After(steps).shared.handles[id] > 0
    ensures var w := After(steps);
      && IsCurrent(w.shared.uses, id) && id !in w.store.table.alloc.queue && id !in w.shared.mid
      && (FlushedFor(w.store.table, id) ==> w.store.table.Hit(id))
  {
    SoundRuns(steps);
    var w := After(steps);
    assert Balanced(w.store.table.alloc, w.shared, w.hand, w.store.duplicates, id);
    if FlushedFor(w.store.table, id) {
      LiveHits(w, id);
    }
  }

  /** What a step may do to the life of a slot. */
  ghost predicate LifeRules<A>(w: World<A>, step: Step<A>, id: AssetIndex)
    requires Enabled(w, step)
  {
    var w' := Apply(w, step);
    && (Live(w, id) && !Live(w', id) <==> step.Retire? && w.hand == Dying(id))
    && (step.Count? && w.hand.id == id ==> (w'.hand.Dying? <==> References(w.shared, w.hand, id) == 1))
    && (w.hand == Dying(id) ==> References(w.shared, w.hand, id) == 1)
  }

  lemma LifeCount<A>(w: World<A>, id: AssetIndex)
    requires Sound(w) && Enabled(w, Step.Count)
    ensures LifeRules(w, Step.Count, id)
  {
    assert Balanced(w.store.table.alloc, w.shared, w.hand, w.store.duplicates, id);
  }

  lemma RetireKills<A>(w: World<A>, id: AssetIndex)
    requires Sound(w) && Enabled(w, Retire)
    ensures Live(w, w.hand.id) && References(w.shared, w.hand, w.hand.id) == 1
    ensures Live(Apply(w, Retire), id) <==> Live(w, id) && id != w.hand.id
  {
    assert Balanced(w.store.table.alloc, w.shared, w.hand, w.store.duplicates, w.hand.id);
    ConservedRetire(w);
    CountAppend(w.store.table.alloc.queue, w.hand.id, id);
  }

  lemma LifeRetire<A>(w: World<A>, id: AssetIndex)
    requires Sound(w) && Enabled(w, Retire)
    ensures LifeRules(w, Retire, id)
  {
    RetireKills(w, id);
  }

  lemma LifeStep<A>(w: World<A>, step: Step<A>, id: AssetIndex)
    requires Sound(w) && Enabled(w, step)
    ensures LifeRules(w, step, id)
  {
    if step.Count? {
      LifeCount(w, id);
    } else if step.Retire? {
      LifeRetire(w, id);
    } else {
      QuietLife(w, step, id);
    }
  }

  /** No other step ends a life. */
  lemma QuietLife<A>(w: World<A>, step: Step<A>, id: AssetIndex)
    requires Sound(w) && Enabled(w, step) && !step.Count? && !step.Retire?
    ensures LifeRules(w, step, id)
  {
    if w.hand == Dying(id) {
      assert Balanced(w.store.table.alloc, w.shared, w.hand, w.store.duplicates, id);
    }
    match step
    case Thread(thread) => LiveThread(w.store.table, w.shared, thread, id);
    case Use(use) => StoreShape(w.store, use);
    case _ =>
  }

  /** A slot dies only by recycling, and the job decides to recycle exactly when the event it holds
      is the last thing that refers to the slot. */
  lemma RecycledAtLastEvent<A>(steps: seq<Step<A>>, step: Step<A>, id: AssetIndex)
    requires Legal(steps) && Enabled(After(steps), step)
    ensures LifeRules(After(steps), step, id)
  {
    SoundRuns(steps);
    LifeStep(After(steps), step, id);
  }

  // ------------------------------------------------------------------------------------------
  // The flush
  // ------------------------------------------------------------------------------------------

  /** Two tables that agree on every entry the first one has. */
  ghost predicate KeepsEntries<A>(t: Table<A>, t': Table<A>) {
    && |t.storage| <= |t'.storage|
    && forall i :: 0 <= i < |t.storage| && t.storage[i].Some? ==> t'.storage[i] == t.storage[i]
  }

  lemma {:induction false} InstallAllKeeps<A>(t: Table<A>, sh: Shared)
    requires Located(t, sh.mid, sh.over, sh.uses)
    requires forall k :: 0 <= k < |t.alloc.recycled| ==> t.alloc.recycled[k].index < |t.storage|
    ensures Located(t.InstallAll(), sh.mid, sh.over, sh.uses)
    ensures KeepsEntries(t, t.InstallAll())
    ensures Stored(t.InstallAll().storage) == Stored(t.storage)
    ensures forall id: AssetIndex :: t.InstallAll().Get(id) == t.Get(id)
    decreases |t.alloc.recycled|
  {
    if t.alloc.recycled != [] {
      InstallKeeps(t, sh.mid, sh.over, sh.uses);
      InstallInvisible(t);
      InstallAllKeeps(t.Install(), sh);
      assert KeepsEntries(t, t.Install());
    }
  }

  lemma LocatedInstallable<A>(t: Table<A>, sh: Shared)
    requires Located(t, sh.mid, sh.over, sh.uses)
    ensures t.Installable()
  {
  }

  /** A flush never overwrites an entry, changes no value anyone can look up, keeps the partition,
      and afterwards exactly the live ids hit their slot. */
  lemma FlushIsInvisible<A>(w: World<A>, id: AssetIndex)
    requires Sound(w)
    ensures w.store.Ready()
    ensures var t := w.store.table.Flush();
      && KeepsEntries(w.store.table, t)
      && View(t) == View(w.store.table)
      && Stored(t.storage) == Stored(w.store.table.storage)
      && Sound(WithTable(w, t))
      && (id.index < |w.shared.uses| ==> (t.Hit(id) <==> Live(w, id)))
  {
    var t, sh := w.store.table, w.shared;
    LocatedInstallable(t, sh);
    GrowKeeps(t, sh.mid, sh.over, sh.uses);
    StoredGrown(t.storage, t.alloc.next);
    InstallAllKeeps(t.Grow(), sh);
    var t' := t.Flush();
    forall x: AssetIndex ensures t'.Get(x) == if x in View(t) then Some(View(t)[x]) else None {
      ViewLookup(t, x);
      assert t.Grow().Get(x) == t.Get(x);
    }
    SameView(t', View(t));
    var w' := WithTable(w, t');
    ConservedQuiet(w, w');
    if id.index < |sh.uses| {
      if t'.Hit(id) {
        HitIsLive(w', id);
      } else if Live(w, id) {
        LiveHits(w', id);
      }
    }
  }

  // ------------------------------------------------------------------------------------------
  // The table is a map
  // ------------------------------------------------------------------------------------------

  ghost predicate Counted<A>(t: Table<A>) {
    t.len == Stored(t.storage)
  }

  lemma CountedStore<A>(store: Store<A>, step: StoreStep<A>)
    requires Counted(store.table)
    ensures Counted(ApplyStore(store, step).table)
  {
    if step.key.Index? && store.table.Hit(step.key.index) {
      var id := step.key.index;
      StoredUpdate(store.table.storage, id.index, Some(Entry(None, id.generation)));
      if step.Insert? || step.Touch? {
        StoredUpdate(store.table.storage, id.index, Some(Entry(Some(step.asset), id.generation)));
      }
    }
  }

  lemma CountedStep<A>(w: World<A>, step: Step<A>)
    requires Sound(w) && Enabled(w, step) && Counted(w.store.table)
    ensures Counted(Apply(w, step).store.table)
  {
    var t := w.store.table;
    match step
    case Grow => StoredGrown(t.storage, t.alloc.next);
    case Install =>
      InstallKeeps(t, w.shared.mid, w.shared.over, w.shared.uses);
      InstallInvisible(t);
    case Use(use) => CountedStore(w.store, use);
    case Retire => CountedRetire(w.store, w.hand.id);
    case _ =>
  }

  lemma CountedRetire<A>(store: Store<A>, id: AssetIndex)
    requires Counted(store.table)
    ensures Counted(store.Retire(id).table)
  {
    if store.table.Hit(id) {
      StoredUpdate(store.table.storage, id.index, None);
    }
  }

  /** `len` is the number of ids that hold a value, so its decrements never underflow. */
  lemma {:induction false} LenIsExact<A>(steps: seq<Step<A>>)
    requires Legal(steps)
    ensures var t := After(steps).store.table; t.len == |View(t)| && t.len >= 0
    ensures Counted(After(steps).store.table)
    decreases |steps|
  {
    if steps != [] {
      var before := steps[..|steps| - 1];
      LenIsExact(before);
      SoundRuns(before);
      CountedStep(After(before), steps[|steps| - 1]);
    }
    HoldersCount(After(steps).store.table.storage);
    assert View(After(steps).store.table).Keys == Holders(After(steps).store.table.storage);
  }

  /** The operations are those of a map keyed by live ids: storing succeeds exactly for a live id
      and updates the map at that id alone, removal deletes that id alone, and both leave every
      other id as it was. */
  lemma TableIsAMap<A>(steps: seq<Step<A>>, id: AssetIndex, asset: A)
    requires Legal(steps) && id.index < |After(steps).shared.uses|
    ensures After(steps).store.Ready()
    ensures var (w, t) := (After(steps), After(steps).store.table.Flush());
      && (t.Hit(id) <==> Live(w, id))
      && w.store.table.Get(id) == (if id in View(w.store.table) then Some(View(w.store.table)[id]) else None)
      && (t.Hit(id) ==>
           && View(t.Put(id, asset)) == View(w.store.table)[id := asset]
           && View(t.Take(id)) == View(w.store.table) - {id}
           && View(t.Release(id)) == View(w.store.table) - {id})
  {
    SoundRuns(steps);
    var w := After(steps);
    FlushIsInvisible(w, id);
    ViewLookup(w.store.table, id);
    if w.store.table.Flush().Hit(id) {
      ViewUpdates(w.store.table.Flush(), id, asset);
    }
  }

  // ------------------------------------------------------------------------------------------
  // Reuse of ids
  // ------------------------------------------------------------------------------------------

  /** The id handed out for the `use`-th reuse of a slot. */
  function IdOf(issue: (nat, nat)): AssetIndex {
    AssetIndex(issue.0, issue.1 % GENERATIONS)
  }

  ghost predicate IssuedOnce(sh: Shared) {
    && (forall k :: 0 <= k < |sh.issued| ==> sh.issued[k].0 < |sh.uses| && sh.issued[k].1 <= sh.uses[sh.issued[k].0])
    && (forall j, k :: 0 <= j < k < |sh.issued| ==> sh.issued[j] != sh.issued[k])
  }

  lemma IssuedThread(alloc: Alloc, sh: Shared, step: ThreadStep)
    requires ThreadEnabled(alloc, sh, step) && IssuedOnce(sh)
    requires alloc.next <= MAX_ASSET_INDEX ==> alloc.next == |sh.uses|
    ensures IssuedOnce(ApplyThread(alloc, sh, step).1)
  {
  }

  lemma IssuedStep<A>(w: World<A>, step: Step<A>)
    requires Partition(w) && Enabled(w, step) && IssuedOnce(w.shared)
    ensures IssuedOnce(Apply(w, step).shared)
  {
    if step.Thread? {
      IssuedThread(w.store.table.alloc, w.shared, step.thread);
    }
  }

  lemma {:induction false} IssuedRuns<A>(steps: seq<Step<A>>)
    requires Legal(steps)
    ensures IssuedOnce(After(steps).shared)
    decreases |steps|
  {
    if steps != [] {
      var before := steps[..|steps| - 1];
      IssuedRuns(before);
      SoundRuns(before);
      IssuedStep(After(before), steps[|steps| - 1]);
    }
  }

  lemma DistinctIds(sh: Shared, j: nat, k: nat)
    requires IssuedOnce(sh) && j < k < |sh.issued|
    requires forall i :: 0 <= i < |sh.uses| ==> sh.uses[i] < GENERATIONS
    ensures IdOf(sh.issued[j]) != IdOf(sh.issued[k])
  {
    assert sh.issued[j].1 < GENERATIONS && sh.issued[k].1 < GENERATIONS;
  }

  /** While no slot was handed out again 2^32 times, no id was handed out twice. */
  lemma NoIdIssuedTwice<A>(steps: seq<Step<A>>, j: nat, k: nat)
    requires Legal(steps) && NoWrap(After(steps))
    requires j < k < |After(steps).shared.issued|
    ensures IdOf(After(steps).shared.issued[j]) != IdOf(After(steps).shared.issued[k])
  {
    IssuedRuns(steps);
    DistinctIds(After(steps).shared, j, k);
  }

  /** An earlier use of a slot that was handed out again since. */
  ghost predicate Stale(sh: Shared, issue: (nat, nat)) {
    issue in sh.issued && issue.0 < |sh.uses| && issue.1 < sh.uses[issue.0]
  }

  ghost predicate Misses<A>(w: World<A>, id: AssetIndex) {
    w.store.table.Get(id) == None && w.store.Ready() && !w.store.table.Flush().Hit(id)
  }

  lemma NotCurrentMisses<A>(w: World<A>, id: AssetIndex)
    requires Sound(w) && id.index < |w.shared.uses| && !IsCurrent(w.shared.uses, id)
    ensures Misses(w, id)
  {
    FlushIsInvisible(w, id);
    if w.store.table.Hit(id) {
      HitIsLive(w, id);
    }
  }

  lemma StaleMisses<A>(w: World<A>, issue: (nat, nat))
    requires Sound(w) && NoWrap(w) && Stale(w.shared, issue)
    ensures Misses(w, IdOf(issue))
  {
    assert !IsCurrent(w.shared.uses, IdOf(issue));
    NotCurrentMisses(w, IdOf(issue));
  }

  /** ... and an id whose slot was handed out again reads nothing and cannot be stored to. */
  lemma StaleIdMisses<A>(steps: seq<Step<A>>, issue: (nat, nat))
    requires Legal(steps) && NoWrap(After(steps)) && Stale(After(steps).shared, issue)
    ensures Misses(After(steps), IdOf(issue))
  {
    SoundRuns(steps);
    StaleMisses(After(steps), issue);
  }

  ghost predicate Reachable<A(!new)>(w: World<A>) {
    exists steps: seq<Step<A>> :: Legal(steps) && After(steps) == w
  }

  lemma ReachStep<A(!new)>(w: World<A>, step: Step<A>)
    requires Reachable(w) && Enabled(w, step)
    ensures Reachable(Apply(w, step))
  {
    var steps: seq<Step<A>> :| Legal(steps) && After(steps) == w;
    AppendStep(steps, step);
  }

  /** The issues of slot 0 up to its `n`-th reuse. */
  function IssuesOf(n: nat): seq<(nat, nat)> {
    seq(n + 1, k => (0, k))
  }

  /** The world of a run that uses one slot, `n` times again so far. */
  function OneSlot<A>(slot: Option<Entry<A>>, queue: seq<AssetIndex>, recycled: seq<AssetIndex>,
                      mid: multiset<AssetIndex>, unbuilt: multiset<AssetIndex>, handles: multiset<AssetIndex>,
                      drops: seq<AssetIndex>, n: nat, hand: Hand, log: seq<Event>): World<A>
  {
    World(Store(Table([slot], 0, Alloc(1, queue, recycled)), map[], log, map[]),
          Shared(mid, 0, unbuilt, handles, drops, [n], IssuesOf(n)), hand, {}, log, true)
  }

  /** The slot is handed back after `n` reuses. */
  function Rested<A>(n: nat, log: seq<Event>): World<A> {
    OneSlot(None, [AssetIndex(0, n % GENERATIONS)], [], multiset{}, multiset{}, multiset{}, [], n, Idle, log)
  }

  /** The slot is installed for its `n`-th reuse and about to get its handle. */
  function Renewed<A>(n: nat, log: seq<Event>): World<A> {
    var id := AssetIndex(0, n % GENERATIONS);
    OneSlot(Some(Entry(None, id.generation)), [], [], multiset{}, multiset{id}, multiset{}, [], n, Idle, log)
  }

  /** The only handle is gone and its drop event is queued. */
  function Dropped<A>(n: nat, log: seq<Event>): World<A> {
    var id := AssetIndex(0, n % GENERATIONS);
    OneSlot(Some(Entry(None, id.generation)), [], [], multiset{}, multiset{}, multiset{}, [id], n, Idle, log)
  }

  lemma RenewedDies<A(!new)>(n: nat, log: seq<Event>) returns (log': seq<Event>)
    requires Reachable(Renewed<A>(n, log))
    ensures Reachable(Rested<A>(n, log'))
  {
    var id := AssetIndex(0, n % GENERATIONS);
    var slot: Option<Entry<A>> := Some(Entry(None, id.generation));
    var none: multiset<AssetIndex> := multiset{};
    ReachStep(Renewed<A>(n, log), Thread(Build(id)));
    var built := OneSlot(slot, [], [], none, none, multiset{id}, [], n, Idle, log);
    assert Apply(Renewed<A>(n, log), Thread(Build(id))) == built;
    ReachStep(built, Thread(DropHandle(id)));
    assert Apply(built, Thread(DropHandle(id))) == Dropped(n, log);
    log' := DroppedDies<A>(n, log);
  }

  lemma DroppedDies<A(!new)>(n: nat, log: seq<Event>) returns (log': seq<Event>)
    requires Reachable<A>(Dropped(n, log))
    ensures Reachable(Rested<A>(n, log'))
  {
    ReachStep(Dropped<A>(n, log), Receive);
    assert Apply(Dropped<A>(n, log), Receive) == Held(Received(AssetIndex(0, n % GENERATIONS)), n, log);
    log' := ReceivedDies<A>(n, log);
  }

  /** The job holds the drop event, or the id it is about to recycle. */
  function Held<A>(hand: Hand, n: nat, log: seq<Event>): World<A> {
    OneSlot(Some(Entry(None, n % GENERATIONS)), [], [], multiset{}, multiset{}, multiset{}, [], n, hand, log)
  }

  lemma ReceivedDies<A(!new)>(n: nat, log: seq<Event>) returns (log': seq<Event>)
    requires Reachable<A>(Held(Received(AssetIndex(0, n % GENERATIONS)), n, log))
    ensures Reachable(Rested<A>(n, log'))
  {
    var id := AssetIndex(0, n % GENERATIONS);
    log' := log + [Unused(Index(id))];
    var received, dying := Held<A>(Received(id), n, log), Held<A>(Dying(id), n, log');
    ReachStep(received, Step.Count);
    assert Apply(received, Step.Count) == dying;
    ReachStep(dying, Retire);
    assert Apply(dying, Retire) == Rested(n, log');
  }

  lemma SlotPopped(queue: seq<AssetIndex>, sh: Shared, n: nat)
    requires queue == [AssetIndex(0, n % GENERATIONS)] && sh.mid == multiset{} && sh.uses == [n]
    requires sh.issued == IssuesOf(n)
    ensures ThreadEnabled(Alloc(1, queue, []), sh, ReservePop)
    ensures var id := AssetIndex(0, (n + 1) % GENERATIONS);
      ApplyThread(Alloc(1, queue, []), sh, ReservePop) ==
        (Alloc(1, [], []), sh.(mid := multiset{id}, uses := [n + 1], issued := IssuesOf(n + 1)))
  {
    assert Bump(queue[0]) == AssetIndex(0, (n + 1) % GENERATIONS);
    assert sh.issued + [(0, n + 1)] == IssuesOf(n + 1);
    assert sh.uses[0 := n + 1] == [n + 1];
    assert queue[1..] == [];
    assert multiset{} + multiset{Bump(queue[0])} == multiset{Bump(queue[0])};
  }

  lemma RestedRenews<A(!new)>(n: nat, log: seq<Event>)
    requires n > 0 && Reachable(Rested<A>(n - 1, log))
    ensures Reachable(Renewed<A>(n, log))
  {
    RestedPops<A>(n, log);
    ReachStep(Rested<A>(n - 1, log), Thread(ReservePop));
    PoppedRenews<A>(n, log);
  }

  /** The slot is popped for its `n`-th reuse. */
  function PoppedFor<A>(n: nat, log: seq<Event>): World<A> {
    OneSlot(None, [], [], multiset{AssetIndex(0, n % GENERATIONS)}, multiset{}, multiset{}, [], n, Idle, log)
  }

  lemma RestedPops<A>(n: nat, log: seq<Event>)
    requires n > 0
    ensures Enabled(Rested<A>(n - 1, log), Thread(ReservePop))
    ensures Apply(Rested<A>(n - 1, log), Thread(ReservePop)) == PoppedFor(n, log)
  {
    SlotPopped([AssetIndex(0, (n - 1) % GENERATIONS)], Rested<A>(n - 1, log).shared, n - 1);
  }

  lemma PoppedRenews<A(!new)>(n: nat, log: seq<Event>)
    requires Reachable<A>(PoppedFor(n, log))
    ensures Reachable(Renewed<A>(n, log))
  {
    var id := AssetIndex(0, n % GENERATIONS);
    var none: multiset<AssetIndex> := multiset{};
    var popped: World<A> := PoppedFor(n, log);
    ReachStep(popped, Thread(ReservePush(id)));
    var pushed: World<A> := OneSlot(None, [], [id], none, multiset{id}, none, [], n, Idle, log);
    assert Apply(popped, Thread(ReservePush(id))) == pushed;
    ReachStep(pushed, Install);
    assert Apply(pushed, Install) == Renewed(n, log);
  }

  lemma FirstUse<A(!new)>(n: nat)
    requires n == 0
    ensures Reachable(Renewed<A>(n, []))
  {
    assert Legal<A>([]) && After<A>([]) == Initial<A>();
    ReachStep(Initial<A>(), Thread(ReserveFresh));
    var reserved: World<A> := FirstReserved();
    ReachStep(reserved, Grow);
    FirstGrown<A>();
  }

  lemma FirstGrown<A>()
    ensures Apply(FirstReserved<A>(), Grow) == Renewed<A>(0, [])
  {
    assert Grown<A>([], 1) == [Some(Entry(None, 0))];
  }

  function FirstReserved<A>(): (w: World<A>)
    ensures w == Apply(Initial<A>(), Thread(ReserveFresh))
  {
    var id := AssetIndex(0, 0);
    World(Store(Table([], 0, Alloc(1, [], [])), map[], [], map[]),
          Shared(multiset{}, 0, multiset{id}, multiset{}, [], [0], IssuesOf(0)), Idle, {}, [], true)
  }

  lemma NextLife<A(!new)>(n: nat, log: seq<Event>) returns (log': seq<Event>)
    requires n > 0 && Reachable(Rested<A>(n - 1, log))
    ensures Reachable(Rested<A>(n, log'))
  {
    RestedRenews<A>(n, log);
    log' := RenewedDies<A>(n, log);
  }

  lemma FirstLife<A(!new)>(n: nat) returns (log: seq<Event>)
    requires n == 0
    ensures Reachable(Rested<A>(n, log))
  {
    FirstUse<A>(n);
    log := RenewedDies<A>(n, []);
  }

  lemma {:induction false} ReusedOften<A(!new)>(n: nat) returns (log: seq<Event>)
    ensures Reachable(Rested<A>(n, log))
  {
    if n == 0 {
      log := FirstLife<A>(n);
    } else {
      var before := ReusedOften<A>(n - 1);
      log := NextLife<A>(n, before);
    }
  }

  /** The bound is exact: some run with 2^32 reuses of one slot hands the same id out twice. */
  lemma IdIssuedTwiceAfterWrap<A(!new)>() returns (w: World<A>)
    ensures Reachable(w) && w.shared.uses == [GENERATIONS] && |w.shared.issued| == GENERATIONS + 1
    ensures IdOf(w.shared.issued[0]) == IdOf(w.shared.issued[GENERATIONS])
  {
    var log := ReusedOften<A>(GENERATIONS);
    w := Rested(GENERATIONS, log);
  }

  // ------------------------------------------------------------------------------------------
  // The event log
  // ------------------------------------------------------------------------------------------

  /** On runs without untracked removals, replaying the queued `Added` and `Removed` events gives
      exactly the ids the store contains; each `Added` is of an absent id, each `Modified` and
      `Removed` of a present one. */
  lemma LogDeterminesPresence<A>(steps: seq<Step<A>>, id: AssetId)
    requires Legal(steps) && After(steps).tracked
    ensures Replay(After(steps).log, id) <==> After(steps).store.Contains(id)
    ensures WellLogged(After(steps).log)
  {
    LoggedRuns(steps);
  }

  /** On those runs the ids of the change table after a drain are exactly the present ones. */
  lemma ChangeTableIsPresence<A>(steps: seq<Step<A>>, id: AssetId)
    requires Legal(steps) && Enabled(After(steps), Drain) && After(steps).tracked
    ensures var w := Apply(After(steps), Drain);
      w.store.events == [] && (id in w.keys <==> w.store.Contains(id))
  {
    LoggedRuns(steps);
    SoundRuns(steps);
    TabledStep(After(steps), Drain);
    assert TabledAt(Apply(After(steps), Drain), id);
  }

  /** What the log says about the end of one id. */
  ghost predicate EndsOnce(log: seq<Event>, id: AssetId) {
    && (forall j, k :: 0 <= j < k < |log| && log[j] == Unused(id) && log[k].id == id ==>
          k == j + 1 && log[k] == Event.Removed(id))
    && (forall j, k :: 0 <= j < k < |log| && log[j] == Unused(id) ==> log[k] != Unused(id))
  }

  /** While no generation came round, an id has exactly one `Unused` when its slot was handed back
      and none while it is live, and after the `Unused` comes at most one `Removed`, directly. */
  lemma UnusedExactlyOnce<A>(steps: seq<Step<A>>, id: AssetIndex)
    requires Legal(steps) && NoWrap(After(steps)) && After(steps).hand.Idle?
    ensures Unused(Index(id)) in After(steps).log <==> Spent(After(steps), id)
    ensures Live(After(steps), id) ==> !Spent(After(steps), id)
    ensures EndsOnce(After(steps).log, Index(id))
  {
    LoggedRuns(steps);
    LiveUnspent(After(steps), id);
  }

  lemma LiveUnspent<A>(w: World<A>, id: AssetIndex)
    requires NoWrap(w) && w.hand.Idle?
    ensures Live(w, id) ==> !Spent(w, id)
  {
  }

  // ------------------------------------------------------------------------------------------
  // The methods are runs
  // ------------------------------------------------------------------------------------------

  /** A slot that was just reserved is installed empty, so storing into it cannot fail and replaces
      nothing: what `Assets.Add` relies on. */
  lemma ReservedSlotAccepts<A>(w: World<A>)
    requires Sound(w)
    ensures var (alloc, id) := w.store.table.alloc.Reserve();
      var s := w.store.(table := w.store.table.(alloc := alloc));
      id.Some? ==> s.Ready() && s.Flushed().table.Hit(id.value) && s.Flushed().table.Get(id.value).None?
  {
    var alloc := w.store.table.alloc;
    if alloc.queue != [] {
      assert IsCurrent(w.shared.uses, alloc.queue[0]);
      RecycledAccepts(w);
    } else if alloc.next <= MAX_ASSET_INDEX {
      FreshAccepts(w);
    }
  }

  ghost predicate Accepting<A>(w: World<A>, id: AssetIndex) {
    w.store.Ready() && w.store.Flushed().table.Hit(id) && w.store.Flushed().table.Get(id).None?
  }

  lemma RecycledAccepts<A>(w: World<A>)
    requires Sound(w) && Enabled(w, Thread(ReservePop))
    ensures var (popped, id) := (Apply(w, Thread(ReservePop)), Bump(w.store.table.alloc.queue[0]));
      Enabled(popped, Thread(ReservePush(id))) && Accepting(Apply(popped, Thread(ReservePush(id))), id)
  {
    var queue := w.store.table.alloc.queue;
    var popped, id := Apply(w, Thread(ReservePop)), Bump(queue[0]);
    SoundStep(w, Thread(ReservePop));
    SoundStep(popped, Thread(ReservePush(id)));
    ReservedHits(w, Apply(popped, Thread(ReservePush(id))), id);
    QueuedIsEmpty(w.store.table, w.shared.mid, w.shared.over, w.shared.uses);
  }

  /** A slot that waits to be handed out again has no entry. */
  lemma QueuedIsEmpty<A>(t: Table<A>, mid: multiset<AssetIndex>, over: nat, uses: seq<nat>)
    requires Located(t, mid, over, uses) && t.alloc.queue != []
    ensures t.Get(Bump(t.alloc.queue[0])) == None
  {
    var id := t.alloc.queue[0];
    assert IsCurrent(uses, id);
    assert Places(t, mid, uses, id.index) == 1;
    CountPop(t.alloc.queue, id);
  }

  lemma FreshAccepts<A>(w: World<A>)
    requires Sound(w) && w.store.table.alloc.next <= MAX_ASSET_INDEX
    ensures Accepting(Apply(w, Thread(ReserveFresh)), AssetIndex(w.store.table.alloc.next, 0))
  {
    SoundStep(w, Thread(ReserveFresh));
    ReservedHits(w, Apply(w, Thread(ReserveFresh)), AssetIndex(w.store.table.alloc.next, 0));
  }

  lemma ReservedHits<A>(w: World<A>, w': World<A>, id: AssetIndex)
    requires Sound(w') && w'.shared.unbuilt[id] > 0 && w'.store.table.storage == w.store.table.storage
    ensures w'.store.Ready() && w'.store.table.Flush().Hit(id)
    ensures w'.store.table.Flush().Get(id) == w.store.table.Get(id)
  {
    assert Balanced(w'.store.table.alloc, w'.shared, w'.hand, w'.store.duplicates, id);
    FlushIsInvisible(w', id);
    ViewLookup(w'.store.table, id);
    ViewLookup(w'.store.table.Flush(), id);
  }

  lemma AppendStep<A>(steps: seq<Step<A>>, step: Step<A>)
    requires Legal(steps) && Enabled(After(steps), step)
    ensures Legal(steps + [step]) && After(steps + [step]) == Apply(After(steps), step)
  {
    assert (steps + [step])[..|steps|] == steps;
  }

  lemma {:induction false} InstallsAreARun<A>(steps: seq<Step<A>>) returns (done: seq<Step<A>>)
    requires Legal(steps)
    requires After(steps).store.table.Waiting()
    ensures Legal(done) && steps <= done
    ensures After(done) == WithTable(After(steps), After(steps).store.table.InstallAll())
    decreases |After(steps).store.table.alloc.recycled|
  {
    if After(steps).store.table.alloc.recycled == [] {
      done := steps;
    } else {
      AppendStep(steps, Install);
      done := InstallsAreARun(steps + [Install]);
    }
  }

  /** A whole flush is a resize followed by installs. */
  lemma FlushIsARun<A>(steps: seq<Step<A>>) returns (flushed: seq<Step<A>>)
    requires Legal(steps)
    ensures After(steps).store.Ready()
    ensures Legal(flushed) && steps <= flushed
    ensures After(flushed) == WithTable(After(steps), After(steps).store.table.Flush())
  {
    SoundRuns(steps);
    LocatedInstallable(After(steps).store.table, After(steps).shared);
    AppendStep(steps, Grow);
    flushed := InstallsAreARun(steps + [Grow]);
  }

  /** The store as an operation finds it: one that names a slot flushes first. */
  ghost function Entered<A>(s: Store<A>, key: AssetId): Store<A>
    requires s.Ready()
  {
    if key.Index? then s.Flushed() else s
  }

  /** A world whose store and shared state moved on, with what that queued added to the log. */
  function Moved<A>(w: World<A>, store: Store<A>, shared: Shared): World<A> {
    w.(store := store, shared := shared, log := w.log + NewEvents(w.store, store))
  }

  function NewEvents<A>(before: Store<A>, after: Store<A>): seq<Event> {
    if |before.events| <= |after.events| then after.events[|before.events|..] else []
  }

  /** The run goes on from `steps` to `w`. */
  ghost predicate Leads<A>(steps: seq<Step<A>>, done: seq<Step<A>>, w: World<A>) {
    Legal(done) && steps <= done && After(done) == w
  }

  lemma LeadsNext<A>(steps: seq<Step<A>>, done: seq<Step<A>>, step: Step<A>)
    requires Legal(done) && steps <= done && Enabled(After(done), step)
    ensures Leads(steps, done + [step], Apply(After(done), step))
  {
    AppendStep(done, step);
  }

  lemma LeadsOn<A>(steps: seq<Step<A>>, mid: seq<Step<A>>, done: seq<Step<A>>, u: World<A>, w: World<A>)
    requires Leads(steps, mid, u) && Leads(mid, done, w)
    ensures Leads(steps, done, w)
  {
  }

  /** Moving on twice is moving on once. */
  lemma MovedTwice<A>(w: World<A>, store: Store<A>, shared: Shared, store': Store<A>, shared': Shared)
    requires w.store.events <= store.events <= store'.events
    ensures Moved(Moved(w, store, shared), store', shared') == Moved(w, store', shared')
  {
    var n, m := |w.store.events|, |store.events|;
    assert store'.events[..m] == store.events;
    assert w.log + store.events[n..] + store'.events[m..] == w.log + store'.events[n..];
  }

  lemma EnterIsARun<A>(steps: seq<Step<A>>, key: AssetId) returns (done: seq<Step<A>>)
    requires Legal(steps)
    ensures After(steps).store.Ready()
    ensures Leads(steps, done, After(steps).(store := Entered(After(steps).store, key)))
  {
    done := FlushIsARun(steps);
    if key.Keyed? {
      done := steps;
    }
  }

  /** What `Assets.Insert`, `Remove` and `RemoveUntracked` promise is what some run does that goes on from
      any given one: the rest of the world is as it was, and the log grows by what they queue. */
  lemma OperationIsARun<A>(steps: seq<Step<A>>, op: StoreStep<A>) returns (done: seq<Step<A>>)
    requires Legal(steps) && After(steps).hand.Idle? && !op.Touch?
    ensures After(steps).store.Ready()
    ensures var w := After(steps);
      Leads(steps, done, Moved(w, ApplyStore(Entered(w.store, op.key), op), w.shared).(
                           tracked := w.tracked && !op.RemoveUntracked?))
  {
    var entered := EnterIsARun(steps, op.key);
    LeadsNext(steps, entered, Use(op));
    StoreQueues(After(entered), op);
    done := entered + [Use(op)];
  }

  lemma StoreQueues<A>(w: World<A>, op: StoreStep<A>)
    requires Enabled(w, Use(op))
    ensures NewEvents(w.store, Apply(w, Use(op)).store) == Emits(w, Use(op))
  {
    EmitsIsQueued(w, Use(op));
  }

  /** So is what `Assets.GetOrInsert` promises ... */
  lemma GetOrInsertIsARun<A>(steps: seq<Step<A>>, key: AssetId, built: A) returns (done: seq<Step<A>>)
    requires Legal(steps) && After(steps).hand.Idle?
    ensures After(steps).store.Ready()
    ensures var (w, s) := (After(steps), Entered(After(steps).store, key));
      Leads(steps, done, Moved(w, if s.Accepts(key) && !s.Contains(key) then s.Insert(key, built) else s, w.shared))
  {
    done := EnterIsARun(steps, key);
    if After(done).store.Accepts(key) && !After(done).store.Contains(key) {
      LeadsNext(steps, done, Use(Insert(key, built)));
      StoreQueues(After(done), Insert(key, built));
      done := done + [Use(Insert(key, built))];
    }
  }

  /** ... and a guard that was used to overwrite a stored value ... */
  lemma UseGuardIsARun<A>(steps: seq<Step<A>>, key: AssetId, asset: A) returns (done: seq<Step<A>>)
    requires Legal(steps) && After(steps).hand.Idle? && After(steps).store.Contains(key)
    ensures var w := After(steps);
      Leads(steps, done, Moved(w, w.store.Overwrite(key, asset), w.shared))
  {
    LeadsNext(steps, steps, Use(Touch(key, asset)));
    done := steps + [Use(Touch(key, asset))];
  }

  /** ... and upgrading an id that was handed out at some time, which may add a handle. */
  lemma ResolveHandleIsARun<A>(steps: seq<Step<A>>, key: AssetId) returns (done: seq<Step<A>>)
    requires Legal(steps) && After(steps).hand.Idle? && (key.Index? ==> key.index.index < |After(steps).shared.uses|)
    ensures var (w, (store, r)) := (After(steps), After(steps).store.ResolveHandle(key));
      Leads(steps, done, Moved(w, store, if r.StrongHandle? then WithHandle(w.shared, r.index) else w.shared))
  {
    LeadsNext(steps, steps, Resolve(key));
    done := steps + [Resolve(key)];
  }

  /** What an undisturbed reservation does to the history: the id waits for its handle. */
  function Reserved(alloc: Alloc, sh: Shared): Shared {
    match alloc.Reserve().1
    case None => sh
    case Some(id) =>
      if alloc.queue == [] then
        sh.(unbuilt := sh.unbuilt + multiset{id}, uses := sh.uses + [0], issued := sh.issued + [(id.index, 0)])
      else if id.index < |sh.uses| then
        var used := sh.uses[id.index] + 1;
        sh.(unbuilt := sh.unbuilt + multiset{id}, uses := sh.uses[id.index := used],
            issued := sh.issued + [(id.index, used)])
      else sh
  }

  /** A reservation with nothing in between: the id it gives waits for its handle. */
  lemma ReserveIsARun<A>(steps: seq<Step<A>>) returns (done: seq<Step<A>>)
    requires Legal(steps)
    ensures var (w, alloc) := (After(steps), After(steps).store.table.alloc);
      Leads(steps, done, WithTable(w, w.store.table.(alloc := alloc.Reserve().0)).(shared := Reserved(alloc, w.shared)))
  {
    SoundRuns(steps);
    var alloc := After(steps).store.table.alloc;
    if alloc.queue != [] {
      assert IsCurrent(After(steps).shared.uses, alloc.queue[0]);
      done := RecycledIsARun(steps);
    } else {
      done := FreshIsARun(steps);
    }
  }

  lemma RecycledIsARun<A>(steps: seq<Step<A>>) returns (done: seq<Step<A>>)
    requires Legal(steps) && Enabled(After(steps), Thread(ReservePop))
    ensures var (w, alloc) := (After(steps), After(steps).store.table.alloc);
      Leads(steps, done, WithTable(w, w.store.table.(alloc := alloc.Reserve().0)).(shared := Reserved(alloc, w.shared)))
  {
    var w := After(steps);
    var id := Bump(w.store.table.alloc.queue[0]);
    LeadsNext(steps, steps, Thread(ReservePop));
    RecycledWorld(w, id);
    LeadsNext(steps, steps + [Thread(ReservePop)], Thread(ReservePush(id)));
    done := steps + [Thread(ReservePop)] + [Thread(ReservePush(id))];
  }

  lemma RecycledWorld<A>(w: World<A>, id: AssetIndex)
    requires Enabled(w, Thread(ReservePop)) && id == Bump(w.store.table.alloc.queue[0])
    ensures var (popped, alloc) := (Apply(w, Thread(ReservePop)), w.store.table.alloc);
      && Enabled(popped, Thread(ReservePush(id)))
      && Apply(popped, Thread(ReservePush(id))) ==
           WithTable(w, w.store.table.(alloc := alloc.Reserve().0)).(shared := Reserved(alloc, w.shared))
  {
    RecycledShared(w.store.table.alloc, w.shared, id);
  }

  lemma RecycledShared(alloc: Alloc, sh: Shared, id: AssetIndex)
    requires ThreadEnabled(alloc, sh, ReservePop) && id == Bump(alloc.queue[0])
    ensures var (alloc', sh') := ApplyThread(alloc, sh, ReservePop);
      && ThreadEnabled(alloc', sh', ReservePush(id))
      && ApplyThread(alloc', sh', ReservePush(id)) == (alloc.Reserve().0, Reserved(alloc, sh))
  {
    assert sh.mid + multiset{id} - multiset{id} == sh.mid;
  }

  lemma FreshIsARun<A>(steps: seq<Step<A>>) returns (done: seq<Step<A>>)
    requires Legal(steps) && After(steps).store.table.alloc.queue == []
    ensures var (w, alloc) := (After(steps), After(steps).store.table.alloc);
      Leads(steps, done, WithTable(w, w.store.table.(alloc := alloc.Reserve().0)).(shared := Reserved(alloc, w.shared)))
  {
    LeadsNext(steps, steps, Thread(ReserveFresh));
    done := steps + [Thread(ReserveFresh)];
    if After(steps).store.table.alloc.next > MAX_ASSET_INDEX {
      LeadsNext(steps, done, Thread(ReserveGiveUp));
      done := done + [Thread(ReserveGiveUp)];
    }
  }

  /** Adding a value, as `Assets.Add` promises it, is what some run does: the slot takes the value,
      nothing is replaced, and its first handle is there. */
  lemma AddIsARun<A>(steps: seq<Step<A>>, asset: A) returns (done: seq<Step<A>>)
    requires Legal(steps) && After(steps).hand.Idle?
    ensures var (w, (alloc, id)) := (After(steps), After(steps).store.table.alloc.Reserve());
      var s := w.store.(table := w.store.table.(alloc := alloc));
      if id.None? then Leads(steps, done, w.(store := s))
      else
        && s.Ready() && s.Flushed().table.Hit(id.value)
        && Leads(steps, done,
                 Moved(w, s.Flushed().Put(Index(id.value), asset).Log(Added(Index(id.value))),
                       WithHandle(Reserved(w.store.table.alloc, w.shared).(unbuilt := w.shared.unbuilt), id.value)))
  {
    SoundRuns(steps);
    ReservedSlotAccepts(After(steps));
    var (w, (alloc, id)) := (After(steps), After(steps).store.table.alloc.Reserve());
    done := ReserveIsARun(steps);
    if id.Some? {
      var reserved := Reserved(w.store.table.alloc, w.shared);
      ReservedWaits(w, id.value);
      LeadsNext(steps, done, Thread(Build(id.value)));
      var built := done + [Thread(Build(id.value))];
      BuiltWorld(After(done), id.value, w.shared.unbuilt);
      done := OperationIsARun(built, Insert(Index(id.value), asset));
      LeadsOn(steps, built, done, After(built), After(done));
      AddedWorld(w, w.store.(table := w.store.table.(alloc := alloc)), id.value, asset, After(built).shared);
    }
  }

  lemma ReservedWaits<A>(w: World<A>, id: AssetIndex)
    requires Sound(w) && w.store.table.alloc.Reserve().1 == Some(id)
    ensures Reserved(w.store.table.alloc, w.shared).unbuilt == w.shared.unbuilt + multiset{id}
  {
    var queue := w.store.table.alloc.queue;
    assert queue != [] ==> IsCurrent(w.shared.uses, queue[0]);
  }

  /** A reserved id gets its handle. */
  lemma BuiltWorld<A>(w: World<A>, id: AssetIndex, unbuilt: multiset<AssetIndex>)
    requires w.shared.unbuilt == unbuilt + multiset{id}
    ensures Enabled(w, Thread(Build(id)))
    ensures Apply(w, Thread(Build(id))) == w.(shared := WithHandle(w.shared.(unbuilt := unbuilt), id))
  {
    assert unbuilt + multiset{id} - multiset{id} == unbuilt;
    assert w.store.(table := w.store.table.(alloc := w.store.table.alloc)) == w.store;
  }

  lemma AddedWorld<A>(w: World<A>, s: Store<A>, id: AssetIndex, asset: A, shared: Shared)
    requires s.Ready() && s.Flushed().table.Hit(id) && s.Flushed().table.Get(id).None? && s.events == w.store.events
    ensures var (u, key) := (w.(store := s, shared := shared), Index(id));
      Moved(u, ApplyStore(Entered(s, key), Insert(key, asset)), shared) ==
        Moved(w, s.Flushed().Put(key, asset).Log(Added(key)), shared)
  {
  }

  /** Processing one drop event, as `Assets.RemoveDropped` promises it, is what some run does. */
  lemma RemoveDroppedIsARun<A>(steps: seq<Step<A>>) returns (done: seq<Step<A>>)
    requires Legal(steps) && After(steps).hand.Received?
    ensures After(steps).store.Ready()
    ensures var w := After(steps);
      Leads(steps, done, Moved(w, w.store.RemoveDropped(w.hand.id), w.shared).(hand := Idle))
  {
    SoundRuns(steps);
    LocatedInstallable(After(steps).store.table, After(steps).shared);
    LeadsNext(steps, steps, Step.Count);
    var counted := steps + [Step.Count];
    DroppedWorld(After(steps));
    if After(counted).hand.Idle? {
      return counted;
    }
    done := RetireIsARun(counted);
    LeadsOn(steps, counted, done, After(counted), After(done));
  }

  /** The last handle's slot, flushed, goes back. */
  lemma RetireIsARun<A>(steps: seq<Step<A>>) returns (done: seq<Step<A>>)
    requires Legal(steps) && After(steps).hand.Dying?
    ensures After(steps).store.Ready()
    ensures var w := After(steps); Leads(steps, done, RetiredWorld(w, w.hand.id))
  {
    SoundRuns(steps);
    var w := After(steps);
    assert Balanced(w.store.table.alloc, w.shared, w.hand, w.store.duplicates, w.hand.id);
    FlushIsInvisible(w, w.hand.id);
    var flushed := FlushIsARun(steps);
    LeadsNext(steps, flushed, Retire);
    RetiredIs(w, WithTable(w, w.store.table.Flush()), w.hand.id);
    done := flushed + [Retire];
  }

  ghost function RetiredWorld<A>(w: World<A>, id: AssetIndex): World<A>
    requires w.store.Ready()
  {
    Moved(w, w.store.Flushed().Retire(id), w.shared).(hand := Idle)
  }

  lemma RetiredIs<A>(w: World<A>, flushed: World<A>, id: AssetIndex)
    requires w.store.Ready() && flushed == WithTable(w, w.store.table.Flush()) && flushed.hand == Dying(id)
    requires Enabled(flushed, Retire)
    ensures Apply(flushed, Retire) == RetiredWorld(w, id)
  {
    var store := flushed.store.Retire(id);
    assert store.events == w.store.events + Emits(flushed, Retire);
    assert NewEvents(w.store, store) == Emits(flushed, Retire);
  }

  lemma DroppedWorld<A>(w: World<A>)
    requires w.store.Ready() && w.hand.Received?
    ensures var u := Apply(w, Step.Count);
      var moved := Moved(w, w.store.RemoveDropped(w.hand.id), w.shared).(hand := Idle);
      && u.store.Ready()
      && (u.hand.Idle? ==> u == moved)
      && (u.hand.Dying? ==> RetiredWorld(u, u.hand.id) == moved)
  {
    var u, id := Apply(w, Step.Count), w.hand.id;
    if u.hand.Dying? {
      var store := u.store.Flushed().Retire(id);
      RetireQueues(u.store.Flushed(), id);
      MovedTwice(w, u.store, w.shared, store, w.shared);
      assert Moved(w, u.store, w.shared).(hand := Dying(id)) == u;
    }
  }

  lemma RetireQueues<A>(store: Store<A>, id: AssetIndex)
    ensures store.events <= store.Retire(id).events
  {
  }

  lemma {:induction false} ProcessQueues<A>(store: Store<A>, drops: seq<AssetIndex>)
    requires store.Ready()
    ensures store.events <= ProcessDrops(store, drops).events
    decreases |drops|
  {
    if drops != [] {
      ReadyAfterDrop(store, drops[0]);
      DropQueues(store, drops[0]);
      ProcessQueues(store.RemoveDropped(drops[0]), drops[1..]);
    }
  }

  lemma DropQueues<A>(store: Store<A>, id: AssetIndex)
    requires store.Ready()
    ensures store.events <= store.RemoveDropped(id).events
  {
  }

  /** Draining the drop events, as `Assets.TrackAssets` promises it, is what some run does. */
  lemma {:induction false} TrackAssetsIsARun<A>(steps: seq<Step<A>>) returns (done: seq<Step<A>>)
    requires Legal(steps) && After(steps).hand.Idle?
    ensures After(steps).store.Ready()
    ensures Leads(steps, done, DrainedWorld(After(steps)))
    decreases |After(steps).shared.drops|
  {
    var entered := FlushIsARun(steps);
    if After(steps).shared.drops == [] {
      done := steps;
    } else {
      LeadsNext(steps, steps, Receive);
      var received := steps + [Receive];
      var dropped := RemoveDroppedIsARun(received);
      LeadsOn(steps, received, dropped, After(received), After(dropped));
      DrainedNext(After(steps), After(received), After(dropped));
      done := TrackAssetsIsARun(dropped);
      LeadsOn(steps, dropped, done, After(dropped), After(done));
    }
  }

  /** The world with all queued drop events processed. */
  ghost function DrainedWorld<A>(w: World<A>): World<A>
    requires w.store.Ready()
  {
    Moved(w, ProcessDrops(w.store, w.shared.drops), w.shared.(drops := []))
  }

  lemma DrainedNext<A>(w: World<A>, received: World<A>, dropped: World<A>)
    requires w.store.Ready() && w.hand.Idle? && w.shared.drops != [] && received == Apply(w, Receive)
    requires dropped == Moved(received, received.store.RemoveDropped(received.hand.id), received.shared).(hand := Idle)
    ensures dropped.store.Ready() && |dropped.shared.drops| < |w.shared.drops| && dropped.hand.Idle?
    ensures DrainedWorld(dropped) == DrainedWorld(w)
  {
    var drops := w.shared.drops;
    var store := w.store.RemoveDropped(drops[0]);
    ReadyAfterDrop(w.store, drops[0]);
    DropQueues(w.store, drops[0]);
    ProcessQueues(store, drops[1..]);
    assert dropped == Moved(w, store, received.shared);
    MovedTwice(w, store, received.shared, ProcessDrops(store, drops[1..]), w.shared.(drops := []));
  }
}
