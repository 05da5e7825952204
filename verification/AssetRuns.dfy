/** Every run of the asset store: threads that reserve slots and drop handles at any moment, and
    one holder at a time of exclusive access, which flushes, stores, removes, upgrades ids, and
    drains drop events and change events
    (crates/zlim-asset/src/assets.rs, handle.rs and ident.rs together). */
module AssetRuns {
  import opened Wrappers
  import opened Ident
  import opened AssetTables
  import opened AssetStore

  /** What the drop-event job holds: nothing, an event taken from the channel, or the id of a last
      handle whose slot it is about to recycle. */
  datatype Hand = Idle | Received(id: AssetIndex) | Dying(id: AssetIndex)

  /** What all threads share besides the allocator.

      `mid` holds ids popped and bumped by a `reserve` that has not pushed them yet, `over` counts
      the `reserve` calls between an overflowing increment and its undoing, `unbuilt` the reserved
      ids whose handle is still to be built, `handles` the live strong-handle objects, `drops` the
      posted drop events. The rest is history: `uses[i]` is how often slot `i` was handed out again
      and `issued` lists the (slot, use) pairs handed out. */
  datatype Shared = Shared(
    mid: multiset<AssetIndex>,
    over: nat,
    unbuilt: multiset<AssetIndex>,
    handles: multiset<AssetIndex>,
    drops: seq<AssetIndex>,
    uses: seq<nat>,
    issued: seq<(nat, nat)>)

  /** The store, the threads around it, the drop-event job, and the ids of the change table. `log`
      is every event ever queued, and `tracked` says that no untracked removal has happened. */
  datatype World<+A> = World(
    store: Store<A>,
    shared: Shared,
    hand: Hand,
    keys: set<AssetId>,
    log: seq<Event>,
    tracked: bool)

  function Initial<A>(): World<A> {
    World(Store(Table([], 0, Alloc(0, [], [])), map[], [], map[]),
          Shared(multiset{}, 0, multiset{}, multiset{}, [], [], []), Idle, {}, [], true)
  }

  /** What any thread can do at any moment. */
  datatype ThreadStep =
    | ReservePop                              // `reserve` pops a queued slot and bumps it
    | ReservePush(id: AssetIndex)             // ... and pushes it for the next flush
    | ReserveFresh                            // `reserve` increments the counter
    | ReserveGiveUp                           // ... and undoes that before it panics
    | Build(id: AssetIndex)                   // a reserved id gets its handle
    | DropHandle(id: AssetIndex)              // a strong handle dies

  /** What the holder of the storage does to it. */
  datatype StoreStep<+A> =
    | Insert(key: AssetId, asset: A)
    | Remove(key: AssetId)
    | RemoveUntracked(key: AssetId)
    | Touch(key: AssetId, asset: A)           // a value is written through a guard, which is dropped

  datatype Step<+A> =
    | Thread(thread: ThreadStep)
    | Grow                                    // a flush resizes
    | Install                                 // a flush installs one recycled slot
    | Use(use: StoreStep<A>)
    | Resolve(key: AssetId)                   // an id is upgraded to a handle
    | Drain                                   // queued events reach the change table
    | Receive                                 // the job takes a drop event
    | Count                                   // ... and consults the duplicate counter
    | Retire                                  // ... and, flushed, recycles the slot

  ghost predicate ThreadEnabled(alloc: Alloc, sh: Shared, step: ThreadStep) {
    match step
    // a queued slot was handed out before (`Partition`), so the second conjunct never bites
    case ReservePop => alloc.queue != [] && alloc.queue[0].index < |sh.uses|
    case ReservePush(id) => id in sh.mid
    case ReserveFresh => true
    case ReserveGiveUp => sh.over > 0 && alloc.next > 0
    case Build(id) => id in sh.unbuilt
    case DropHandle(id) => id in sh.handles
  }

  ghost function ApplyThread(alloc: Alloc, sh: Shared, step: ThreadStep): (Alloc, Shared)
    requires ThreadEnabled(alloc, sh, step)
  {
    match step
    case ReservePop =>
      var (alloc', id) := alloc.PopRecycled();
      var used := sh.uses[id.index] + 1;
      (alloc', sh.(mid := sh.mid + multiset{id}, uses := sh.uses[id.index := used],
                   issued := sh.issued + [(id.index, used)]))
    case ReservePush(id) =>
      (alloc.PushRecycled(id), sh.(mid := sh.mid - multiset{id}, unbuilt := sh.unbuilt + multiset{id}))
    case ReserveFresh =>
      var (alloc', index) := alloc.TakeFresh();
      if index > MAX_ASSET_INDEX then (alloc', sh.(over := sh.over + 1))
      else (alloc', sh.(unbuilt := sh.unbuilt + multiset{AssetIndex(index, 0)},
                        uses := sh.uses + [0], issued := sh.issued + [(index, 0)]))
    case ReserveGiveUp => (alloc.GiveBack(), sh.(over := sh.over - 1))
    case Build(id) => (alloc, sh.(unbuilt := sh.unbuilt - multiset{id}, handles := sh.handles + multiset{id}))
    case DropHandle(id) => (alloc, sh.(handles := sh.handles - multiset{id}, drops := sh.drops + [id]))
  }

  predicate StoreEnabled<A>(store: Store<A>, step: StoreStep<A>) {
    step.Touch? ==> store.Contains(step.key)
  }

  function ApplyStore<A>(store: Store<A>, step: StoreStep<A>): Store<A> {
    match step
    case Insert(key, asset) => if store.Accepts(key) then store.Insert(key, asset) else store
    case Remove(key) => store.Remove(key)
    case RemoveUntracked(key) => store.RemoveUntracked(key)
    case Touch(key, asset) => if store.Contains(key) then store.Overwrite(key, asset) else store
  }

  ghost predicate Enabled<A>(w: World<A>, step: Step<A>) {
    match step
    case Thread(thread) => ThreadEnabled(w.store.table.alloc, w.shared, thread)
    case Grow => true
    case Install => w.store.table.alloc.recycled != [] &&
      w.store.table.alloc.recycled[0].index < |w.store.table.storage|
    case Use(use) => w.hand.Idle? && StoreEnabled(w.store, use)
    // ids are not made up: the slot was handed out at some time
    case Resolve(key) => w.hand.Idle? && (key.Index? ==> key.index.index < |w.shared.uses|)
    case Drain => w.hand.Idle?
    case Receive => w.hand.Idle? && w.shared.drops != []
    case Count => w.hand.Received?
    case Retire => w.hand.Dying? && FlushedFor(w.store.table, w.hand.id)
  }

  /** What a completed flush leaves behind for an id reserved before it began. */
  predicate FlushedFor<A>(t: Table<A>, id: AssetIndex) {
    id.index < |t.storage| && id !in t.alloc.recycled
  }

  function WithTable<A>(w: World<A>, table: Table<A>): World<A> {
    w.(store := w.store.(table := table))
  }

  /** The events one step queues. */
  function Emits<A>(w: World<A>, step: Step<A>): seq<Event> {
    match step
    case Use(Insert(key, _)) =>
      if !w.store.Accepts(key) then [] else if w.store.Contains(key) then [Modified(key)] else [Added(key)]
    case Use(Remove(key)) => if w.store.Contains(key) then [Event.Removed(key)] else []
    case Use(Touch(key, _)) => if w.store.Contains(key) then [Modified(key)] else []
    case Count => if w.hand.Received? && w.store.CountDrop(w.hand.id).1 then [Unused(Index(w.hand.id))] else []
    case Retire =>
      if w.hand.Dying? && w.store.Contains(Index(w.hand.id)) then [Event.Removed(Index(w.hand.id))] else []
    case _ => []
  }

  ghost function Apply<A>(w: World<A>, step: Step<A>): World<A>
    requires Enabled(w, step)
  {
    var log := w.log + Emits(w, step);
    match step
    case Thread(thread) =>
      var (alloc, sh) := ApplyThread(w.store.table.alloc, w.shared, thread);
      WithTable(w, w.store.table.(alloc := alloc)).(shared := sh)
    case Grow => WithTable(w, w.store.table.Grow())
    case Install => WithTable(w, w.store.table.Install())
    case Use(use) => w.(store := ApplyStore(w.store, use), log := log, tracked := w.tracked && !use.RemoveUntracked?)
    case Resolve(key) =>
      var (store, r) := w.store.ResolveHandle(key);
      w.(store := store, shared := if r.StrongHandle? then WithHandle(w.shared, r.index) else w.shared)
    case Drain => w.(keys := DrainInto(w.keys, w.store.events), store := w.store.(events := []))
    case Receive => w.(hand := Received(w.shared.drops[0]), shared := w.shared.(drops := w.shared.drops[1..]))
    case Count =>
      var (store, last) := w.store.CountDrop(w.hand.id);
      w.(store := store, log := log, hand := if last then Dying(w.hand.id) else Idle)
    case Retire => w.(store := w.store.Retire(w.hand.id), log := log, hand := Idle)
  }

  function WithHandle(sh: Shared, id: AssetIndex): Shared {
    sh.(handles := sh.handles + multiset{id})
  }

  /** The log is what the store queues. */
  lemma EmitsIsQueued<A>(w: World<A>, step: Step<A>)
    requires Enabled(w, step)
    ensures Apply(w, step).log == w.log + Emits(w, step)
    ensures !step.Drain? ==> Apply(w, step).store.events == w.store.events + Emits(w, step)
  {
  }

  /** What draining queued events does to the keys of the change table. */
  function DrainInto(keys: set<AssetId>, events: seq<Event>): set<AssetId>
    decreases |events|
  {
    if events == [] then keys
    else
      var before := DrainInto(keys, events[..|events| - 1]);
      match events[|events| - 1]
      case Added(id) => before + {id}
      case Modified(id) => before + {id}
      case Removed(id) => before - {id}
      case Unused(id) => before - {id}
  }

  ghost predicate Legal<A>(steps: seq<Step<A>>)
    decreases |steps|, 0
  {
    steps != [] ==>
      var before := steps[..|steps| - 1];
      Legal(before) && Enabled(After(before), steps[|steps| - 1])
  }

  /** The world a run ends in. */
  ghost function After<A>(steps: seq<Step<A>>): World<A>
    requires Legal(steps)
    decreases |steps|, 1
  {
    if steps == [] then Initial()
    else Apply(After(steps[..|steps| - 1]), steps[|steps| - 1])
  }

  // ------------------------------------------------------------------------------------------
  // Where a slot is
  // ------------------------------------------------------------------------------------------

  /** The one id under which slot `i` is currently known. */
  function Current(uses: seq<nat>, i: nat): AssetIndex
    requires i < |uses|
  {
    AssetIndex(i, uses[i] % GENERATIONS)
  }

  ghost predicate IsCurrent(uses: seq<nat>, id: AssetIndex) {
    id.index < |uses| && id == Current(uses, id.index)
  }

  ghost predicate AllCurrent(uses: seq<nat>, ids: seq<AssetIndex>) {
    forall k :: 0 <= k < |ids| ==> IsCurrent(uses, ids[k])
  }

  /** 1 when slot `i` is in the table, or beyond what it has grown to; 0 when it was handed back. */
  function InTable<A>(storage: Storage<A>, i: nat): nat {
    if i < |storage| && storage[i].None? then 0 else 1
  }

  ghost function Times(ids: seq<AssetIndex>, id: AssetIndex): nat {
    multiset(ids)[id]
  }

  /** Table entries carry their slot's current generation, and a slot the table has not grown to
      was never handed out again. */
  ghost predicate TableCurrent<A>(storage: Storage<A>, uses: seq<nat>) {
    && (forall i :: 0 <= i < |storage| && storage[i].Some? && i < |uses| ==>
          storage[i].value.generation == Current(uses, i).generation)
    && (forall i :: |uses| <= i < |storage| ==> storage[i].Some?)
    && (forall i :: |storage| <= i < |uses| ==> uses[i] == 0)
  }

  /** In how many of the four places slot `i` is. */
  ghost function Places<A>(t: Table<A>, mid: multiset<AssetIndex>, uses: seq<nat>, i: nat): nat
    requires i < |uses|
  {
    var id := Current(uses, i);
    Times(t.alloc.queue, id) + Times(t.alloc.recycled, id) + mid[id] + InTable(t.storage, i)
  }

  ghost predicate Bounds<A>(t: Table<A>, over: nat, uses: seq<nat>) {
    && t.alloc.next == |uses| + over
    && |uses| <= MAX_ASSET_INDEX + 1
    && (over > 0 || |t.storage| > |uses| ==> |uses| == MAX_ASSET_INDEX + 1)
  }

  ghost predicate Located<A>(t: Table<A>, mid: multiset<AssetIndex>, over: nat, uses: seq<nat>) {
    && Bounds(t, over, uses)
    && AllCurrent(uses, t.alloc.queue)
    && AllCurrent(uses, t.alloc.recycled)
    && (forall id :: id in mid ==> IsCurrent(uses, id))
    && TableCurrent(t.storage, uses)
    && (forall i :: 0 <= i < |uses| ==> Places(t, mid, uses, i) == 1)
  }

  /** Every slot handed out so far is in exactly one place, under its current id. */
  ghost predicate Partition<A>(w: World<A>) {
    Located(w.store.table, w.shared.mid, w.shared.over, w.shared.uses)
  }

  lemma CountAppend(ids: seq<AssetIndex>, x: AssetIndex, id: AssetIndex)
    ensures Times(ids + [x], id) == Times(ids, id) + (if id == x then 1 else 0)
  {
  }

  lemma CountPop(ids: seq<AssetIndex>, id: AssetIndex)
    requires ids != []
    ensures Times(ids, id) == Times(ids[1..], id) + (if id == ids[0] then 1 else 0)
  {
    assert ids == [ids[0]] + ids[1..];
  }

  /** An id that is not current is nowhere. */
  lemma NotCounted(uses: seq<nat>, ids: seq<AssetIndex>, id: AssetIndex)
    requires AllCurrent(uses, ids) && !IsCurrent(uses, id)
    ensures Times(ids, id) == 0
  {
    assert id !in ids;
  }

  /** `id` is the slot at the front of the queue, popped and bumped. */
  ghost predicate Popped<A>(t: Table<A>, t': Table<A>, uses: seq<nat>, uses': seq<nat>, id: AssetIndex) {
    && t.alloc.queue != [] && IsCurrent(uses, t.alloc.queue[0])
    && (t'.alloc, id) == t.alloc.PopRecycled() && t'.storage == t.storage
    && uses' == uses[id.index := uses[id.index] + 1]
  }

  lemma PopKeeps<A>(t: Table<A>, mid: multiset<AssetIndex>, over: nat, uses: seq<nat>)
    requires Located(t, mid, over, uses) && t.alloc.queue != [] && t.alloc.queue[0].index < |uses|
    ensures var (alloc, id) := t.alloc.PopRecycled();
      Located(t.(alloc := alloc), mid + multiset{id}, over, uses[id.index := uses[id.index] + 1])
  {
    var (alloc, id) := t.alloc.PopRecycled();
    PoppedKeeps(t, t.(alloc := alloc), mid, over, uses, uses[id.index := uses[id.index] + 1], id);
  }

  lemma PoppedKeeps<A>(t: Table<A>, t': Table<A>, mid: multiset<AssetIndex>, over: nat, uses: seq<nat>, uses': seq<nat>,
                       id: AssetIndex)
    requires Located(t, mid, over, uses) && Popped(t, t', uses, uses', id)
    ensures Located(t', mid + multiset{id}, over, uses')
  {
    forall i | 0 <= i < |uses'| ensures Places(t', mid + multiset{id}, uses', i) == 1 {
      assert Places(t, mid, uses, i) == 1;
      PoppedPlaces(t, t', mid, uses, uses', id, i);
    }
    assert Places(t, mid, uses, id.index) == 1;
    PoppedQueues(t, t', mid, uses, uses', id);
    PoppedMid(t, t', mid, uses, uses', id);
    PoppedTable(t, t', uses, uses', id);
  }

  lemma PoppedQueues<A>(t: Table<A>, t': Table<A>, mid: multiset<AssetIndex>, uses: seq<nat>, uses': seq<nat>,
                        id: AssetIndex)
    requires Popped(t, t', uses, uses', id) && Places(t, mid, uses, id.index) == 1
    requires AllCurrent(uses, t.alloc.queue) && AllCurrent(uses, t.alloc.recycled)
    ensures AllCurrent(uses', t'.alloc.queue) && AllCurrent(uses', t'.alloc.recycled)
    ensures mid[Current(uses, id.index)] == 0 && InTable(t.storage, id.index) == 0
  {
    CountPop(t.alloc.queue, t.alloc.queue[0]);
    StillCurrent(uses, t'.alloc.queue, id.index);
    StillCurrent(uses, t.alloc.recycled, id.index);
  }

  lemma PoppedMid<A>(t: Table<A>, t': Table<A>, mid: multiset<AssetIndex>, uses: seq<nat>, uses': seq<nat>,
                     id: AssetIndex)
    requires Popped(t, t', uses, uses', id) && mid[Current(uses, id.index)] == 0
    requires forall x :: x in mid ==> IsCurrent(uses, x)
    ensures forall x :: x in mid + multiset{id} ==> IsCurrent(uses', x)
  {
  }

  lemma PoppedTable<A>(t: Table<A>, t': Table<A>, uses: seq<nat>, uses': seq<nat>, id: AssetIndex)
    requires Popped(t, t', uses, uses', id) && TableCurrent(t.storage, uses) && InTable(t.storage, id.index) == 0
    ensures TableCurrent(t'.storage, uses')
  {
  }

  lemma PoppedPlaces<A>(t: Table<A>, t': Table<A>, mid: multiset<AssetIndex>, uses: seq<nat>, uses': seq<nat>,
                        id: AssetIndex, i: nat)
    requires Popped(t, t', uses, uses', id) && i < |uses| && Places(t, mid, uses, i) == 1
    requires AllCurrent(uses, t.alloc.queue) && AllCurrent(uses, t.alloc.recycled)
    requires forall x :: x in mid ==> IsCurrent(uses, x)
    ensures Places(t', mid + multiset{id}, uses', i) == 1
  {
    if i == id.index {
      PoppedPlace(t, t', mid, uses, uses', id);
    } else {
      CountPop(t.alloc.queue, Current(uses, i));
    }
  }

  /** The popped slot itself is in nobody's queue any more, under either id. */
  lemma PoppedPlace<A>(t: Table<A>, t': Table<A>, mid: multiset<AssetIndex>, uses: seq<nat>, uses': seq<nat>,
                       id: AssetIndex)
    requires Popped(t, t', uses, uses', id) && Places(t, mid, uses, id.index) == 1
    requires AllCurrent(uses, t.alloc.queue) && AllCurrent(uses, t.alloc.recycled)
    requires forall x :: x in mid ==> IsCurrent(uses, x)
    ensures Places(t', mid + multiset{id}, uses', id.index) == 1
  {
    NextCurrent(uses, id.index);
    CountPop(t.alloc.queue, t.alloc.queue[0]);
    CountPop(t.alloc.queue, id);
    NotCounted(uses, t.alloc.queue, id);
    NotCounted(uses, t.alloc.recycled, id);
    assert id !in mid;
  }

  lemma NextCurrent(uses: seq<nat>, i: nat)
    requires i < |uses|
    ensures Bump(Current(uses, i)) == Current(uses[i := uses[i] + 1], i) != Current(uses, i)
  {
  }

  /** A new use of a slot leaves all other slots' ids current. */
  lemma StillCurrent(uses: seq<nat>, ids: seq<AssetIndex>, slot: nat)
    requires slot < |uses| && AllCurrent(uses, ids) && Times(ids, Current(uses, slot)) == 0
    ensures AllCurrent(uses[slot := uses[slot] + 1], ids)
  {
    forall k | 0 <= k < |ids| ensures IsCurrent(uses[slot := uses[slot] + 1], ids[k]) {
      assert IsCurrent(uses, ids[k]) && ids[k] in ids;
    }
  }

  lemma PushKeeps<A>(t: Table<A>, mid: multiset<AssetIndex>, over: nat, uses: seq<nat>, id: AssetIndex)
    requires Located(t, mid, over, uses) && id in mid
    ensures Located(t.(alloc := t.alloc.PushRecycled(id)), mid - multiset{id}, over, uses)
  {
    forall i | 0 <= i < |uses|
      ensures Places(t.(alloc := t.alloc.PushRecycled(id)), mid - multiset{id}, uses, i) == 1
    {
      assert Places(t, mid, uses, i) == 1;
      CountAppend(t.alloc.recycled, id, Current(uses, i));
    }
  }

  lemma FreshKeeps<A>(t: Table<A>, mid: multiset<AssetIndex>, over: nat, uses: seq<nat>)
    requires Located(t, mid, over, uses)
    ensures var (alloc, index) := t.alloc.TakeFresh();
      if index > MAX_ASSET_INDEX then Located(t.(alloc := alloc), mid, over + 1, uses)
      else index == |uses| && Located(t.(alloc := alloc), mid, over, uses + [0])
  {
    var (alloc, index) := t.alloc.TakeFresh();
    var t' := t.(alloc := alloc);
    forall i | 0 <= i < |uses| ensures Places(t', mid, uses, i) == 1 {
      assert Places(t, mid, uses, i) == 1;
    }
    if index <= MAX_ASSET_INDEX {
      forall i | 0 <= i < |uses| + 1 ensures Places(t', mid, uses + [0], i) == 1 {
        if i < |uses| {
          assert Places(t, mid, uses, i) == 1;
        } else {
          NotCounted(uses, t.alloc.queue, AssetIndex(i, 0));
          NotCounted(uses, t.alloc.recycled, AssetIndex(i, 0));
        }
      }
    }
  }

  lemma GiveUpKeeps<A>(t: Table<A>, mid: multiset<AssetIndex>, over: nat, uses: seq<nat>)
    requires Located(t, mid, over, uses) && over > 0 && t.alloc.next > 0
    ensures Located(t.(alloc := t.alloc.GiveBack()), mid, over - 1, uses)
  {
    forall i | 0 <= i < |uses| ensures Places(t.(alloc := t.alloc.GiveBack()), mid, uses, i) == 1 {
      assert Places(t, mid, uses, i) == 1;
    }
  }

  lemma GrowKeeps<A>(t: Table<A>, mid: multiset<AssetIndex>, over: nat, uses: seq<nat>)
    requires Located(t, mid, over, uses)
    ensures Located(t.Grow(), mid, over, uses)
  {
    forall i | 0 <= i < |uses| ensures Places(t.Grow(), mid, uses, i) == 1 {
      assert Places(t, mid, uses, i) == 1;
    }
  }

  /** A flush installs onto an empty slot only. */
  lemma InstallKeeps<A>(t: Table<A>, mid: multiset<AssetIndex>, over: nat, uses: seq<nat>)
    requires Located(t, mid, over, uses) && t.alloc.recycled != []
    ensures t.alloc.recycled[0].index < |t.storage| && t.storage[t.alloc.recycled[0].index] == None
    ensures Located(t.Install(), mid, over, uses)
  {
    var id := t.alloc.recycled[0];
    CountPop(t.alloc.recycled, id);
    assert Places(t, mid, uses, id.index) == 1;
    forall i | 0 <= i < |uses| ensures Places(t.Install(), mid, uses, i) == 1 {
      assert Places(t, mid, uses, i) == 1;
      CountPop(t.alloc.recycled, Current(uses, i));
    }
  }

  lemma ReleaseKeeps<A>(t: Table<A>, mid: multiset<AssetIndex>, over: nat, uses: seq<nat>, id: AssetIndex)
    requires Located(t, mid, over, uses) && t.Hit(id) && IsCurrent(uses, id)
    ensures Located(t.Release(id), mid, over, uses)
  {
    forall i | 0 <= i < |uses| ensures Places(t.Release(id), mid, uses, i) == 1 {
      assert Places(t, mid, uses, i) == 1;
      CountAppend(t.alloc.queue, id, Current(uses, i));
    }
  }

  /** Two tables that differ in their values only. */
  ghost predicate SameShape<A>(t: Table<A>, t': Table<A>) {
    && t.alloc == t'.alloc
    && |t.storage| == |t'.storage|
    && (forall i :: 0 <= i < |t.storage| ==> t.storage[i].Some? == t'.storage[i].Some?)
    && (forall i :: 0 <= i < |t.storage| && t.storage[i].Some? ==>
          t.storage[i].value.generation == t'.storage[i].value.generation)
  }

  lemma ShapeKeeps<A>(t: Table<A>, t': Table<A>, mid: multiset<AssetIndex>, over: nat, uses: seq<nat>)
    requires Located(t, mid, over, uses) && SameShape(t, t')
    ensures Located(t', mid, over, uses)
  {
    forall i | 0 <= i < |uses| ensures Places(t', mid, uses, i) == 1 {
      assert Places(t, mid, uses, i) == 1;
    }
  }

  /** What a thread does to the allocator keeps every slot in one place. */
  lemma ThreadKeeps<A>(t: Table<A>, sh: Shared, step: ThreadStep)
    requires Located(t, sh.mid, sh.over, sh.uses) && ThreadEnabled(t.alloc, sh, step)
    ensures var (alloc, sh') := ApplyThread(t.alloc, sh, step);
      Located(t.(alloc := alloc), sh'.mid, sh'.over, sh'.uses)
  {
    match step
    case ReservePop => PopKeeps(t, sh.mid, sh.over, sh.uses);
    case ReservePush(id) => PushKeeps(t, sh.mid, sh.over, sh.uses, id);
    case ReserveFresh => FreshKeeps(t, sh.mid, sh.over, sh.uses);
    case ReserveGiveUp => GiveUpKeeps(t, sh.mid, sh.over, sh.uses);
    case _ => assert t.(alloc := t.alloc) == t;
  }

  lemma StoreShape<A>(store: Store<A>, step: StoreStep<A>)
    ensures SameShape(store.table, ApplyStore(store, step).table)
    ensures ApplyStore(store, step).duplicates == store.duplicates
  {
    if step.key.Index? && store.table.Hit(step.key.index) {
      assert SameShape(store.table, store.table.Take(step.key.index));
      if step.Insert? || step.Touch? {
        assert SameShape(store.table, store.table.Put(step.key.index, step.asset));
      }
    }
  }

  lemma PartitionStep<A>(w: World<A>, step: Step<A>)
    requires Partition(w) && Enabled(w, step)
    requires w.hand.Dying? ==> IsCurrent(w.shared.uses, w.hand.id)
    ensures Partition(Apply(w, step))
  {
    var t, sh := w.store.table, w.shared;
    match step
    case Thread(thread) => ThreadKeeps(t, sh, thread);
    case Grow => GrowKeeps(t, sh.mid, sh.over, sh.uses);
    case Install => InstallKeeps(t, sh.mid, sh.over, sh.uses);
    case Use(use) =>
      StoreShape(w.store, use);
      ShapeKeeps(t, ApplyStore(w.store, use).table, sh.mid, sh.over, sh.uses);
    case Retire => if t.Hit(w.hand.id) { ReleaseKeeps(t, sh.mid, sh.over, sh.uses, w.hand.id); }
    case _ =>
  }

  // ------------------------------------------------------------------------------------------
  // Who keeps a slot alive
  // ------------------------------------------------------------------------------------------

  /** The id names a slot that is neither handed back nor in the middle of a `reserve`. */
  ghost predicate LiveIn(alloc: Alloc, sh: Shared, id: AssetIndex) {
    IsCurrent(sh.uses, id) && Times(alloc.queue, id) == 0 && sh.mid[id] == 0
  }

  ghost predicate Live<A>(w: World<A>, id: AssetIndex) {
    LiveIn(w.store.table.alloc, w.shared, id)
  }

  /** Everything that will still lead to one drop event: handles, reserved ids about to get one,
      events in the channel, and the event the job holds. */
  ghost function References(sh: Shared, hand: Hand, id: AssetIndex): nat {
    sh.handles[id] + sh.unbuilt[id] + Times(sh.drops, id) + (if !hand.Idle? && hand.id == id then 1 else 0)
  }

  /** Conservation of handles for one id. */
  ghost predicate Balanced(alloc: Alloc, sh: Shared, hand: Hand, duplicates: map<AssetIndex, nat>, id: AssetIndex) {
    if LiveIn(alloc, sh, id) then
      References(sh, hand, id) == 1 + (if id in duplicates then duplicates[id] else 0)
    else References(sh, hand, id) == 0 && id !in duplicates
  }

  ghost predicate Conserved<A>(w: World<A>) {
    && (forall id: AssetIndex :: Balanced(w.store.table.alloc, w.shared, w.hand, w.store.duplicates, id))
    && (w.hand.Dying? ==> w.hand.id !in w.store.duplicates)
  }

  lemma LiveHits<A>(w: World<A>, id: AssetIndex)
    requires Partition(w) && Live(w, id) && FlushedFor(w.store.table, id)
    ensures w.store.table.Hit(id)
  {
    assert Places(w.store.table, w.shared.mid, w.shared.uses, id.index) == 1;
    assert Times(w.store.table.alloc.recycled, id) == 0;
  }

  lemma HitIsLive<A>(w: World<A>, id: AssetIndex)
    requires Partition(w) && w.store.table.Hit(id) && id.index < |w.shared.uses|
    ensures Live(w, id)
  {
    assert Places(w.store.table, w.shared.mid, w.shared.uses, id.index) == 1;
  }

  lemma LivePop(alloc: Alloc, sh: Shared, id: AssetIndex)
    requires ThreadEnabled(alloc, sh, ReservePop) && AllCurrent(sh.uses, alloc.queue)
    ensures var (alloc', sh') := ApplyThread(alloc, sh, ReservePop);
      LiveIn(alloc', sh', id) == LiveIn(alloc, sh, id)
  {
    assert IsCurrent(sh.uses, alloc.queue[0]);
    if id.index == alloc.queue[0].index {
      PoppedNotLive(alloc, sh, id);
    } else {
      CountPop(alloc.queue, id);
    }
  }

  /** No id of the popped slot is live, before or after. */
  lemma PoppedNotLive(alloc: Alloc, sh: Shared, id: AssetIndex)
    requires ThreadEnabled(alloc, sh, ReservePop) && IsCurrent(sh.uses, alloc.queue[0])
    requires id.index == alloc.queue[0].index
    ensures !LiveIn(alloc, sh, id)
    ensures var (alloc', sh') := ApplyThread(alloc, sh, ReservePop); !LiveIn(alloc', sh', id)
  {
    var popped := alloc.queue[0];
    CountPop(alloc.queue, popped);
    assert Bump(popped) == Current(sh.uses[id.index := sh.uses[id.index] + 1], id.index);
  }

  /** How a thread step changes which ids are live. */
  lemma LiveThread<A>(t: Table<A>, sh: Shared, step: ThreadStep, id: AssetIndex)
    requires Located(t, sh.mid, sh.over, sh.uses) && ThreadEnabled(t.alloc, sh, step)
    ensures var (alloc, sh') := ApplyThread(t.alloc, sh, step);
      LiveIn(alloc, sh', id) == (LiveIn(t.alloc, sh, id) || match step
        case ReservePush(pushed) => id == pushed
        case ReserveFresh => id == AssetIndex(|sh.uses|, 0) && |sh'.uses| > |sh.uses|
        case _ => false)
  {
    match step
    case ReservePop => LivePop(t.alloc, sh, id);
    case ReservePush(pushed) => LivePush(t, sh, pushed, id);
    case ReserveFresh => LiveFresh(t, sh, id);
    case _ =>
  }

  lemma LivePush<A>(t: Table<A>, sh: Shared, pushed: AssetIndex, id: AssetIndex)
    requires Located(t, sh.mid, sh.over, sh.uses) && pushed in sh.mid
    ensures var (alloc, sh') := ApplyThread(t.alloc, sh, ReservePush(pushed));
      LiveIn(alloc, sh', id) == (LiveIn(t.alloc, sh, id) || id == pushed)
  {
    assert Places(t, sh.mid, sh.uses, pushed.index) == 1;
  }

  lemma LiveFresh<A>(t: Table<A>, sh: Shared, id: AssetIndex)
    requires Located(t, sh.mid, sh.over, sh.uses)
    ensures var (alloc, sh') := ApplyThread(t.alloc, sh, ReserveFresh);
      LiveIn(alloc, sh', id) == (LiveIn(t.alloc, sh, id) || (id == AssetIndex(|sh.uses|, 0) && |sh'.uses| > |sh.uses|))
  {
    NotCounted(sh.uses, t.alloc.queue, AssetIndex(|sh.uses|, 0));
  }

  lemma BalancedThread<A>(t: Table<A>, sh: Shared, hand: Hand, duplicates: map<AssetIndex, nat>, step: ThreadStep,
                          id: AssetIndex)
    requires Located(t, sh.mid, sh.over, sh.uses) && ThreadEnabled(t.alloc, sh, step)
    requires forall x: AssetIndex :: Balanced(t.alloc, sh, hand, duplicates, x)
    ensures var (alloc, sh') := ApplyThread(t.alloc, sh, step);
      Balanced(alloc, sh', hand, duplicates, id)
  {
    assert Balanced(t.alloc, sh, hand, duplicates, id);
    LiveThread(t, sh, step, id);
    ReferencesThread(t.alloc, sh, hand, step, id);
    match step
    case ReservePush(pushed) =>
      assert Places(t, sh.mid, sh.uses, pushed.index) == 1;
    case _ =>
  }

  /** Only a reservation that ends adds a reference. */
  lemma ReferencesThread(alloc: Alloc, sh: Shared, hand: Hand, step: ThreadStep, id: AssetIndex)
    requires ThreadEnabled(alloc, sh, step)
    ensures References(ApplyThread(alloc, sh, step).1, hand, id) == References(sh, hand, id) + match step
      case ReservePush(pushed) => if id == pushed then 1 else 0
      case ReserveFresh => if alloc.next <= MAX_ASSET_INDEX && id == AssetIndex(alloc.next, 0) then 1 else 0
      case _ => 0
  {
    if step.DropHandle? {
      CountAppend(sh.drops, step.id, id);
    }
  }

  lemma ConservedThread<A>(w: World<A>, step: ThreadStep)
    requires Partition(w) && Conserved(w) && Enabled(w, Thread(step))
    ensures Conserved(Apply(w, Thread(step)))
  {
    var w' := Apply(w, Thread(step));
    forall id: AssetIndex ensures Balanced(w'.store.table.alloc, w'.shared, w'.hand, w'.store.duplicates, id) {
      BalancedThread(w.store.table, w.shared, w.hand, w.store.duplicates, step, id);
    }
  }

  lemma ConservedReceive<A>(w: World<A>)
    requires Conserved(w) && Enabled(w, Receive)
    ensures Conserved(Apply(w, Receive))
  {
    var w' := Apply(w, Receive);
    forall id: AssetIndex ensures Balanced(w'.store.table.alloc, w'.shared, w'.hand, w'.store.duplicates, id) {
      assert Balanced(w.store.table.alloc, w.shared, w.hand, w.store.duplicates, id);
      CountPop(w.shared.drops, id);
    }
  }

  lemma BalancedCount<A>(store: Store<A>, sh: Shared, counted: AssetIndex, id: AssetIndex)
    requires Balanced(store.table.alloc, sh, Received(counted), store.duplicates, id)
    ensures var (store', last) := store.CountDrop(counted);
      && store'.table == store.table && (last ==> counted !in store'.duplicates)
      && Balanced(store.table.alloc, sh, if last then Dying(counted) else Idle, store'.duplicates, id)
  {
  }

  lemma ConservedCount<A>(w: World<A>)
    requires Conserved(w) && Enabled(w, Step.Count)
    ensures Conserved(Apply(w, Step.Count))
  {
    var w' := Apply(w, Step.Count);
    forall id: AssetIndex ensures Balanced(w'.store.table.alloc, w'.shared, w'.hand, w'.store.duplicates, id) {
      assert Balanced(w.store.table.alloc, w.shared, w.hand, w.store.duplicates, id);
      BalancedCount(w.store, w.shared, w.hand.id, id);
    }
  }

  lemma ConservedRetire<A>(w: World<A>)
    requires Partition(w) && Conserved(w) && Enabled(w, Retire)
    ensures w.store.table.Hit(w.hand.id)
    ensures Conserved(Apply(w, Retire))
  {
    var w' := Apply(w, Retire);
    var t := w.store.table;
    assert Balanced(t.alloc, w.shared, w.hand, w.store.duplicates, w.hand.id);
    LiveHits(w, w.hand.id);
    forall id: AssetIndex ensures Balanced(w'.store.table.alloc, w'.shared, w'.hand, w'.store.duplicates, id) {
      assert Balanced(t.alloc, w.shared, w.hand, w.store.duplicates, id);
      CountAppend(t.alloc.queue, w.hand.id, id);
    }
  }

  lemma ConservedQuiet<A>(w: World<A>, w': World<A>)
    requires Conserved(w) && w'.shared == w.shared && w'.hand == w.hand
    requires w'.store.duplicates == w.store.duplicates && w'.store.table.alloc.queue == w.store.table.alloc.queue
    ensures Conserved(w')
  {
    forall id: AssetIndex ensures Balanced(w'.store.table.alloc, w'.shared, w'.hand, w'.store.duplicates, id) {
      assert Balanced(w.store.table.alloc, w.shared, w.hand, w.store.duplicates, id);
    }
  }

  lemma BalancedUpgrade(alloc: Alloc, sh: Shared, hand: Hand, duplicates: map<AssetIndex, nat>,
                        upgraded: AssetIndex, id: AssetIndex)
    requires LiveIn(alloc, sh, upgraded) && Balanced(alloc, sh, hand, duplicates, id)
    ensures Balanced(alloc, WithHandle(sh, upgraded), hand,
                     duplicates[upgraded := (if upgraded in duplicates then duplicates[upgraded] else 0) + 1], id)
  {
  }

  lemma ConservedUpgrade<A>(w: World<A>, w': World<A>, upgraded: AssetIndex)
    requires Conserved(w) && Live(w, upgraded) && w'.shared == WithHandle(w.shared, upgraded) && w'.hand == w.hand
    requires w'.hand.Idle? && w'.store.table == w.store.table
    requires w'.store.duplicates == w.store.duplicates[upgraded := w.store.Duplicates(upgraded) + 1]
    ensures Conserved(w')
  {
    forall id: AssetIndex ensures Balanced(w'.store.table.alloc, w'.shared, w'.hand, w'.store.duplicates, id) {
      assert Balanced(w.store.table.alloc, w.shared, w.hand, w.store.duplicates, id);
      BalancedUpgrade(w.store.table.alloc, w.shared, w.hand, w.store.duplicates, upgraded, id);
    }
  }

  lemma ConservedResolve<A>(w: World<A>, key: AssetId)
    requires Partition(w) && Conserved(w) && Enabled(w, Resolve(key))
    ensures Conserved(Apply(w, Resolve(key)))
  {
    var w' := Apply(w, Resolve(key));
    var (store, r) := w.store.ResolveHandle(key);
    if r.StrongHandle? {
      HitIsLive(w, r.index);
      ConservedUpgrade(w, w', r.index);
    } else {
      assert store.duplicates == w.store.duplicates;
      ConservedQuiet(w, w');
    }
  }

  lemma ConservedStep<A>(w: World<A>, step: Step<A>)
    requires Partition(w) && Conserved(w) && Enabled(w, step)
    ensures Conserved(Apply(w, step))
  {
    match step
    case Thread(thread) => ConservedThread(w, thread);
    case Use(use) =>
      StoreShape(w.store, use);
      ConservedQuiet(w, Apply(w, step));
    case Resolve(key) => ConservedResolve(w, key);
    case Receive => ConservedReceive(w);
    case Count => ConservedCount(w);
    case Retire => ConservedRetire(w);
    case _ => ConservedQuiet(w, Apply(w, step));
  }

  /** Where each slot is and who keeps it alive. */
  ghost predicate Sound<A>(w: World<A>) {
    Partition(w) && Conserved(w)
  }

  lemma SoundStep<A>(w: World<A>, step: Step<A>)
    requires Sound(w) && Enabled(w, step)
    ensures Sound(Apply(w, step))
  {
    if w.hand.Dying? {
      assert Balanced(w.store.table.alloc, w.shared, w.hand, w.store.duplicates, w.hand.id);
    }
    PartitionStep(w, step);
    ConservedStep(w, step);
  }

  lemma {:induction false} SoundRuns<A>(steps: seq<Step<A>>)
    requires Legal(steps)
    ensures Sound(After(steps))
    decreases |steps|
  {
    if steps != [] {
      var before := steps[..|steps| - 1];
      SoundRuns(before);
      SoundStep(After(before), steps[|steps| - 1]);
    } else {
      var w := Initial<A>();
      assert forall id: AssetIndex :: Balanced(w.store.table.alloc, w.shared, w.hand, w.store.duplicates, id);
    }
  }
}
