/** Typed asset storage with deferred handle drops: `Assets` of
    crates/zlim-asset/src/assets.rs with the handle provider of crates/zlim-asset/src/handle.rs.

    `Store` is the storage as a value and its functions are the steps that exclusive access to the
    storage allows; the class is the object whose methods make those steps. Every operation that
    touches a slot first flushes the table, so its function starts from `Flushed()`. */
module AssetStore {
  import opened Wrappers
  import opened Ident
  import opened AssetTables

  type Uuid = nat

  datatype AssetId = Index(index: AssetIndex) | Keyed(uuid: Uuid)

  datatype Event =
    | Added(id: AssetId)
    | Modified(id: AssetId)
    | Removed(id: AssetId)
    | Unused(id: AssetId)

  /** The per-slot limit on handles upgraded from an id. */
  const MAX_DUPLICATES: nat := 0xFFFF_FFFF / 4

  /** What upgrading an id to a handle gives; `Overflow` is the panic at the per-slot limit. */
  datatype Resolved = Missing | Overflow | KeyedHandle(uuid: Uuid) | StrongHandle(index: AssetIndex)

  datatype Store<+A> = Store(
    table: Table<A>,
    keyed: map<Uuid, A>,
    events: seq<Event>,
    duplicates: map<AssetIndex, nat>)
  {
    ghost predicate Ready() {
      table.Installable()
    }

    ghost function Flushed(): Store<A>
      requires Ready()
    {
      this.(table := table.Flush())
    }

    function Log(e: Event): Store<A> {
      this.(events := events + [e])
    }

    function Lookup(id: AssetId): Option<A> {
      match id
      case Index(index) => table.Get(index)
      case Keyed(uuid) => if uuid in keyed then Some(keyed[uuid]) else None
    }

    predicate Contains(id: AssetId) {
      Lookup(id).Some?
    }

    /** Whether a value can be stored under `id` now. */
    predicate Accepts(id: AssetId) {
      id.Index? ==> table.Hit(id.index)
    }

    function Put(id: AssetId, asset: A): Store<A>
      requires Accepts(id)
    {
      match id
      case Index(index) => this.(table := table.Put(index, asset))
      case Keyed(uuid) => this.(keyed := keyed[uuid := asset])
    }

    /** Insertion after the flush: the event says whether a value was replaced. */
    function Insert(id: AssetId, asset: A): Store<A>
      requires Accepts(id)
    {
      Put(id, asset).Log(if Contains(id) then Modified(id) else Added(id))
    }

    /** A write through a guard: the value changes in place. */
    function Overwrite(id: AssetId, asset: A): Store<A>
      requires Contains(id)
    {
      Put(id, asset).Log(Modified(id))
    }

    function Take(id: AssetId): Store<A>
      requires Accepts(id)
    {
      match id
      case Index(index) => this.(table := table.Take(index))
      case Keyed(uuid) => this.(keyed := keyed - {uuid})
    }

    /** Removal after the flush: the slot keeps its generation. */
    function Remove(id: AssetId): Store<A> {
      if !Accepts(id) then this
      else if Contains(id) then Take(id).Log(Event.Removed(id))
      else Take(id)
    }

    function RemoveUntracked(id: AssetId): Store<A> {
      if Accepts(id) then Take(id) else this
    }

    /** The first half of processing a dropped handle: whether it was the last one. */
    function CountDrop(index: AssetIndex): (Store<A>, bool) {
      if index in duplicates && duplicates[index] > 0 then
        (this.(duplicates := duplicates[index := duplicates[index] - 1]), false)
      else
        (this.(duplicates := duplicates - {index}).Log(Unused(Index(index))), true)
    }

    /** The second half, after the flush: the slot goes back to the allocator. */
    function Retire(index: AssetIndex): Store<A> {
      if !table.Hit(index) then this
      else
        var released := this.(table := table.Release(index));
        if table.Get(index).Some? then released.Log(Event.Removed(Index(index))) else released
    }

    ghost function RemoveDropped(index: AssetIndex): Store<A>
      requires Ready()
    {
      var (counted, last) := CountDrop(index);
      if last then counted.Flushed().Retire(index) else counted
    }

    function Duplicates(index: AssetIndex): nat {
      if index in duplicates then duplicates[index] else 0
    }

    function ResolveHandle(id: AssetId): (Store<A>, Resolved) {
      if !Contains(id) then (this, Missing)
      else match id
        case Keyed(uuid) => (this, KeyedHandle(uuid))
        case Index(index) =>
          if Duplicates(index) >= MAX_DUPLICATES then
            (this.(duplicates := duplicates[index := Duplicates(index)]), Overflow)
          else (this.(duplicates := duplicates[index := Duplicates(index) + 1]), StrongHandle(index))
    }
  }

  /** The shared end of the handle channel: the allocator and the queue of drop events. */
  class AssetHandleProvider {
    const allocator: AssetIndexAllocator
    var dropEvents: seq<AssetIndex>

    constructor (allocator: AssetIndexAllocator)
      ensures this.allocator == allocator && dropEvents == []
    {
      this.allocator := allocator;
      dropEvents := [];
    }

    /** A handle for a slot that is reserved or in use. */
    method BuildHandle(index: AssetIndex) returns (handle: Handle)
      ensures fresh(handle) && handle.index == index && handle.provider == this
    {
      handle := new Handle(index, this);
    }

    /** A fresh slot with its first handle; null when the allocator is exhausted. */
    method ReserveHandle() returns (handle: Handle?)
      modifies allocator
      ensures var (alloc, id) := old(allocator.State()).Reserve();
        && allocator.State() == alloc
        && if id.None? then handle == null else handle != null && handle.index == id.value && handle.provider == this
    {
      var index := allocator.Reserve();
      handle := null;
      if index.Some? {
        handle := BuildHandle(index.value);
      }
    }

    method Post(index: AssetIndex)
      modifies this
      ensures dropEvents == old(dropEvents) + [index]
    {
      dropEvents := dropEvents + [index];
    }

    method TryRecv() returns (r: Option<AssetIndex>)
      modifies this
      ensures old(dropEvents) == [] ==> r == None && dropEvents == []
      ensures old(dropEvents) != [] ==> r.Some? && old(dropEvents) == [r.value] + dropEvents
    {
      if dropEvents == [] {
        return None;
      }
      r := Some(dropEvents[0]);
      dropEvents := dropEvents[1..];
    }
  }

  /** A strong handle: as long as it lives, its slot keeps its value. */
  class Handle {
    const index: AssetIndex
    const provider: AssetHandleProvider

    constructor (index: AssetIndex, provider: AssetHandleProvider)
      ensures this.index == index && this.provider == provider
    {
      this.index, this.provider := index, provider;
    }

    /** What the death of a handle does: it only posts an event. */
    method Drop()
      modifies provider
      ensures provider.dropEvents == old(provider.dropEvents) + [index]
    {
      provider.Post(index);
    }
  }

  class Assets<A> {
    const table: AssetTable<A>
    const provider: AssetHandleProvider
    var hashMap: map<Uuid, A>
    var queuedEvents: seq<Event>
    var duplicateHandles: map<AssetIndex, nat>

    ghost const Repr: set<object>

    ghost predicate Valid()
      reads this, Repr
    {
      && Repr == {this, table, table.allocator, provider}
      && provider.allocator == table.allocator
      && State().Ready()
    }

    function State(): Store<A>
      reads this, table, table.allocator
    {
      Store(table.State(), hashMap, queuedEvents, duplicateHandles)
    }

    constructor ()
      ensures Valid() && fresh(Repr)
      ensures State() == Store(Table([], 0, Alloc(0, [], [])), map[], [], map[])
      ensures provider.dropEvents == []
    {
      var allocator := new AssetIndexAllocator();
      var dense := new AssetTable<A>(allocator);
      var channel := new AssetHandleProvider(allocator);
      table, provider := dense, channel;
      hashMap, queuedEvents, duplicateHandles := map[], [], map[];
      Repr := {this, dense, allocator, channel};
    }

    method Insert(id: AssetId, asset: A) returns (r: Result<(), SlotError>)
      requires Valid()
      modifies this, table, table.allocator
      ensures Valid()
      ensures var s := if id.Index? then old(State()).Flushed() else old(State());
        if s.Accepts(id) then State() == s.Insert(id, asset) && r.Success?
        else State() == s && r == Failure(s.table.Refusal(id.index))
    {
      var replaced;
      match id {
        case Index(index) =>
          var inserted := table.Insert(index, asset);
          if inserted.Failure? {
            return Failure(inserted.error);
          }
          replaced := inserted.value;
        case Keyed(uuid) =>
          replaced := uuid in hashMap;
          hashMap := hashMap[uuid := asset];
      }
      queuedEvents := queuedEvents + [if replaced then Modified(id) else Added(id)];
      r := Success(());
    }

    /** Stores a value under a freshly reserved id, announces it, and hands out the first handle. Null
        stands for the panics: the allocator is exhausted, or the reserved slot does not take the
        value, which `AssetTheorems.ReservedSlotAccepts` rules out together with a replaced value. */
    method Add(asset: A) returns (handle: Handle?)
      requires Valid()
      modifies this, table, table.allocator
      ensures Valid()
      ensures var (alloc, id) := old(State()).table.alloc.Reserve();
        var s := old(State()).(table := old(State()).table.(alloc := alloc));
        if id.None? then handle == null && State() == s
        else
          && s.Ready()
          && if !s.Flushed().table.Hit(id.value) then handle == null && State() == s.Flushed()
             else
               && handle != null && fresh(handle) && handle.index == id.value && handle.provider == provider
               && State() == s.Flushed().Put(Index(id.value), asset).Log(Added(Index(id.value)))
    {
      var reserved := table.allocator.Reserve();
      if reserved.None? {
        return null;
      }
      ghost var s := State();
      assert s.Ready();
      var inserted := table.Insert(reserved.value, asset);
      if inserted.Failure? {
        return null;
      }
      queuedEvents := queuedEvents + [Added(Index(reserved.value))];
      handle := provider.BuildHandle(reserved.value);
    }

    method Remove(id: AssetId) returns (r: Option<A>)
      requires Valid()
      modifies this, table, table.allocator
      ensures Valid()
      ensures var s := if id.Index? then old(State()).Flushed() else old(State());
        State() == s.Remove(id) && r == s.Lookup(id)
    {
      match id {
        case Index(index) =>
          r := table.RemoveStillAlive(index);
        case Keyed(uuid) =>
          r := if uuid in hashMap then Some(hashMap[uuid]) else None;
          hashMap := hashMap - {uuid};
      }
      if r.Some? {
        queuedEvents := queuedEvents + [Event.Removed(id)];
      }
    }

    method RemoveUntracked(id: AssetId) returns (r: Option<A>)
      requires Valid()
      modifies this, table, table.allocator
      ensures Valid()
      ensures var s := if id.Index? then old(State()).Flushed() else old(State());
        State() == s.RemoveUntracked(id) && r == s.Lookup(id)
    {
      match id {
        case Index(index) =>
          r := table.RemoveStillAlive(index);
        case Keyed(uuid) =>
          r := if uuid in hashMap then Some(hashMap[uuid]) else None;
          hashMap := hashMap - {uuid};
      }
    }

    method RemoveDropped(index: AssetIndex)
      requires Valid()
      modifies this, table, table.allocator
      ensures Valid()
      ensures State() == old(State()).RemoveDropped(index)
    {
      if index in duplicateHandles {
        if duplicateHandles[index] == 0 {
          duplicateHandles := duplicateHandles - {index};
        } else {
          duplicateHandles := duplicateHandles[index := duplicateHandles[index] - 1];
          return;
        }
      }
      queuedEvents := queuedEvents + [Unused(Index(index))];
      assert old(State()).CountDrop(index).0 == State();
      var removed := table.RemoveAndRecycle(index);
      if removed.Some? {
        queuedEvents := queuedEvents + [Event.Removed(Index(index))];
      }
    }

    /** The job that drains the drop events in the order they were posted. */
    method TrackAssets()
      requires Valid()
      modifies this, table, table.allocator, provider
      ensures Valid()
      ensures provider.dropEvents == []
      ensures State() == ProcessDrops(old(State()), old(provider.dropEvents))
    {
      ghost var drops := provider.dropEvents;
      ghost var start := State();
      var drop := provider.TryRecv();
      while drop.Some?
        invariant Valid()
        invariant drop.None? ==> provider.dropEvents == [] && State() == ProcessDrops(start, drops)
        invariant drop.Some? ==>
          ProcessDrops(State(), [drop.value] + provider.dropEvents) == ProcessDrops(start, drops)
        decreases drop.Some?, |provider.dropEvents|
      {
        ghost var pending := [drop.value] + provider.dropEvents;
        assert pending[1..] == provider.dropEvents;
        RemoveDropped(drop.value);
        drop := provider.TryRecv();
      }
    }

    /** The stored value, or `built` stored and announced now. */
    method GetOrInsert(id: AssetId, built: A) returns (r: Result<A, SlotError>)
      requires Valid()
      modifies this, table, table.allocator
      ensures Valid()
      ensures var s := if id.Index? then old(State()).Flushed() else old(State());
        if !s.Accepts(id) then State() == s && r == Failure(s.table.Refusal(id.index))
        else if s.Contains(id) then State() == s && r == Success(s.Lookup(id).value)
        else State() == s.Insert(id, built) && r == Success(built)
    {
      var created;
      match id {
        case Index(index) =>
          var found := table.GetOrInsert(index, built);
          if found.Failure? {
            return Failure(found.error);
          }
          r := Success(found.value.0);
          created := found.value.1;
        case Keyed(uuid) =>
          created := uuid !in hashMap;
          if created {
            hashMap := hashMap[uuid := built];
          }
          r := Success(hashMap[uuid]);
      }
      if created {
        queuedEvents := queuedEvents + [Added(id)];
      }
    }

    /** The end of a guard handed out for `id`: it announces a change if it was used mutably. */
    method DropGuard(id: AssetId, changed: bool)
      requires Valid()
      modifies this`queuedEvents
      ensures Valid()
      ensures State() == if changed then old(State()).Log(Modified(id)) else old(State())
    {
      if changed {
        queuedEvents := queuedEvents + [Modified(id)];
      }
    }

    /** A guard, from getting it to its end: `None` when there is no value, and otherwise the value it guards,
        which is overwritten with `written` if the guard is used mutably. */
    method UseGuard(id: AssetId, written: Option<A>) returns (r: Option<A>)
      requires Valid()
      modifies this, table
      ensures Valid()
      ensures r == old(State()).Lookup(id)
      ensures State() == if r.Some? && written.Some? then old(State()).Overwrite(id, written.value) else old(State())
    {
      match id {
        case Index(index) =>
          r := table.Lookup(index);
          if r.Some? && written.Some? {
            table.Overwrite(index, written.value);
          }
        case Keyed(uuid) =>
          r := if uuid in hashMap then Some(hashMap[uuid]) else None;
          if r.Some? && written.Some? {
            hashMap := hashMap[uuid := written.value];
          }
      }
      if r.Some? {
        DropGuard(id, written.Some?);
      }
    }

    method ResolveHandle(id: AssetId) returns (r: Resolved, handle: Handle?)
      requires Valid()
      modifies this
      ensures Valid()
      ensures (State(), r) == old(State()).ResolveHandle(id)
      ensures if r.StrongHandle?
        then handle != null && fresh(handle) && handle.index == r.index && handle.provider == provider
        else handle == null
    {
      handle := null;
      match id {
        case Keyed(uuid) =>
          return if uuid in hashMap then KeyedHandle(uuid) else Missing, null;
        case Index(index) =>
          var found := table.Lookup(index);
          if found.None? {
            return Missing, null;
          }
          var counter := if index in duplicateHandles then duplicateHandles[index] else 0;
          duplicateHandles := duplicateHandles[index := counter];
          if counter >= MAX_DUPLICATES {
            return Overflow, null;
          }
          assert duplicateHandles[index := counter + 1] == old(duplicateHandles)[index := counter + 1];
          duplicateHandles := duplicateHandles[index := counter + 1];
          r := StrongHandle(index);
          handle := provider.BuildHandle(index);
      }
    }
  }

  /** Processing a queue of drop events, front first. */
  ghost function ProcessDrops<A>(s: Store<A>, drops: seq<AssetIndex>): Store<A>
    requires s.Ready()
    decreases |drops|
  {
    if drops == [] then s
    else
      var next := s.RemoveDropped(drops[0]);
      ReadyAfterDrop(s, drops[0]);
      ProcessDrops(next, drops[1..])
  }

  lemma ReadyAfterDrop<A>(s: Store<A>, index: AssetIndex)
    requires s.Ready()
    ensures s.RemoveDropped(index).Ready()
  {
  }
}
