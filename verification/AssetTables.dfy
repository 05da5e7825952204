/** The dense generational table behind one asset type
    (crates/zlim-asset/src/assets.rs, `AssetTable`). */
module AssetTables {
  import opened Wrappers
  import opened Ident

  datatype Entry<+A> = Entry(value: Option<A>, generation: nat)

  /** Why a slot refuses a value. `OutOfBounds` is the index panic that an id which was never
      handed out runs into. */
  datatype SlotError =
    | Removed(index: AssetIndex)
    | Occupied(index: AssetIndex, current: nat)
    | OutOfBounds(index: AssetIndex)

  type Storage<+A> = seq<Option<Entry<A>>>

  /** The table as a value. `len` is an `int`, so that an underflow would show. */
  datatype Table<+A> = Table(storage: Storage<A>, len: int, alloc: Alloc)
  {
    /** Every queued id addresses a slot that the next growth makes real. */
    ghost predicate Installable() {
      && (forall k :: 0 <= k < |alloc.recycled| ==> alloc.recycled[k].index < |Grown(storage, alloc.next)|)
      && (forall k :: 0 <= k < |alloc.queue| ==> alloc.queue[k].index < |Grown(storage, alloc.next)|)
    }

    ghost predicate Waiting() {
      forall k :: 0 <= k < |alloc.recycled| ==> alloc.recycled[k].index < |storage|
    }

    /** The resize at the start of a flush. */
    function Grow(): Table<A> {
      this.(storage := Grown(storage, alloc.next))
    }

    /** One turn of a flush's draining loop. */
    function Install(): Table<A>
      requires alloc.recycled != [] && alloc.recycled[0].index < |storage|
    {
      var id := alloc.recycled[0];
      this.(storage := storage[id.index := Some(Entry(None, id.generation))],
            alloc := alloc.(recycled := alloc.recycled[1..]))
    }

    ghost function Flush(): (t: Table<A>)
      requires Installable()
      ensures t.alloc == alloc.(recycled := []) && t.len == len && t.Installable()
    {
      Grow().InstallAll()
    }

    ghost function InstallAll(): (t: Table<A>)
      requires Waiting()
      ensures t.alloc == alloc.(recycled := []) && t.len == len && |t.storage| == |storage|
      decreases |alloc.recycled|
    {
      if alloc.recycled == [] then this else Install().InstallAll()
    }

    /** The slot `id` names, when its generation is the one `id` carries. */
    predicate Hit(id: AssetIndex) {
      id.index < |storage| && storage[id.index].Some? && storage[id.index].value.generation == id.generation
    }

    function Get(id: AssetIndex): Option<A> {
      if Hit(id) then storage[id.index].value.value else None
    }

    /** Why `id` cannot be stored to. */
    function Refusal(id: AssetIndex): SlotError
      requires !Hit(id)
    {
      if id.index >= |storage| then OutOfBounds(id)
      else if storage[id.index].None? then Removed(id)
      else Occupied(id, storage[id.index].value.generation)
    }

    /** Writes a value into the slot `id` names. */
    function Put(id: AssetIndex, asset: A): Table<A>
      requires Hit(id)
    {
      this.(storage := storage[id.index := Some(Entry(Some(asset), id.generation))],
            len := if Get(id).None? then len + 1 else len)
    }

    /** Empties the slot `id` names, which keeps its generation. */
    function Take(id: AssetIndex): Table<A>
      requires Hit(id)
    {
      this.(storage := storage[id.index := Some(Entry(None, id.generation))],
            len := if Get(id).Some? then len - 1 else len)
    }

    /** Empties the slot `id` names and hands it back to the allocator. */
    function Release(id: AssetIndex): Table<A>
      requires Hit(id)
    {
      var taken := Take(id);
      taken.(storage := storage[id.index := None], alloc := alloc.Recycle(id))
    }
  }

  function Grown<A>(storage: Storage<A>, next: nat): (s: Storage<A>)
    ensures |s| == if next > |storage| then next else |storage|
    ensures forall k :: 0 <= k < |s| ==> s[k] == if k < |storage| then storage[k] else Some(Entry(None, 0))
  {
    if next > |storage| then storage + Empty(next - |storage|) else storage
  }

  /** New slots: empty, and at their first generation. */
  function Empty<A>(n: nat): (s: Storage<A>)
    ensures |s| == n && forall k :: 0 <= k < n ==> s[k] == Some(Entry(None, 0))
  {
    seq(n, _ => Some(Entry(None, 0)))
  }

  /** The number of stored values. */
  function Stored<A>(storage: Storage<A>): nat {
    if storage == [] then 0
    else Stored(storage[..|storage| - 1]) + ValueCount(storage[|storage| - 1])
  }

  function ValueCount<A>(slot: Option<Entry<A>>): nat {
    if slot.Some? && slot.value.value.Some? then 1 else 0
  }

  lemma {:induction false} StoredUpdate<A>(storage: Storage<A>, i: nat, slot: Option<Entry<A>>)
    requires i < |storage|
    ensures Stored(storage[i := slot]) == Stored(storage) - ValueCount(storage[i]) + ValueCount(slot)
  {
    var last := |storage| - 1;
    if i == last {
      assert storage[i := slot][..last] == storage[..last];
    } else {
      assert storage[i := slot][..last] == storage[..last][i := slot];
      StoredUpdate(storage[..last], i, slot);
    }
  }

  lemma StoredAppend<A>(storage: Storage<A>, slot: Option<Entry<A>>)
    ensures Stored(storage + [slot]) == Stored(storage) + ValueCount(slot)
  {
    assert (storage + [slot])[..|storage|] == storage;
  }

  lemma {:induction false} StoredPadded<A>(storage: Storage<A>, n: nat)
    ensures Stored(storage + Empty(n)) == Stored(storage)
  {
    if n == 0 {
      assert storage + Empty(n) == storage;
    } else {
      StoredPadded(storage, n - 1);
      assert storage + Empty(n) == (storage + Empty(n - 1)) + [Some(Entry(None, 0))];
      StoredAppend(storage + Empty(n - 1), Some(Entry(None, 0)));
    }
  }

  lemma StoredGrown<A>(storage: Storage<A>, next: nat)
    ensures Stored(Grown(storage, next)) == Stored(storage)
  {
    if next > |storage| {
      StoredPadded(storage, next - |storage|);
    }
  }

  /** Installing onto an empty slot changes no value that anyone can look up. */
  lemma InstallInvisible<A>(t: Table<A>)
    requires t.alloc.recycled != [] && t.alloc.recycled[0].index < |t.storage|
    requires t.storage[t.alloc.recycled[0].index] == None
    ensures Stored(t.Install().storage) == Stored(t.storage)
    ensures forall x: AssetIndex :: t.Install().Get(x) == t.Get(x)
  {
    var id := t.alloc.recycled[0];
    StoredUpdate(t.storage, id.index, Some(Entry(None, id.generation)));
  }

  /** The ids that currently hold a value. */
  function Holders<A>(storage: Storage<A>): set<AssetIndex> {
    set i | 0 <= i < |storage| && ValueCount(storage[i]) == 1 :: AssetIndex(i, storage[i].value.generation)
  }

  /** The table as a plain map from ids to values. */
  function View<A>(t: Table<A>): map<AssetIndex, A> {
    map id | id in Holders(t.storage) :: t.Get(id).value
  }

  lemma ViewLookup<A>(t: Table<A>, id: AssetIndex)
    ensures t.Get(id) == if id in View(t) then Some(View(t)[id]) else None
  {
    if t.Get(id).Some? {
      assert ValueCount(t.storage[id.index]) == 1;
    }
  }

  /** Storing, emptying and releasing a slot are the map's update and removal. */
  lemma ViewUpdates<A>(t: Table<A>, id: AssetIndex, asset: A)
    requires t.Hit(id)
    ensures View(t.Put(id, asset)) == View(t)[id := asset]
    ensures View(t.Take(id)) == View(t) - {id}
    ensures View(t.Release(id)) == View(t) - {id}
  {
    forall x: AssetIndex
      ensures t.Put(id, asset).Get(x) == if x == id then Some(asset) else t.Get(x)
      ensures t.Take(id).Get(x) == if x == id then None else t.Get(x)
      ensures t.Release(id).Get(x) == if x == id then None else t.Get(x)
    {
    }
    forall x: AssetIndex ensures t.Get(x) == if x in View(t) then Some(View(t)[x]) else None {
      ViewLookup(t, x);
    }
    SameView(t.Put(id, asset), View(t)[id := asset]);
    SameView(t.Take(id), View(t) - {id});
    SameView(t.Release(id), View(t) - {id});
  }

  lemma SameView<A>(t: Table<A>, m: map<AssetIndex, A>)
    requires forall x: AssetIndex :: t.Get(x) == if x in m then Some(m[x]) else None
    ensures View(t) == m
  {
    forall x: AssetIndex ensures x in View(t) <==> x in m {
      ViewLookup(t, x);
    }
    forall x | x in m ensures View(t)[x] == m[x] {
      ViewLookup(t, x);
    }
  }

  lemma {:induction false} HoldersCount<A>(storage: Storage<A>)
    ensures |Holders(storage)| == Stored(storage)
  {
    if storage == [] {
      assert Holders(storage) == {};
    } else {
      var last := |storage| - 1;
      HoldersCount(storage[..last]);
      if ValueCount(storage[last]) == 1 {
        var id := AssetIndex(last, storage[last].value.generation);
        assert Holders(storage) == Holders(storage[..last]) + {id};
        assert id !in Holders(storage[..last]);
      } else {
        assert Holders(storage) == Holders(storage[..last]);
      }
    }
  }

  class AssetTable<A> {
    var storage: Storage<A>
    var len: int
    const allocator: AssetIndexAllocator

    function State(): Table<A>
      reads this, allocator
    {
      Table(storage, len, allocator.State())
    }

    constructor (allocator: AssetIndexAllocator)
      ensures this.allocator == allocator
      ensures storage == [] && len == 0
    {
      storage, len := [], 0;
      this.allocator := allocator;
    }

    method Flush()
      requires State().Installable()
      modifies this, allocator
      ensures State() == old(State()).Flush()
    {
      ghost var before := State();
      var newLen := allocator.nextIndex;
      if newLen > |storage| {
        storage := storage + Empty(newLen - |storage|);
      }
      assert State() == before.Grow();
      var recycled := allocator.PopInstallable();
      while recycled.Some?
        invariant recycled.Some? ==>
          Unpopped(recycled.value).Waiting() && Unpopped(recycled.value).InstallAll() == before.Flush()
        invariant recycled.None? ==> State() == before.Flush()
        decreases recycled.Some?, |allocator.recycled|
      {
        ghost var unpopped := Unpopped(recycled.value);
        assert unpopped.alloc.recycled[1..] == allocator.recycled;
        storage := storage[recycled.value.index := Some(Entry(None, recycled.value.generation))];
        assert State() == unpopped.Install();
        recycled := allocator.PopInstallable();
      }
    }

    /** The table before the last pop. */
    ghost function Unpopped(id: AssetIndex): Table<A>
      reads this, allocator
    {
      State().(alloc := State().alloc.(recycled := [id] + allocator.recycled))
    }

    method Insert(index: AssetIndex, asset: A) returns (r: Result<bool, SlotError>)
      requires State().Installable()
      modifies this, allocator
      ensures var t := old(State()).Flush();
        if t.Hit(index) then State() == t.Put(index, asset) && r == Success(t.Get(index).Some?)
        else State() == t && r == Failure(t.Refusal(index))
    {
      Flush();
      if index.index >= |storage| {
        return Failure(OutOfBounds(index));
      }
      match storage[index.index]
      case None => r := Failure(Removed(index));
      case Some(entry) =>
        if entry.generation != index.generation {
          return Failure(Occupied(index, entry.generation));
        }
        var wasEmpty := entry.value.None?;
        if wasEmpty {
          len := len + 1;
        }
        storage := storage[index.index := Some(entry.(value := Some(asset)))];
        r := Success(!wasEmpty);
    }

    /** Removes the value and hands the slot back. An id beyond the table is an index panic in the
        source: here it returns `None` and changes nothing more. */
    method RemoveAndRecycle(index: AssetIndex) returns (r: Option<A>)
      requires State().Installable()
      modifies this, allocator
      ensures var t := old(State()).Flush();
        r == t.Get(index) && State() == if t.Hit(index) then t.Release(index) else t
    {
      Flush();
      if index.index >= |storage| || storage[index.index].None? {
        return None;
      }
      var entry := storage[index.index].value;
      if entry.generation != index.generation {
        return None;
      }
      r := entry.value;
      if r.Some? {
        len := len - 1;
      }
      storage := storage[index.index := None];
      allocator.Recycle(index);
    }

    method RemoveStillAlive(index: AssetIndex) returns (r: Option<A>)
      requires State().Installable()
      modifies this, allocator
      ensures var t := old(State()).Flush();
        r == t.Get(index) && State() == if t.Hit(index) then t.Take(index) else t
    {
      Flush();
      if index.index >= |storage| || storage[index.index].None? {
        return None;
      }
      var entry := storage[index.index].value;
      if entry.generation != index.generation {
        return None;
      }
      r := entry.value;
      if r.Some? {
        len := len - 1;
      }
      storage := storage[index.index := Some(entry.(value := None))];
    }

    method Lookup(index: AssetIndex) returns (r: Option<A>)
      ensures r == State().Get(index)
    {
      if index.index >= |storage| || storage[index.index].None? {
        return None;
      }
      var entry := storage[index.index].value;
      r := if entry.generation == index.generation then entry.value else None;
    }

    /** A write through `get_mut`. */
    method Overwrite(index: AssetIndex, asset: A)
      requires State().Get(index).Some?
      modifies this`storage
      ensures State() == old(State()).Put(index, asset)
    {
      storage := storage[index.index := Some(storage[index.index].value.(value := Some(asset)))];
    }

    /** The stored value, or `built` stored now; the flag says which. */
    method GetOrInsert(index: AssetIndex, built: A) returns (r: Result<(A, bool), SlotError>)
      requires State().Installable()
      modifies this, allocator
      ensures var t := old(State()).Flush();
        if !t.Hit(index) then State() == t && r == Failure(t.Refusal(index))
        else if t.Get(index).Some? then State() == t && r == Success((t.Get(index).value, false))
        else State() == t.Put(index, built) && r == Success((built, true))
    {
      Flush();
      if index.index >= |storage| {
        return Failure(OutOfBounds(index));
      }
      match storage[index.index]
      case None => r := Failure(Removed(index));
      case Some(entry) =>
        if entry.generation != index.generation {
          return Failure(Occupied(index, entry.generation));
        }
        if entry.value.Some? {
          r := Success((entry.value.value, false));
        } else {
          len := len + 1;
          storage := storage[index.index := Some(entry.(value := Some(built)))];
          r := Success((built, true));
        }
    }
  }
}
