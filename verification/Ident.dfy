/** Generational slot ids and the allocator that hands them out
    (crates/zlim-asset/src/ident.rs).

    `Alloc` is the allocator as a value. `PopRecycled`, `PushRecycled` and `TakeFresh` are the
    atomic accesses that `reserve` makes to the shared queues and counter, kept apart because
    other threads run between them; `AssetIndexAllocator` is the object that makes them. */
module Ident {
  import opened Wrappers

  /** The highest slot position `reserve` hands out. */
  const MAX_ASSET_INDEX: nat := 0x7FFF_FFFF

  /** A generation is a 32-bit counter: bumping it this many times brings it back. */
  const GENERATIONS: nat := 0x1_0000_0000

  datatype AssetIndex = AssetIndex(index: nat, generation: nat)

  /** The next generation of a slot, with the 32-bit wrap-around of `wrapping_add`. */
  function Bump(id: AssetIndex): AssetIndex {
    id.(generation := (id.generation + 1) % GENERATIONS)
  }

  /** The allocator as a value: `next` is the high-water mark, `queue` the slots waiting to be
      handed out again, `recycled` the bumped slots waiting to be installed by a flush. */
  datatype Alloc = Alloc(next: nat, queue: seq<AssetIndex>, recycled: seq<AssetIndex>)
  {
    function PopRecycled(): (Alloc, AssetIndex)
      requires queue != []
    {
      (this.(queue := queue[1..]), Bump(queue[0]))
    }

    function PushRecycled(id: AssetIndex): Alloc {
      this.(recycled := recycled + [id])
    }

    function TakeFresh(): (Alloc, nat) {
      (this.(next := next + 1), next)
    }

    function GiveBack(): Alloc
      requires next > 0
    {
      this.(next := next - 1)
    }

    function Recycle(id: AssetIndex): Alloc {
      this.(queue := queue + [id])
    }

    /** A whole `reserve` that no other thread interrupts; `None` stands for its panic. */
    function Reserve(): (Alloc, Option<AssetIndex>) {
      if queue != [] then
        var (popped, id) := PopRecycled();
        (popped.PushRecycled(id), Some(id))
      else
        var (taken, index) := TakeFresh();
        if index > MAX_ASSET_INDEX then (taken.GiveBack(), None)
        else (taken, Some(AssetIndex(index, 0)))
    }
  }

  class AssetIndexAllocator {
    var nextIndex: nat
    var recycledQueue: seq<AssetIndex>
    var recycled: seq<AssetIndex>

    function State(): Alloc
      reads this
    {
      Alloc(nextIndex, recycledQueue, recycled)
    }

    constructor ()
      ensures State() == Alloc(0, [], [])
    {
      nextIndex, recycledQueue, recycled := 0, [], [];
    }

    method Reserve() returns (r: Option<AssetIndex>)
      modifies this
      ensures (State(), r) == old(State()).Reserve()
    {
      if recycledQueue != [] {
        var id := Bump(recycledQueue[0]);
        recycledQueue := recycledQueue[1..];
        recycled := recycled + [id];
        return Some(id);
      }
      var index := nextIndex;
      nextIndex := nextIndex + 1;
      if index > MAX_ASSET_INDEX {
        nextIndex := nextIndex - 1;
        return None;
      }
      r := Some(AssetIndex(index, 0));
    }

    method Recycle(id: AssetIndex)
      modifies this`recycledQueue
      ensures State() == old(State()).Recycle(id)
    {
      recycledQueue := recycledQueue + [id];
    }

    /** One pop of the queue a flush drains. */
    method PopInstallable() returns (r: Option<AssetIndex>)
      modifies this`recycled
      ensures old(recycled) == [] ==> r == None && State() == old(State())
      ensures old(recycled) != [] ==> r.Some? && old(recycled) == [r.value] + recycled
      ensures nextIndex == old(nextIndex) && recycledQueue == old(recycledQueue)
    {
      if recycled == [] {
        return None;
      }
      r := Some(recycled[0]);
      recycled := recycled[1..];
    }
  }

  // ------------------------------------------------------------------------------------------
  // Reuse
  // ------------------------------------------------------------------------------------------

  datatype AllocStep = Hand(id: AssetIndex) | Ask

  /** The allocator after some calls, and the recycled slots it gave out again. */
  function AllocRun(a: Alloc, steps: seq<AllocStep>): (Alloc, seq<AssetIndex>) {
    if steps == [] then (a, [])
    else
      var (before, reused) := AllocRun(a, steps[..|steps| - 1]);
      match steps[|steps| - 1]
      case Hand(id) => (before.Recycle(id), reused)
      case Ask =>
        var (after, r) := before.Reserve();
        (after, if r.Some? && before.queue != [] then reused + [r.value] else reused)
  }

  /** The slots handed back, in order. */
  function Handed(steps: seq<AllocStep>): seq<AssetIndex> {
    if steps == [] then []
    else
      var last := steps[|steps| - 1];
      Handed(steps[..|steps| - 1]) + if last.Hand? then [last.id] else []
  }

  /** Of the slots in `back` the oldest were given out again, each at its next generation; the rest waits. */
  ghost predicate OldestReused(back: seq<AssetIndex>, reused: seq<AssetIndex>, queue: seq<AssetIndex>) {
    && |reused| <= |back| && queue == back[|reused|..]
    && forall k :: 0 <= k < |reused| ==>
         reused[k] == AssetIndex(back[k].index, (back[k].generation + 1) % GENERATIONS)
  }

  lemma OneMoreReused(back: seq<AssetIndex>, reused: seq<AssetIndex>, queue: seq<AssetIndex>)
    requires OldestReused(back, reused, queue) && queue != []
    ensures OldestReused(back, reused + [Bump(queue[0])], queue[1..])
  {
  }

  lemma OneMoreBack(back: seq<AssetIndex>, reused: seq<AssetIndex>, queue: seq<AssetIndex>, id: AssetIndex)
    requires OldestReused(back, reused, queue)
    ensures OldestReused(back + [id], reused, queue + [id])
  {
  }

  /** What was handed back is given out again oldest first, each slot at its next generation, and queued for
      the table in that order; what was not given out yet still waits. */
  lemma {:induction false} ReuseInOrder(a: Alloc, steps: seq<AllocStep>)
    ensures var (b, reused) := AllocRun(a, steps);
      OldestReused(a.queue + Handed(steps), reused, b.queue) && b.recycled == a.recycled + reused
  {
    if steps == [] {
      assert a.queue + [] == a.queue;
    } else {
      var front := steps[..|steps| - 1];
      ReuseInOrder(a, front);
      var (before, reused) := AllocRun(a, front);
      var back := a.queue + Handed(front);
      match steps[|steps| - 1]
      case Hand(id) =>
        OneMoreBack(back, reused, before.queue, id);
        assert a.queue + (Handed(front) + [id]) == back + [id];
      case Ask =>
        assert a.queue + (Handed(front) + []) == back;
        if before.queue != [] {
          OneMoreReused(back, reused, before.queue);
        }
    }
  }
}
