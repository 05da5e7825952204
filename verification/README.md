# zlim: asset store, change ticks, entity forests, plugins and asset paths

This project models the state-carrying core of zlim, an entity-component engine written in Rust, and
proves what its parts promise each other. Methods with loops and fields stand for the code that works
step by step; functions and state machines say what they compute; lemmas say what holds over all inputs
and all runs.

**Assets** (`Ident`, `AssetTables`, `AssetStore`, `AssetRuns`, `AssetEvents`, `AssetTheorems`,
`AssetValues`). A shared
allocator hands out slots with generations, a dense table stores values, strong handles post an event
when they die, and a job drains those events and hands slots back. `AssetStore` has the objects.
`AssetRuns` puts them into one world with threads that reserve ids, drop handles and send handles away
between any two accesses the store makes: reserving a recycled slot is a pop and a push that a flush can
come between. `Sound` is what every run keeps, and `AssetTheorems` draws the conclusions.

**Ticks** (`Ticks`, `Columns`, `AssetChange`). Wrapped 32-bit ticks with a periodic clamp, compared with
unbounded stamps over every run; the summary of a column and the `last_change` of the change table, which
must never hide a change.

**Forests** (`Forests`, `SceneBuilder`, `SceneListing`, `SceneDocument`, `SpawnPlan`, `SceneSpawn`,
`SpawnShape`, `SceneRoundTrip`, `CloneLinks`, `CloneRun`). Selecting entities, listing them parents first,
turning the listing into a document, spawning the document in depth order, and cloning entities with a
worklist. A forest is well-formed when parent links, child lists and the root set agree and some ranking
grows along parent links. A component is present through the entity references it carries.

**Plugins** (`PluginOrder`, `PluginLists`, `PluginConstraints`, `PluginBuild`, `PluginObjects`, `Plugins`,
`AppBuild`). Registration with duplicate strategies, the build loop over a list that grows while it is walked, applying in dependency order, and the stages of
a whole app. What a plugin's `build` does is a list of actions.

**Asset paths** (`PathText`, `PathComponents`, `PathResolve`). Parsing and printing
`[source://]path[#label]`, dot segments, and the two routes of resolving. The label is called `tag`.

## Findings

- `Column::move_item_to` sets the summary of the column it moves to, even when that makes it older
  (table/column.rs:378-385). The summary then can hide a change: `Columns.MoveInKeeps` says exactly when.
- Two clamp passes may lie `2 * CHECK_CYCLE + 1` ticks apart and no more (`Ticks.SafeGapExactly`).
- A document that names an undeclared parent does not spawn the entity as a root, as the comment at
  scene.rs:1131-1133 says: planning treats it as one, and the look-up at scene.rs:1170 panics
  (`SpawnShape.UndeclaredIsNoTop`). A document spawns exactly when every parent it names is declared.
- While a plugin is being built, a covering duplicate of a later plugin takes over the placeholder's slot
  (app.rs:414-422), and the build ends in a panic: `PluginBuild.CoverPanics` is such a list,
  `PluginLists.TurnKeeps` says exactly when for one turn and `PluginBuild.BuildsExactly` for the loop.
- `resolve_str(s)` and resolving the parsed `s` differ on texts that start with `#` and are more than one
  label: with the debug checks one accepts such a text and the other rejects it, without them they can
  resolve it differently. `PathResolve.RoutesAgreeExactly` says exactly when they agree.
- `resolve_embed` takes the component before a last `.` for the file name, so against `a/b/.` it resolves as
  against `a/b` (path.rs:694-699): `PathResolve.EmbedOntoDot`.
- Resolving promises normalization (path.rs:604), but happens to normalize only when there is a `..`
  (path.rs:715-719): `./c` against an empty base stays `./c` (`PathResolve.DotStays`), and
  `PathResolve.NormalUnlessDot` says exactly when a result is in normal form.
- The job that clamps the change table uses the tick of a queued signal (change.rs:87-97). What was drained
  between signal and clamp is taken for ancient: the quick check can hide an older change
  (`AssetChange.LateClampCanHide`), and the drained change itself is lost (`AssetChange.LateClampCanLose`).
  `AssetChange.LateClampExactly` says exactly when queries keep seeing what they saw.

## Model

| member | source | states |
|---|---|---|
| `Ident.AssetIndexAllocator.Reserve` | crates/zlim-asset/src/ident.rs:262-286 | a recycled slot comes back at its next generation and is queued for the table, otherwise a fresh slot until the 31-bit space is used up |
| `Ident.AssetIndexAllocator.Recycle` | crates/zlim-asset/src/ident.rs:289-291 | the id joins the queue of recycled slots and nothing else changes |
| `Ident.AssetIndexAllocator.PopInstallable` | crates/zlim-asset/src/assets.rs:76-80 | one pop of the queue that a flush drains, in order |
| `Ident.ReuseInOrder` | crates/zlim-asset/src/ident.rs:262-291 | whatever calls come, slots handed back are given out again oldest first, each once and at its next generation, and queued for the table in that order |
| `AssetTables.AssetTable.Flush` | crates/zlim-asset/src/assets.rs:68-81 | the table grows to the allocator's counter and takes in every queued slot at its generation |
| `AssetTables.AssetTable.Insert` | crates/zlim-asset/src/assets.rs:83-108 | stores exactly when the slot is at the id's generation; otherwise the error names why and nothing but the flush happens |
| `AssetTables.AssetTable.RemoveAndRecycle` | crates/zlim-asset/src/assets.rs:112-127 | takes the value out, empties the slot and hands it back |
| `AssetTables.AssetTable.RemoveStillAlive` | crates/zlim-asset/src/assets.rs:131-142 | takes the value out and leaves the slot to its id |
| `AssetTables.AssetTable.Lookup` | crates/zlim-asset/src/assets.rs:144-154 | the value, exactly when the id is at the slot's generation |
| `AssetTables.AssetTable.GetOrInsert` | crates/zlim-asset/src/assets.rs:157-185 | the stored value, or the built one stored now, or the refusal |
| `AssetTables.ViewLookup` | crates/zlim-asset/src/assets.rs:144-154 | looking up is looking up in the map from ids to values |
| `AssetTables.ViewUpdates` | crates/zlim-asset/src/assets.rs:83-142 | storing, emptying and releasing are the map's update and removal at that id |
| `AssetTables.HoldersCount` | crates/zlim-asset/src/assets.rs:296-298 | the count of stored values is the number of ids that hold one |
| `AssetStore.AssetHandleProvider.Post` | crates/zlim-asset/src/handle.rs:43-51 | the death of a strong handle queues one event and does nothing else |
| `AssetStore.Handle.Drop` | crates/zlim-asset/src/handle.rs:43-51 | the death of a handle posts its own id to its provider and does nothing else |
| `AssetStore.AssetHandleProvider.ReserveHandle` | crates/zlim-asset/src/handle.rs:147-155 | a new handle names a slot reserved for it alone |
| `AssetStore.AssetHandleProvider.TryRecv` | crates/zlim-asset/src/handle.rs:105-107 | takes the oldest event |
| `AssetStore.Assets.Insert` | crates/zlim-asset/src/assets.rs:308-328 | stores under the id and announces `Added` or `Modified`, or refuses and announces nothing |
| `AssetStore.Assets.Add` | crates/zlim-asset/src/assets.rs:334-346 | the first handle of a fresh slot, the value under its id and one `Added`; null and nothing stored when no slot is left or the reserved one does not take the value |
| `AssetStore.Assets.Remove` | crates/zlim-asset/src/assets.rs:366-376 | removes, and announces `Removed` exactly when there was a value |
| `AssetStore.Assets.RemoveUntracked` | crates/zlim-asset/src/assets.rs:380-385 | removes without an announcement |
| `AssetStore.Assets.RemoveDropped` | crates/zlim-asset/src/assets.rs:398-416 | one drop event takes a duplicate off the counter, or ends the id: `Unused`, then `Removed` if there was a value |
| `AssetStore.Assets.TrackAssets` | crates/zlim-asset/src/assets.rs:864-878 | the job treats the queued events one by one in the order they were posted |
| `AssetStore.Assets.ResolveHandle` | crates/zlim-asset/src/assets.rs:511-538 | a second handle for a live id exactly, on the same channel and counted as a duplicate |
| `AssetStore.Assets.GetOrInsert` | crates/zlim-asset/src/assets.rs:429-456 | the stored value, or the built one stored and announced |
| `AssetStore.Assets.UseGuard` | crates/zlim-asset/src/assets.rs:482-497 | the value a guard was got for, overwritten and announced once if the guard is used mutably; otherwise nothing |
| `AssetStore.Assets.DropGuard` | crates/zlim-asset/src/assets.rs:592-600 | one `Modified` if the guard was used mutably, otherwise nothing |
| `AssetRuns.PartitionStep` | crates/zlim-asset/src/ident.rs:262-291 | whatever step comes next, every slot below the counter stays in exactly one place |
| `AssetRuns.InstallKeeps` | crates/zlim-asset/src/assets.rs:76-80 | a flush installs onto an empty slot only |
| `AssetRuns.LiveThread` | crates/zlim-asset/src/ident.rs:262-286 | how the steps of a reservation change which ids are live |
| `AssetRuns.ConservedStep` | crates/zlim-asset/src/assets.rs:398-416 | every step keeps handles plus pending events equal to one plus the duplicate counter for every live id, and zero for every other |
| `AssetRuns.SoundStep` | crates/zlim-asset/src/assets.rs:864-878 | every enabled step of threads, storage and job keeps the whole invariant |
| `AssetRuns.SoundRuns` | crates/zlim-asset/src/assets.rs:253-265 | every run that starts from the empty store is sound at its end |
| `AssetTheorems.HandlesConserved` | crates/zlim-asset/src/handle.rs:132-156 | a live id has as many handles and pending events as one plus its counter, an id that is not live has none |
| `AssetTheorems.HandleNamesItsSlot` | crates/zlim-asset/src/handle.rs:43-51 | a strong handle never names a recycled slot or another generation, and addresses its entry after a flush |
| `AssetTheorems.RecycledAtLastEvent` | crates/zlim-asset/src/assets.rs:398-416 | an id stops being live only by recycling, and that is decided exactly at the last thing that refers to it |
| `AssetTheorems.FlushIsInvisible` | crates/zlim-asset/src/assets.rs:68-81 | a flush overwrites no value, changes no look-up, keeps the partition, and then exactly live ids hit their slots |
| `AssetTheorems.FlushIsARun` | crates/zlim-asset/src/assets.rs:68-81 | the flush method does what a run of one resize and single installs does |
| `AssetTheorems.OperationIsARun` | crates/zlim-asset/src/assets.rs:308-385 | what the methods promise for storing and removing, the flush of a slot id included, is a run that goes on from any given one, grows its log by what they queue, and leaves the rest of the world as it was; so the run theorems speak about sequences of calls |
| `AssetTheorems.GetOrInsertIsARun` | crates/zlim-asset/src/assets.rs:429-456 | the same for looking up or building a value |
| `AssetTheorems.UseGuardIsARun` | crates/zlim-asset/src/assets.rs:482-497 | the same for a guard that was used to overwrite a value |
| `AssetTheorems.ResolveHandleIsARun` | crates/zlim-asset/src/assets.rs:511-538 | the same for upgrading an id, which adds a handle exactly when it succeeds |
| `AssetTheorems.ReserveIsARun` | crates/zlim-asset/src/ident.rs:262-286 | an undisturbed reservation goes on from any run by its atomic accesses: one more id waits for its handle, and the history has it |
| `AssetTheorems.AddIsARun` | crates/zlim-asset/src/assets.rs:334-346 | the same for adding a value: the slot takes the value, nothing is replaced, and its first handle is there |
| `AssetTheorems.RemoveDroppedIsARun` | crates/zlim-asset/src/assets.rs:398-416 | the same for one processed drop event |
| `AssetTheorems.TrackAssetsIsARun` | crates/zlim-asset/src/assets.rs:864-878 | the same for draining all queued drop events, after which none is queued |
| `AssetTheorems.ReservedSlotAccepts` | crates/zlim-asset/src/assets.rs:340-346 | a slot that was just reserved is empty once flushed, so storing into it cannot fail or replace |
| `AssetTheorems.LenIsExact` | crates/zlim-asset/src/assets.rs:290-298 | on every run `len` is the number of stored values, so its decrements never underflow |
| `AssetTheorems.TableIsAMap` | crates/zlim-asset/src/assets.rs:83-142 | on sound stores storing succeeds exactly for live ids and touches that id alone, and so does removal |
| `AssetTheorems.NoIdIssuedTwice` | crates/zlim-asset/src/ident.rs:262-286 | while no slot was reused 2^32 times no id was handed out twice |
| `AssetTheorems.StaleIdMisses` | crates/zlim-asset/src/assets.rs:83-154 | until then an id whose slot was handed out again reads nothing and stores nothing |
| `AssetTheorems.IdIssuedTwiceAfterWrap` | crates/zlim-asset/src/ident.rs:262-291 | the bound is exact: some run with 2^32 reuses hands one id out twice |
| `AssetTheorems.LogDeterminesPresence` | crates/zlim-asset/src/assets.rs:316-416 | replaying the announced events gives exactly the ids that hold a value, and every event fits what came before |
| `AssetTheorems.ChangeTableIsPresence` | crates/zlim-asset/src/assets.rs:829-849 | after a drain the keys of the change table are exactly the ids that hold a value |
| `AssetTheorems.UnusedExactlyOnce` | crates/zlim-asset/src/assets.rs:398-416 | an id that was handed back has one `Unused`, a live one none, and after it comes at most one `Removed`, at once |
| `AssetValues.StoreIsAMap` | crates/zlim-asset/src/assets.rs:308-385 | slot ids and keys alike: an accepted insert or a write through a guard makes the value what looking the id up gives, a removal makes that nothing, and no other id is touched |
| `AssetValues.RetireForgets` | crates/zlim-asset/src/assets.rs:398-416 | handing a slot back forgets the value of that id and of no other |
| `AssetValues.FlushKeepsValues` | crates/zlim-asset/src/assets.rs:68-81 | a flush changes what no id, slot or key, gives |
| `AssetValues.LookupIsLastStored` | crates/zlim-asset/src/assets.rs:308-416 | on every run looking an id up gives what was last stored or written under it, unless it was removed or its slot handed back since |
| `AssetValues.ChangesAnnounced` | crates/zlim-asset/src/assets.rs:316-416 | every step but an untracked removal announces `Added` and `Removed` exactly when a value comes or goes, and `Modified` whenever one becomes another |
| `AssetValues.ResolveTells` | crates/zlim-asset/src/assets.rs:511-538 | what upgrading an id answers, and that it counts one duplicate exactly when it gives a strong handle |
| `AssetValues.RefusalTells` | crates/zlim-asset/src/assets.rs:83-108 | why a slot that was handed out refuses an id: it waits to be handed out again, or belongs to the id that is current |
| `AssetValues.DuplicatesBounded` | crates/zlim-asset/src/assets.rs:525-533 | on every run no slot has more upgraded handles than the limit |
| `AssetEvents.LoggedRuns` | crates/zlim-asset/src/assets.rs:316-416 | the facts about the event log hold over every run |
| `AssetEvents.EmittedFits` | crates/zlim-asset/src/assets.rs:316-328 | an announced event says what its step does to presence |
| `Ticks.AtomicTick.Set` | crates/zlim-core/src/tick.rs:223-233 | the tick stored afterwards is the one given, whether or not a write happened |
| `Ticks.AtomicTick.ClampAt` | crates/zlim-core/src/tick.rs:245-251 | an age above the maximum is set back to it, any other tick stays |
| `Ticks.AgeAfterClamp` | crates/zlim-core/src/tick.rs:171-177 | clamping caps the age and nothing else |
| `Ticks.FaithfulRuns` | crates/zlim-core/src/tick.rs:123-177 | on every run of writes, advances and clamp passes within the window each stored tick keeps the capped age of its unbounded stamp |
| `Ticks.WrappedIsUnbounded` | crates/zlim-core/src/tick.rs:153-166 | on those runs the wrapped comparison of any two stored ticks answers as the unbounded one by capped age |
| `Ticks.NewerExactly` | crates/zlim-core/src/tick.rs:153-166 | newer by capped age means later in plain counts, and less than the maximal age ago |
| `Ticks.ClampChangesNoAnswer` | crates/zlim-core/src/tick.rs:171-177 | a clamp pass changes no answer, now or at any time before the next pass is due |
| `Ticks.SafeGapExactly` | crates/zlim-core/src/tick.rs:36-40 | a gap between passes is safe if and only if it is at most `2 * CHECK_CYCLE + 1` |
| `Ticks.ThrottleExactly` | crates/zlim-core/src/world/mod.rs:576-583 | a pass clamps every stored tick exactly when `CHECK_CYCLE` ticks, by the unbounded count, went by since the last one that did, and otherwise does nothing |
| `Ticks.ThrottleKeepsWindow` | crates/zlim-core/src/world/mod.rs:576-583 | asking for a pass every `CHECK_CYCLE + 2` ticks keeps the gaps within the window, although the throttle skips passes |
| `Ticks.LateClamp` | crates/zlim-core/src/tick.rs:171-177 | what a clamp against an outdated `now` does to a newer stamp, exactly |
| `Ticks.AgeAfterLateClamp` | crates/zlim-core/src/tick.rs:171-177 | the age that any tick shows after a clamp that comes up to a window late, exactly |
| `Ticks.ZeroTickIsOldest` | crates/zlim-core/src/tick.rs:42-57 | when a place that was never written counts as never written, exactly |
| `Columns.Column.InitItem` | crates/zlim-core/src/table/column.rs:259-266 | the row carries the tick, and so does the summary |
| `Columns.Column.MarkAddedAndChanged` | crates/zlim-core/src/table/column.rs:226-230 | both ticks of the row and the summary carry the tick |
| `Columns.Column.SetAdded` | crates/zlim-core/src/borrow.rs:1150-1153 | the added tick of the row and the summary |
| `Columns.Column.SetChanged` | crates/zlim-core/src/borrow.rs:1156-1159 | the change tick of the row and the summary |
| `Columns.Column.MarkAllChanged` | crates/zlim-core/src/borrow.rs:1338-1343 | the change ticks of the covered rows, and the summary |
| `Columns.Column.ClampTicks` | crates/zlim-core/src/table/column.rs:392-399 | every tick of the rows and the summary is clamped |
| `Columns.Column.SwapRemove` | crates/zlim-core/src/table/column.rs:344-365 | the last row moves into the gap and the summary stays |
| `Columns.Column.MoveItemTo` | crates/zlim-core/src/table/column.rs:378-385 | the row arrives with its ticks, and its change tick becomes the summary |
| `Columns.NeverHidesExactly` | crates/zlim-core/src/borrow.rs:1194-1199 | a summary hides no change from any query if and only if no tick of the column is newer |
| `Columns.SummaryNeverHides` | crates/zlim-core/src/borrow.rs:1388-1430 | over every run of ordered writes, splits, iterations, removals, clamp passes and row moves that meet the condition of `MoveInKeeps`, a negative quick answer means that no row is reported |
| `Columns.RowsByStamps` | crates/zlim-core/src/table/column.rs:226-399 | over every run of writes, marks, removals, moves and clamp passes each row is reported added or changed exactly when its last such write came after the query's last run, by unbounded counts and capped age; so does the summary for the last write to the column |
| `Columns.MoveInKeeps` | crates/zlim-core/src/table/column.rs:378-385 | a moved row leaves the promise intact if and only if no tick already there, nor the row's own, is newer than its change tick |
| `Columns.MoveInCanHide` | crates/zlim-core/src/table/column.rs:378-385 | a concrete column where the moved row hides a change |
| `AssetChange.AssetChanges.Insert` | crates/zlim-asset/src/change.rs:57-60 | the id's tick and `last_change` are the given tick |
| `AssetChange.AssetChanges.Remove` | crates/zlim-asset/src/change.rs:66-68 | the id is forgotten and `last_change` stays |
| `AssetChange.AssetChanges.ClampAssetChanges` | crates/zlim-asset/src/change.rs:87-97 | every recorded tick and `last_change` is clamped, whatever the order |
| `AssetChange.HandleAssetEvents` | crates/zlim-asset/src/assets.rs:829-849 | draining applies the queued events in order and sends them on as one batch |
| `AssetChange.DrainKeys` | crates/zlim-asset/src/assets.rs:829-849 | what draining does to the keys is what the runs of the asset store say |
| `AssetChange.RejectIsSound` | crates/zlim-asset/src/change.rs:215-284 | on every run that works off clamp signals before the next drain, however late, a table that the quick check rejects has no row that the filter would accept |
| `AssetChange.SeesByStamps` | crates/zlim-asset/src/change.rs:215-284 | on those runs check and filter together show a query the change of an id if and only if its last drained change is newer, by unbounded stamps and capped age, than the query's last run, and the check alone rejects exactly when the last run is newer than the last drained change |
| `AssetChange.RejectsSoundlyExactly` | crates/zlim-asset/src/change.rs:241-282 | rejections hide nothing if and only if no recorded tick is more than one tick newer than `last_change` |
| `AssetChange.LateClampExactly` | crates/zlim-asset/src/change.rs:87-97 | a clamp at the tick of an older signal leaves what every query sees alone if and only if no recorded change is younger than the signal, and `last_change` is not either unless all recorded changes are as old as ticks count |
| `AssetChange.LateRejectsExactly` | crates/zlim-asset/src/change.rs:87-97 | such a clamp keeps the quick check in step with the clamped filter if and only if `last_change` is no younger than the signal, or every recorded tick is younger than it or as old as ticks count |
| `AssetChange.LateClampCanHide` | crates/zlim-asset/src/change.rs:87-97 | concrete changes where a clamp that comes after a drain makes the check reject a row that the filter accepts |
| `AssetChange.LateClampCanLose` | crates/zlim-asset/src/change.rs:87-97 | a concrete change, drained between signal and clamp, that check and filter both lose |
| `Forests.World.TrySpawnEmpty` | crates/zlim-core/src/entity/entities.rs:636-704 | a missing parent changes nothing; otherwise a fresh entity at the end of the children or among the roots |
| `Forests.World.RemoveOne` | crates/zlim-core/src/entity/entities.rs:560-611 | the forest that is left, and that it is well-formed if it was before |
| `Forests.RemoveKeeps` | crates/zlim-core/src/entity/entities.rs:560-611 | removing an entity keeps the forest well-formed, takes out that entity alone, and leaves every parent link but those of its children, which become roots |
| `Forests.RemovedNode` | crates/zlim-core/src/entity/entities.rs:560-611 | each other entity keeps its references, and exactly its children but the removed one, in their order |
| `Forests.World.SpawnUninit` | crates/zlim-core/src/ops/world/uninit.rs:48-99 | an entity with a placeholder parent that nobody lists |
| `Forests.SpawnKeeps` | crates/zlim-core/src/entity/entities.rs:636-704 | spawning keeps a forest well-formed |
| `Forests.RemoveUndoesSpawn` | crates/zlim-core/src/entity/entities.rs:560-611 | removing an entity right after spawning it restores the forest |
| `SceneBuilder.Select` | crates/zlim-core/src/scene.rs:867-926 | an entity is selected if and only if the last request that concerns it takes it in; when no request leaves out, what earlier requests selected comes first; a demanded entity that is missing is the error, the first one |
| `SceneBuilder.SelectionExactly` | crates/zlim-core/src/scene.rs:882-905 | an entity is selected exactly when some request takes it in, by name or by what it lies below, and no later request leaves it out |
| `SceneBuilder.FailsExactly` | crates/zlim-core/src/scene.rs:887-897 | selecting fails exactly when some request names an entity to take in that is not there |
| `SceneBuilder.SwapRemovedExactly` | crates/zlim-core/src/scene.rs:906-924 | leaving a key out puts the last key in its place and moves no other |
| `SceneBuilder.Walk` | crates/zlim-core/src/scene.rs:898-904 | the queue terminates and visits exactly what lies below its start |
| `SceneBuilder.SubtreeIsChildren` | crates/zlim-core/src/scene.rs:889-905 | a subtree is its top and what lies below its children |
| `SceneBuilder.RootsCoverAll` | crates/zlim-core/src/scene.rs:869-881 | everything lies below some root |
| `SceneListing.ListFrom` | crates/zlim-core/src/scene.rs:950-996 | the stack lists what is selected below a top, parents first and siblings in world order, and skips the rest |
| `SceneListing.ListAll` | crates/zlim-core/src/scene.rs:933-996 | the listing has every selected entity once, parents first, siblings in world order, depth first, the tops in the order of the keys, a parent exactly when that is selected |
| `SceneListing.NothingLeft` | crates/zlim-core/src/scene.rs:933-996 | an acyclic forest leaves no selected entity unlisted |
| `SceneListing.Finish` | crates/zlim-core/src/scene.rs:858-999 | the whole builder: the listing, depth first, of exactly the entities that the last request concerning them takes in, its tops by the first request that selected them when none leaves out, or the first missing entity |
| `SceneDocument.SceneEntityMapper.GetMapped` | crates/zlim-core/src/scene.rs:79-95 | ids are handed out 1, 2, 3 and a source keeps its id |
| `SceneDocument.IntoDynamic` | crates/zlim-core/src/scene.rs:1008-1053 | the document is the listing under a one-to-one renaming whose listed entities come first and in order, and which numbers what the listing mentions and nothing else |
| `SpawnPlan.BuildIndex` | crates/zlim-core/src/scene.rs:1121-1126 | where each id sits, the last place winning |
| `SpawnPlan.IndexOfExactly` | crates/zlim-core/src/scene.rs:1121-1126 | an id sits at a place exactly when it is declared there and not again after it |
| `SpawnPlan.AboveExactly` | crates/zlim-core/src/scene.rs:1134-1147 | an entity hangs below the last declaration of the id it names, unless that is the entity itself |
| `SpawnPlan.Families` | crates/zlim-core/src/scene.rs:1134-1147 | every entity is listed under the one it hangs below, or among the tops |
| `SpawnPlan.Depths` | crates/zlim-core/src/scene.rs:1149-1158 | the walk terminates on every document, cycles included, and gives exactly the entities that reach a top their distance to it |
| `SpawnPlan.SortByDepth` | crates/zlim-core/src/scene.rs:1165-1166 | a permutation, stable, shallow entities first |
| `SpawnPlan.ParentFirst` | crates/zlim-core/src/scene.rs:1128-1133 | a parent comes earlier if and only if its child reaches a top or is declared later |
| `SpawnShape.TurnsFollowPlan` | crates/zlim-core/src/scene.rs:1165-1184 | for every document: an entity is attached to the one it hangs below if and only if it reaches a top or is declared later, and otherwise goes below the outer parent |
| `SpawnShape.UndeclaredIsNoTop` | crates/zlim-core/src/scene.rs:1131-1171 | a document whose undeclared parent is planned as no parent and still does not spawn |
| `SpawnShape.GrownShape` | crates/zlim-core/src/scene.rs:1165-1184 | the forest after spawning, entity by entity: parents, ordered children, roots, and what was there before |
| `SpawnShape.SpawnedParent` | crates/zlim-core/src/scene.rs:1168-1184 | for every document that spawns: an entity is the child of what the last declaration of the id it names has become, if that was spawned before it, and otherwise of the outer parent |
| `SpawnShape.SpawnedRefs` | crates/zlim-core/src/scene.rs:1190-1203 | for every document that spawns: a reference becomes the entity last spawned for that id, without one itself if it is alive, and otherwise the placeholder; what was there keeps what it refers to |
| `SceneSpawn.DropSpawned` | crates/zlim-core/src/scene.rs:1098-1102 | despawning in reverse restores the forest exactly, whatever components were filled in, each entity being childless in its turn |
| `SceneSpawn.SpawnEmpty` | crates/zlim-core/src/scene.rs:1160-1184 | the spawning pass: all entities attached as planned, or after a refusal the forest there was before, or the panic on an undeclared parent |
| `SceneSpawn.FillComponents` | crates/zlim-core/src/scene.rs:1186-1232 | every entity before the first whose components fail gets its references resolved, and nothing else changes |
| `SceneSpawn.SpawnDynamicScene` | crates/zlim-core/src/scene.rs:1090-1235 | a missing parent, a refused spawn or failing components leave the world valid and as it was; otherwise it is valid and grew by the document, if and only if all named parents are declared |
| `SceneRoundTrip.FamilyCopied` | crates/zlim-core/src/scene.rs:1165-1184 | the children of a copy are the copies of the selected children, in world order |
| `SceneRoundTrip.RefCopied` | crates/zlim-core/src/template/context.rs:181-189 | a reference inside the selection leads to the copy, any other to the placeholder |
| `SceneRoundTrip.SpawnCopies` | crates/zlim-core/src/scene.rs:1008-1235 | spawning the document of a listing adds an isomorphic copy of the selected part, and leaves the rest as it was but for the new tops |
| `SceneRoundTrip.ListingMentions` | crates/zlim-core/src/scene.rs:1008-1053 | the entities numbered for a document are those selected and those they refer to |
| `SceneRoundTrip.CopyScene` | crates/zlim-core/src/scene.rs:858-1235 | the whole way from requests to the copy, on every forest and every request list: the target holds an isomorphic copy of the entities that the last request concerning them takes in, its tops in the order of the listing and, when no request leaves out, of the requests, if the selection mentions fewer than 2^32 entities; if it is refused the target is unchanged, and valid either way |
| `CloneLinks.CloneKeeps` | crates/zlim-core/src/clone.rs:1025-1041 | whatever is cloned, repeated inputs included, links, child lists and roots stay a well-formed forest |
| `CloneLinks.ParentAfter` | crates/zlim-core/src/clone.rs:1025-1041 | old entities keep their parents, a clone gets what its source's parent is mapped to |
| `CloneLinks.CloneParent` | crates/zlim-core/src/clone.rs:1025-1041 | after a run, repeated inputs included, a clone hangs below the last clone of its source's parent if that was cloned, else below the parent; old entities keep theirs |
| `CloneLinks.CloneRefs` | crates/zlim-core/src/clone.rs:991-1016 | after a run, repeated inputs included, a clone refers to the last clone of what its source refers to if that was cloned, else to the same entity; old entities keep their references |
| `CloneLinks.CloneFamilies` | crates/zlim-core/src/clone.rs:1025-1041 | after a run every entity has the children it had, and behind them the clones that hang below it in cloning order |
| `CloneLinks.CloneChildren` | crates/zlim-core/src/clone.rs:1025-1041 | after a run the children of a clone are exactly the clones of the cloned children, and a cloned entity keeps its own |
| `CloneLinks.ChildrenAfter` | crates/zlim-core/src/clone.rs:1034-1037 | old children first, then the clones in cloning order |
| `CloneLinks.ForgetNext` | crates/zlim-core/src/ops/world/forget.rs:32-47 | forgetting a clone that nobody lists takes out that clone alone |
| `CloneRun.ClosedExactly` | crates/zlim-core/src/clone.rs:973-984 | a set is closed exactly when it has every input, and with each entity everything that entity defers |
| `CloneRun.EntityCloner.Enqueue` | crates/zlim-core/src/clone.rs:973-984 | deferred entities that are neither cloned nor waiting join the end of the queue, once each and in their order |
| `CloneRun.JoiningInOrder` | crates/zlim-core/src/clone.rs:973-984 | what joins the queue are the deferred entities not known yet, each once, in the order of first mention |
| `CloneRun.EntityCloner.CloneAll` | crates/zlim-core/src/clone.rs:857-985 | the worklist terminates, clones exactly the least set that holds the inputs and is closed under deferrals, in the order of the queue, inputs first, each once for distinct inputs; the first dead entity in the queue ends it and leaves the world valid and as it was |
| `CloneRun.EntityCloner.MapReferences` | crates/zlim-core/src/clone.rs:991-1016 | every reference of every clone is mapped, clone by clone; `CloneLinks.CloneRefs` says to what |
| `CloneRun.EntityCloner.Relink` | crates/zlim-core/src/clone.rs:1023-1041 | the hierarchy is completed clone by clone |
| `CloneRun.EntityCloner.Run` | crates/zlim-core/src/clone.rs:796-1086 | the whole run: a valid world, the least closed set cloned in the order of the queue, each input answered with its clone, or the panic on the first dead entity and a valid, unchanged world |
| `CloneRun.AnswersDiffer` | crates/zlim-core/src/clone.rs:1076-1079 | each input is answered with its last clone, and distinct inputs get distinct ones |
| `PluginOrder.NoCycleInOrder` | crates/zlim-app/src/app.rs:556-588 | a graph that has a dependency order has no cycle |
| `PluginOrder.StuckHasCycle` | crates/zlim-app/src/app.rs:557-583 | when no plugin is ready some of them depend on each other in a circle |
| `PluginLists.AddKeepsList` | crates/zlim-app/src/app.rs:400-428 | before the build: a new type gets the last slot, a covering duplicate the slot of its type, and only `Panic` duplicates panic |
| `PluginLists.ScriptKeeps` | crates/zlim-app/src/app.rs:414-424 | during a build: no slot changes its type if no later plugin is covered, and the slot is lost for good if one is |
| `PluginLists.TurnKeeps` | crates/zlim-app/src/app.rs:515-542 | one turn of the build loop ends well if and only if its script runs through and covers no later plugin |
| `PluginObjects.AddObjects` | crates/zlim-app/src/app.rs:400-428 | before the build: a new object gets the last slot, a covering one the slot of its type, and every other slot keeps its object |
| `PluginObjects.LoopObjects` | crates/zlim-app/src/app.rs:505-544 | after any number of turns that end well the object of a type is the last one a script covered it with, or else the one from before the loop, or else the one first added |
| `PluginObjects.BuiltInTurn` | crates/zlim-app/src/app.rs:515-542 | each plugin is built as the object that is in its slot when its turn comes |
| `PluginBuild.BuildsExactly` | crates/zlim-app/src/app.rs:505-544 | the build loop comes to its end if and only if every script that has its turn runs through and covers no later plugin |
| `PluginBuild.TurnsKeep` | crates/zlim-app/src/app.rs:505-544 | after every turn the list is complete, holds exactly what was there and what built plugins add, and has the constraints asked for |
| `PluginBuild.AdditionsBuilt` | crates/zlim-app/src/app.rs:505-544 | a plugin that some built plugin adds is registered and built |
| `PluginBuild.OneEnd` | crates/zlim-app/src/app.rs:505-544 | the loop has one outcome |
| `PluginBuild.RunAdds` | crates/zlim-app/src/app.rs:400-428 | a script that runs through registers exactly what it adds |
| `PluginBuild.GentleBuilds` | crates/zlim-app/src/app.rs:505-544 | scripts that only skip duplicates and order what is there are always built |
| `PluginBuild.CoverPanics` | crates/zlim-app/src/app.rs:414-422 | a concrete list whose first plugin covers the second, and whose build panics |
| `PluginConstraints.RunEdges` | crates/zlim-app/src/app.rs:888-914 | a script that runs through keeps every constraint, makes those it asks for where both plugins are known, and no others |
| `PluginConstraints.ConstraintsNext` | crates/zlim-app/src/app.rs:515-542 | so does every turn of the build loop: what was registered before the build is never lost |
| `PluginConstraints.ConstraintRespected` | crates/zlim-app/src/app.rs:546-621 | in the order of application a constraint registered before the build puts its first plugin before its second |
| `PluginConstraints.CycleWasPossible` | crates/zlim-app/src/app.rs:556-588 | a circle found when plugins are applied is one of constraints that were registered or asked for |
| `Plugins.SubApp.AddPlugin` | crates/zlim-app/src/app.rs:400-428 | what registering a plugin does in each case, or its panic |
| `Plugins.SubApp.AddPluginOrder` | crates/zlim-app/src/app.rs:888-914 | the constraint is added exactly while adding is allowed and both plugins are registered |
| `Plugins.SubApp.BuildOne` | crates/zlim-app/src/app.rs:515-542 | one turn with the placeholder in place of the plugin |
| `Plugins.SubApp.BuildPlugins` | crates/zlim-app/src/app.rs:505-544 | the loop over its own growing list terminates; it goes through if and only if no turn fails, and then it has built one object of every type registered in the end, in installation order; the types are the least set with those from before and all that built plugins add, the constraints those from before and those asked for |
| `Plugins.SubApp.ApplyPlugins` | crates/zlim-app/src/app.rs:546-621 | every plugin once, after all it depends on, and the circular-dependency panic if and only if there is a cycle |
| `Plugins.SubApp.FinishPlugins` | crates/zlim-app/src/app.rs:623-662 | every plugin once, in installation order |
| `Plugins.SubApp.CleanupPlugins` | crates/zlim-app/src/app.rs:664-706 | every plugin once, in installation order, and then none is left |
| `AppBuild.App.Build` | crates/zlim-app/src/app.rs:756-821 | the calls of a whole build, in order, of exactly the lists that the build loop makes of those before it; it goes through if and only if every app's loop does and leaves no circle of constraints, for gentle programs whenever no circle is possible; a second build does nothing, and a nested one panics once the plugins are built |
| `AppBuild.TraceInTurn` | crates/zlim-app/src/app.rs:727-749 | no call happens twice; every app is built before it is applied and before the next app is touched, main first, and finishing and cleaning up are passes of their own |
| `AppBuild.TraceInOrder` | crates/zlim-app/src/app.rs:746-749 | within one app the plugins are called in installation order in every stage but `apply`, where they are called in the order that was found for their constraints |
| `AppBuild.TraceHolds` | crates/zlim-app/src/app.rs:724-726 | every plugin of every app goes through all four stages, and nothing else is called |
| `PathText.FindDelimiter` | crates/zlim-asset/src/path.rs:155-171 | the colon scan finds exactly the first `://` |
| `PathText.ParseInternal` | crates/zlim-asset/src/path.rs:146-226 | the pieces between the delimiters, or the first complaint about them |
| `PathText.Stringify` | crates/zlim-asset/src/path.rs:756-798 | source, path and label with their delimiters |
| `PathText.PrintUndoesParse` | crates/zlim-asset/src/path.rs:146-226 | printing any accepted text gives it back, debug checks or not |
| `PathText.RoundTripExactly` | crates/zlim-asset/src/path.rs:756-798 | with the checks, pieces survive printing and parsing if and only if they are well-formed |
| `PathText.AcceptedExactly` | crates/zlim-asset/src/path.rs:146-226 | with the checks, the accepted texts are exactly those that well-formed pieces print to |
| `PathText.UncheckedExactly` | crates/zlim-asset/src/path.rs:146-226 | without the checks, the accepted texts are exactly those that neither start with `://` nor end with `#` |
| `PathText.OutermostOnce` | crates/zlim-asset/src/path.rs:151-182 | there is one way to cut a text before the first `://` and behind the last `#` |
| `PathText.ParsesExactly` | crates/zlim-asset/src/path.rs:184-225 | a text parses to those pieces exactly when nothing is wrong with them; otherwise to the first fault, path before source before label |
| `PathText.ChecksOnlyReject` | crates/zlim-asset/src/path.rs:184-223 | what passes the debug checks parses the same without them |
| `PathComponents.PushAgrees` | crates/zlim-asset/src/path.rs:705-711 | pushing path texts is pushing their components |
| `PathComponents.FirstSegment` | crates/zlim-asset/src/utils.rs:216-235 | what a text without a slash stands for as components |
| `PathComponents.NextSegment` | crates/zlim-asset/src/utils.rs:216-235 | what one more segment adds, which with the former says it for any text |
| `PathComponents.NormalizePath` | crates/zlim-asset/src/utils.rs:216-235 | the result is the shortest path to where the path leads |
| `PathComponents.NormalizedExactly` | crates/zlim-asset/src/utils.rs:214-235 | normalizing keeps the place, and two paths normalize alike if and only if they lead to one place |
| `PathComponents.NormalizeTwice` | crates/zlim-asset/src/utils.rs:214-235 | idempotent |
| `PathComponents.NormalizeFront` | crates/zlim-asset/src/utils.rs:214-235 | normalizing a front part first makes no difference |
| `PathComponents.NormalizedIsShortest` | crates/zlim-asset/src/utils.rs:214-235 | no path to the same place is shorter |
| `PathComponents.NormalizedForm` | crates/zlim-asset/src/utils.rs:216-235 | a relative path normalizes to some `..` and then names |
| `PathComponents.IsUnapproved` | crates/zlim-asset/src/path.rs:581-596 | reports exactly the paths whose normal form starts with the root or with `..` |
| `PathResolve.ResolveFromParts` | crates/zlim-asset/src/path.rs:685-730 | what the parts of a path resolve to against a base; `PathResolve.ResolvesTo` and the lemmas on embedding say what that is |
| `PathResolve.Resolve` | crates/zlim-asset/src/path.rs:619-664 | a label-only path replaces the label, any other is resolved from its parts |
| `PathResolve.ResolveStr` | crates/zlim-asset/src/path.rs:732-745 | resolving a text directly, a leading `#` taken as a label unparsed |
| `PathResolve.RoutesAgreeExactly` | crates/zlim-asset/src/path.rs:619-745 | resolving a text and resolving what it parses to agree if and only if it does not start with `#` or is one pure label |
| `PathResolve.RoutesDiffer` | crates/zlim-asset/src/path.rs:732-745 | a concrete text where they differ, with the debug checks and without |
| `PathResolve.CheckedTextsAgree` | crates/zlim-asset/src/path.rs:619-745 | they agree on every text that passes the debug checks |
| `PathResolve.ResolvesTo` | crates/zlim-asset/src/path.rs:619-730 | source, label and components of the result: a label-only path replaces the label; any other keeps its own label and source, and is pushed onto the base as text, or counts from the top when it has a root or source; dot segments are collapsed exactly when there is a `..` |
| `PathResolve.ResolveLeads` | crates/zlim-asset/src/path.rs:598-605 | plain resolving leads where the path leads from the base, or from the top of the source, and no `..` that could be collapsed is left |
| `PathResolve.NormalUnlessDot` | crates/zlim-asset/src/path.rs:598-605 | plainly resolving a relative path gives a normal form if and only if there was a `..` to collapse or no `.` comes first |
| `PathResolve.DotStays` | crates/zlim-asset/src/path.rs:715-719 | a concrete path whose `.` stays |
| `PathResolve.EmbedOntoSlash` | crates/zlim-asset/src/path.rs:636-664 | against a base that ends in a slash embedded resolving is plain resolving |
| `PathResolve.EmbedDropsName` | crates/zlim-asset/src/path.rs:636-664 | against a base whose last segment is a name, or `..`, behind a slash it is plain resolving against the text up to that slash |
| `PathResolve.EmbedDropsAll` | crates/zlim-asset/src/path.rs:636-664 | against a base without a slash it is plain resolving against the empty path |
| `PathResolve.EmbedOntoDot` | crates/zlim-asset/src/path.rs:694-699 | a last segment `.` is no file name: dropping goes on with the text before it, trailing slashes left out |
| `PathResolve.ResolveStaysApproved` | crates/zlim-asset/src/path.rs:685-730 | an approved path against an approved base resolves to an approved one |

## Left out

- Server-managed handles: `track_assets` hands them to the asset server, which is not part of this model.
- Panics that the Rust code raises on an exhausted counter end an operation here with `None` or a null handle.
- AssetTables.AssetTable.RemoveAndRecycle: an id beyond the table is an index panic in the source; here it returns `None`. The same holds for the other removals; ids like that are never handed out.
- Iterators over the assets, typed ids by UUID beyond being ids of their own, and reflection.
- The atomic tick is modelled with one writer of a column at a time, as the engine schedules them; memory orderings are left out.
- Columns.Column.MarkAllChanged: raw slices and pointers are a range of rows of one column.
- Resource wrappers, whose `deref_mut` does not touch the summary.
- Forests.World.RemoveOne: despawning a subtree is modelled only for entities without children, which is all the failure path of a scene needs; storage rows and hooks are left out.
- Components are the entity references they carry; types, values and component hooks are left out, and a template that fails is an entity whose components fail as a whole.
- SceneBuilder.ListRoots: the root set is listed in any order, where the source lists it in ascending order; nothing proved depends on it.
- SceneBuilder.ApplyRequest: which keys `WithoutRecursive` moves is not stated beyond its single removals.
- SceneRoundTrip.CopyScene: promises the copy when the selection and what it refers to are fewer than 2^32 entities; beyond that document ids could be ids of live entities.
- CloneRun.EntityCloner.Run: needs deferrals to name entities that were there, alive or dead, before the run, since a cloner that defers its own clones never ends; callbacks are the remapping of references, and `recursive` has no effect of its own in the source either.
- CloneRun.EntityCloner.ForgetAll: in debug builds forgetting a clone that nobody lists trips a debug assertion; the release behaviour is modelled.
- Plugins.SubApp.RunBuild: a plugin's build is a list of additions and constraints that does not depend on other state of the app; worlds, schedules and runners are left out.
- AppBuild.App.Build: the sub-apps are given from the start, where the source lets the main app's plugins install them while they are built and applied; sub-apps are visited in the order of the list, which stands for any order.
- `contains_plugin` while plugins are applied, when the graph it reads shrinks.
- Windows separators and prefixes in paths, and encodings; `PathBuf` is its component sequence, as Rust compares paths.
- Typed handle text, colours, curves, task pools, logging and serialization formats.
