/** The change ticks of one asset type and the query filter over them
    (crates/zlim-asset/src/change.rs, with the event job of crates/zlim-asset/src/assets.rs). */
module AssetChange {
  import opened Wrappers
  import opened Ticks
  import opened Columns
  import opened AssetStore
  import opened AssetRuns

  datatype Changes = Changes(changed: map<AssetId, Tick>, lastChange: Tick)
  {
    function Insert(id: AssetId, tick: Tick): Changes {
      Changes(changed[id := tick], tick)
    }

    /** Dropping an entry is not a change. */
    function Remove(id: AssetId): Changes {
      this.(changed := changed - {id})
    }

    function Clamp(now: Tick): Changes {
      Changes(map id | id in changed :: ClampWith(changed[id], now), ClampWith(lastChange, now))
    }

    /** `update_table`: whether the rows of a table are looked at at all. */
    predicate UpdateTable(lastRun: Tick, thisRun: Tick) {
      !IsNewerThan(lastRun, lastChange, thisRun)
    }

    /** `filter`: whether a row that refers to `id` counts as changed. */
    predicate Filter(id: AssetId, lastRun: Tick, thisRun: Tick) {
      id in changed && IsNewerThan(changed[id], lastRun, thisRun)
    }

    /** Whether a query that last ran at `lastRun` gets to see the change of `id`. */
    predicate Sees(id: AssetId, lastRun: Tick, thisRun: Tick) {
      UpdateTable(lastRun, thisRun) && Filter(id, lastRun, thisRun)
    }
  }

  /** What one drained event does to the change table. */
  function Apply(changes: Changes, e: Event, thisRun: Tick): Changes {
    match e
    case Removed(id) => changes.Remove(id)
    case Unused(id) => changes.Remove(id)
    case Added(id) => changes.Insert(id, thisRun)
    case Modified(id) => changes.Insert(id, thisRun)
  }

  function ApplyAll(changes: Changes, events: seq<Event>, thisRun: Tick): Changes
    decreases |events|
  {
    if events == [] then changes
    else Apply(ApplyAll(changes, events[..|events| - 1], thisRun), events[|events| - 1], thisRun)
  }

  class AssetChanges {
    var changed: map<AssetId, Tick>
    var lastChange: Tick

    function State(): Changes
      reads this
    {
      Changes(changed, lastChange)
    }

    constructor ()
      ensures State() == Changes(map[], 0)
    {
      changed, lastChange := map[], 0;
    }

    method Insert(id: AssetId, tick: Tick)
      modifies this
      ensures State() == old(State()).Insert(id, tick)
    {
      lastChange := tick;
      changed := changed[id := tick];
    }

    method Remove(id: AssetId)
      modifies this
      ensures State() == old(State()).Remove(id)
    {
      changed := changed - {id};
    }

    /** The clamp job: `last_change` first, then every entry in some order. */
    method ClampAssetChanges(now: Tick)
      modifies this
      ensures State() == old(State()).Clamp(now)
    {
      lastChange := ClampWith(lastChange, now);
      ghost var before := changed;
      var todo := changed.Keys;
      while todo != {}
        invariant todo <= changed.Keys == before.Keys
        invariant forall id :: id in before ==>
          changed[id] == (if id in todo then before[id] else ClampWith(before[id], now))
        invariant lastChange == ClampWith(old(lastChange), now)
        decreases todo
      {
        var id :| id in todo;
        changed := changed[id := ClampWith(changed[id], now)];
        todo := todo - {id};
      }
    }
  }

  /** The job that drains the queued events: into the change table when there is one, and as a batch
      to the message queue. */
  method HandleAssetEvents<A>(assets: Assets<A>, changes: AssetChanges?, thisRun: Tick) returns (batch: seq<Event>)
    modifies assets`queuedEvents, changes
    ensures batch == old(assets.queuedEvents) && assets.queuedEvents == []
    ensures changes != null ==> changes.State() == ApplyAll(old(changes.State()), batch, thisRun)
  {
    batch := assets.queuedEvents;
    if changes != null {
      var k := 0;
      while k < |batch|
        invariant 0 <= k <= |batch|
        invariant changes.State() == ApplyAll(old(changes.State()), batch[..k], thisRun)
        invariant assets.queuedEvents == batch
      {
        assert batch[..k + 1][..k] == batch[..k];
        match batch[k] {
          case Removed(id) => changes.Remove(id);
          case Unused(id) => changes.Remove(id);
          case Added(id) => changes.Insert(id, thisRun);
          case Modified(id) => changes.Insert(id, thisRun);
        }
        k := k + 1;
      }
      assert batch[..k] == batch;
    }
    assets.queuedEvents := [];
  }

  /** Draining does to the keys what the runs of the asset store say it does. */
  lemma {:induction false} DrainKeys(changes: Changes, events: seq<Event>, thisRun: Tick)
    ensures ApplyAll(changes, events, thisRun).changed.Keys == DrainInto(changes.changed.Keys, events)
    decreases |events|
  {
    if events != [] {
      DrainKeys(changes, events[..|events| - 1], thisRun);
    }
  }

  // ------------------------------------------------------------------------------------------
  // Runs of the change table
  // ------------------------------------------------------------------------------------------

  /** The change table in a running world, with the stamp of the newest drain. `stamps` has the unbounded
      count at which each recorded id changed, and `drained` that of the newest change recorded at all. */
  datatype Tracked = Tracked(changes: Changes, now: nat, checked: nat, latest: nat, stamps: map<AssetId, nat>,
                             drained: Option<nat>)

  function Start(born: nat): Tracked {
    Tracked(Changes(map[], 0), born, born, born, map[], None)
  }

  /** `ClampPass` is the clamp job working off a signal, which carries the tick of the world's pass. */
  datatype ChangeStep = Record(e: Event, at: nat) | Pass(span: nat) | ClampPass(at: nat)

  predicate ChangeEnabled(c: Tracked, step: ChangeStep) {
    match step
    case Record(_, at) => c.latest <= at <= c.now && c.checked <= at
    case Pass(span) => c.now + span <= c.checked + WINDOW
    // nothing was drained since the signal was sent: `LateClampExactly` shows what that is for
    case ClampPass(at) => c.checked <= at <= c.now && c.latest <= at
  }

  function ChangeAfter(c: Tracked, step: ChangeStep): Tracked {
    match step
    case Record(e, at) =>
      if e.Added? || e.Modified? then
        c.(changes := Apply(c.changes, e, Wrap(at)), latest := at, stamps := c.stamps[e.id := at], drained := Some(at))
      else c.(changes := Apply(c.changes, e, Wrap(at)), stamps := c.stamps - {e.id})
    case Pass(span) => c.(now := c.now + span)
    case ClampPass(at) => c.(changes := c.changes.Clamp(Wrap(at)), checked := at)
  }

  ghost predicate ChangesLegal(start: Tracked, steps: seq<ChangeStep>)
    decreases |steps|
  {
    steps != [] ==> ChangeEnabled(start, steps[0]) && ChangesLegal(ChangeAfter(start, steps[0]), steps[1..])
  }

  ghost function ChangesRun(start: Tracked, steps: seq<ChangeStep>): Tracked
    requires ChangesLegal(start, steps)
    decreases |steps|
  {
    if steps == [] then start else ChangesRun(ChangeAfter(start, steps[0]), steps[1..])
  }

  /** The table's `last_change` plays the part of a column's summary. */
  function AsSummary(c: Tracked): Live {
    Live(Rows([], [], Some(c.changes.lastChange)), c.now, c.checked, c.latest)
  }

  ghost predicate TrackedOk(c: Tracked) {
    && c.latest <= c.now && c.checked <= c.now <= c.checked + WINDOW
    && (forall id :: id in c.changes.changed ==> TickOk(AsSummary(c), c.changes.changed[id]))
    && (c.changes.changed != map[] ==> SummaryOk(AsSummary(c)))
  }

  /** The id that was recorded carries the tick the table says, and every other one its old tick. */
  lemma RecordKeeps(c: Tracked, e: Event, at: nat)
    requires TrackedOk(c) && ChangeEnabled(c, Record(e, at))
    ensures TrackedOk(ChangeAfter(c, Record(e, at)))
  {
    var c' := ChangeAfter(c, Record(e, at));
    if e.Added? || e.Modified? {
      AgeOfStamp(c.now, at);
      assert SummaryOk(AsSummary(c'));
      forall id | id in c'.changes.changed ensures TickOk(AsSummary(c'), c'.changes.changed[id]) {
        if id != e.id {
          OldTickKept(AsSummary(c), AsSummary(c').rows, at, c.changes.changed[id]);
        }
      }
    }
  }

  lemma PassKeeps(c: Tracked, span: nat)
    requires TrackedOk(c) && ChangeEnabled(c, Pass(span))
    ensures TrackedOk(ChangeAfter(c, Pass(span)))
  {
    var c' := ChangeAfter(c, Pass(span));
    if c.changes.changed != map[] {
      var some :| some in c.changes.changed;
      assert TickOk(AsSummary(c), c.changes.changed[some]);
      AgeAdvances(c.now, span, c.changes.lastChange);
    }
    forall id | id in c'.changes.changed ensures TickOk(AsSummary(c'), c'.changes.changed[id]) {
      AgeAdvances(c.now, span, c.changes.changed[id]);
    }
  }

  lemma ClampKeeps(c: Tracked, at: nat)
    requires TrackedOk(c) && ChangeEnabled(c, ClampPass(at))
    ensures TrackedOk(ChangeAfter(c, ClampPass(at)))
  {
    var c' := ChangeAfter(c, ClampPass(at));
    AgeAfterLateClamp(c.now, at, c.changes.lastChange);
    forall id | id in c'.changes.changed ensures TickOk(AsSummary(c'), c'.changes.changed[id]) {
      assert TickOk(AsSummary(c), c.changes.changed[id]);
      AgeAfterLateClamp(c.now, at, c.changes.changed[id]);
    }
  }

  lemma TrackedStep(c: Tracked, step: ChangeStep)
    requires TrackedOk(c) && ChangeEnabled(c, step)
    ensures TrackedOk(ChangeAfter(c, step))
  {
    match step
    case Record(e, at) => RecordKeeps(c, e, at);
    case Pass(span) => PassKeeps(c, span);
    case ClampPass(at) => ClampKeeps(c, at);
  }

  lemma {:induction false} TrackedRuns(start: Tracked, steps: seq<ChangeStep>)
    requires TrackedOk(start) && ChangesLegal(start, steps)
    ensures TrackedOk(ChangesRun(start, steps))
    decreases |steps|
  {
    if steps != [] {
      TrackedStep(start, steps[0]);
      TrackedRuns(ChangeAfter(start, steps[0]), steps[1..]);
    }
  }

  // ------------------------------------------------------------------------------------------
  // What a rejection means
  // ------------------------------------------------------------------------------------------

  /** Whatever the baseline, a table that is rejected has no row that would be accepted. */
  ghost predicate RejectsSoundly(changes: Changes, now: Tick) {
    forall id: AssetId, lastRun: Tick ::
      !changes.UpdateTable(lastRun, now) ==> !changes.Filter(id, lastRun, now)
  }

  predicate NotNewer(changes: Changes, now: Tick, id: AssetId)
    requires id in changes.changed
  {
    Cap(RelativeTo(now, changes.lastChange)) <= Cap(RelativeTo(now, changes.changed[id])) + 1
  }

  /** Rejections are sound exactly when no recorded tick is newer than `last_change`, but for the one
      tick that the check gives away by asking whether the last run is newer than it. */
  lemma RejectsSoundlyExactly(changes: Changes, now: Tick)
    ensures RejectsSoundly(changes, now) <==> forall id :: id in changes.changed ==> NotNewer(changes, now, id)
  {
    if RejectsSoundly(changes, now) {
      forall id | id in changes.changed ensures NotNewer(changes, now, id) {
        // a baseline one tick older than the row's change would accept the row
        var age := Cap(RelativeTo(now, changes.changed[id])) + 1;
        var lastRun := RelativeTo(now, age);
        assert RelativeTo(now, lastRun) == age;
        assert changes.UpdateTable(lastRun, now) || !changes.Filter(id, lastRun, now);
      }
    }
  }

  /** The clamp job may come late: it clamps at the tick `at` of its signal. Sound rejections stay sound
      exactly when `last_change` is not younger than the signal, or every recorded tick is younger than
      it or, to one tick, as old as ticks count. */
  lemma LateRejectsExactly(changes: Changes, now: nat, at: nat)
    requires at <= now <= at + WINDOW && RejectsSoundly(changes, Wrap(now))
    ensures RejectsSoundly(changes.Clamp(Wrap(at)), Wrap(now)) <==>
      (now - at <= RelativeTo(Wrap(now), changes.lastChange) ||
       forall id :: id in changes.changed ==>
         || RelativeTo(Wrap(now), changes.changed[id]) < now - at
         || RelativeTo(Wrap(now), changes.changed[id]) >= MAX_TICK_AGE - 1)
  {
    var clamped := changes.Clamp(Wrap(at));
    RejectsSoundlyExactly(changes, Wrap(now));
    RejectsSoundlyExactly(clamped, Wrap(now));
    AgeAfterLateClamp(now, at, changes.lastChange);
    forall id | id in changes.changed
      ensures RelativeTo(Wrap(now), clamped.changed[id]) ==
        LateAge(RelativeTo(Wrap(now), changes.changed[id]), now - at)
    {
      AgeAfterLateClamp(now, at, changes.changed[id]);
    }
    assert forall id :: id in changes.changed ==> NotNewer(changes, Wrap(now), id);
    assert clamped.changed.Keys == changes.changed.Keys;
    forall id | id in changes.changed
      ensures NotNewer(clamped, Wrap(now), id) <==>
        (now - at <= RelativeTo(Wrap(now), changes.lastChange)
         || RelativeTo(Wrap(now), changes.changed[id]) < now - at
         || RelativeTo(Wrap(now), changes.changed[id]) >= MAX_TICK_AGE - 1)
    {
    }
  }

  /** Every query sees after the clamp what it saw before. */
  ghost predicate SameSight(changes: Changes, changes': Changes, now: Tick) {
    forall id: AssetId, lastRun: Tick :: changes'.Sees(id, lastRun, now) <==> changes.Sees(id, lastRun, now)
  }

  /** No change is younger than the signal; and `last_change` is not, unless all changes are so old that no
      query can tell. */
  predicate OldEnough(changes: Changes, now: Tick, lag: nat, id: AssetId)
    requires id in changes.changed
  {
    && lag <= RelativeTo(now, changes.changed[id])
    && (lag <= RelativeTo(now, changes.lastChange) || RelativeTo(now, changes.changed[id]) >= MAX_TICK_AGE - 1)
  }

  /** A tick that is `age` old at `now`. */
  lemma Aged(now: Tick, age: nat) returns (t: Tick)
    requires age < MODULUS
    ensures RelativeTo(now, t) == age
  {
    t := RelativeTo(now, age);
  }

  /** What queries see of one id, by ages: `last` of `last_change`, `own` of the id's tick, and `base` of the
      query's last run. */
  predicate SeesAt(last: nat, own: nat, base: nat) {
    Cap(last) <= Cap(base) && Cap(own) < Cap(base)
  }

  lemma LateAges(last: nat, own: nat, lag: nat)
    requires lag <= WINDOW
    ensures (forall base: nat :: base < MODULUS ==>
               (SeesAt(LateAge(last, lag), LateAge(own, lag), base) <==> SeesAt(last, own, base))) <==>
      lag <= own && (lag <= last || own >= MAX_TICK_AGE - 1)
  {
    if own < MAX_TICK_AGE {
      // the latest last run that still sees the change
      var base := if Cap(last) <= own then own + 1 else Cap(last);
      assert SeesAt(last, own, base);
    }
  }

  /** A late clamp leaves every query's sight alone if and only if no recorded change is younger than the
      signal, and `last_change` is not either unless all are as old as ticks count, to one tick. So nothing
      may have been drained between signal and clamp. */
  lemma LateClampExactly(changes: Changes, now: nat, at: nat)
    requires at <= now <= at + WINDOW
    ensures SameSight(changes, changes.Clamp(Wrap(at)), Wrap(now)) <==>
      forall id :: id in changes.changed ==> OldEnough(changes, Wrap(now), now - at, id)
  {
    forall id ensures SameFor(changes, changes.Clamp(Wrap(at)), Wrap(now), id) <==>
      (id in changes.changed ==> OldEnough(changes, Wrap(now), now - at, id))
    {
      if id in changes.changed {
        LateClampOf(changes, now, at, id);
      }
    }
  }

  ghost predicate SameFor(changes: Changes, changes': Changes, now: Tick, id: AssetId) {
    forall lastRun: Tick :: changes'.Sees(id, lastRun, now) <==> changes.Sees(id, lastRun, now)
  }

  lemma LateClampOf(changes: Changes, now: nat, at: nat, id: AssetId)
    requires at <= now <= at + WINDOW && id in changes.changed
    ensures SameFor(changes, changes.Clamp(Wrap(at)), Wrap(now), id) <==> OldEnough(changes, Wrap(now), now - at, id)
  {
    var clamped, lag := changes.Clamp(Wrap(at)), now - at;
    var last, own := RelativeTo(Wrap(now), changes.lastChange), RelativeTo(Wrap(now), changes.changed[id]);
    AgeAfterLateClamp(now, at, changes.lastChange);
    AgeAfterLateClamp(now, at, changes.changed[id]);
    LateAges(last, own, lag);
    forall lastRun: Tick
      ensures changes.Sees(id, lastRun, Wrap(now)) <==> SeesAt(last, own, RelativeTo(Wrap(now), lastRun))
      ensures clamped.Sees(id, lastRun, Wrap(now)) <==>
        SeesAt(LateAge(last, lag), LateAge(own, lag), RelativeTo(Wrap(now), lastRun))
    {
    }
    if SameFor(changes, clamped, Wrap(now), id) {
      forall base: nat | base < MODULUS
        ensures SeesAt(LateAge(last, lag), LateAge(own, lag), base) <==> SeesAt(last, own, base)
      {
        var lastRun := Aged(Wrap(now), base);
        assert clamped.Sees(id, lastRun, Wrap(now)) <==> changes.Sees(id, lastRun, Wrap(now));
      }
    }
  }

  /** A drain between signal and clamp: the last change, at tick 110, is taken for ancient at tick 120,
      and a query that last ran at tick 80 skips the change of tick 90. */
  lemma LateClampCanHide(first: AssetId, second: AssetId)
    requires first != second
    ensures var changes := Changes(map[first := 90, second := 110], 110);
      && RejectsSoundly(changes, 120) && changes.Sees(first, 80, 120)
      && !changes.Clamp(100).UpdateTable(80, 120) && changes.Clamp(100).Filter(first, 80, 120)
  {
    RejectsSoundlyExactly(Changes(map[first := 90, second := 110], 110), 120);
  }

  /** The clamp can also lose the change itself: drained at tick 110, clamped at 100, it is ancient at tick
      120 for the filter too. */
  lemma LateClampCanLose(id: AssetId)
    ensures var changes := Changes(map[id := 110], 110);
      && changes.Sees(id, 80, 120)
      && !changes.Clamp(100).UpdateTable(80, 120) && !changes.Clamp(100).Filter(id, 80, 120)
  {
  }

  /** On every run that drains in order and works off clamp signals on schedule, before the next drain,
      a table that `update_table` rejects has no row that `filter` would accept. */
  lemma RejectIsSound(born: nat, steps: seq<ChangeStep>)
    requires ChangesLegal(Start(born), steps)
    ensures var c := ChangesRun(Start(born), steps);
      RejectsSoundly(c.changes, Wrap(c.now))
  {
    TrackedRuns(Start(born), steps);
    var c := ChangesRun(Start(born), steps);
    forall id | id in c.changes.changed ensures NotNewer(c.changes, Wrap(c.now), id) {
      assert TickOk(AsSummary(c), c.changes.changed[id]);
    }
    RejectsSoundlyExactly(c.changes, Wrap(c.now));
  }

  // ------------------------------------------------------------------------------------------
  // What queries see
  // ------------------------------------------------------------------------------------------

  /** Every recorded tick stands for the stamp of the last change of its id. */
  ghost predicate StampedRight(c: Tracked) {
    && c.changes.changed.Keys == c.stamps.Keys
    && (forall id :: id in c.stamps ==> c.stamps[id] <= c.latest)
    && c.latest <= c.now
    && (forall id :: id in c.stamps ==> StandsFor(c.changes.changed[id], c.stamps[id], c.now, c.checked))
    && (c.drained.Some? ==>
          c.drained.value <= c.latest && StandsFor(c.changes.lastChange, c.drained.value, c.now, c.checked))
  }

  /** A clamp at an older tick, if nothing was written since. */
  lemma StandsLateClamped(t: Tick, stamp: nat, now: nat, checked: nat, at: nat)
    requires StandsFor(t, stamp, now, checked) && stamp <= at && checked <= at <= now
    ensures StandsFor(ClampWith(t, Wrap(at)), stamp, now, at)
  {
    AgeAfterLateClamp(now, at, t);
  }

  lemma StampStands(c: Tracked, step: ChangeStep, id: AssetId)
    requires StampedRight(c) && ChangeEnabled(c, step) && c.checked <= c.now <= c.checked + WINDOW
    requires id in ChangeAfter(c, step).stamps
    ensures var c' := ChangeAfter(c, step);
      id in c'.changes.changed && StandsFor(c'.changes.changed[id], c'.stamps[id], c'.now, c'.checked)
  {
    match step
    case Record(e, at) =>
      if id == e.id {
        StandsNew(c.now, c.checked, at);
      }
    case Pass(span) => StandsLater(c.changes.changed[id], c.stamps[id], c.now, c.checked, span);
    case ClampPass(at) => StandsLateClamped(c.changes.changed[id], c.stamps[id], c.now, c.checked, at);
  }

  lemma StampsKept(c: Tracked, step: ChangeStep)
    requires StampedRight(c) && ChangeEnabled(c, step) && c.checked <= c.now <= c.checked + WINDOW
    ensures StampedRight(ChangeAfter(c, step))
  {
    var c' := ChangeAfter(c, step);
    forall id | id in c'.stamps ensures StandsFor(c'.changes.changed[id], c'.stamps[id], c'.now, c'.checked) {
      StampStands(c, step, id);
    }
    if c'.drained.Some? {
      DrainedStands(c, step);
    }
  }

  lemma DrainedStands(c: Tracked, step: ChangeStep)
    requires StampedRight(c) && ChangeEnabled(c, step) && c.checked <= c.now <= c.checked + WINDOW
    requires ChangeAfter(c, step).drained.Some?
    ensures var c' := ChangeAfter(c, step);
      c'.drained.value <= c'.latest && StandsFor(c'.changes.lastChange, c'.drained.value, c'.now, c'.checked)
  {
    match step
    case Record(e, at) => StandsNew(c.now, c.checked, at);
    case Pass(span) => StandsLater(c.changes.lastChange, c.drained.value, c.now, c.checked, span);
    case ClampPass(at) => StandsLateClamped(c.changes.lastChange, c.drained.value, c.now, c.checked, at);
  }

  lemma {:induction false} StampedRuns(start: Tracked, steps: seq<ChangeStep>)
    requires TrackedOk(start) && StampedRight(start) && ChangesLegal(start, steps)
    ensures StampedRight(ChangesRun(start, steps))
    decreases |steps|
  {
    if steps != [] {
      StampsKept(start, steps[0]);
      TrackedStep(start, steps[0]);
      StampedRuns(ChangeAfter(start, steps[0]), steps[1..]);
    }
  }

  /** On every such run a query sees the change of an id exactly when the id changed, by unbounded stamps
      and capped age, after the query's last run; `lastRun` is the query's own tick, which stands for the
      stamp of that run. */
  lemma SeesByStamps(born: nat, steps: seq<ChangeStep>, id: AssetId, lastRun: Tick, ran: nat)
    requires ChangesLegal(Start(born), steps)
    requires var c := ChangesRun(Start(born), steps); StandsFor(lastRun, ran, c.now, c.checked)
    ensures var c := ChangesRun(Start(born), steps);
      && (id in c.stamps ==> c.stamps[id] <= c.now)
      && (c.drained.Some? ==>
            && c.drained.value <= c.now
            && (c.changes.UpdateTable(lastRun, Wrap(c.now)) <==> !IsNewerStamp(ran, c.drained.value, c.now)))
      && (c.changes.Filter(id, lastRun, Wrap(c.now)) <==> id in c.stamps && IsNewerStamp(c.stamps[id], ran, c.now))
      && (c.changes.Sees(id, lastRun, Wrap(c.now)) <==> id in c.stamps && IsNewerStamp(c.stamps[id], ran, c.now))
  {
    StampedRuns(Start(born), steps);
    RejectIsSound(born, steps);
    var c := ChangesRun(Start(born), steps);
    assert id in c.stamps ==> StandsFor(c.changes.changed[id], c.stamps[id], c.now, c.checked);
  }
}
