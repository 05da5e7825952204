/** The change ticks of one component column and the summary tick that lets a query skip the whole
    column (crates/zlim-core/src/borrow.rs, crates/zlim-core/src/table/column.rs). */
module Columns {
  import opened Wrappers
  import opened Ticks

  /** The ticks of a column as a value; a column without a summary has `None`. */
  datatype Rows = Rows(added: seq<Tick>, changed: seq<Tick>, summary: Option<Tick>)
  {
    predicate Valid() {
      |added| == |changed|
    }

    function Size(): nat {
      |changed|
    }

    /** The summary after a write at `at`. */
    function Summed(at: Tick): Option<Tick> {
      if summary.Some? then Some(at) else None
    }

    function Init(at: Tick): Rows {
      Rows(added + [at], changed + [at], Summed(at))
    }

    function SetAdded(i: nat, at: Tick): Rows
      requires i < |added|
    {
      this.(added := added[i := at], summary := Summed(at))
    }

    function SetChanged(i: nat, at: Tick): Rows
      requires i < |changed|
    {
      this.(changed := changed[i := at], summary := Summed(at))
    }

    function MarkBoth(i: nat, at: Tick): Rows
      requires i < |added| && i < |changed|
    {
      Rows(added[i := at], changed[i := at], Summed(at))
    }

    /** What giving out rows `lo` to `hi` of a mutable slice as a plain slice does. */
    function MarkSlice(lo: nat, hi: nat, at: Tick): Rows
      requires lo <= hi <= |changed|
    {
      this.(changed := Marked(changed, lo, hi, at), summary := Summed(at))
    }

    /** Removing a row moves the last one into its place and leaves the summary. */
    function SwapRemove(i: nat): Rows
      requires Valid() && i < Size()
    {
      var last := Size() - 1;
      this.(added := added[i := added[last]][..last], changed := changed[i := changed[last]][..last])
    }

    function Clamp(now: Tick): Rows {
      Rows(seq(|added|, k requires 0 <= k < |added| => ClampWith(added[k], now)),
           seq(|changed|, k requires 0 <= k < |changed| => ClampWith(changed[k], now)),
           if summary.Some? then Some(ClampWith(summary.value, now)) else None)
    }

    /** A row moved in from another table brings its ticks along, and its change tick becomes the
        summary. */
    function MoveIn(addedAt: Tick, changedAt: Tick): Rows {
      Rows(added + [addedAt], changed + [changedAt], Summed(changedAt))
    }

    /** `detect_summary`: `None` when the column keeps no summary. */
    function DetectSummary(lastRun: Tick, thisRun: Tick): Option<bool> {
      if summary.Some? then Some(IsNewerThan(summary.value, lastRun, thisRun)) else None
    }
  }

  function Marked(ticks: seq<Tick>, lo: nat, hi: nat, at: Tick): (r: seq<Tick>)
    requires lo <= hi <= |ticks|
    ensures |r| == |ticks| && forall i :: 0 <= i < |r| ==> r[i] == if lo <= i < hi then at else ticks[i]
  {
    ticks[..lo] + seq(hi - lo, _ => at) + ticks[hi..]
  }

  lemma MarkNext(ticks: seq<Tick>, lo: nat, k: nat, at: Tick)
    requires lo <= k < |ticks|
    ensures Marked(ticks, lo, k, at)[k := at] == Marked(ticks, lo, k + 1, at)
  {
  }

  class Column {
    var added: seq<Tick>
    var changed: seq<Tick>
    const summary: AtomicTick?

    function State(): Rows
      reads this, summary
    {
      Rows(added, changed, if summary == null then None else Some(summary.value))
    }

    constructor (withSummary: bool)
      ensures State() == Rows([], [], if withSummary then Some(0) else None)
      ensures fresh(this) && (summary != null ==> fresh(summary))
    {
      added, changed := [], [];
      if withSummary {
        summary := new AtomicTick(0);
      } else {
        summary := null;
      }
    }

    method InitItem(tick: Tick)
      modifies this, summary
      ensures State() == old(State()).Init(tick)
    {
      added, changed := added + [tick], changed + [tick];
      AtomicTick.TrySet(summary, tick);
    }

    method MarkAddedAndChanged(index: nat, tick: Tick)
      requires State().Valid() && index < State().Size()
      modifies this, summary
      ensures State() == old(State()).MarkBoth(index, tick)
    {
      added := added[index := tick];
      changed := changed[index := tick];
      AtomicTick.TrySet(summary, tick);
    }

    method SetAdded(index: nat, thisRun: Tick)
      requires State().Valid() && index < State().Size()
      modifies this, summary
      ensures State() == old(State()).SetAdded(index, thisRun)
    {
      added := added[index := thisRun];
      AtomicTick.TrySet(summary, thisRun);
    }

    method SetChanged(index: nat, thisRun: Tick)
      requires State().Valid() && index < State().Size()
      modifies this, summary
      ensures State() == old(State()).SetChanged(index, thisRun)
    {
      changed := changed[index := thisRun];
      AtomicTick.TrySet(summary, thisRun);
    }

    /** `mark_all_changed` on the part `lo..hi` of the column that a (split) slice covers. */
    method MarkAllChanged(lo: nat, hi: nat, thisRun: Tick)
      requires State().Valid() && lo <= hi <= State().Size()
      modifies this, summary
      ensures State() == old(State()).MarkSlice(lo, hi, thisRun)
    {
      AtomicTick.TrySet(summary, thisRun);
      ghost var before := changed;
      var k := lo;
      while k < hi
        invariant lo <= k <= hi && |changed| == |before| && added == old(added)
        invariant changed == Marked(before, lo, k, thisRun)
        invariant State().summary == old(State()).Summed(thisRun)
      {
        MarkNext(before, lo, k, thisRun);
        changed := changed[k := thisRun];
        k := k + 1;
      }
    }

    /** The clamp pass over the column, row by row. */
    method ClampTicks(now: Tick)
      requires State().Valid()
      modifies this, summary
      ensures State() == old(State()).Clamp(now)
    {
      if summary != null {
        summary.ClampAt(now);
      }
      ghost var before := old(State());
      var k := 0;
      while k < |changed|
        invariant |changed| == |added| == |before.added| == |before.changed|
        invariant 0 <= k <= |changed|
        invariant forall j :: 0 <= j < |changed| ==>
          changed[j] == (if j < k then ClampWith(before.changed[j], now) else before.changed[j])
        invariant forall j :: 0 <= j < |added| ==>
          added[j] == (if j < k then ClampWith(before.added[j], now) else before.added[j])
        invariant State().summary == before.Clamp(now).summary
      {
        added := added[k := ClampWith(added[k], now)];
        changed := changed[k := ClampWith(changed[k], now)];
        k := k + 1;
      }
    }

    method SwapRemove(index: nat)
      requires State().Valid() && index < State().Size()
      modifies this
      ensures State() == old(State()).SwapRemove(index)
    {
      var last := |changed| - 1;
      added := added[index := added[last]][..last];
      changed := changed[index := changed[last]][..last];
    }

    method MoveItemTo(other: Column, src: nat)
      requires other != this && State().Valid() && src < State().Size()
      modifies other, other.summary
      ensures other.State() == old(other.State()).MoveIn(old(added[src]), old(changed[src]))
    {
      other.added := other.added + [added[src]];
      other.changed := other.changed + [changed[src]];
      AtomicTick.TrySet(other.summary, changed[src]);
    }
  }

  // ------------------------------------------------------------------------------------------
  // What the summary may claim
  // ------------------------------------------------------------------------------------------

  /** A false summary really means that no row was added or changed in the window. */
  ghost predicate NeverHides(rows: Rows, now: Tick) {
    forall lastRun: Tick :: rows.DetectSummary(lastRun, now) == Some(false) ==> NothingNew(rows, lastRun, now)
  }

  ghost predicate NothingNew(rows: Rows, lastRun: Tick, now: Tick) {
    && (forall i :: 0 <= i < |rows.added| ==> !IsNewerThan(rows.added[i], lastRun, now))
    && (forall i :: 0 <= i < |rows.changed| ==> !IsNewerThan(rows.changed[i], lastRun, now))
  }

  /** Every tick of the column is at least as old as `t`, up to the cap. */
  ghost predicate CoveredBy(rows: Rows, t: Tick, now: Tick) {
    && (forall i :: 0 <= i < |rows.added| ==> Cap(RelativeTo(now, t)) <= Cap(RelativeTo(now, rows.added[i])))
    && (forall i :: 0 <= i < |rows.changed| ==> Cap(RelativeTo(now, t)) <= Cap(RelativeTo(now, rows.changed[i])))
  }

  /** A summary hides nothing exactly when no row is newer than it. */
  lemma NeverHidesExactly(rows: Rows, now: Tick)
    requires rows.summary.Some?
    ensures NeverHides(rows, now) <==> CoveredBy(rows, rows.summary.value, now)
  {
    if NeverHides(rows, now) {
      var s := rows.summary.value;
      // a baseline taken at the summary itself makes the summary report nothing
      assert rows.DetectSummary(s, now) == Some(false);
      assert NothingNew(rows, s, now);
      forall i | 0 <= i < |rows.added| ensures Cap(RelativeTo(now, s)) <= Cap(RelativeTo(now, rows.added[i])) {
        assert !IsNewerThan(rows.added[i], s, now);
      }
      forall i | 0 <= i < |rows.changed| ensures Cap(RelativeTo(now, s)) <= Cap(RelativeTo(now, rows.changed[i])) {
        assert !IsNewerThan(rows.changed[i], s, now);
      }
    }
  }

  // ------------------------------------------------------------------------------------------
  // Runs of one column
  // ------------------------------------------------------------------------------------------

  /** A column in a running world: `now` and `checked` count the world's ticks so far and at the
      last clamp pass, `latest` is the stamp of the newest write. */
  datatype Live = Live(rows: Rows, now: nat, checked: nat, latest: nat)

  /** Writers stamp `at`, the tick at which their system started. `Move` brings in a row with the ticks
      it has in another table, which stand for the unbounded counts `added` and `changed`. */
  datatype RowStep =
    | Init(at: nat)
    | Added(row: nat, at: nat)
    | Changed(row: nat, at: nat)
    | Both(row: nat, at: nat)
    | Slice(lo: nat, hi: nat, at: nat)
    | Drop(row: nat)
    | Move(addedAt: Tick, changedAt: Tick, added: nat, changed: nat)
    | Advance(span: nat)
    | Check

  predicate Writes(step: RowStep) {
    !(step.Drop? || step.Move? || step.Advance? || step.Check?)
  }

  /** Writers of one column follow one another: none carries an older tick than the one before. A row
      that moves in went through the same clamp passes, and into a column with a summary it moves only
      when nothing there is newer than its change, which `MoveInKeeps` shows to be what it takes. */
  ghost predicate RowEnabled(c: Live, step: RowStep) {
    && (Writes(step) ==> c.latest <= step.at <= c.now && c.checked <= step.at)
    && match step
       case Init(_) => true
       case Slice(lo, hi, _) => lo <= hi <= c.rows.Size()
       case Move(addedAt, changedAt, _, _) =>
         && Bounded(c, addedAt) && Bounded(c, changedAt)
         && (c.rows.summary.Some? ==>
               CoveredBy(c.rows, changedAt, Wrap(c.now)) && Cap(Age(c, changedAt)) <= Cap(Age(c, addedAt)))
       case Advance(span) => c.now + span <= c.checked + WINDOW
       case Check => true
       case _ => step.row < c.rows.Size()
  }

  /** A moved row counts as written when its change tick says. */
  function LatestWith(c: Live, changedAt: Tick): nat {
    if c.latest + Age(c, changedAt) < c.now then c.now - Age(c, changedAt) else c.latest
  }

  ghost function RowAfter(c: Live, step: RowStep): Live
    requires c.rows.Valid() && RowEnabled(c, step)
  {
    match step
    case Init(at) => c.(rows := c.rows.Init(Wrap(at)), latest := at)
    case Added(row, at) => c.(rows := c.rows.SetAdded(row, Wrap(at)), latest := at)
    case Changed(row, at) => c.(rows := c.rows.SetChanged(row, Wrap(at)), latest := at)
    case Both(row, at) => c.(rows := c.rows.MarkBoth(row, Wrap(at)), latest := at)
    case Slice(lo, hi, at) => c.(rows := c.rows.MarkSlice(lo, hi, Wrap(at)), latest := at)
    case Drop(row) => c.(rows := c.rows.SwapRemove(row))
    case Move(addedAt, changedAt, _, _) =>
      c.(rows := c.rows.MoveIn(addedAt, changedAt), latest := LatestWith(c, changedAt))
    case Advance(span) => c.(now := c.now + span)
    case Check => c.(rows := c.rows.Clamp(Wrap(c.now)), checked := c.now)
  }

  function Age(c: Live, t: Tick): nat {
    RelativeTo(Wrap(c.now), t)
  }

  /** Not older than the window lets a clamped tick get. */
  predicate Bounded(c: Live, t: Tick) {
    Age(c, t) <= MAX_TICK_AGE + (c.now - c.checked)
  }

  /** A tick of a row: not newer than the summary, which itself is not newer than the last write. */
  predicate TickOk(c: Live, t: Tick) {
    Bounded(c, t) && (c.rows.summary.Some? ==> Cap(Age(c, c.rows.summary.value)) <= Cap(Age(c, t)))
  }

  ghost predicate LiveOk(c: Live) {
    && c.rows.Valid() && c.latest <= c.now && c.checked <= c.now <= c.checked + WINDOW
    && (forall i :: 0 <= i < c.rows.Size() ==> TickOk(c, c.rows.added[i]) && TickOk(c, c.rows.changed[i]))
    && (c.rows.Size() > 0 && c.rows.summary.Some? ==> SummaryOk(c))
  }

  predicate SummaryOk(c: Live)
    requires c.rows.summary.Some?
  {
    && Bounded(c, c.rows.summary.value)
    && c.now - (if c.latest > c.checked then c.latest else c.checked) <= Age(c, c.rows.summary.value)
  }

  /** A write leaves each tick as it was or stamps it, and stamps the summary. */
  lemma WriteStamps(c: Live, step: RowStep)
    requires c.rows.Valid() && RowEnabled(c, step) && Writes(step)
    ensures var (rows, rows', w) := (c.rows, RowAfter(c, step).rows, Wrap(step.at));
      && rows'.Valid() && rows'.summary == rows.Summed(w)
      && Stamped(rows.added, rows'.added, w) && Stamped(rows.changed, rows'.changed, w)
      && RowAfter(c, step) == Live(rows', c.now, c.checked, step.at)
  {
  }

  /** The tick of a write in order is not older than any tick already there. */
  lemma OldTickKept(c: Live, rows: Rows, at: nat, t: Tick)
    requires c.latest <= at <= c.now && c.checked <= at && c.now <= c.checked + WINDOW
    requires TickOk(c, t) && (c.rows.summary.Some? ==> SummaryOk(c))
    requires rows.summary == c.rows.Summed(Wrap(at))
    ensures TickOk(Live(rows, c.now, c.checked, at), t)
    ensures Age(c, Wrap(at)) == c.now - at
  {
    AgeOfStamp(c.now, at);
  }

  /** Each tick is `w` or the one that was there. */
  ghost predicate Stamped(before: seq<Tick>, after: seq<Tick>, w: Tick) {
    forall i :: 0 <= i < |after| ==> after[i] == w || (i < |before| && after[i] == before[i])
  }

  lemma StampedOk(c: Live, rows: Rows, at: nat, before: seq<Tick>, after: seq<Tick>)
    requires c.latest <= at <= c.now && c.checked <= at && c.now <= c.checked + WINDOW
    requires (forall i :: 0 <= i < |before| ==> TickOk(c, before[i]))
    requires |before| > 0 && c.rows.summary.Some? ==> SummaryOk(c)
    requires rows.summary == c.rows.Summed(Wrap(at)) && Stamped(before, after, Wrap(at))
    ensures forall i :: 0 <= i < |after| ==> TickOk(Live(rows, c.now, c.checked, at), after[i])
  {
    AgeOfStamp(c.now, at);
    forall i | 0 <= i < |after| ensures TickOk(Live(rows, c.now, c.checked, at), after[i]) {
      if after[i] != Wrap(at) {
        OldTickKept(c, rows, at, before[i]);
      }
    }
  }

  lemma WriteKeeps(c: Live, step: RowStep)
    requires LiveOk(c) && RowEnabled(c, step) && Writes(step)
    ensures LiveOk(RowAfter(c, step))
  {
    var rows := RowAfter(c, step).rows;
    WriteStamps(c, step);
    AgeOfStamp(c.now, step.at);
    StampedOk(c, rows, step.at, c.rows.added, rows.added);
    StampedOk(c, rows, step.at, c.rows.changed, rows.changed);
  }

  lemma AdvanceKeeps(c: Live, span: nat)
    requires LiveOk(c) && RowEnabled(c, RowStep.Advance(span))
    ensures LiveOk(RowAfter(c, RowStep.Advance(span)))
  {
    var c' := RowAfter(c, RowStep.Advance(span));
    if c.rows.Size() > 0 {
      assert TickOk(c, c.rows.added[0]);
      if c.rows.summary.Some? {
        AgeAdvances(c.now, span, c.rows.summary.value);
      }
    }
    forall i | 0 <= i < c'.rows.Size() ensures TickOk(c', c'.rows.added[i]) && TickOk(c', c'.rows.changed[i]) {
      assert TickOk(c, c.rows.added[i]) && TickOk(c, c.rows.changed[i]);
      AgeAdvances(c.now, span, c.rows.added[i]);
      AgeAdvances(c.now, span, c.rows.changed[i]);
    }
  }

  lemma DropKeeps(c: Live, row: nat)
    requires LiveOk(c) && RowEnabled(c, Drop(row))
    ensures LiveOk(RowAfter(c, Drop(row)))
  {
    var c' := RowAfter(c, Drop(row));
    var last := c.rows.Size() - 1;
    assert TickOk(c, c.rows.added[last]) && TickOk(c, c.rows.changed[last]);
    forall i | 0 <= i < c'.rows.Size() ensures TickOk(c', c'.rows.added[i]) && TickOk(c', c'.rows.changed[i]) {
      assert TickOk(c, c.rows.added[i]) && TickOk(c, c.rows.changed[i]);
    }
  }

  lemma CheckKeeps(c: Live)
    requires LiveOk(c)
    ensures LiveOk(RowAfter(c, RowStep.Check))
  {
    var c' := RowAfter(c, RowStep.Check);
    forall i | 0 <= i < c'.rows.Size() ensures TickOk(c', c'.rows.added[i]) && TickOk(c', c'.rows.changed[i]) {
      assert TickOk(c, c.rows.added[i]) && TickOk(c, c.rows.changed[i]);
      AgeAfterClamp(Wrap(c.now), c.rows.added[i]);
      AgeAfterClamp(Wrap(c.now), c.rows.changed[i]);
    }
    if c.rows.summary.Some? {
      AgeAfterClamp(Wrap(c.now), c.rows.summary.value);
    }
  }

  lemma MoveKeeps(c: Live, step: RowStep)
    requires LiveOk(c) && step.Move? && RowEnabled(c, step)
    ensures LiveOk(RowAfter(c, step))
  {
    var c' := RowAfter(c, step);
    forall i | 0 <= i < c'.rows.Size() ensures TickOk(c', c'.rows.added[i]) && TickOk(c', c'.rows.changed[i]) {
      if i < c.rows.Size() {
        assert TickOk(c, c.rows.added[i]) && TickOk(c, c.rows.changed[i]);
      }
    }
  }

  lemma RowStepKeeps(c: Live, step: RowStep)
    requires LiveOk(c) && RowEnabled(c, step)
    ensures LiveOk(RowAfter(c, step))
  {
    match step
    case Drop(row) => DropKeeps(c, row);
    case Move(_, _, _, _) => MoveKeeps(c, step);
    case Advance(span) => AdvanceKeeps(c, span);
    case Check => CheckKeeps(c);
    case _ => WriteKeeps(c, step);
  }

  ghost predicate RowsLegal(start: Live, steps: seq<RowStep>)
    decreases |steps|
  {
    start.rows.Valid() &&
    (steps != [] ==> RowEnabled(start, steps[0]) && RowsLegal(RowAfter(start, steps[0]), steps[1..]))
  }

  ghost function RowsRun(start: Live, steps: seq<RowStep>): Live
    requires RowsLegal(start, steps)
    decreases |steps|
  {
    if steps == [] then start else RowsRun(RowAfter(start, steps[0]), steps[1..])
  }

  lemma {:induction false} LiveOkRuns(start: Live, steps: seq<RowStep>)
    requires LiveOk(start) && RowsLegal(start, steps)
    ensures LiveOk(RowsRun(start, steps))
    decreases |steps|
  {
    if steps != [] {
      RowStepKeeps(start, steps[0]);
      LiveOkRuns(RowAfter(start, steps[0]), steps[1..]);
    }
  }

  /** Quick rejects are sound: from an empty column created at any time, over every run of writes in
      order, splits, iterations, removals, moves and clamp passes on schedule, a summary that reports
      nothing means that no row was added or changed in the window. */
  lemma SummaryNeverHides(born: nat, summary: Option<Tick>, steps: seq<RowStep>)
    requires RowsLegal(Live(Rows([], [], summary), born, born, born), steps)
    ensures var c := RowsRun(Live(Rows([], [], summary), born, born, born), steps);
      NeverHides(c.rows, Wrap(c.now))
  {
    var start := Live(Rows([], [], summary), born, born, born);
    LiveOkRuns(start, steps);
    var c := RowsRun(start, steps);
    if c.rows.summary.Some? {
      forall i | 0 <= i < c.rows.Size()
        ensures Cap(Age(c, c.rows.summary.value)) <= Cap(Age(c, c.rows.added[i]))
        ensures Cap(Age(c, c.rows.summary.value)) <= Cap(Age(c, c.rows.changed[i]))
      {
        assert TickOk(c, c.rows.added[i]) && TickOk(c, c.rows.changed[i]);
      }
      NeverHidesExactly(c.rows, Wrap(c.now));
    }
  }

  // ------------------------------------------------------------------------------------------
  // What the ticks stand for
  // ------------------------------------------------------------------------------------------

  /** The unbounded counts at which each row was added and last changed, and that of the last write to the
      column, if there was one. */
  datatype Stamps = Stamps(added: seq<nat>, changed: seq<nat>, last: Option<nat>)

  /** What a step means for them. */
  function StampsAfter(st: Stamps, step: RowStep): Stamps {
    match step
    case Init(at) => Stamps(st.added + [at], st.changed + [at], Some(at))
    case Added(row, at) => st.(added := Rewritten(st.added, row, row + 1, at), last := Some(at))
    case Changed(row, at) => st.(changed := Rewritten(st.changed, row, row + 1, at), last := Some(at))
    case Both(row, at) =>
      Stamps(Rewritten(st.added, row, row + 1, at), Rewritten(st.changed, row, row + 1, at), Some(at))
    case Slice(lo, hi, at) => st.(changed := Rewritten(st.changed, lo, hi, at), last := Some(at))
    case Drop(row) => st.(added := LastInto(st.added, row), changed := LastInto(st.changed, row))
    case Move(_, _, added, changed) => Stamps(st.added + [added], st.changed + [changed], Some(changed))
    case Advance(_) => st
    case Check => st
  }

  /** The stamps from `lo` up to `hi` are new. */
  function Rewritten(stamps: seq<nat>, lo: nat, hi: nat, at: nat): seq<nat> {
    seq(|stamps|, i requires 0 <= i < |stamps| => if lo <= i < hi then at else stamps[i])
  }

  /** The last one takes the place of the one at `row`. */
  function LastInto(stamps: seq<nat>, row: nat): seq<nat> {
    if stamps == [] then []
    else
      var last := |stamps| - 1;
      seq(last, i requires 0 <= i < last => if i == row then stamps[last] else stamps[i])
  }

  function StampsRun(st: Stamps, steps: seq<RowStep>): Stamps
    decreases |steps|
  {
    if steps == [] then st else StampsRun(StampsAfter(st, steps[0]), steps[1..])
  }

  /** A row that moves in brings ticks that stand for its stamps. */
  ghost predicate MovesStand(c: Live, step: RowStep) {
    step.Move? ==>
      StandsFor(step.addedAt, step.added, c.now, c.checked) && StandsFor(step.changedAt, step.changed, c.now, c.checked)
  }

  ghost predicate StampedLegal(start: Live, steps: seq<RowStep>)
    decreases |steps|
  {
    start.rows.Valid() &&
    (steps != [] ==>
       && RowEnabled(start, steps[0]) && MovesStand(start, steps[0])
       && StampedLegal(RowAfter(start, steps[0]), steps[1..]))
  }

  lemma {:induction false} StampedIsLegal(start: Live, steps: seq<RowStep>)
    requires StampedLegal(start, steps)
    ensures RowsLegal(start, steps)
    decreases |steps|
  {
    if steps != [] {
      StampedIsLegal(RowAfter(start, steps[0]), steps[1..]);
    }
  }

  ghost predicate TicksStand(ticks: seq<Tick>, stamps: seq<nat>, now: nat, checked: nat) {
    |ticks| == |stamps| && forall i :: 0 <= i < |ticks| ==> StandsFor(ticks[i], stamps[i], now, checked)
  }

  ghost predicate RowsStand(c: Live, st: Stamps) {
    && c.rows.Valid() && c.checked <= c.now <= c.checked + WINDOW
    && TicksStand(c.rows.added, st.added, c.now, c.checked)
    && TicksStand(c.rows.changed, st.changed, c.now, c.checked)
    && (st.last.Some? && c.rows.summary.Some? ==> StandsFor(c.rows.summary.value, st.last.value, c.now, c.checked))
  }

  lemma RewrittenStand(ticks: seq<Tick>, stamps: seq<nat>, now: nat, checked: nat, lo: nat, hi: nat, at: nat,
                       ticks': seq<Tick>)
    requires TicksStand(ticks, stamps, now, checked) && lo <= hi <= |ticks| && checked <= at <= now <= checked + WINDOW
    requires |ticks'| == |ticks|
    requires forall i :: 0 <= i < |ticks| ==> ticks'[i] == if lo <= i < hi then Wrap(at) else ticks[i]
    ensures TicksStand(ticks', Rewritten(stamps, lo, hi, at), now, checked)
  {
    StandsNew(now, checked, at);
  }

  lemma AppendedStand(ticks: seq<Tick>, stamps: seq<nat>, now: nat, checked: nat, t: Tick, at: nat)
    requires TicksStand(ticks, stamps, now, checked) && StandsFor(t, at, now, checked)
    ensures TicksStand(ticks + [t], stamps + [at], now, checked)
  {
  }

  lemma DroppedStand(ticks: seq<Tick>, stamps: seq<nat>, now: nat, checked: nat, row: nat)
    requires TicksStand(ticks, stamps, now, checked) && row < |ticks|
    ensures TicksStand(ticks[row := ticks[|ticks| - 1]][..|ticks| - 1], LastInto(stamps, row), now, checked)
  {
  }

  lemma LaterStand(ticks: seq<Tick>, stamps: seq<nat>, now: nat, checked: nat, span: nat)
    requires TicksStand(ticks, stamps, now, checked) && now + span <= checked + WINDOW
    ensures TicksStand(ticks, stamps, now + span, checked)
  {
    forall i | 0 <= i < |ticks| ensures StandsFor(ticks[i], stamps[i], now + span, checked) {
      StandsLater(ticks[i], stamps[i], now, checked, span);
    }
  }

  lemma ClampedStand(ticks: seq<Tick>, stamps: seq<nat>, now: nat, checked: nat, ticks': seq<Tick>)
    requires TicksStand(ticks, stamps, now, checked) && |ticks'| == |ticks|
    requires forall i :: 0 <= i < |ticks| ==> ticks'[i] == ClampWith(ticks[i], Wrap(now))
    ensures TicksStand(ticks', stamps, now, now)
  {
    forall i | 0 <= i < |ticks| ensures StandsFor(ticks'[i], stamps[i], now, now) {
      StandsClamped(ticks[i], stamps[i], now, checked);
    }
  }

  lemma WritesStand(c: Live, st: Stamps, step: RowStep)
    requires RowsStand(c, st) && RowEnabled(c, step) && Writes(step)
    ensures RowsStand(RowAfter(c, step), StampsAfter(st, step))
  {
    var c' := RowAfter(c, step);
    StandsNew(c.now, c.checked, step.at);
    match step
    case Init(at) =>
      AppendedStand(c.rows.added, st.added, c.now, c.checked, Wrap(at), at);
      AppendedStand(c.rows.changed, st.changed, c.now, c.checked, Wrap(at), at);
    case Added(row, at) => RewrittenStand(c.rows.added, st.added, c.now, c.checked, row, row + 1, at, c'.rows.added);
    case Changed(row, at) =>
      RewrittenStand(c.rows.changed, st.changed, c.now, c.checked, row, row + 1, at, c'.rows.changed);
    case Both(row, at) =>
      RewrittenStand(c.rows.added, st.added, c.now, c.checked, row, row + 1, at, c'.rows.added);
      RewrittenStand(c.rows.changed, st.changed, c.now, c.checked, row, row + 1, at, c'.rows.changed);
    case Slice(lo, hi, at) =>
      RewrittenStand(c.rows.changed, st.changed, c.now, c.checked, lo, hi, at, c'.rows.changed);
  }

  lemma DropStands(c: Live, st: Stamps, row: nat)
    requires RowsStand(c, st) && RowEnabled(c, Drop(row))
    ensures RowsStand(RowAfter(c, Drop(row)), StampsAfter(st, Drop(row)))
  {
    DroppedStand(c.rows.added, st.added, c.now, c.checked, row);
    DroppedStand(c.rows.changed, st.changed, c.now, c.checked, row);
  }

  lemma OthersStand(c: Live, st: Stamps, step: RowStep)
    requires RowsStand(c, st) && RowEnabled(c, step) && MovesStand(c, step) && !Writes(step)
    ensures RowsStand(RowAfter(c, step), StampsAfter(st, step))
  {
    var c' := RowAfter(c, step);
    match step
    case Drop(row) => DropStands(c, st, row);
    case Move(addedAt, changedAt, added, changed) =>
      AppendedStand(c.rows.added, st.added, c.now, c.checked, addedAt, added);
      AppendedStand(c.rows.changed, st.changed, c.now, c.checked, changedAt, changed);
    case Advance(span) =>
      LaterStand(c.rows.added, st.added, c.now, c.checked, span);
      LaterStand(c.rows.changed, st.changed, c.now, c.checked, span);
      if st.last.Some? && c.rows.summary.Some? {
        StandsLater(c.rows.summary.value, st.last.value, c.now, c.checked, span);
      }
    case Check =>
      ClampedStand(c.rows.added, st.added, c.now, c.checked, c'.rows.added);
      ClampedStand(c.rows.changed, st.changed, c.now, c.checked, c'.rows.changed);
      if st.last.Some? && c.rows.summary.Some? {
        StandsClamped(c.rows.summary.value, st.last.value, c.now, c.checked);
      }
  }

  lemma {:induction false} RowsStandRuns(start: Live, st: Stamps, steps: seq<RowStep>)
    requires RowsStand(start, st) && StampedLegal(start, steps)
    ensures RowsLegal(start, steps) && RowsStand(RowsRun(start, steps), StampsRun(st, steps))
    decreases |steps|
  {
    StampedIsLegal(start, steps);
    if steps != [] {
      if Writes(steps[0]) {
        WritesStand(start, st, steps[0]);
      } else {
        OthersStand(start, st, steps[0]);
      }
      RowsStandRuns(RowAfter(start, steps[0]), StampsAfter(st, steps[0]), steps[1..]);
    }
  }

  lemma {:induction false} SummaryStays(start: Live, steps: seq<RowStep>)
    requires RowsLegal(start, steps)
    ensures RowsRun(start, steps).rows.summary.Some? <==> start.rows.summary.Some?
    decreases |steps|
  {
    if steps != [] {
      SummaryStays(RowAfter(start, steps[0]), steps[1..]);
    }
  }

  /** Over every run each row's ticks answer a query as the stamps of its last writes do: row `i` is reported
      added or changed exactly when that happened, by unbounded count and capped age, after the query's last
      run, whose tick `lastRun` stands for `ran`. The summary answers so for the last write to the column. */
  lemma RowsByStamps(born: nat, summary: Option<Tick>, steps: seq<RowStep>, lastRun: Tick, ran: nat)
    requires StampedLegal(Live(Rows([], [], summary), born, born, born), steps)
    ensures RowsLegal(Live(Rows([], [], summary), born, born, born), steps)
    ensures var (c, st) := (RowsRun(Live(Rows([], [], summary), born, born, born), steps),
                            StampsRun(Stamps([], [], None), steps));
      && |c.rows.added| == |st.added| == |c.rows.changed| == |st.changed|
      && (c.rows.summary.Some? <==> summary.Some?)
      && (StandsFor(lastRun, ran, c.now, c.checked) ==>
            && (forall i :: 0 <= i < |st.added| ==>
                  st.added[i] <= c.now &&
                  (IsNewerThan(c.rows.added[i], lastRun, Wrap(c.now)) <==> IsNewerStamp(st.added[i], ran, c.now)))
            && (forall i :: 0 <= i < |st.changed| ==>
                  st.changed[i] <= c.now &&
                  (IsNewerThan(c.rows.changed[i], lastRun, Wrap(c.now)) <==> IsNewerStamp(st.changed[i], ran, c.now)))
            && (st.last.Some? && c.rows.summary.Some? ==>
                  st.last.value <= c.now &&
                  c.rows.DetectSummary(lastRun, Wrap(c.now)) == Some(IsNewerStamp(st.last.value, ran, c.now))))
  {
    RowsStandRuns(Live(Rows([], [], summary), born, born, born), Stamps([], [], None), steps);
    SummaryStays(Live(Rows([], [], summary), born, born, born), steps);
  }

  // ------------------------------------------------------------------------------------------
  // Rows moved between tables
  // ------------------------------------------------------------------------------------------

  /** The summary is promised to over-report only. Moving a row in sets it to the row's change
      tick, which may be older than what the column holds: the promise survives the move exactly
      when no tick of the column, nor the row's own `added`, is newer than the row's change. */
  lemma MoveInKeeps(rows: Rows, addedAt: Tick, changedAt: Tick, now: Tick)
    requires rows.Valid() && rows.summary.Some?
    ensures NeverHides(rows.MoveIn(addedAt, changedAt), now) <==>
      CoveredBy(rows, changedAt, now) && Cap(RelativeTo(now, changedAt)) <= Cap(RelativeTo(now, addedAt))
  {
    var moved := rows.MoveIn(addedAt, changedAt);
    NeverHidesExactly(moved, now);
    assert moved.added[|rows.added|] == addedAt;
    if CoveredBy(moved, changedAt, now) {
      forall i | 0 <= i < |rows.added| ensures Cap(RelativeTo(now, changedAt)) <= Cap(RelativeTo(now, rows.added[i])) {
        assert moved.added[i] == rows.added[i];
      }
      forall i | 0 <= i < |rows.changed|
        ensures Cap(RelativeTo(now, changedAt)) <= Cap(RelativeTo(now, rows.changed[i]))
      {
        assert moved.changed[i] == rows.changed[i];
      }
    }
  }

  /** It does not always survive: at tick 100 a row changed at tick 10 moves into a column whose one
      row was changed at tick 90, and a query that last ran at tick 50 skips the column. */
  lemma MoveInCanHide()
    ensures var rows := Rows([90], [90], Some(90));
      && NeverHides(rows, 100)
      && rows.MoveIn(10, 10).DetectSummary(50, 100) == Some(false)
      && IsNewerThan(rows.MoveIn(10, 10).changed[0], 50, 100)
  {
    NeverHidesExactly(Rows([90], [90], Some(90)), 100);
  }
}
