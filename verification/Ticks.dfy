/** 32-bit change ticks and the periodic clamp (crates/zlim-core/src/tick.rs, with the throttled
    pass of crates/zlim-core/src/world/mod.rs).

    A tick is a 32-bit stamp that wraps around. The claim behind it is that, as long as the clamp
    pass runs often enough, comparing wrapped ticks answers as comparing unbounded stamps would. */
module Ticks {

  const MODULUS: nat := 0x1_0000_0000
  const CHECK_CYCLE: nat := 0x2000_0000
  const MAX_TICK_AGE: nat := MODULUS - 1 - 2 * CHECK_CYCLE - 1

  type Tick = t: nat | t < MODULUS

  /** Age of `other` seen from `t`, by wrapping subtraction. */
  function RelativeTo(t: Tick, other: Tick): Tick {
    (t - other) % MODULUS
  }

  function Cap(age: nat): nat {
    if age < MAX_TICK_AGE then age else MAX_TICK_AGE
  }

  predicate IsNewerThan(t: Tick, other: Tick, now: Tick) {
    Cap(RelativeTo(now, other)) > Cap(RelativeTo(now, t))
  }

  function ClampWith(t: Tick, now: Tick): Tick {
    if RelativeTo(now, t) > MAX_TICK_AGE then RelativeTo(now, MAX_TICK_AGE) else t
  }

  /** The wrapped form of an unbounded stamp. */
  function Wrap(stamp: nat): Tick {
    stamp % MODULUS
  }

  /** What the comparison is meant to say: the same question about unbounded stamps, with ages
      capped. */
  predicate IsNewerStamp(stamp: nat, other: nat, now: nat)
    requires stamp <= now && other <= now
  {
    Cap(now - other) > Cap(now - stamp)
  }

  class AtomicTick {
    var value: Tick

    constructor (tick: Tick)
      ensures value == tick
    {
      value := tick;
    }

    /** The store is skipped when it would not change anything. */
    method Set(tick: Tick)
      modifies this
      ensures value == tick
    {
      if value != tick {
        value := tick;
      }
    }

    static method TrySet(target: AtomicTick?, tick: Tick)
      modifies target
      ensures target != null ==> target.value == tick
    {
      if target != null && target.value != tick {
        target.value := tick;
      }
    }

    method ClampAt(now: Tick)
      modifies this
      ensures value == ClampWith(old(value), now)
    {
      var age := RelativeTo(now, value);
      var fallback := RelativeTo(now, MAX_TICK_AGE);
      if age > MAX_TICK_AGE {
        value := fallback;
      }
    }
  }

  // ------------------------------------------------------------------------------------------
  // Ages
  // ------------------------------------------------------------------------------------------

  lemma AgeAdvances(now: nat, d: nat, t: Tick)
    requires RelativeTo(Wrap(now), t) + d < MODULUS
    ensures RelativeTo(Wrap(now + d), t) == RelativeTo(Wrap(now), t) + d
  {
    var q := now / MODULUS;
    assert now == q * MODULUS + Wrap(now);
    var age := RelativeTo(Wrap(now), t);
    var p := (Wrap(now) - t) / MODULUS;
    assert Wrap(now) - t == p * MODULUS + age;
    Remainder(now + d - t, q + p, age + d);
    assert RelativeTo(Wrap(now + d), t) == (now + d - t) % MODULUS by {
      var r := (now + d) / MODULUS;
      assert now + d == r * MODULUS + Wrap(now + d);
      var s := (Wrap(now + d) - t) / MODULUS;
      Remainder(now + d - t, r + s, RelativeTo(Wrap(now + d), t));
    }
  }

  /** An age that grows past the modulus comes round. */
  lemma AgeWraps(now: nat, d: nat, t: Tick)
    requires MODULUS <= RelativeTo(Wrap(now), t) + d < 2 * MODULUS
    ensures RelativeTo(Wrap(now + d), t) == RelativeTo(Wrap(now), t) + d - MODULUS
  {
    var age := RelativeTo(Wrap(now), t);
    AgeAdvances(now, MODULUS - 1 - age, t);
    var last := now + MODULUS - 1 - age;
    AgeComesRound(last, t);
    AgeAdvances(last + 1, age + d - MODULUS, t);
  }

  lemma AgeComesRound(now: nat, t: Tick)
    requires RelativeTo(Wrap(now), t) == MODULUS - 1
    ensures RelativeTo(Wrap(now + 1), t) == 0
  {
    var q := (Wrap(now) - t) / MODULUS;
    assert Wrap(now) - t == q * MODULUS + MODULUS - 1;
    if Wrap(now) == MODULUS - 1 {
      Remainder(now + 1, now / MODULUS + 1, 0);
      Remainder(0 - t, q, 0);
    } else {
      Remainder(now + 1, now / MODULUS, Wrap(now) + 1);
      Remainder(Wrap(now) + 1 - t, q + 1, 0);
    }
  }

  /** What a clamp against an older `now` makes of an age: what was younger than the clamp ends up as
      old as ticks get, anything else is capped that much later. */
  function LateAge(age: nat, lag: nat): nat {
    if age < lag || age > MAX_TICK_AGE + lag then MAX_TICK_AGE + lag else age
  }

  lemma AgeAfterLateClamp(now: nat, at: nat, t: Tick)
    requires at <= now <= at + WINDOW
    ensures RelativeTo(Wrap(now), ClampWith(t, Wrap(at))) == LateAge(RelativeTo(Wrap(now), t), now - at)
  {
    var lag, before := now - at, RelativeTo(Wrap(at), t);
    AgeAfterClamp(Wrap(at), t);
    if before + lag < MODULUS {
      AgeAdvances(at, lag, t);
    } else {
      AgeWraps(at, lag, t);
    }
    AgeAdvances(at, lag, ClampWith(t, Wrap(at)));
  }

  lemma Remainder(x: int, q: int, r: nat)
    requires x == q * MODULUS + r && r < MODULUS
    ensures x % MODULUS == r
  {
    assert (x / MODULUS - q) * MODULUS == r - x % MODULUS;
  }

  lemma AgeOfStamp(now: nat, stamp: nat)
    requires stamp <= now
    ensures RelativeTo(Wrap(now), Wrap(stamp)) == (now - stamp) % MODULUS
  {
    var q, p := now / MODULUS, stamp / MODULUS;
    assert now == q * MODULUS + Wrap(now) && stamp == p * MODULUS + Wrap(stamp);
    var age := RelativeTo(Wrap(now), Wrap(stamp));
    var s := (Wrap(now) - Wrap(stamp)) / MODULUS;
    Remainder(now - stamp, q - p + s, age);
  }

  /** Clamping caps an age. */
  lemma AgeAfterClamp(now: Tick, t: Tick)
    ensures RelativeTo(now, ClampWith(t, now)) ==
      if RelativeTo(now, t) > MAX_TICK_AGE then MAX_TICK_AGE else RelativeTo(now, t)
  {
  }

  // ------------------------------------------------------------------------------------------
  // Runs of one clock
  // ------------------------------------------------------------------------------------------

  /** The clock and the stamped places of a world. `now` is the unbounded count of ticks, of which
      the world keeps the wrapped form; `checked` is the count at the last clamp pass; `ticks` are
      the stored ticks (of components, resources, systems) and `stamps` the unbounded counts at
      which they were written. */
  datatype Clock = Clock(now: nat, checked: nat, ticks: map<nat, Tick>, stamps: map<nat, nat>)

  /** `Write` stores the tick at which a running system started: no earlier than the last clamp
      pass, which needs the world to itself. `Check` is the throttled clamp pass. */
  datatype ClockStep = Write(place: nat, at: nat) | Advance(span: nat) | Check

  /** The ticks that may pass between two clamp passes. */
  const WINDOW: nat := 2 * CHECK_CYCLE + 1

  predicate ClockEnabled(c: Clock, step: ClockStep) {
    match step
    case Write(_, at) => c.checked <= at <= c.now
    case Advance(span) => c.checked <= c.now + span <= c.checked + WINDOW
    case Check => true
  }

  function ClampAll(ticks: map<nat, Tick>, now: Tick): map<nat, Tick> {
    map place | place in ticks :: ClampWith(ticks[place], now)
  }

  function ClockAfter(c: Clock, step: ClockStep): Clock {
    match step
    case Write(place, at) => c.(ticks := c.ticks[place := Wrap(at)], stamps := c.stamps[place := at])
    case Advance(span) => c.(now := c.now + span)
    case Check =>
      if RelativeTo(Wrap(c.now), Wrap(c.checked)) >= CHECK_CYCLE then
        c.(checked := c.now, ticks := ClampAll(c.ticks, Wrap(c.now)))
      else c
  }

  ghost predicate ClockLegal(steps: seq<ClockStep>)
    decreases |steps|, 0
  {
    steps != [] ==>
      ClockLegal(steps[..|steps| - 1]) && ClockEnabled(ClockRun(steps[..|steps| - 1]), steps[|steps| - 1])
  }

  ghost function ClockRun(steps: seq<ClockStep>): Clock
    requires ClockLegal(steps)
    decreases |steps|, 1
  {
    if steps == [] then Clock(0, 0, map[], map[])
    else ClockAfter(ClockRun(steps[..|steps| - 1]), steps[|steps| - 1])
  }

  /** A stored tick stands for a stamp: the same capped age, and not so old that it could wrap
      before the next clamp pass. */
  predicate StandsFor(t: Tick, stamp: nat, now: nat, checked: nat) {
    && stamp <= now && checked <= now <= checked + WINDOW
    && Cap(RelativeTo(Wrap(now), t)) == Cap(now - stamp)
    && RelativeTo(Wrap(now), t) <= MAX_TICK_AGE + (now - checked)
  }

  ghost predicate Faithful(c: Clock) {
    && c.ticks.Keys == c.stamps.Keys
    && c.checked <= c.now <= c.checked + WINDOW
    && forall place :: place in c.ticks ==> StandsFor(c.ticks[place], c.stamps[place], c.now, c.checked)
  }

  lemma StandsNew(now: nat, checked: nat, at: nat)
    requires checked <= at <= now <= checked + WINDOW
    ensures StandsFor(Wrap(at), at, now, checked)
  {
    AgeOfStamp(now, at);
  }

  lemma StandsLater(t: Tick, stamp: nat, now: nat, checked: nat, span: nat)
    requires StandsFor(t, stamp, now, checked) && now + span <= checked + WINDOW
    ensures StandsFor(t, stamp, now + span, checked)
  {
    AgeAdvances(now, span, t);
  }

  lemma StandsClamped(t: Tick, stamp: nat, now: nat, checked: nat)
    requires StandsFor(t, stamp, now, checked)
    ensures StandsFor(ClampWith(t, Wrap(now)), stamp, now, now)
  {
    AgeAfterClamp(Wrap(now), t);
  }

  lemma FaithfulStep(c: Clock, step: ClockStep)
    requires Faithful(c) && ClockEnabled(c, step)
    ensures Faithful(ClockAfter(c, step))
  {
    var c' := ClockAfter(c, step);
    forall place | place in c'.ticks ensures StandsFor(c'.ticks[place], c'.stamps[place], c'.now, c'.checked) {
      match step
      case Write(written, at) => StandsNew(c.now, c.checked, at);
      case Advance(span) => StandsLater(c.ticks[place], c.stamps[place], c.now, c.checked, span);
      case Check => StandsClamped(c.ticks[place], c.stamps[place], c.now, c.checked);
    }
  }

  lemma {:induction false} FaithfulRuns(steps: seq<ClockStep>)
    requires ClockLegal(steps)
    ensures Faithful(ClockRun(steps))
    decreases |steps|
  {
    if steps != [] {
      FaithfulRuns(steps[..|steps| - 1]);
      FaithfulStep(ClockRun(steps[..|steps| - 1]), steps[|steps| - 1]);
    }
  }

  /** On every run the wrapped comparison of any two stored ticks answers as the unbounded stamps
      compared by capped age. */
  lemma WrappedIsUnbounded(steps: seq<ClockStep>, a: nat, b: nat)
    requires ClockLegal(steps) && a in ClockRun(steps).ticks && b in ClockRun(steps).ticks
    ensures var c := ClockRun(steps);
      && a in c.stamps && b in c.stamps && c.stamps[a] <= c.now && c.stamps[b] <= c.now
      && (IsNewerThan(c.ticks[a], c.ticks[b], Wrap(c.now)) <==> IsNewerStamp(c.stamps[a], c.stamps[b], c.now))
  {
    FaithfulRuns(steps);
  }

  /** What "newer" means in plain counts: later, and young enough to tell. */
  lemma NewerExactly(stamp: nat, other: nat, now: nat)
    requires stamp <= now && other <= now
    ensures IsNewerStamp(stamp, other, now) <==> other < stamp && now - stamp < MAX_TICK_AGE
  {
  }

  /** A clamp pass changes no answer, now or after any time the next pass allows. */
  lemma ClampChangesNoAnswer(steps: seq<ClockStep>, span: nat, a: nat, b: nat)
    requires ClockLegal(steps) && a in ClockRun(steps).ticks && b in ClockRun(steps).ticks
    requires ClockEnabled(ClockRun(steps), Advance(span))
    ensures var (c, clamped) := (ClockRun(steps), ClampAll(ClockRun(steps).ticks, Wrap(ClockRun(steps).now)));
      IsNewerThan(clamped[a], clamped[b], Wrap(c.now + span)) <==>
        IsNewerThan(c.ticks[a], c.ticks[b], Wrap(c.now + span))
  {
    FaithfulRuns(steps);
    var c := ClockRun(steps);
    PlaceKeepsAge(c, span, a);
    PlaceKeepsAge(c, span, b);
  }

  lemma PlaceKeepsAge(c: Clock, span: nat, place: nat)
    requires Faithful(c) && ClockEnabled(c, Advance(span)) && place in c.ticks
    ensures var now := Wrap(c.now + span);
      Cap(RelativeTo(now, ClampAll(c.ticks, Wrap(c.now))[place])) == Cap(RelativeTo(now, c.ticks[place]))
  {
    assert StandsFor(c.ticks[place], c.stamps[place], c.now, c.checked);
    ClampKeepsAge(c.now, span, c.ticks[place]);
  }

  lemma ClampKeepsAge(now: nat, span: nat, t: Tick)
    requires RelativeTo(Wrap(now), t) + span < MODULUS && span <= WINDOW
    ensures Cap(RelativeTo(Wrap(now + span), ClampWith(t, Wrap(now)))) == Cap(RelativeTo(Wrap(now + span), t))
  {
    AgeAdvances(now, span, t);
    AgeAfterClamp(Wrap(now), t);
    AgeAdvances(now, span, ClampWith(t, Wrap(now)));
  }

  // ------------------------------------------------------------------------------------------
  // How exact the window is
  // ------------------------------------------------------------------------------------------

  /** A gap between clamp passes is safe when every tick that a pass leaves behind still shows its
      capped age at the end of the gap. */
  ghost predicate SafeGap(gap: nat) {
    forall now: nat, stamp: nat :: stamp <= now <= stamp + MAX_TICK_AGE ==> KeepsAge(now, stamp, gap)
  }

  predicate KeepsAge(now: nat, stamp: nat, gap: nat)
    requires stamp <= now
  {
    Cap(RelativeTo(Wrap(now + gap), Wrap(stamp))) == Cap(now + gap - stamp)
  }

  /** The gaps that are safe are exactly those of at most `WINDOW` ticks. */
  lemma SafeGapExactly(gap: nat)
    ensures SafeGap(gap) <==> gap <= WINDOW
  {
    if gap <= WINDOW {
      forall now: nat, stamp: nat | stamp <= now <= stamp + MAX_TICK_AGE ensures KeepsAge(now, stamp, gap) {
        AgeOfStamp(now + gap, stamp);
      }
    } else {
      var now := ShowsYounger(gap);
      assert !KeepsAge(now, 0, gap);
    }
  }

  /** After a longer gap some tick that was at most `MAX_TICK_AGE` old shows too young. */
  lemma ShowsYounger(gap: nat) returns (now: nat)
    requires gap > WINDOW
    ensures now <= MAX_TICK_AGE && !KeepsAge(now, 0, gap)
  {
    var q, r := gap / MODULUS, gap % MODULUS;
    assert gap == q * MODULUS + r;
    if r == 0 || MODULUS - r > MAX_TICK_AGE {
      now := 0;
      AgeOfStamp(gap, 0);
    } else {
      now := MODULUS - r;
      AgeOfStamp(now + gap, 0);
      Remainder(now + gap, q + 1, 0);
    }
  }

  /** A pass clamps exactly when enough ticks went by since the last one that did. */
  lemma ThrottleExactly(c: Clock)
    requires Faithful(c)
    ensures ClockAfter(c, Check) ==
      if c.now < c.checked + CHECK_CYCLE then c else c.(checked := c.now, ticks := ClampAll(c.ticks, Wrap(c.now)))
  {
    AgeOfStamp(c.now, c.checked);
    assert RelativeTo(Wrap(c.now), Wrap(c.checked)) == c.now - c.checked;
  }

  /** The throttle keeps within the window: when the pass is asked for at least once every
      `CHECK_CYCLE + 2` ticks, no gap between two passes exceeds it. */
  lemma ThrottleKeepsWindow(c: Clock, span: nat)
    requires Faithful(c) && span <= CHECK_CYCLE + 2
    ensures ClockEnabled(ClockAfter(c, Check), Advance(span))
  {
    AgeOfStamp(c.now, c.checked);
  }

  /** A clamp against a `now` that is older than the stamp takes a stamp of the recent past for one
      of the distant past, unless the two are further apart than the window. */
  lemma LateClamp(now: nat, stamp: nat)
    requires now < stamp < now + MODULUS
    ensures ClampWith(Wrap(stamp), Wrap(now)) == Wrap(stamp) <==> stamp - now > WINDOW
  {
    AgeOfStamp(stamp, now);
    var ahead := stamp - now;
    assert RelativeTo(Wrap(stamp), Wrap(now)) == ahead;
    assert RelativeTo(Wrap(now), Wrap(stamp)) == MODULUS - ahead;
  }

  /** A place that starts at tick 0 counts as never written exactly while the clock has not come
      round to within `MAX_TICK_AGE` of it. */
  lemma ZeroTickIsOldest(now: nat)
    ensures Cap(RelativeTo(Wrap(now), 0)) == Cap(now) <==> now < MODULUS || now % MODULUS >= MAX_TICK_AGE
  {
    AgeOfStamp(now, 0);
  }
}
