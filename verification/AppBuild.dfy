/** The four plugin stages over a whole app: `App::build` of crates/zlim-app/src/app.rs. */
module AppBuild {
  import opened Wrappers
  import opened PluginOrder
  import opened PluginLists
  import opened PluginConstraints
  import opened PluginBuild
  import opened Plugins

  datatype Stage = BuildStage | ApplyStage | FinishStage | CleanupStage

  /** One call of a plugin's stage method. The main app has number 0, the sub-apps follow. */
  datatype Event = Event(app: nat, stage: Stage, plugin: TypeId)

  /** What one app went through: its plugins in installation order, and the order they were applied in. */
  datatype Record = Record(plugins: seq<Plugin>, graph: Graph, applied: seq<TypeId>)
  {
    function Ids(): seq<TypeId> {
      IdsOf(plugins)
    }

    function Registered(): Registry {
      Registry(plugins, graph)
    }
  }

  ghost predicate Orderly(r: Record) {
    NoRepeats(r.Ids()) && Elements(r.Ids()) == r.graph.Keys && LinearExtension(r.graph, r.applied)
  }

  function Calls(app: nat, stage: Stage, ids: seq<TypeId>): seq<Event> {
    seq(|ids|, k requires 0 <= k < |ids| => Event(app, stage, ids[k]))
  }

  /** The first pass: each app is built and applied before the next one is touched. */
  function FirstPass(records: seq<Record>): seq<Event> {
    if records == [] then []
    else
      var last := |records| - 1;
      FirstPass(records[..last]) +
      (Calls(last, BuildStage, records[last].Ids()) + Calls(last, ApplyStage, records[last].applied))
  }

  function Pass(stage: Stage, records: seq<Record>): seq<Event> {
    if records == [] then []
    else
      var last := |records| - 1;
      Pass(stage, records[..last]) + Calls(last, stage, records[last].Ids())
  }

  function Trace(records: seq<Record>): seq<Event> {
    FirstPass(records) + Pass(FinishStage, records) + Pass(CleanupStage, records)
  }

  // ------------------------------------------------------------------------------------------
  // What a trace tells
  // ------------------------------------------------------------------------------------------

  /** When an event's turn is, in a whole build of `n` apps. */
  function Turn(e: Event, n: nat): nat {
    match e.stage
    case BuildStage => 2 * e.app
    case ApplyStage => 2 * e.app + 1
    case FinishStage => 2 * n + e.app
    case CleanupStage => 3 * n + e.app
  }

  /** No call happens twice, and calls come in their turns, which lie from `lo` up to `hi`. */
  ghost predicate InTurn(log: seq<Event>, n: nat, lo: nat, hi: nat) {
    && (forall k :: 0 <= k < |log| ==> lo <= Turn(log[k], n) < hi)
    && forall j, k :: 0 <= j < k < |log| ==> log[j] != log[k] && Turn(log[j], n) <= Turn(log[k], n)
  }

  lemma InTurnAppend(a: seq<Event>, b: seq<Event>, n: nat, lo: nat, mid: nat, hi: nat)
    requires InTurn(a, n, lo, mid) && InTurn(b, n, mid, hi) && lo <= mid <= hi
    ensures InTurn(a + b, n, lo, hi)
  {
  }

  lemma CallsInTurn(app: nat, stage: Stage, ids: seq<TypeId>, n: nat)
    requires NoRepeats(ids)
    ensures var turn := Turn(Event(app, stage, 0), n); InTurn(Calls(app, stage, ids), n, turn, turn + 1)
  {
  }

  lemma {:induction false} FirstPassInTurn(records: seq<Record>, n: nat)
    requires forall k :: 0 <= k < |records| ==> Orderly(records[k])
    ensures InTurn(FirstPass(records), n, 0, 2 * |records|)
  {
    if records != [] {
      var last := |records| - 1;
      var r := records[last];
      FirstPassInTurn(records[..last], n);
      CallsInTurn(last, BuildStage, r.Ids(), n);
      CallsInTurn(last, ApplyStage, r.applied, n);
      var calls := Calls(last, BuildStage, r.Ids()) + Calls(last, ApplyStage, r.applied);
      InTurnAppend(Calls(last, BuildStage, r.Ids()), Calls(last, ApplyStage, r.applied), n,
                   2 * last, 2 * last + 1, 2 * last + 2);
      InTurnAppend(FirstPass(records[..last]), calls, n, 0, 2 * last, 2 * last + 2);
    }
  }

  lemma {:induction false} PassInTurn(stage: Stage, records: seq<Record>, n: nat)
    requires (forall k :: 0 <= k < |records| ==> Orderly(records[k])) && stage in {FinishStage, CleanupStage}
    ensures var from := if stage == FinishStage then 2 * n else 3 * n;
      InTurn(Pass(stage, records), n, from, from + |records|)
  {
    if records != [] {
      var last := |records| - 1;
      var from := if stage == FinishStage then 2 * n else 3 * n;
      PassInTurn(stage, records[..last], n);
      CallsInTurn(last, stage, records[last].Ids(), n);
      InTurnAppend(Pass(stage, records[..last]), Calls(last, stage, records[last].Ids()), n,
                   from, from + last, from + last + 1);
    }
  }

  /** In a whole build no call happens twice, and calls come in turns: the main app is built and then
      applied before any sub-app, each sub-app before the next one; then everything is finished, and
      then cleaned up, main app first. */
  lemma TraceInTurn(records: seq<Record>)
    requires forall k :: 0 <= k < |records| ==> Orderly(records[k])
    ensures InTurn(Trace(records), |records|, 0, 4 * |records|)
  {
    var n := |records|;
    FirstPassInTurn(records, n);
    PassInTurn(FinishStage, records, n);
    PassInTurn(CleanupStage, records, n);
    InTurnAppend(FirstPass(records), Pass(FinishStage, records), n, 0, 2 * n, 3 * n);
    InTurnAppend(FirstPass(records) + Pass(FinishStage, records), Pass(CleanupStage, records), n, 0, 3 * n, 4 * n);
  }

  predicate HasPlugin(records: seq<Record>, e: Event) {
    e.app < |records| && e.plugin in records[e.app].Ids()
  }

  lemma CallsHold(app: nat, stage: Stage, ids: seq<TypeId>, e: Event)
    ensures e in Calls(app, stage, ids) <==> e.app == app && e.stage == stage && e.plugin in ids
  {
    if e.app == app && e.stage == stage && e.plugin in ids {
      var k :| 0 <= k < |ids| && ids[k] == e.plugin;
      assert Calls(app, stage, ids)[k] == e;
    }
  }

  lemma {:induction false} FirstPassHolds(records: seq<Record>, e: Event)
    requires forall k :: 0 <= k < |records| ==> Orderly(records[k])
    ensures e in FirstPass(records) <==> e.stage in {BuildStage, ApplyStage} && HasPlugin(records, e)
  {
    if records != [] {
      var last := |records| - 1;
      var r := records[last];
      FirstPassHolds(records[..last], e);
      CallsHold(last, BuildStage, r.Ids(), e);
      CallsHold(last, ApplyStage, r.applied, e);
      assert e.plugin in r.applied <==> e.plugin in Elements(r.applied);
      assert e.plugin in r.Ids() <==> e.plugin in Elements(r.Ids());
    }
  }

  lemma {:induction false} PassHolds(stage: Stage, records: seq<Record>, e: Event)
    ensures e in Pass(stage, records) <==> e.stage == stage && HasPlugin(records, e)
  {
    if records != [] {
      var last := |records| - 1;
      PassHolds(stage, records[..last], e);
      CallsHold(last, stage, records[last].Ids(), e);
    }
  }

  /** Every plugin of every app goes through every stage, and nothing else happens. */
  lemma TraceHolds(records: seq<Record>, e: Event)
    requires forall k :: 0 <= k < |records| ==> Orderly(records[k])
    ensures e in Trace(records) <==> HasPlugin(records, e)
  {
    FirstPassHolds(records, e);
    PassHolds(FinishStage, records, e);
    PassHolds(CleanupStage, records, e);
  }

  /** The plugins of one app that a log calls in one stage, in the order of the calls. */
  function Called(log: seq<Event>, app: nat, stage: Stage): seq<TypeId> {
    if log == [] then []
    else
      var last := |log| - 1;
      Called(log[..last], app, stage) +
      if log[last].app == app && log[last].stage == stage then [log[last].plugin] else []
  }

  lemma {:induction false} CalledAppend(a: seq<Event>, b: seq<Event>, app: nat, stage: Stage)
    ensures Called(a + b, app, stage) == Called(a, app, stage) + Called(b, app, stage)
  {
    if b == [] {
      assert a + b == a;
    } else {
      var last := |b| - 1;
      assert (a + b)[..|a| + last] == a + b[..last];
      CalledAppend(a, b[..last], app, stage);
    }
  }

  lemma {:induction false} CalledInCalls(caller: nat, during: Stage, ids: seq<TypeId>, app: nat, stage: Stage)
    ensures Called(Calls(caller, during, ids), app, stage) == if app == caller && stage == during then ids else []
  {
    if ids != [] {
      var last := |ids| - 1;
      CalledInCalls(caller, during, ids[..last], app, stage);
      assert Calls(caller, during, ids)[..last] == Calls(caller, during, ids[..last]);
      assert ids[..last] + [ids[last]] == ids;
    }
  }

  /** What one app's plugins are due for in one stage. */
  function DueTo(records: seq<Record>, app: nat, stage: Stage): seq<TypeId> {
    if app >= |records| then [] else if stage == ApplyStage then records[app].applied else records[app].Ids()
  }

  lemma FirstTurnsCall(r: Record, caller: nat, app: nat, stage: Stage)
    ensures Called(Calls(caller, BuildStage, r.Ids()) + Calls(caller, ApplyStage, r.applied), app, stage) ==
      if app != caller then []
      else if stage == BuildStage then r.Ids()
      else if stage == ApplyStage then r.applied
      else []
  {
    CalledInCalls(caller, BuildStage, r.Ids(), app, stage);
    CalledInCalls(caller, ApplyStage, r.applied, app, stage);
    CalledAppend(Calls(caller, BuildStage, r.Ids()), Calls(caller, ApplyStage, r.applied), app, stage);
  }

  lemma {:induction false} FirstPassCalls(records: seq<Record>, app: nat, stage: Stage)
    ensures Called(FirstPass(records), app, stage) ==
      if stage == BuildStage || stage == ApplyStage then DueTo(records, app, stage) else []
  {
    if records != [] {
      var last := |records| - 1;
      var r := records[last];
      FirstPassCalls(records[..last], app, stage);
      FirstTurnsCall(r, last, app, stage);
      CalledAppend(FirstPass(records[..last]), Calls(last, BuildStage, r.Ids()) + Calls(last, ApplyStage, r.applied),
                   app, stage);
    }
  }

  lemma {:induction false} PassCalls(pass: Stage, records: seq<Record>, app: nat, stage: Stage)
    requires pass != ApplyStage
    ensures Called(Pass(pass, records), app, stage) == if stage == pass then DueTo(records, app, stage) else []
  {
    if records != [] {
      var last := |records| - 1;
      PassCalls(pass, records[..last], app, stage);
      CalledInCalls(last, pass, records[last].Ids(), app, stage);
      CalledAppend(Pass(pass, records[..last]), Calls(last, pass, records[last].Ids()), app, stage);
    }
  }

  /** In every stage an app's plugins are called in installation order, but applied in the order that was
      found for their constraints. */
  lemma TraceInOrder(records: seq<Record>, app: nat, stage: Stage)
    ensures Called(Trace(records), app, stage) ==
      if app >= |records| then [] else if stage == ApplyStage then records[app].applied else IdsOf(records[app].plugins)
  {
    FirstPassCalls(records, app, stage);
    PassCalls(FinishStage, records, app, stage);
    PassCalls(CleanupStage, records, app, stage);
    CalledAppend(FirstPass(records), Pass(FinishStage, records), app, stage);
    CalledAppend(FirstPass(records) + Pass(FinishStage, records), Pass(CleanupStage, records), app, stage);
  }

  // ------------------------------------------------------------------------------------------
  // The build
  // ------------------------------------------------------------------------------------------

  datatype Outcome = Done | AlreadyBuilt | Panicked

  /** The record tells what building an app from `before` made of it. */
  ghost predicate Recorded(before: Registry, program: Program, record: Record) {
    && Orderly(record) && IdsOf(before.plugins) <= record.Ids() && EdgesKept(before.graph, record.graph)
    && exists built :: AllBuilt(before, record.Registered(), program, built)
  }

  ghost predicate Separate(apps: seq<SubApp>) {
    forall j, k {:trigger Apart(apps, j, k)} :: 0 <= j < k < |apps| ==> Apart(apps, j, k)
  }

  predicate Apart(apps: seq<SubApp>, j: nat, k: nat)
    requires j < |apps| && k < |apps|
  {
    apps[j] != apps[k]
  }

  lemma OthersApart(apps: seq<SubApp>, k: nat)
    requires Separate(apps) && k < |apps|
    ensures forall j :: 0 <= j < |apps| && j != k ==> apps[j] != apps[k]
  {
    forall j | 0 <= j < |apps| && j != k ensures apps[j] != apps[k] {
      assert if j < k then Apart(apps, j, k) else Apart(apps, k, j);
    }
  }

  /** What a build that gets stuck had before it: constraints that, with those its program asks for,
      can form a circle. */
  ghost predicate GotStuck(before: Registry, program: Program) {
    EndsStuck(before, program) && exists c :: PossibleCycle(before.graph, program, c)
  }

  ghost predicate AllRecorded(before: seq<Registry>, program: Program, records: seq<Record>) {
    |records| == |before| && RecordedSoFar(before, program, records)
  }

  /** The records of the first apps. */
  ghost predicate RecordedSoFar(before: seq<Registry>, program: Program, records: seq<Record>) {
    && |records| <= |before|
    && forall k {:trigger Recorded(before[k], program, records[k])} :: 0 <= k < |records| ==>
         Recorded(before[k], program, records[k])
  }

  lemma FirstPassNext(records: seq<Record>, record: Record)
    ensures FirstPass(records + [record]) == FirstPass(records) +
      (Calls(|records|, BuildStage, record.Ids()) + Calls(|records|, ApplyStage, record.applied))
  {
    assert (records + [record])[..|records|] == records;
  }

  ghost predicate SomeStuck(before: seq<Registry>, program: Program) {
    exists k :: 0 <= k < |before| && GotStuck(before[k], program)
  }

  ghost predicate AllSucceed(before: seq<Registry>, program: Program) {
    forall k :: 0 <= k < |before| ==> Succeeds(before[k], program)
  }

  lemma RecordedNext(before: seq<Registry>, program: Program, records: seq<Record>, record: Record)
    requires RecordedSoFar(before, program, records) && |records| < |before|
    requires Recorded(before[|records|], program, record)
    ensures RecordedSoFar(before, program, records + [record])
    ensures FirstPass(records + [record]) == FirstPass(records) +
      (Calls(|records|, BuildStage, record.Ids()) + Calls(|records|, ApplyStage, record.applied))
  {
    FirstPassNext(records, record);
    forall k | 0 <= k < |records| + 1 ensures Recorded(before[k], program, (records + [record])[k]) {
      assert k < |records| ==> Recorded(before[k], program, records[k]);
    }
  }

  lemma OneFails(before: seq<Registry>, program: Program, k: nat)
    requires k < |before| && !Succeeds(before[k], program)
    requires AllGentle(program) ==> GotStuck(before[k], program)
    ensures !AllSucceed(before, program) && (AllGentle(program) ==> SomeStuck(before, program))
  {
  }

  lemma RecordedSucceed(before: seq<Registry>, program: Program, records: seq<Record>)
    requires AllRecorded(before, program, records)
    ensures AllSucceed(before, program)
  {
    forall k | 0 <= k < |before| ensures Succeeds(before[k], program) {
      assert Recorded(before[k], program, records[k]);
      var r := records[k].Registered();
      var built :| AllBuilt(before[k], r, program, built);
      forall c ensures !Cycle(r.graph, c) {
        NoCycleInOrder(r.graph, records[k].applied, c);
      }
      assert Ends(before[k], program, r, built);
    }
  }

  /** No app has constraints that could close a circle with those the program asks for. */
  ghost predicate NoPossibleCycle(before: seq<Registry>, program: Program) {
    forall k, c :: 0 <= k < |before| ==> !PossibleCycle(before[k].graph, program, c)
  }

  ghost function RegistriesOf(apps: seq<SubApp>): (before: seq<Registry>)
    reads apps
    ensures |before| == |apps| && forall k :: 0 <= k < |apps| ==> before[k] == apps[k].Registered()
  {
    seq(|apps|, k requires 0 <= k < |apps| reads apps => apps[k].Registered())
  }

  class App {
    const main: SubApp
    const subApps: seq<SubApp>

    /** The main app, and then the sub-apps in the order they are visited in. */
    function Apps(): (apps: seq<SubApp>)
      ensures |apps| == |subApps| + 1 && apps[0] == main && forall k :: 0 <= k < |subApps| ==> apps[k + 1] == subApps[k]
    {
      [main] + subApps
    }

    constructor (main: SubApp, subApps: seq<SubApp>)
      ensures this.main == main && this.subApps == subApps
    {
      this.main := main;
      this.subApps := subApps;
    }

    /** Builds and then applies the plugins of one app. */
    method InitOne(app: SubApp, number: nat, program: Program) returns (ok: bool, log: seq<Event>, ghost record: Record)
      requires ProperProgram(program) && app.state == Adding
      requires WellListed(app.Registered())
      modifies app
      ensures ok ==>
        && Recorded(old(app.Registered()), program, record) && app.state == Ready && app.plugins == record.plugins
        && log == Calls(number, BuildStage, record.Ids()) + Calls(number, ApplyStage, record.applied)
      ensures ok <==> Succeeds(old(app.Registered()), program)
      ensures !ok && AllGentle(program) ==> GotStuck(old(app.Registered()), program)
    {
      ghost var before := app.Registered();
      log, record := [], Record([], map[], []);
      var built, applied;
      ok, built := app.BuildPlugins(program);
      if !ok {
        return;
      }
      ghost var r := app.Registered();
      ok, applied := app.ApplyPlugins();
      SucceedsExactly(before, program, r, built);
      if !ok {
        StuckWasPossible(before, program);
      }
      log := Calls(number, BuildStage, IdsOf(built)) + Calls(number, ApplyStage, applied);
      record := Record(app.plugins, r.graph, applied);
      assert ok ==> AllBuilt(before, record.Registered(), program, built);
    }

    /** The first pass. */
    method InitAll(apps: seq<SubApp>, program: Program, ghost before: seq<Registry>)
      returns (ok: bool, log: seq<Event>, ghost records: seq<Record>)
      requires Separate(apps) && ProperProgram(program)
      requires |before| == |apps| && forall k :: 0 <= k < |apps| ==> WellListed(before[k])
      requires forall k :: 0 <= k < |apps| ==> apps[k].state == Adding && apps[k].Registered() == before[k]
      modifies apps
      ensures ok ==> AllRecorded(before, program, records) && log == FirstPass(records)
      ensures ok ==> forall k :: 0 <= k < |apps| ==> apps[k].state == Ready && apps[k].plugins == records[k].plugins
      ensures ok <==> AllSucceed(before, program)
      ensures !ok && AllGentle(program) ==> SomeStuck(before, program)
    {
      log, records := [], [];
      var k := 0;
      while k < |apps|
        invariant 0 <= k <= |apps| && |records| == k && RecordedSoFar(before, program, records)
        invariant log == FirstPass(records)
        invariant forall j :: 0 <= j < k ==> apps[j].state == Ready && apps[j].plugins == records[j].plugins
        invariant forall j :: k <= j < |apps| ==> apps[j].state == Adding && apps[j].Registered() == before[j]
      {
        var events;
        ghost var record;
        OthersApart(apps, k);
        ok, events, record := InitOne(apps[k], k, program);
        if !ok {
          OneFails(before, program, k);
          return;
        }
        RecordedNext(before, program, records, record);
        log := log + events;
        records := records + [record];
        k := k + 1;
      }
      RecordedSucceed(before, program, records);
      ok := true;
    }

    method FinishAll(apps: seq<SubApp>, ghost records: seq<Record>) returns (log: seq<Event>)
      requires Separate(apps) && |records| == |apps|
      requires forall k :: 0 <= k < |apps| ==> apps[k].state == Ready && apps[k].plugins == records[k].plugins
      modifies apps
      ensures log == Pass(FinishStage, records)
      ensures forall k :: 0 <= k < |apps| ==> apps[k].state == Finish && apps[k].plugins == records[k].plugins
    {
      log := [];
      var k := 0;
      while k < |apps|
        invariant 0 <= k <= |apps| && log == Pass(FinishStage, records[..k])
        invariant forall j :: 0 <= j < k ==> apps[j].state == Finish && apps[j].plugins == records[j].plugins
        invariant forall j :: k <= j < |apps| ==> apps[j].state == Ready && apps[j].plugins == records[j].plugins
      {
        assert records[..k + 1][..k] == records[..k];
        OthersApart(apps, k);
        var finished := apps[k].FinishPlugins();
        log := log + Calls(k, FinishStage, finished);
        k := k + 1;
      }
      assert records[..k] == records;
    }

    method CleanupAll(apps: seq<SubApp>, ghost records: seq<Record>) returns (log: seq<Event>)
      requires Separate(apps) && |records| == |apps|
      requires forall k :: 0 <= k < |apps| ==> apps[k].state == Finish && apps[k].plugins == records[k].plugins
      modifies apps
      ensures log == Pass(CleanupStage, records)
      ensures forall k :: 0 <= k < |apps| ==> apps[k].state == Cleaned && apps[k].plugins == []
    {
      log := [];
      var k := 0;
      while k < |apps|
        invariant 0 <= k <= |apps| && log == Pass(CleanupStage, records[..k])
        invariant forall j :: 0 <= j < k ==> apps[j].state == Cleaned && apps[j].plugins == []
        invariant forall j :: k <= j < |apps| ==> apps[j].state == Finish && apps[j].plugins == records[j].plugins
      {
        assert records[..k + 1][..k] == records[..k];
        OthersApart(apps, k);
        var cleaned := apps[k].CleanupPlugins();
        log := log + Calls(k, CleanupStage, cleaned);
        k := k + 1;
      }
      assert records[..k] == records;
    }

    /** The three passes. */
    method BuildAll(apps: seq<SubApp>, program: Program) returns (ok: bool, log: seq<Event>, ghost records: seq<Record>)
      requires Separate(apps) && ProperProgram(program)
      requires forall k :: 0 <= k < |apps| ==> apps[k].state == Adding && WellListed(apps[k].Registered())
      modifies apps
      ensures ok ==> AllRecorded(old(RegistriesOf(apps)), program, records) && log == Trace(records)
      ensures ok ==> forall k :: 0 <= k < |apps| ==> apps[k].state == Cleaned && apps[k].plugins == []
      ensures ok <==> AllSucceed(old(RegistriesOf(apps)), program)
      ensures !ok && AllGentle(program) ==> SomeStuck(old(RegistriesOf(apps)), program)
    {
      ok, log, records := InitAll(apps, program, RegistriesOf(apps));
      if !ok {
        return;
      }
      var finished := FinishAll(apps, records);
      var cleaned := CleanupAll(apps, records);
      log := log + finished + cleaned;
    }

    /** The whole build: once it has gone through it does nothing any more, and a nested call is a
        panic as soon as the plugins are built. It goes through unless some plugin of the program is
        not gentle or some app's constraints, registered or asked for, can form a circle. */
    method Build(program: Program) returns (r: Outcome, log: seq<Event>, ghost records: seq<Record>)
      requires Separate(Apps()) && ProperProgram(program)
      requires main.state == Adding ==>
        forall k :: 0 <= k < |Apps()| ==> Apps()[k].state == Adding && WellListed(Apps()[k].Registered())
      modifies Apps()
      ensures r == AlreadyBuilt <==> old(main.state) == Cleaned
      ensures old(main.state) in {Built, Ready, Finish} ==> r == Panicked
      ensures old(main.state) != Adding ==> unchanged(Apps()) && log == []
      ensures r == Done ==> AllRecorded(old(RegistriesOf(Apps())), program, records) && log == Trace(records)
      ensures r == Done ==> forall k :: 0 <= k < |Apps()| ==> Apps()[k].state == Cleaned && Apps()[k].plugins == []
      ensures old(main.state) == Adding ==> (r == Done <==> AllSucceed(old(RegistriesOf(Apps())), program))
      ensures old(main.state) == Adding && r != Done && AllGentle(program) ==>
        SomeStuck(old(RegistriesOf(Apps())), program)
      ensures old(main.state) == Adding && AllGentle(program) && NoPossibleCycle(old(RegistriesOf(Apps())), program) ==>
        r == Done
    {
      log, records := [], [];
      match main.state
      case Built => r := Panicked;
      case Ready => r := Panicked;
      case Finish => r := Panicked;
      case Cleaned => r := AlreadyBuilt;
      case Adding =>
        var ok;
        ok, log, records := BuildAll(Apps(), program);
        r := if ok then Done else Panicked;
    }
  }
}
