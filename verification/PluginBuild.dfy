/** What the build loop of `build_plugins` in crates/zlim-app/src/app.rs makes of a list of plugins. */
module PluginBuild {
  import opened Wrappers
  import opened PluginOrder
  import opened PluginLists
  import opened PluginConstraints

  // ------------------------------------------------------------------------------------------
  // The loop as a function
  // ------------------------------------------------------------------------------------------

  /** The list and what was built so far. */
  datatype Progress = Progress(r: Registry, built: seq<Plugin>)
  {
    predicate Complete() {
      |built| >= |r.plugins|
    }
  }

  /** One more turn; `None` is a panic, and there is no turn after the last one. */
  function NextTurn(p: Progress, program: Program): Option<Progress> {
    if p.Complete() || !AllProper(Script(program, p.r.plugins[|p.built|])) then None
    else
      var own := p.r.plugins[|p.built|];
      var r := BuildTurn(p.r, |p.built|, Script(program, own));
      if r.Some? then Some(Progress(r.value, p.built + [own])) else None
  }

  function Turns(before: Registry, program: Program, n: nat): Option<Progress> {
    if n == 0 then Some(Progress(before, []))
    else
      var p := Turns(before, program, n - 1);
      if p.Some? then NextTurn(p.value, program) else None
  }

  /** The loop comes to its end with the list `r`, having built `built`. */
  ghost predicate Ends(before: Registry, program: Program, r: Registry, built: seq<Plugin>) {
    |built| == |r.plugins| && Turns(before, program, |built|) == Some(Progress(r, built))
  }

  ghost predicate Builds(before: Registry, program: Program) {
    exists r, built :: Ends(before, program, r, built)
  }

  /** Turn `n` is reached and ends in a panic. */
  ghost predicate TurnFails(before: Registry, program: Program, n: nat) {
    var p := Turns(before, program, n);
    p.Some? && !p.value.Complete() && NextTurn(p.value, program).None?
  }

  lemma {:induction false} TurnsStop(before: Registry, program: Program, n: nat, m: nat)
    requires n <= m && Turns(before, program, n).None?
    ensures Turns(before, program, m).None?
  {
    if n < m {
      TurnsStop(before, program, n, m - 1);
    }
  }

  /** The loop has one outcome. */
  lemma OneEnd(before: Registry, program: Program, r: Registry, built: seq<Plugin>, r': Registry, built': seq<Plugin>)
    requires Ends(before, program, r, built) && Ends(before, program, r', built')
    ensures r == r' && built == built'
  {
    if |built| < |built'| {
      TurnsStop(before, program, |built| + 1, |built'|);
    } else if |built'| < |built| {
      TurnsStop(before, program, |built'| + 1, |built|);
    }
  }

  lemma FailedIsNoEnd(before: Registry, program: Program, n: nat)
    requires TurnFails(before, program, n)
    ensures !Builds(before, program)
  {
    forall r, built ensures !Ends(before, program, r, built) {
      if Ends(before, program, r, built) {
        TurnsLength(before, program, n);
        if |built| < n {
          TurnsStop(before, program, |built| + 1, n);
        } else if n < |built| {
          TurnsStop(before, program, n + 1, |built|);
        }
      }
    }
  }

  lemma {:induction false} TurnsLength(before: Registry, program: Program, n: nat)
    requires Turns(before, program, n).Some?
    ensures |Turns(before, program, n).value.built| == n
  {
    if n > 0 {
      TurnsLength(before, program, n - 1);
    }
  }

  // ------------------------------------------------------------------------------------------
  // What is registered in the end
  // ------------------------------------------------------------------------------------------

  function AddedBy(actions: seq<Action>): set<TypeId> {
    set k | 0 <= k < |actions| && actions[k].Add? :: IdOf(actions[k].plugin)
  }

  lemma AddedByMore(actions: seq<Action>, a: Action)
    ensures AddedBy(actions + [a]) == AddedBy(actions) + if a.Add? then {IdOf(a.plugin)} else {}
  {
    var more := actions + [a];
    assert more[|actions|] == a && forall k :: 0 <= k < |actions| ==> more[k] == actions[k];
    forall id | id in AddedBy(actions) ensures id in AddedBy(more) {
      var k :| 0 <= k < |actions| && actions[k].Add? && IdOf(actions[k].plugin) == id;
      assert more[k].Add? && IdOf(more[k].plugin) == id;
    }
    if a.Add? {
      assert more[|actions|].Add? && IdOf(more[|actions|].plugin) in AddedBy(more);
    }
  }

  /** A script that runs through registers exactly what it adds. */
  lemma {:induction false} RunAdds(r: Registry, actions: seq<Action>)
    requires AllProper(actions) && RunScript(r, actions).Some?
    ensures RunScript(r, actions).value.graph.Keys == r.graph.Keys + AddedBy(actions)
  {
    if actions != [] {
      var last := |actions| - 1;
      RunAdds(r, actions[..last]);
      assert actions == actions[..last] + [actions[last]];
      AddedByMore(actions[..last], actions[last]);
      ActAdds(RunScript(r, actions[..last]).value, actions[last]);
    }
  }

  lemma ActAdds(r: Registry, a: Action)
    requires Proper(a) && Act(r, a).Some?
    ensures Act(r, a).value.graph.Keys == r.graph.Keys + if a.Add? then {IdOf(a.plugin)} else {}
  {
  }

  /** Whatever one of the built plugins of a type in `t` adds is in `t`. */
  ghost predicate ClosedUnder(known: set<TypeId>, program: Program, built: seq<Plugin>, t: set<TypeId>) {
    known <= t && forall j :: 0 <= j < |built| && IdOf(built[j]) in t ==> AddedBy(Script(program, built[j])) <= t
  }

  /** The least set that holds what was registered before and what the built plugins add. */
  ghost predicate LeastClosed(known: set<TypeId>, program: Program, built: seq<Plugin>, s: set<TypeId>) {
    ClosedUnder(known, program, built, s) && forall t :: ClosedUnder(known, program, built, t) ==> s <= t
  }

  lemma LeastNext(known: set<TypeId>, program: Program, built: seq<Plugin>, own: Plugin, s: set<TypeId>)
    requires LeastClosed(known, program, built, s) && IdOf(own) in s
    ensures LeastClosed(known, program, built + [own], s + AddedBy(Script(program, own)))
    requires forall j :: 0 <= j < |built| ==> IdOf(built[j]) in s
  {
    var built', s' := built + [own], s + AddedBy(Script(program, own));
    forall t | ClosedUnder(known, program, built', t) ensures s' <= t {
      forall j | 0 <= j < |built| && IdOf(built[j]) in t ensures AddedBy(Script(program, built[j])) <= t {
        assert built'[j] == built[j];
      }
      assert ClosedUnder(known, program, built, t);
      assert built'[|built|] == own;
    }
  }

  // ------------------------------------------------------------------------------------------
  // What every turn keeps
  // ------------------------------------------------------------------------------------------

  ghost predicate ProperProgram(program: Program) {
    forall p :: p in program ==> AllProper(program[p])
  }

  /** The loop after some turns. */
  ghost predicate OnTheWay(before: Registry, program: Program, universe: set<TypeId>, p: Progress) {
    && |p.built| <= |p.r.plugins|
    && BuiltSoFar(before.plugins, p.r, program, universe, p.built, |p.built|)
    && Constraints(before.graph, p.r.graph, program, p.built)
    && LeastClosed(before.graph.Keys, program, p.built, p.r.graph.Keys)
  }

  lemma StartOnTheWay(before: Registry, program: Program)
    requires WellListed(before) && ProperProgram(program)
    ensures OnTheWay(before, program, Universe(program, before), Progress(before, []))
  {
    UniverseHolds(program, before);
    ConstraintsStart(before.graph, program);
  }

  lemma BuiltAreListed(r: Registry, built: seq<Plugin>)
    requires WellListed(r) && |built| <= |r.plugins| && IdsOf(built) == IdsOf(r.plugins)[..|built|]
    ensures forall j :: 0 <= j < |built| ==> IdOf(built[j]) in r.graph.Keys
    ensures |built| < |r.plugins| ==> IdOf(r.plugins[|built|]) in r.graph.Keys
  {
    forall j | 0 <= j < |built| ensures IdOf(built[j]) in r.graph.Keys {
      assert IdsOf(r.plugins)[j] == IdsOf(built)[j];
    }
  }

  lemma StepOnTheWay(before: Registry, program: Program, universe: set<TypeId>, p: Progress)
    requires OnTheWay(before, program, universe, p) && NextTurn(p, program).Some?
    ensures var p' := NextTurn(p, program).value;
      && OnTheWay(before, program, universe, p')
      && (p.r.graph.Keys < p'.r.graph.Keys ||
          (p.r.graph.Keys == p'.r.graph.Keys && |p.r.plugins| == |p'.r.plugins|))
  {
    var index := |p.built|;
    var own := p.r.plugins[index];
    BuiltNext(before.plugins, p.r, program, universe, p.built, index);
    ConstraintsNext(before.graph, p.r, index, program, p.built);
    BuiltAreListed(p.r, p.built);
    LeastNext(before.graph.Keys, program, p.built, own, p.r.graph.Keys);
    RunAdds(Out(p.r, index), Script(program, own));
  }

  lemma {:induction false} TurnsKeep(before: Registry, program: Program, n: nat)
    requires WellListed(before) && ProperProgram(program) && Turns(before, program, n).Some?
    ensures OnTheWay(before, program, Universe(program, before), Turns(before, program, n).value)
  {
    if n == 0 {
      StartOnTheWay(before, program);
    } else {
      TurnsKeep(before, program, n - 1);
      StepOnTheWay(before, program, Universe(program, before), Turns(before, program, n - 1).value);
    }
  }

  // ------------------------------------------------------------------------------------------
  // When the loop comes to its end
  // ------------------------------------------------------------------------------------------

  /** What the loop needs to know before turn `n`: its plugin's script is proper, and if the turn ends
      well, the loop comes closer to its end. */
  lemma TurnShrinksRest(before: Registry, program: Program, n: nat, p: Progress)
    requires WellListed(before) && ProperProgram(program) && Turns(before, program, n) == Some(p)
    ensures |p.built| == n <= |p.r.plugins| && WellListed(p.r)
    ensures n < |p.r.plugins| ==> p.r.plugins[n].Plugin? && AllProper(Script(program, p.r.plugins[n]))
    ensures NextTurn(p, program).Some? ==>
      var (universe, p') := (Universe(program, before), NextTurn(p, program).value);
      || universe - p'.r.graph.Keys < universe - p.r.graph.Keys
      || (p.r.graph.Keys == p'.r.graph.Keys && |p.r.plugins| == |p'.r.plugins|)
  {
    var universe := Universe(program, before);
    TurnsKeep(before, program, n);
    TurnsLength(before, program, n);
    if n < |p.r.plugins| {
      ScriptOf(program, p.r, universe, p.r.plugins[n]);
      if NextTurn(p, program).Some? {
        StepOnTheWay(before, program, universe, p);
        FewerLeft(universe, p.r.graph.Keys, NextTurn(p, program).value.r.graph.Keys);
      }
    }
  }

  lemma FewerLeft(universe: set<TypeId>, keys: set<TypeId>, keys': set<TypeId>)
    requires keys' <= universe
    ensures keys < keys' ==> universe - keys' < universe - keys
  {
    if keys < keys' {
      var x :| x in keys' && x !in keys;
      assert x in universe - keys && x !in universe - keys';
    }
  }

  /** From any turn on, the loop ends or panics: the list cannot grow for ever. */
  lemma {:induction false} EndsOrFails(before: Registry, program: Program, n: nat, p: Progress)
    requires WellListed(before) && ProperProgram(program) && Turns(before, program, n) == Some(p)
    ensures Builds(before, program) || exists k :: TurnFails(before, program, k)
    decreases Universe(program, before) - p.r.graph.Keys, |p.r.plugins| - n
  {
    TurnShrinksRest(before, program, n, p);
    if p.Complete() {
      assert Ends(before, program, p.r, p.built);
    } else if NextTurn(p, program).None? {
      assert TurnFails(before, program, n);
    } else {
      EndsOrFails(before, program, n + 1, NextTurn(p, program).value);
    }
  }

  /** If turn `n` is reached, its script runs through and covers no later plugin. */
  ghost predicate TurnPasses(before: Registry, program: Program, n: nat) {
    var p := Turns(before, program, n);
    p.Some? && n < |p.value.r.plugins| && AllProper(Script(program, p.value.r.plugins[n])) ==>
      var (out, own) := (Out(p.value.r, n), p.value.r.plugins[n]);
      RunScript(out, Script(program, own)).Some? && CoversNothingLater(out, n, own, Script(program, own))
  }

  lemma TurnPassesExactly(before: Registry, program: Program, n: nat)
    requires WellListed(before) && ProperProgram(program)
    ensures TurnPasses(before, program, n) <==> !TurnFails(before, program, n)
  {
    if Turns(before, program, n).Some? {
      var p := Turns(before, program, n).value;
      TurnsLength(before, program, n);
      TurnsKeep(before, program, n);
      if n < |p.r.plugins| {
        TurnKeeps(p.r, n, Script(program, p.r.plugins[n]));
      }
    }
  }

  /** The build loop comes to its end if and only if every script that has its turn runs through and
      covers no later plugin. */
  lemma BuildsExactly(before: Registry, program: Program)
    requires WellListed(before) && ProperProgram(program)
    ensures Builds(before, program) <==> forall n :: TurnPasses(before, program, n)
  {
    forall n ensures TurnPasses(before, program, n) <==> !TurnFails(before, program, n) {
      TurnPassesExactly(before, program, n);
    }
    EndsOrFails(before, program, 0, Progress(before, []));
    if n :| TurnFails(before, program, n) {
      FailedIsNoEnd(before, program, n);
    }
  }

  /** Gentle programs are built. */
  lemma GentleBuilds(before: Registry, program: Program)
    requires WellListed(before) && ProperProgram(program) && AllGentle(program)
    ensures Builds(before, program)
  {
    forall n ensures !TurnFails(before, program, n) {
      if TurnFails(before, program, n) {
        var p := Turns(before, program, n).value;
        TurnsKeep(before, program, n);
        GentleTurn(p.r, |p.built|, program, Universe(program, before));
      }
    }
    EndsOrFails(before, program, 0, Progress(before, []));
  }

  /** A covering duplicate of a later plugin: the placeholder's slot is taken over, and the turn ends in
      a panic. */
  lemma CoverPanics(first: Plugin, second: Plugin, other: Plugin)
    requires first == Plugin(1, 0, Skip) && second == Plugin(2, 0, Skip) && other == Plugin(2, 1, Cover)
    ensures var (before, program) := (Registry([first, second], map[1 := {}, 2 := {}]), map[first := [Add(other)]]);
      WellListed(before) && ProperProgram(program) && TurnFails(before, program, 0) && !Builds(before, program)
  {
    var before, program := Registry([first, second], map[1 := {}, 2 := {}]), map[first := [Add(other)]];
    assert IdsOf(before.plugins) == [1, 2];
    var out := Out(before, 0);
    assert out.plugins == [Placeholder, second];
    assert Slot(out.plugins, 2) == Some(0);
    assert out.plugins[0 := other] == [other, second];
    assert Act(out, Add(other)) == Some(Registry([other, second], before.graph));
    assert [Add(other)][..0] == [];
    assert RunScript(out, [Add(other)]) == Act(out, Add(other));
    assert TurnFails(before, program, 0);
    FailedIsNoEnd(before, program, 0);
  }

  // ------------------------------------------------------------------------------------------
  // The outcome
  // ------------------------------------------------------------------------------------------

  /** The outcome of a build stage: one object of every type that is registered in the end was built,
      in installation order, and the types that were there before come first. When no script replaces
      a plugin, the objects built are those in the list. The types are those from before and those that
      built plugins added, the constraints those from before and those that the plugins asked for. */
  ghost predicate AllBuilt(before: Registry, r: Registry, program: Program, built: seq<Plugin>) {
    && Ends(before, program, r, built)
    && WellListed(r) && IdsOf(built) == IdsOf(r.plugins) && IdsOf(before.plugins) <= IdsOf(r.plugins)
    && (AllReplaceNothing(program) ==> built == r.plugins && before.plugins <= r.plugins)
    && LeastClosed(before.graph.Keys, program, built, r.graph.Keys)
    && Constraints(before.graph, r.graph, program, built)
  }

  lemma WholeList(before: Registry, r: Registry, program: Program, built: seq<Plugin>)
    requires BuiltSoFar(before.plugins, r, program, Universe(program, before), built, |r.plugins|)
    ensures IdsOf(built) == IdsOf(r.plugins) && (AllReplaceNothing(program) ==> built == r.plugins)
  {
    assert IdsOf(r.plugins)[..|r.plugins|] == IdsOf(r.plugins) && r.plugins[..|r.plugins|] == r.plugins;
  }

  lemma EndIsAllBuilt(before: Registry, r: Registry, program: Program, built: seq<Plugin>)
    requires WellListed(before) && ProperProgram(program) && Ends(before, program, r, built)
    ensures AllBuilt(before, r, program, built)
  {
    TurnsKeep(before, program, |built|);
    WholeList(before, r, program, built);
  }

  lemma FailedTurn(before: Registry, program: Program, n: nat, p: Progress)
    requires WellListed(before) && ProperProgram(program)
    requires Turns(before, program, n) == Some(p) && !p.Complete() && NextTurn(p, program).None?
    ensures !Builds(before, program) && !AllGentle(program)
  {
    assert TurnFails(before, program, n);
    FailedIsNoEnd(before, program, n);
    if AllGentle(program) {
      GentleBuilds(before, program);
    }
  }

  /** What a turn needs, and what comes of it: the build fails, or the loop is closer to its end. */
  lemma OneTurn(before: Registry, program: Program, n: nat, p: Progress)
    requires WellListed(before) && ProperProgram(program)
    requires Turns(before, program, n) == Some(p) && n < |p.r.plugins|
    ensures p.r.plugins[n].Plugin? && AllProper(Script(program, p.r.plugins[n]))
    ensures var t := BuildTurn(p.r, n, Script(program, p.r.plugins[n]));
      match t
      case None => !Builds(before, program) && !AllGentle(program)
      case Some(r) =>
        && Turns(before, program, n + 1) == Some(Progress(r, p.built + [p.r.plugins[n]]))
        && (|| Left(before, program, r.graph) < Left(before, program, p.r.graph)
            || (Left(before, program, r.graph) == Left(before, program, p.r.graph) && |r.plugins| == |p.r.plugins|))
  {
    TurnShrinksRest(before, program, n, p);
    if NextTurn(p, program).None? {
      FailedTurn(before, program, n, p);
    }
  }

  /** The types that may still come in. */
  ghost function Left(before: Registry, program: Program, g: Graph): set<TypeId> {
    Universe(program, before) - g.Keys
  }

  lemma LastTurn(before: Registry, program: Program, n: nat, p: Progress)
    requires WellListed(before) && ProperProgram(program)
    requires Turns(before, program, n) == Some(p) && n >= |p.r.plugins|
    ensures Builds(before, program) && AllBuilt(before, p.r, program, p.built)
  {
    TurnShrinksRest(before, program, n, p);
    assert Ends(before, program, p.r, p.built);
    EndIsAllBuilt(before, p.r, program, p.built);
  }

  /** What a built plugin adds is registered, and built too. */
  lemma AdditionsBuilt(before: Registry, r: Registry, program: Program, built: seq<Plugin>, j: nat, k: nat)
    returns (i: nat)
    requires AllBuilt(before, r, program, built) && j < |built|
    requires k < |Script(program, built[j])| && Script(program, built[j])[k].Add?
    ensures var id := IdOf(Script(program, built[j])[k].plugin);
      id in r.graph && i < |built| && IdOf(built[i]) == id
  {
    var script := Script(program, built[j]);
    assert IdsOf(built)[j] in Elements(IdsOf(r.plugins));
    assert IdOf(script[k].plugin) in AddedBy(script);
    assert IdOf(script[k].plugin) in Elements(IdsOf(built));
    i :| 0 <= i < |built| && IdsOf(built)[i] == IdOf(script[k].plugin);
  }

  /** The build leaves constraints that form a circle. */
  ghost predicate EndsStuck(before: Registry, program: Program) {
    exists r, built :: AllBuilt(before, r, program, built) && exists c :: Cycle(r.graph, c)
  }

  lemma StuckWasPossible(before: Registry, program: Program)
    requires EndsStuck(before, program)
    ensures exists c :: PossibleCycle(before.graph, program, c)
  {
    var r, built :| AllBuilt(before, r, program, built) && exists c :: Cycle(r.graph, c);
    var c :| Cycle(r.graph, c);
    CycleWasPossible(before.graph, r.graph, program, built, c);
  }

  /** The build goes through, and leaves no circle. */
  ghost predicate Succeeds(before: Registry, program: Program) {
    exists r, built :: Ends(before, program, r, built) && forall c :: !Cycle(r.graph, c)
  }

  lemma SucceedsExactly(before: Registry, program: Program, r: Registry, built: seq<Plugin>)
    requires Ends(before, program, r, built)
    ensures Succeeds(before, program) <==> !exists c :: Cycle(r.graph, c)
  {
    if Succeeds(before, program) {
      var r', built' :| Ends(before, program, r', built') && forall c :: !Cycle(r'.graph, c);
      OneEnd(before, program, r, built, r', built');
    }
  }
}
