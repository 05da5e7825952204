/** What becomes of the constraints between plugins while plugins are built: `add_plugin_order` and the
    build loop in crates/zlim-app/src/app.rs. */
module PluginConstraints {
  import opened Wrappers
  import opened PluginOrder
  import opened PluginLists

  /** No plugin and no constraint is lost. */
  ghost predicate EdgesKept(g: Graph, g': Graph) {
    forall x :: x in g ==> x in g' && g[x] <= g'[x]
  }

  predicate Orders(a: Action, before: TypeId, after: TypeId) {
    (a.Order? || a.OrderIfPresent?) && a.before == before && a.after == after
  }

  ghost predicate AskedBy(actions: seq<Action>, before: TypeId, after: TypeId) {
    exists k :: 0 <= k < |actions| && Orders(actions[k], before, after)
  }

  ghost predicate Asked(program: Program, before: TypeId, after: TypeId) {
    exists p :: p in program && AskedBy(program[p], before, after)
  }

  /** An action that asks for a constraint has it made; a conditional one, when both plugins are
      `known` before. */
  predicate MadeAt(known: set<TypeId>, g: Graph, a: Action) {
    a.Order? || (a.OrderIfPresent? && a.before in known && a.after in known) ==> DependsOn(g, a.after, a.before)
  }

  /** No constraint comes from nowhere. */
  ghost predicate Sourced(g: Graph, g': Graph, actions: seq<Action>) {
    forall x, y :: DependsOn(g', x, y) ==> DependsOn(g, x, y) || AskedBy(actions, y, x)
  }

  lemma EdgesKeptTwice(g: Graph, g': Graph, g'': Graph)
    requires EdgesKept(g, g') && EdgesKept(g', g'')
    ensures EdgesKept(g, g'')
  {
  }

  lemma AskedByMore(actions: seq<Action>, a: Action, before: TypeId, after: TypeId)
    ensures AskedBy(actions + [a], before, after) <==> AskedBy(actions, before, after) || Orders(a, before, after)
  {
    var more := actions + [a];
    assert more[|actions|] == a && forall k :: 0 <= k < |actions| ==> more[k] == actions[k];
  }

  lemma ActEdges(r: Registry, a: Action)
    requires Proper(a) && Act(r, a).Some?
    ensures EdgesKept(r.graph, Act(r, a).value.graph) && MadeAt(r.graph.Keys, Act(r, a).value.graph, a)
    ensures forall x, y :: DependsOn(Act(r, a).value.graph, x, y) ==> DependsOn(r.graph, x, y) || Orders(a, y, x)
  {
  }

  /** A script that runs through keeps every constraint, makes those it asks for, and no others. */
  lemma {:induction false} RunEdges(r: Registry, actions: seq<Action>)
    requires AllProper(actions) && RunScript(r, actions).Some?
    ensures var g := RunScript(r, actions).value.graph;
      && EdgesKept(r.graph, g) && Sourced(r.graph, g, actions)
      && forall k :: 0 <= k < |actions| ==> MadeAt(r.graph.Keys, g, actions[k])
  {
    if actions != [] {
      var last := |actions| - 1;
      var before, a := actions[..last], actions[last];
      RunEdges(r, before);
      var r' := RunScript(r, before).value;
      var g := Act(r', a).value.graph;
      ActEdges(r', a);
      EdgesKeptTwice(r.graph, r'.graph, g);
      assert actions == before + [a];
      forall x, y | DependsOn(g, x, y) ensures DependsOn(r.graph, x, y) || AskedBy(actions, y, x) {
        AskedByMore(before, a, y, x);
      }
      forall k | 0 <= k < |actions| ensures MadeAt(r.graph.Keys, g, actions[k]) {
        assert k < last ==> actions[k] == before[k] && MadeAt(r.graph.Keys, r'.graph, before[k]);
      }
    }
  }

  // ------------------------------------------------------------------------------------------
  // The build loop
  // ------------------------------------------------------------------------------------------

  /** The constraints that the `j`-th plugin built asked for are there. A conditional one is, if both
      plugins were registered before the loop or stand no later in the list than that plugin. */
  ghost predicate TurnMade(before: Graph, g: Graph, program: Program, built: seq<Plugin>, j: nat)
    requires j < |built|
  {
    var known := before.Keys + Elements(IdsOf(built)[..j + 1]);
    forall k :: 0 <= k < |Script(program, built[j])| ==> MadeAt(known, g, Script(program, built[j])[k])
  }

  /** The constraints after the plugins of `built` were built: those from before, those that were asked
      for, and no others. */
  ghost predicate Constraints(before: Graph, g: Graph, program: Program, built: seq<Plugin>) {
    && EdgesKept(before, g)
    && (forall j {:trigger TurnMade(before, g, program, built, j)} :: 0 <= j < |built| ==>
          TurnMade(before, g, program, built, j))
    && (forall x, y :: DependsOn(g, x, y) ==> DependsOn(before, x, y) || Asked(program, y, x))
  }

  lemma TurnStaysMade(before: Graph, g: Graph, g': Graph, program: Program, built: seq<Plugin>, own: Plugin, j: nat)
    requires j < |built| && TurnMade(before, g, program, built, j) && EdgesKept(g, g')
    ensures TurnMade(before, g', program, built + [own], j)
  {
    var built' := built + [own];
    assert IdsOf(built')[..j + 1] == IdsOf(built)[..j + 1] && built'[j] == built[j];
  }

  lemma TurnIsMade(before: Graph, r: Registry, actions: seq<Action>, program: Program, built: seq<Plugin>, own: Plugin)
    requires AllProper(actions) && RunScript(r, actions).Some? && actions == Script(program, own)
    requires EdgesKept(before, r.graph) && Elements(IdsOf(built + [own])) <= r.graph.Keys
    ensures TurnMade(before, RunScript(r, actions).value.graph, program, built + [own], |built|)
  {
    var built' := built + [own];
    RunEdges(r, actions);
    assert IdsOf(built')[..|built| + 1] == IdsOf(built');
    assert built'[|built|] == own;
  }

  lemma ConstraintsNext(before: Graph, r: Registry, index: nat, program: Program, built: seq<Plugin>)
    requires Constraints(before, r.graph, program, built) && WellListed(r) && index < |r.plugins|
    requires |built| == index && IdsOf(built) == IdsOf(r.plugins)[..index]
    requires AllProper(Script(program, r.plugins[index]))
    requires BuildTurn(r, index, Script(program, r.plugins[index])).Some?
    ensures Constraints(before, BuildTurn(r, index, Script(program, r.plugins[index])).value.graph, program,
                        built + [r.plugins[index]])
  {
    var own := r.plugins[index];
    var actions, out := Script(program, own), Out(r, index);
    var built', g := built + [own], RunScript(out, actions).value.graph;
    RunEdges(out, actions);
    EdgesKeptTwice(before, r.graph, g);
    assert IdsOf(built') == IdsOf(r.plugins)[..index + 1];
    forall id | id in Elements(IdsOf(built')) ensures id in r.graph {
      assert id in IdsOf(r.plugins);
    }
    forall j | 0 <= j < |built'| ensures TurnMade(before, g, program, built', j) {
      if j < index {
        TurnStaysMade(before, r.graph, g, program, built, own, j);
      } else {
        TurnIsMade(before, out, actions, program, built, own);
      }
    }
    forall x, y | DependsOn(g, x, y) ensures DependsOn(before, x, y) || Asked(program, y, x) {
      assert AskedBy(actions, y, x) ==> own in program;
    }
  }

  lemma ConstraintsStart(g: Graph, program: Program)
    ensures Constraints(g, g, program, [])
  {
  }

  // ------------------------------------------------------------------------------------------
  // Circles
  // ------------------------------------------------------------------------------------------

  /** A constraint that is there, or that some plugin might ask for. */
  ghost predicate Possible(g: Graph, program: Program, x: TypeId, y: TypeId) {
    DependsOn(g, x, y) || Asked(program, y, x)
  }

  ghost predicate PossibleCycle(g: Graph, program: Program, c: seq<TypeId>) {
    && |c| > 0
    && forall k :: 0 <= k < |c| ==> Possible(g, program, c[k], c[if k + 1 < |c| then k + 1 else 0])
  }

  /** A circle in the end is one of constraints that were there or asked for. */
  lemma CycleWasPossible(before: Graph, g: Graph, program: Program, built: seq<Plugin>, c: seq<TypeId>)
    requires Constraints(before, g, program, built) && Cycle(g, c)
    ensures PossibleCycle(before, program, c)
  {
    forall k | 0 <= k < |c| ensures Possible(before, program, c[k], c[if k + 1 < |c| then k + 1 else 0]) {
      assert DependsOn(g, c[k], c[if k + 1 < |c| then k + 1 else 0]);
    }
  }

  /** What an order for all constraints says about one of them. */
  lemma ConstraintRespected(before: Graph, g: Graph, order: seq<TypeId>, x: TypeId, y: TypeId) returns (j: nat, k: nat)
    requires EdgesKept(before, g) && LinearExtension(g, order) && DependsOn(before, x, y)
    ensures j < k < |order| && order[j] == y && order[k] == x
  {
    assert x in Elements(order);
    k := PositionOf(order, x);
    j := DependencyEarlier(g, order, k, y);
  }
}
