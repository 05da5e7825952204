/** The life of the plugins of one app: `SubApp` and the plugin stages in crates/zlim-app/src/app.rs. */
module Plugins {
  import opened Wrappers
  import opened PluginOrder
  import opened PluginLists
  import opened PluginConstraints
  import opened PluginBuild

  datatype PluginsState = Adding | Built | Ready | Finish | Cleaned

  class SubApp {
    var plugins: seq<Plugin>
    var graph: Graph
    var state: PluginsState

    function Registered(): Registry
      reads this
    {
      Registry(plugins, graph)
    }

    constructor ()
      ensures Registered() == Registry([], map[]) && state == Adding && WellListed(Registered())
    {
      plugins, graph, state := [], map[], Adding;
    }

    method FindSlot(id: TypeId) returns (k: Option<nat>)
      ensures k == Slot(plugins, id)
    {
      var j := 0;
      while j < |plugins|
        invariant 0 <= j <= |plugins| && Slot(plugins[..j], id).None?
      {
        if plugins[j].Placeholder? || plugins[j].id == id {
          FirstSlot(plugins, id, j);
          return Some(j);
        }
        assert plugins[..j + 1][..j] == plugins[..j];
        j := j + 1;
      }
      assert plugins[..j] == plugins;
      k := None;
    }

    /** `false` is a panic. */
    method AddPlugin(p: Plugin) returns (ok: bool)
      requires p.Plugin?
      modifies this`plugins, this`graph
      ensures ok <==> state == Adding && AddTo(old(Registered()), p).Some?
      ensures ok ==> Registered() == AddTo(old(Registered()), p).value
    {
      if state != Adding {
        return false;
      }
      ok := true;
      if p.id !in graph {
        graph := graph[p.id := {}];
        plugins := plugins + [p];
      } else {
        match p.strategy
        case Skip =>
        case Cover =>
          var k := FindSlot(p.id);
          if k.None? {
            return false;
          }
          plugins := plugins[k.value := p];
        case Panic =>
          ok := false;
      }
    }

    method AddPluginOrder(before: TypeId, after: TypeId) returns (ok: bool)
      modifies this`graph
      ensures ok <==> state == Adding && OrderIn(old(Registered()), before, after).Some?
      ensures ok ==> Registered() == OrderIn(old(Registered()), before, after).value
    {
      if state != Adding || before !in graph || after !in graph {
        return false;
      }
      graph := graph[after := graph[after] + {before}];
      ok := true;
    }

    /** A plugin's `build`. */
    method RunBuild(actions: seq<Action>) returns (ok: bool)
      requires state == Adding && AllProper(actions)
      modifies this`plugins, this`graph
      ensures ok <==> RunScript(old(Registered()), actions).Some?
      ensures ok ==> Registered() == RunScript(old(Registered()), actions).value
    {
      var k := 0;
      while k < |actions|
        invariant 0 <= k <= |actions| && RunScript(old(Registered()), actions[..k]) == Some(Registered())
      {
        assert actions[..k + 1][..k] == actions[..k];
        assert Proper(actions[k]);
        match actions[k] {
          case Add(p) =>
            ok := AddPlugin(p);
          case Order(before, after) =>
            ok := AddPluginOrder(before, after);
          case OrderIfPresent(before, after) =>
            ok := true;
            if before in graph && after in graph {
              ok := AddPluginOrder(before, after);
            }
        }
        if !ok {
          RunStops(old(Registered()), actions, k + 1);
          return false;
        }
        k := k + 1;
      }
      assert actions[..k] == actions;
      ok := true;
    }

    /** One turn of the build loop: the plugin is taken out, built, and put back. A different type in
        its slot afterwards is a panic. */
    method BuildOne(index: nat, program: Program) returns (ok: bool)
      requires state == Adding && index < |plugins| && plugins[index].Plugin?
      requires AllProper(Script(program, plugins[index]))
      modifies this`plugins, this`graph
      ensures ok <==> BuildTurn(old(Registered()), index, Script(program, old(plugins)[index])).Some?
      ensures ok ==> Registered() == BuildTurn(old(Registered()), index, Script(program, old(plugins)[index])).value
    {
      var plugin := plugins[index];
      plugins := plugins[index := Placeholder];
      ghost var out := Registered();
      assert out == Out(old(Registered()), index);
      ok := RunBuild(Script(program, plugin));
      if !ok {
        return;
      }
      RunKeepsLength(out, Script(program, plugin));
      if plugins[index].Placeholder? {
        plugins := plugins[index := plugin];
      } else if plugins[index].id != plugin.id {
        ok := false;
      } else {
        assert plugins == plugins[index := plugins[index]];
      }
    }

    /** The build loop over the list, which grows meanwhile. It terminates, and when no turn fails it
        builds one object of every type that is registered in the end, in installation order. */
    method BuildPlugins(program: Program) returns (ok: bool, built: seq<Plugin>)
      requires state == Adding && WellListed(Registered()) && ProperProgram(program)
      modifies this
      ensures ok <==> Builds(old(Registered()), program)
      ensures ok ==> state == Built && AllBuilt(old(Registered()), Registered(), program, built)
      ensures AllGentle(program) ==> ok
    {
      ghost var before := Registered();
      built := [];
      var index := 0;
      while index < |plugins|
        invariant state == Adding && Turns(before, program, index) == Some(Progress(Registered(), built))
        decreases Left(before, program, graph), |plugins| - index
      {
        OneTurn(before, program, index, Progress(Registered(), built));
        var own := plugins[index];
        ok := BuildOne(index, program);
        if !ok {
          return;
        }
        built := built + [own];
        index := index + 1;
      }
      LastTurn(before, program, index, Progress(Registered(), built));
      state := Built;
      ok := true;
    }

    /** Applies every plugin when all it depends on was applied. Which ready plugin is next is not
        fixed; running out of ready plugins is the panic about circular dependencies. */
    method ApplyPlugins() returns (ok: bool, applied: seq<TypeId>)
      requires state == Built && WellListed(Registered())
      modifies this`graph, this`state
      ensures ok <==> !exists c :: Cycle(old(graph), c)
      ensures ok ==> state == Ready && graph == map[] && LinearExtension(old(graph), applied)
    {
      applied := [];
      ghost var all := graph;
      while graph != map[]
        invariant Reduced(all, applied, graph)
        decreases graph.Keys
      {
        if t :| t in graph && graph[t] == {} {
          ReduceNext(all, applied, graph, t);
          graph := Without(graph, t);
          var index := FindPlugin(t);
          applied := applied + [plugins[index].id];
        } else {
          StuckReduced(all, applied, graph);
          return false, applied;
        }
      }
      assert Elements(applied) == all.Keys;
      forall c ensures !Cycle(all, c) {
        NoCycleInOrder(all, applied, c);
      }
      state := Ready;
      ok := true;
    }

    /** The object of a registered type. */
    method FindPlugin(id: TypeId) returns (index: nat)
      requires id in IdsOf(plugins) && forall k :: 0 <= k < |plugins| ==> plugins[k].Plugin?
      ensures index < |plugins| && plugins[index].id == id
    {
      ghost var k :| 0 <= k < |plugins| && IdsOf(plugins)[k] == id;
      index := 0;
      while plugins[index].id != id
        invariant 0 <= index <= k
        decreases k - index
      {
        index := index + 1;
      }
    }

    method FinishPlugins() returns (finished: seq<TypeId>)
      requires state == Ready
      modifies this`state
      ensures state == Finish && finished == IdsOf(plugins)
    {
      finished := [];
      var index := 0;
      while index < |plugins|
        invariant 0 <= index <= |plugins| && finished == IdsOf(plugins)[..index]
      {
        finished := finished + [IdOf(plugins[index])];
        index := index + 1;
      }
      state := Finish;
    }

    /** The last stage also lets go of the plugins. */
    method CleanupPlugins() returns (cleaned: seq<TypeId>)
      requires state == Finish
      modifies this
      ensures state == Cleaned && cleaned == IdsOf(old(plugins)) && plugins == [] && graph == map[]
    {
      cleaned := [];
      var index := 0;
      while index < |plugins|
        invariant 0 <= index <= |plugins| && cleaned == IdsOf(plugins)[..index]
      {
        cleaned := cleaned + [IdOf(plugins[index])];
        index := index + 1;
      }
      plugins, graph, state := [], map[], Cleaned;
    }
  }

  lemma FirstSlot(plugins: seq<Plugin>, id: TypeId, j: nat)
    requires j < |plugins| && Slot(plugins[..j], id).None? && Fits(plugins[j], id)
    ensures Slot(plugins, id) == Some(j)
  {
    forall i | 0 <= i < j ensures !Fits(plugins[i], id) {
      assert plugins[..j][i] == plugins[i];
    }
  }

  lemma {:induction false} RunStops(r: Registry, actions: seq<Action>, k: nat)
    requires k <= |actions| && AllProper(actions) && RunScript(r, actions[..k]).None?
    ensures RunScript(r, actions).None?
  {
    if k < |actions| {
      var last := |actions| - 1;
      assert actions[..last][..k] == actions[..k];
      RunStops(r, actions[..last], k);
    } else {
      assert actions[..k] == actions;
    }
  }
}
