/** Which object a plugin type has while plugins are registered and built: what `duplicate_strategy` means
    in `add_plugin` and `build_plugins` of crates/zlim-app/src/app.rs. */
module PluginObjects {
  import opened Wrappers
  import opened PluginOrder
  import opened PluginLists
  import opened PluginConstraints
  import opened PluginBuild

  predicate AddsAt(actions: seq<Action>, id: TypeId, j: nat) {
    j < |actions| && actions[j].Add? && actions[j].plugin.Plugin? && actions[j].plugin.id == id
  }

  predicate CoversAt(actions: seq<Action>, id: TypeId, j: nat) {
    AddsAt(actions, id, j) && actions[j].plugin.strategy == Cover
  }

  /** The object that type `id` has after an action, when it was `o` before. */
  function Next(o: Option<Plugin>, a: Action, id: TypeId): Option<Plugin> {
    if AddsAt([a], id, 0) && (o.None? || a.plugin.strategy == Cover) then Some(a.plugin) else o
  }

  function Latest(o: Option<Plugin>, actions: seq<Action>, id: TypeId): Option<Plugin> {
    if actions == [] then o
    else Next(Latest(o, actions[..|actions| - 1], id), actions[|actions| - 1], id)
  }

  ghost predicate NoneAdds(actions: seq<Action>, id: TypeId) {
    forall j: nat :: !AddsAt(actions, id, j)
  }

  ghost predicate NoneCovers(actions: seq<Action>, id: TypeId) {
    forall j: nat :: !CoversAt(actions, id, j)
  }

  /** `p` is the first object added. */
  ghost predicate AddedFirst(actions: seq<Action>, id: TypeId, p: Plugin) {
    exists j: nat :: AddsAt(actions, id, j) && actions[j].plugin == p &&
      forall i: nat :: i < j ==> !AddsAt(actions, id, i)
  }

  /** `p` is the last object that covers. */
  ghost predicate CoveredLast(actions: seq<Action>, id: TypeId, p: Plugin) {
    exists j: nat :: CoversAt(actions, id, j) && actions[j].plugin == p &&
      forall i: nat :: i > j ==> !CoversAt(actions, id, i)
  }

  lemma AddsMore(actions: seq<Action>, a: Action, id: TypeId)
    ensures forall j: nat ::
      AddsAt(actions + [a], id, j) <==> if j == |actions| then AddsAt([a], id, 0) else AddsAt(actions, id, j)
    ensures forall j: nat ::
      CoversAt(actions + [a], id, j) <==> if j == |actions| then CoversAt([a], id, 0) else CoversAt(actions, id, j)
  {
  }

  lemma NoneMore(actions: seq<Action>, a: Action, id: TypeId)
    ensures NoneAdds(actions + [a], id) <==> NoneAdds(actions, id) && !AddsAt([a], id, 0)
    ensures NoneCovers(actions + [a], id) <==> NoneCovers(actions, id) && !CoversAt([a], id, 0)
  {
    var more := actions + [a];
    AddsMore(actions, a, id);
    assert AddsAt(more, id, |actions|) <==> AddsAt([a], id, 0);
    assert CoversAt(more, id, |actions|) <==> CoversAt([a], id, 0);
    assert forall j: nat :: AddsAt(actions, id, j) ==> AddsAt(more, id, j);
    assert forall j: nat :: CoversAt(actions, id, j) ==> CoversAt(more, id, j);
  }

  lemma FirstMore(actions: seq<Action>, a: Action, id: TypeId, p: Plugin)
    ensures AddedFirst(actions + [a], id, p) <==>
      AddedFirst(actions, id, p) || (NoneAdds(actions, id) && AddsAt([a], id, 0) && a.plugin == p)
  {
    var more := actions + [a];
    AddsMore(actions, a, id);
    if AddedFirst(actions, id, p) {
      var j: nat :| AddsAt(actions, id, j) && actions[j].plugin == p &&
        forall i: nat :: i < j ==> !AddsAt(actions, id, i);
      assert AddsAt(more, id, j) && more[j].plugin == p;
    }
    if NoneAdds(actions, id) && AddsAt([a], id, 0) && a.plugin == p {
      assert AddsAt(more, id, |actions|) && more[|actions|].plugin == p;
    }
    if AddedFirst(more, id, p) {
      var j: nat :| AddsAt(more, id, j) && more[j].plugin == p && forall i: nat :: i < j ==> !AddsAt(more, id, i);
      if j < |actions| {
        assert AddsAt(actions, id, j) && actions[j].plugin == p;
      }
    }
  }

  lemma LastMore(actions: seq<Action>, a: Action, id: TypeId, p: Plugin)
    ensures CoveredLast(actions + [a], id, p) <==>
      if CoversAt([a], id, 0) then a.plugin == p else CoveredLast(actions, id, p)
  {
    var more := actions + [a];
    AddsMore(actions, a, id);
    if CoversAt([a], id, 0) {
      assert CoversAt(more, id, |actions|) && more[|actions|].plugin == a.plugin;
    } else {
      assert forall j: nat :: CoversAt(actions, id, j) ==> more[j] == actions[j];
    }
  }

  /** The last object that covers is what counts; without one, what was there, or what came first. */
  ghost predicate Counts(o: Option<Plugin>, actions: seq<Action>, id: TypeId, p: Plugin) {
    || CoveredLast(actions, id, p)
    || (NoneCovers(actions, id) && if o.Some? then o.value == p else AddedFirst(actions, id, p))
  }

  lemma CountsNext(o: Option<Plugin>, actions: seq<Action>, a: Action, id: TypeId, p: Plugin)
    ensures Counts(o, actions + [a], id, p) <==>
      if AddsAt([a], id, 0) && (a.plugin.strategy == Cover || (o.None? && NoneAdds(actions, id))) then a.plugin == p
      else Counts(o, actions, id, p)
  {
    NoneMore(actions, a, id);
    FirstMore(actions, a, id, p);
    LastMore(actions, a, id, p);
  }

  lemma {:induction false} LatestExactly(o: Option<Plugin>, actions: seq<Action>, id: TypeId, p: Plugin)
    ensures Latest(o, actions, id) == Some(p) <==> Counts(o, actions, id, p)
    ensures Latest(o, actions, id).None? <==> o.None? && NoneAdds(actions, id)
  {
    if actions != [] {
      var before, a := actions[..|actions| - 1], actions[|actions| - 1];
      assert actions == before + [a];
      LatestExactly(o, before, id, p);
      NoneMore(before, a, id);
      CountsNext(o, before, a, id, p);
    }
  }

  // ------------------------------------------------------------------------------------------
  // The objects in the list
  // ------------------------------------------------------------------------------------------

  /** `o` is the one object of type `id` in the list, if there is any. */
  ghost predicate ObjectIs(plugins: seq<Plugin>, id: TypeId, o: Option<Plugin>) {
    && (o.Some? ==> o.value.Plugin? && o.value.id == id && o.value in plugins)
    && forall k :: 0 <= k < |plugins| && plugins[k].Plugin? && plugins[k].id == id ==> o == Some(plugins[k])
  }

  lemma AppendObject(plugins: seq<Plugin>, p: Plugin, id: TypeId, o: Option<Plugin>)
    requires p.Plugin? && p.id !in IdsOf(plugins) && ObjectIs(plugins, id, o)
    ensures ObjectIs(plugins + [p], id, Next(o, Add(p), id))
  {
    var more := plugins + [p];
    assert more[|plugins|] == p;
  }

  /** An object takes over the slot of its type. */
  lemma ReplaceObject(plugins: seq<Plugin>, s: nat, p: Plugin, id: TypeId, o: Option<Plugin>)
    requires p.Plugin? && s < |plugins| && NoRepeats(IdsOf(plugins)) && IdsOf(plugins)[s] == p.id
    requires p.strategy == Cover && ObjectIs(plugins, id, o)
    ensures ObjectIs(plugins[s := p], id, Next(o, Add(p), id))
  {
    var ids, plugins' := IdsOf(plugins), plugins[s := p];
    assert plugins'[s] == p;
    if id != p.id && o.Some? {
      var k :| 0 <= k < |plugins| && plugins[k] == o.value;
      assert ids[k] == id && plugins'[k] == o.value;
    }
    forall k | 0 <= k < |plugins'| && plugins'[k].Plugin? && plugins'[k].id == id
      ensures Next(o, Add(p), id) == Some(plugins'[k])
    {
      assert k != s ==> plugins'[k] == plugins[k] && ids[k] == id;
    }
  }

  /** Adding a plugin before any is built: what is in which slot afterwards. */
  lemma AddObjects(r: Registry, p: Plugin)
    requires WellListed(r) && p.Plugin? && AddTo(r, p).Some?
    ensures var plugins := AddTo(r, p).value.plugins;
      if p.id !in r.graph then plugins == r.plugins + [p]
      else
        && |plugins| == |r.plugins|
        && forall k :: 0 <= k < |plugins| ==>
             plugins[k] == if p.strategy == Cover && r.plugins[k].id == p.id then p else r.plugins[k]
  {
    if p.id in r.graph && p.strategy == Cover {
      AddKeepsList(r, p);
      var ids, s := IdsOf(r.plugins), Slot(r.plugins, p.id);
      assert p.id in ids;
      var k :| 0 <= k < |ids| && ids[k] == p.id;
      assert Fits(r.plugins[k], p.id) && ids[s.value] == p.id;
    }
  }

  /** The same while the plugin of slot `i` is out. */
  lemma AddObject(r: Registry, i: nat, own: Plugin, p: Plugin, id: TypeId, o: Option<Plugin>)
    requires Building(r, i, own) && p.Plugin? && AddTo(r, p).Some? && !CoversLater(r, i, own, Add(p))
    requires ObjectIs(Restored(r, i, own).plugins, id, o)
    ensures i < |AddTo(r, p).value.plugins|
    ensures ObjectIs(Restored(AddTo(r, p).value, i, own).plugins, id, Next(o, Add(p), id))
  {
    var plugins, r' := Restored(r, i, own).plugins, AddTo(r, p).value;
    if p.id !in r.graph {
      AppendObject(plugins, p, id, o);
      assert Restored(r', i, own).plugins == plugins + [p];
    } else if p.strategy == Cover {
      CoverKeeps(r, i, own, p);
      var s := Slot(r.plugins, p.id).value;
      SlotIsOwn(r, i, own, p, s);
      ReplaceObject(plugins, s, p, id, o);
      assert Restored(r', i, own).plugins == plugins[s := p];
    } else if p.id == id {
      assert p.id in IdsOf(plugins);
      var k :| 0 <= k < |plugins| && IdsOf(plugins)[k] == id;
      assert o == Some(plugins[k]);
    }
  }

  lemma {:induction false} ScriptObject(r: Registry, i: nat, own: Plugin, actions: seq<Action>, id: TypeId,
                                        o: Option<Plugin>)
    requires Building(r, i, own) && AllProper(actions) && RunScript(r, actions).Some?
    requires CoversNothingLater(r, i, own, actions) && ObjectIs(Restored(r, i, own).plugins, id, o)
    ensures var r' := RunScript(r, actions).value;
      i < |r'.plugins| && ObjectIs(Restored(r', i, own).plugins, id, Latest(o, actions, id))
  {
    if actions != [] {
      var before, a := actions[..|actions| - 1], actions[|actions| - 1];
      ScriptObject(r, i, own, before, id, o);
      ScriptKeeps(r, i, own, before);
      if a.Add? {
        AddObject(RunScript(r, before).value, i, own, a.plugin, id, Latest(o, before, id));
      }
    }
  }

  /** A turn that ends well. */
  lemma TurnObject(r: Registry, i: nat, actions: seq<Action>, id: TypeId, o: Option<Plugin>)
    requires WellListed(r) && i < |r.plugins| && AllProper(actions) && BuildTurn(r, i, actions).Some?
    requires ObjectIs(r.plugins, id, o)
    ensures ObjectIs(BuildTurn(r, i, actions).value.plugins, id, Latest(o, actions, id))
  {
    var own, out := r.plugins[i], Out(r, i);
    TurnKeeps(r, i, actions);
    assert Restored(out, i, own).plugins == r.plugins;
    assert Restored(out, i, own) == r;
    ScriptObject(out, i, own, actions, id, o);
  }

  /** The scripts of the plugins built, one after the other. */
  function AllActions(program: Program, built: seq<Plugin>): seq<Action> {
    if built == [] then []
    else AllActions(program, built[..|built| - 1]) + Script(program, built[|built| - 1])
  }

  lemma {:induction false} LatestOn(o: Option<Plugin>, a: seq<Action>, b: seq<Action>, id: TypeId)
    ensures Latest(o, a + b, id) == Latest(Latest(o, a, id), b, id)
  {
    if b == [] {
      assert a + b == a;
    } else {
      LatestOn(o, a, b[..|b| - 1], id);
      assert (a + b)[..|a + b| - 1] == a + b[..|b| - 1];
    }
  }

  lemma {:induction false} LoopObject(before: Registry, program: Program, n: nat, id: TypeId, o: Option<Plugin>)
    requires WellListed(before) && ProperProgram(program) && Turns(before, program, n).Some?
    requires ObjectIs(before.plugins, id, o)
    ensures var p := Turns(before, program, n).value;
      ObjectIs(p.r.plugins, id, Latest(o, AllActions(program, p.built), id))
  {
    if n > 0 {
      var p := Turns(before, program, n - 1).value;
      var own := p.r.plugins[|p.built|];
      LoopObject(before, program, n - 1, id, o);
      TurnsKeep(before, program, n - 1);
      TurnObject(p.r, |p.built|, Script(program, own), id, Latest(o, AllActions(program, p.built), id));
      LatestOn(o, AllActions(program, p.built), Script(program, own), id);
      assert (p.built + [own])[..|p.built|] == p.built;
    }
  }

  /** After any number of turns that end well, the object of a registered type is the last one that a script
      run so far covered it with; without such, the object from before the loop, or the one first added. */
  lemma LoopObjects(before: Registry, program: Program, n: nat, k: nat, o: Option<Plugin>)
    requires WellListed(before) && ProperProgram(program) && Turns(before, program, n).Some?
    requires k < |Turns(before, program, n).value.r.plugins|
    requires ObjectIs(before.plugins, IdOf(Turns(before, program, n).value.r.plugins[k]), o)
    ensures var (r, built) := (Turns(before, program, n).value.r, Turns(before, program, n).value.built);
      Counts(o, AllActions(program, built), IdOf(r.plugins[k]), r.plugins[k])
  {
    var p := Turns(before, program, n).value;
    var q := p.r.plugins[k];
    TurnsKeep(before, program, n);
    LoopObject(before, program, n, IdOf(q), o);
    LatestExactly(o, AllActions(program, p.built), IdOf(q), q);
  }

  /** Every plugin is built as the object that is in its slot when its turn comes. */
  lemma {:induction false} BuiltInTurn(before: Registry, program: Program, n: nat, j: nat)
    requires Turns(before, program, n).Some? && j < n
    ensures var p := Turns(before, program, j);
      && p.Some? && j < |p.value.r.plugins| && j < |Turns(before, program, n).value.built|
      && Turns(before, program, n).value.built[j] == p.value.r.plugins[j]
  {
    TurnsLength(before, program, n - 1);
    if j < n - 1 {
      BuiltInTurn(before, program, n - 1, j);
    }
  }
}
