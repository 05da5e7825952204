/** Registering plugins and running their build scripts: `add_plugin`, `add_plugin_order` and one turn
    of `build_plugins` in crates/zlim-app/src/app.rs. */
module PluginLists {
  import opened Wrappers
  import opened PluginOrder

  datatype Strategy = Skip | Cover | Panic

  /** A plugin object. `variant` stands for whatever else two objects of one type differ in. */
  datatype Plugin = Placeholder | Plugin(id: TypeId, variant: nat, strategy: Strategy)

  /** What a plugin's `build` does with its app. */
  datatype Action =
    | Add(plugin: Plugin)
    | Order(before: TypeId, after: TypeId)
    | OrderIfPresent(before: TypeId, after: TypeId)

  type Program = map<Plugin, seq<Action>>

  function Script(program: Program, p: Plugin): seq<Action> {
    if p in program then program[p] else []
  }

  datatype Registry = Registry(plugins: seq<Plugin>, graph: Graph)

  function IdOf(p: Plugin): TypeId {
    match p
    case Placeholder => 0
    case Plugin(id, _, _) => id
  }

  function IdsOf(plugins: seq<Plugin>): (ids: seq<TypeId>)
    ensures |ids| == |plugins| && forall k :: 0 <= k < |ids| ==> ids[k] == IdOf(plugins[k])
  {
    seq(|plugins|, k requires 0 <= k < |plugins| => IdOf(plugins[k]))
  }

  /** Every registered type has one plugin object, in one slot. */
  ghost predicate WellListed(r: Registry) {
    && (forall k :: 0 <= k < |r.plugins| ==> r.plugins[k].Plugin?)
    && NoRepeats(IdsOf(r.plugins)) && Elements(IdsOf(r.plugins)) == r.graph.Keys && Registered(r.graph)
  }

  // ------------------------------------------------------------------------------------------
  // Adding plugins and constraints; `None` is a panic
  // ------------------------------------------------------------------------------------------

  /** The first slot that holds a plugin of the type, or the placeholder. */
  function Slot(plugins: seq<Plugin>, id: TypeId): (k: Option<nat>)
    ensures k.Some? ==> k.value < |plugins| && Fits(plugins[k.value], id)
    ensures k.Some? ==> forall j :: 0 <= j < k.value ==> !Fits(plugins[j], id)
    ensures k.None? ==> forall j :: 0 <= j < |plugins| ==> !Fits(plugins[j], id)
  {
    if plugins == [] then None
    else
      var k := Slot(plugins[..|plugins| - 1], id);
      if k.Some? then k else if Fits(plugins[|plugins| - 1], id) then Some(|plugins| - 1) else None
  }

  predicate Fits(p: Plugin, id: TypeId) {
    p.Placeholder? || p.id == id
  }

  function AddTo(r: Registry, p: Plugin): Option<Registry>
    requires p.Plugin?
  {
    if p.id !in r.graph then Some(Registry(r.plugins + [p], r.graph[p.id := {}]))
    else
      match p.strategy
      case Skip => Some(r)
      case Panic => None
      case Cover =>
        var k := Slot(r.plugins, p.id);
        if k.Some? then Some(r.(plugins := r.plugins[k.value := p])) else None
  }

  function OrderIn(r: Registry, before: TypeId, after: TypeId): Option<Registry> {
    if before in r.graph && after in r.graph then
      Some(r.(graph := r.graph[after := r.graph[after] + {before}]))
    else None
  }

  predicate Proper(a: Action) {
    a.Add? ==> a.plugin.Plugin?
  }

  function Act(r: Registry, a: Action): Option<Registry>
    requires Proper(a)
  {
    match a
    case Add(p) => AddTo(r, p)
    case Order(before, after) => OrderIn(r, before, after)
    case OrderIfPresent(before, after) =>
      if before in r.graph && after in r.graph then OrderIn(r, before, after) else Some(r)
  }

  predicate AllProper(actions: seq<Action>) {
    forall k :: 0 <= k < |actions| ==> Proper(actions[k])
  }

  function RunScript(r: Registry, actions: seq<Action>): Option<Registry>
    requires AllProper(actions)
  {
    if actions == [] then Some(r)
    else
      var last := |actions| - 1;
      var r' := RunScript(r, actions[..last]);
      if r'.Some? then Act(r'.value, actions[last]) else None
  }

  /** Before any plugin is built: a new type gets a slot at the end, a covering duplicate takes over the
      slot of its type, and only a duplicate that asks for it panics. */
  lemma AddKeepsList(r: Registry, p: Plugin)
    requires WellListed(r) && p.Plugin?
    ensures AddTo(r, p).None? <==> p.id in r.graph && p.strategy == Panic
    ensures AddTo(r, p).Some? ==> WellListed(AddTo(r, p).value) && p.id in AddTo(r, p).value.graph
    ensures AddTo(r, p).Some? ==>
      IdsOf(AddTo(r, p).value.plugins) == IdsOf(r.plugins) + if p.id in r.graph then [] else [p.id]
  {
    var ids := IdsOf(r.plugins);
    if p.id !in r.graph {
      AppendId(ids, p.id);
      assert IdsOf(r.plugins + [p]) == ids + [p.id];
    } else {
      assert p.id in ids;
      var k :| 0 <= k < |ids| && ids[k] == p.id;
      assert Fits(r.plugins[k], p.id);
      var s := Slot(r.plugins, p.id).value;
      assert IdsOf(r.plugins[s := p]) == ids;
      assert ids + [] == ids;
    }
  }

  lemma AppendId(ids: seq<TypeId>, id: TypeId)
    requires NoRepeats(ids) && id !in ids
    ensures NoRepeats(ids + [id]) && Elements(ids + [id]) == Elements(ids) + {id}
  {
  }

  // ------------------------------------------------------------------------------------------
  // While one plugin is out being built
  // ------------------------------------------------------------------------------------------

  /** The list after the build of the plugin in slot `i`: it goes back where the placeholder still is. */
  function Restored(r: Registry, i: nat, own: Plugin): Registry
    requires i < |r.plugins|
  {
    r.(plugins := r.plugins[i := if r.plugins[i].Placeholder? then own else r.plugins[i]])
  }

  /** Slot `i` holds the placeholder, or an object of the type that is being built. */
  ghost predicate Building(r: Registry, i: nat, own: Plugin) {
    && i < |r.plugins| && own.Plugin? && (r.plugins[i].Plugin? ==> r.plugins[i].id == own.id)
    && WellListed(Restored(r, i, own))
  }

  /** Slot `i` was taken over by another type: the turn will end in a panic. */
  predicate TakenOver(r: Registry, i: nat, own: Plugin) {
    i < |r.plugins| && r.plugins[i].Plugin? && IdOf(own) != r.plugins[i].id
  }

  /** A covering duplicate of a later plugin meets the placeholder first. */
  predicate CoversLater(r: Registry, i: nat, own: Plugin, a: Action) {
    && i < |r.plugins| && r.plugins[i].Placeholder? && a.Add? && a.plugin.Plugin? && a.plugin.id in r.graph
    && a.plugin.strategy == Cover
    && IdOf(own) != a.plugin.id && a.plugin.id !in IdsOf(r.plugins[..i])
  }

  /** One action outside that case keeps slots where they are. */
  lemma ActKeeps(r: Registry, i: nat, own: Plugin, a: Action)
    requires Building(r, i, own) && Proper(a) && Act(r, a).Some? && !CoversLater(r, i, own, a)
    ensures Building(Act(r, a).value, i, own)
    ensures IdsOf(Restored(r, i, own).plugins) <= IdsOf(Restored(Act(r, a).value, i, own).plugins)
    ensures r.graph.Keys <= Act(r, a).value.graph.Keys
  {
    var r0, r' := Restored(r, i, own), Act(r, a).value;
    if a.Add? {
      var p := a.plugin;
      if p.id !in r.graph {
        AddKeepsList(r0, p);
        assert Restored(r', i, own).plugins == r0.plugins + [p];
      } else if p.strategy == Cover {
        CoverKeeps(r, i, own, p);
      }
    }
  }

  lemma CoverKeeps(r: Registry, i: nat, own: Plugin, p: Plugin)
    requires Building(r, i, own) && p.Plugin? && p.strategy == Cover && p.id in r.graph
    requires !CoversLater(r, i, own, Add(p))
    ensures AddTo(r, p).Some? && Building(AddTo(r, p).value, i, own)
    ensures IdsOf(Restored(AddTo(r, p).value, i, own).plugins) == IdsOf(Restored(r, i, own).plugins)
  {
    var ids := IdsOf(Restored(r, i, own).plugins);
    assert p.id in ids;
    var k :| 0 <= k < |ids| && ids[k] == p.id;
    assert Fits(r.plugins[k], p.id);
    var s := Slot(r.plugins, p.id).value;
    SlotIsOwn(r, i, own, p, s);
    ReplaceOwn(r, i, own, p, s);
  }

  /** An object may replace one of its own type. */
  lemma ReplaceOwn(r: Registry, i: nat, own: Plugin, p: Plugin, s: nat)
    requires Building(r, i, own) && p.Plugin? && s < |r.plugins| && IdsOf(Restored(r, i, own).plugins)[s] == p.id
    ensures var r' := r.(plugins := r.plugins[s := p]);
      Building(r', i, own) && IdsOf(Restored(r', i, own).plugins) == IdsOf(Restored(r, i, own).plugins)
  {
    var r' := r.(plugins := r.plugins[s := p]);
    assert IdsOf(Restored(r', i, own).plugins) == IdsOf(Restored(r, i, own).plugins);
  }

  lemma SlotIsOwn(r: Registry, i: nat, own: Plugin, p: Plugin, s: nat)
    requires Building(r, i, own) && p.Plugin? && p.strategy == Cover && p.id in r.graph
    requires !CoversLater(r, i, own, Add(p))
    requires Slot(r.plugins, p.id) == Some(s)
    ensures IdsOf(Restored(r, i, own).plugins)[s] == p.id
  {
    forall j | 0 <= j < i && j < s ensures IdsOf(r.plugins[..i])[j] != p.id {
      assert Restored(r, i, own).plugins[j] == r.plugins[j];
      assert !Fits(r.plugins[j], p.id);
    }
  }

  /** In that case the slot is taken over ... */
  lemma CoverTakesOver(r: Registry, i: nat, own: Plugin, a: Action)
    requires Building(r, i, own) && Proper(a) && CoversLater(r, i, own, a)
    ensures Act(r, a).Some? && TakenOver(Act(r, a).value, i, own)
  {
    forall j | 0 <= j < i ensures !Fits(r.plugins[j], a.plugin.id) {
      assert Restored(r, i, own).plugins[j] == r.plugins[j];
      assert IdsOf(r.plugins[..i])[j] == IdOf(r.plugins[j]);
    }
    assert Fits(r.plugins[i], a.plugin.id);
  }

  /** ... and no later action gives it back. */
  lemma TakenOverStays(r: Registry, i: nat, own: Plugin, a: Action)
    requires TakenOver(r, i, own) && Proper(a) && Act(r, a).Some?
    ensures TakenOver(Act(r, a).value, i, own)
  {
  }

  /** No action of the script is a covering duplicate of a later plugin. */
  predicate CoversNothingLater(r: Registry, i: nat, own: Plugin, actions: seq<Action>)
    requires AllProper(actions)
  {
    actions == [] ||
    (var last := |actions| - 1;
     var r' := RunScript(r, actions[..last]);
     && CoversNothingLater(r, i, own, actions[..last])
     && (r'.Some? ==> !CoversLater(r'.value, i, own, actions[last])))
  }

  /** A script that runs through leaves the slot to the plugin being built exactly when it covers no
      later plugin; then no slot has changed its type. */
  lemma {:induction false} ScriptKeeps(r: Registry, i: nat, own: Plugin, actions: seq<Action>)
    requires Building(r, i, own) && AllProper(actions) && RunScript(r, actions).Some?
    ensures var r' := RunScript(r, actions).value;
      if CoversNothingLater(r, i, own, actions) then
        Building(r', i, own) && IdsOf(Restored(r, i, own).plugins) <= IdsOf(Restored(r', i, own).plugins) &&
        r.graph.Keys <= r'.graph.Keys
      else TakenOver(r', i, own)
  {
    if actions != [] {
      var last := |actions| - 1;
      ScriptKeeps(r, i, own, actions[..last]);
      var r' := RunScript(r, actions[..last]).value;
      if CoversNothingLater(r, i, own, actions[..last]) {
        if CoversLater(r', i, own, actions[last]) {
          CoverTakesOver(r', i, own, actions[last]);
        } else {
          ActKeeps(r', i, own, actions[last]);
        }
      } else {
        TakenOverStays(r', i, own, actions[last]);
      }
    }
  }

  /** Nothing is replaced by the script. */
  predicate ReplacesNothing(actions: seq<Action>) {
    forall k :: 0 <= k < |actions| && actions[k].Add? && actions[k].plugin.Plugin? ==>
      actions[k].plugin.strategy != Cover
  }

  /** Such a script only appends: every object stays in its slot. */
  lemma {:induction false} ScriptAppends(r: Registry, i: nat, own: Plugin, actions: seq<Action>)
    requires AllProper(actions) && ReplacesNothing(actions)
    ensures CoversNothingLater(r, i, own, actions)
    ensures RunScript(r, actions).Some? ==> r.plugins <= RunScript(r, actions).value.plugins
  {
    if actions != [] {
      ScriptAppends(r, i, own, actions[..|actions| - 1]);
    }
  }

  /** Adds what is not there yet, and orders only what is: such a script cannot panic. */
  predicate Gentle(actions: seq<Action>) {
    forall k :: 0 <= k < |actions| ==>
      match actions[k]
      case Add(p) => p.Plugin? && p.strategy == Skip
      case Order(_, _) => false
      case OrderIfPresent(_, _) => true
  }

  lemma {:induction false} GentleRuns(r: Registry, actions: seq<Action>)
    requires Gentle(actions)
    ensures AllProper(actions) && ReplacesNothing(actions) && RunScript(r, actions).Some?
  {
    if actions != [] {
      GentleRuns(r, actions[..|actions| - 1]);
    }
  }

  // ------------------------------------------------------------------------------------------
  // One turn of the build loop
  // ------------------------------------------------------------------------------------------

  /** The plugin types that may ever be registered. */
  ghost predicate Within(program: Program, r: Registry, universe: set<TypeId>) {
    r.graph.Keys <= universe && forall p :: p in program ==> ScriptWithin(program[p], universe)
  }

  ghost predicate ScriptWithin(actions: seq<Action>, universe: set<TypeId>) {
    AllProper(actions) && forall k :: 0 <= k < |actions| && actions[k].Add? ==> actions[k].plugin.id in universe
  }

  /** A finite program over a finite list can only ever register finitely many types. */
  ghost function Universe(program: Program, r: Registry): set<TypeId> {
    r.graph.Keys + set p, k | p in program && 0 <= k < |program[p]| && program[p][k].Add? :: IdOf(program[p][k].plugin)
  }

  lemma UniverseHolds(program: Program, r: Registry)
    requires forall p :: p in program ==> AllProper(program[p])
    ensures Within(program, r, Universe(program, r))
  {
    forall p | p in program ensures ScriptWithin(program[p], Universe(program, r)) {
      forall k | 0 <= k < |program[p]| && program[p][k].Add? ensures program[p][k].plugin.id in Universe(program, r) {
        assert Proper(program[p][k]);
        assert IdOf(program[p][k].plugin) in Universe(program, r);
      }
    }
  }

  lemma {:induction false} RunWithin(r: Registry, actions: seq<Action>, universe: set<TypeId>)
    requires ScriptWithin(actions, universe) && r.graph.Keys <= universe && RunScript(r, actions).Some?
    ensures RunScript(r, actions).value.graph.Keys <= universe
  {
    if actions != [] {
      RunWithin(r, actions[..|actions| - 1], universe);
    }
  }

  lemma {:induction false} RunKeepsLength(r: Registry, actions: seq<Action>)
    requires AllProper(actions) && RunScript(r, actions).Some?
    ensures |r.plugins| <= |RunScript(r, actions).value.plugins|
  {
    if actions != [] {
      RunKeepsLength(r, actions[..|actions| - 1]);
    }
  }

  /** The list with the plugin of slot `i` out for its build. */
  function Out(r: Registry, i: nat): Registry
    requires i < |r.plugins|
  {
    r.(plugins := r.plugins[i := Placeholder])
  }

  /** One turn; `None` is a panic. */
  function BuildTurn(r: Registry, i: nat, actions: seq<Action>): Option<Registry>
    requires i < |r.plugins| && AllProper(actions)
  {
    var ran := RunScript(Out(r, i), actions);
    if ran.None? || i >= |ran.value.plugins| || TakenOver(ran.value, i, r.plugins[i]) then None
    else Some(Restored(ran.value, i, r.plugins[i]))
  }

  /** A turn ends well exactly when its script runs through and covers no later plugin. Then every
      slot still has its type, and new types come last. */
  lemma TurnKeeps(r: Registry, i: nat, actions: seq<Action>)
    requires WellListed(r) && i < |r.plugins| && AllProper(actions)
    ensures BuildTurn(r, i, actions).Some? <==>
      RunScript(Out(r, i), actions).Some? && CoversNothingLater(Out(r, i), i, r.plugins[i], actions)
    ensures BuildTurn(r, i, actions).Some? ==>
      var r' := BuildTurn(r, i, actions).value;
      WellListed(r') && IdsOf(r.plugins) <= IdsOf(r'.plugins) && r.graph.Keys <= r'.graph.Keys
  {
    var own, out := r.plugins[i], Out(r, i);
    assert Restored(out, i, own).plugins == r.plugins;
    assert Restored(out, i, own) == r;
    if RunScript(out, actions).Some? {
      RunKeepsLength(out, actions);
      ScriptKeeps(out, i, own, actions);
    }
  }

  /** A turn that replaces nothing leaves every object where it is. */
  lemma TurnAppends(r: Registry, i: nat, actions: seq<Action>)
    requires i < |r.plugins| && r.plugins[i].Plugin? && AllProper(actions) && ReplacesNothing(actions)
    ensures BuildTurn(r, i, actions).Some? ==> r.plugins <= BuildTurn(r, i, actions).value.plugins
  {
    ScriptAppends(Out(r, i), i, r.plugins[i], actions);
  }

  /** The loop comes closer to its end, unless a type not seen before was registered. */
  lemma TurnShrinks(r: Registry, r': Registry)
    requires WellListed(r) && WellListed(r') && IdsOf(r.plugins) <= IdsOf(r'.plugins) && r.graph.Keys <= r'.graph.Keys
    ensures r.graph.Keys < r'.graph.Keys || (r.graph.Keys == r'.graph.Keys && |r.plugins| == |r'.plugins|)
  {
    var n, ids, ids' := |r.plugins|, IdsOf(r.plugins), IdsOf(r'.plugins);
    if n < |ids'| {
      assert ids'[n] in ids' && ids'[n] !in ids;
      assert ids'[n] in r'.graph.Keys && ids'[n] !in r.graph.Keys;
    } else {
      assert ids == ids';
    }
  }

  // ------------------------------------------------------------------------------------------
  // The build loop
  // ------------------------------------------------------------------------------------------

  ghost predicate AllReplaceNothing(program: Program) {
    forall p :: p in program ==> ReplacesNothing(program[p])
  }

  ghost predicate AllGentle(program: Program) {
    forall p :: p in program ==> Gentle(program[p])
  }

  /** The loop so far: one object of every type up to `index` was built, in list order. */
  ghost predicate BuiltSoFar(before: seq<Plugin>, r: Registry, program: Program, universe: set<TypeId>,
                             built: seq<Plugin>, index: nat) {
    && WellListed(r) && Within(program, r, universe) && |built| == index <= |r.plugins|
    && IdsOf(built) == IdsOf(r.plugins)[..index] && IdsOf(before) <= IdsOf(r.plugins)
    && (AllReplaceNothing(program) ==> built == r.plugins[..index] && before <= r.plugins)
  }

  lemma ScriptOf(program: Program, r: Registry, universe: set<TypeId>, p: Plugin)
    requires Within(program, r, universe)
    ensures ScriptWithin(Script(program, p), universe)
    ensures AllReplaceNothing(program) ==> ReplacesNothing(Script(program, p))
    ensures AllGentle(program) ==> Gentle(Script(program, p))
  {
    assert p in program ==> ScriptWithin(program[p], universe);
  }

  lemma BuiltNext(before: seq<Plugin>, r: Registry, program: Program, universe: set<TypeId>, built: seq<Plugin>,
                  index: nat)
    requires BuiltSoFar(before, r, program, universe, built, index) && index < |r.plugins|
    requires AllProper(Script(program, r.plugins[index]))
    requires BuildTurn(r, index, Script(program, r.plugins[index])).Some?
    ensures var r' := BuildTurn(r, index, Script(program, r.plugins[index])).value;
      && BuiltSoFar(before, r', program, universe, built + [r.plugins[index]], index + 1)
      && (r.graph.Keys < r'.graph.Keys || (r.graph.Keys == r'.graph.Keys && |r.plugins| == |r'.plugins|))
  {
    var own := r.plugins[index];
    var actions := Script(program, own);
    var r' := BuildTurn(r, index, actions).value;
    ScriptOf(program, r, universe, own);
    TurnKeeps(r, index, actions);
    RunWithin(Out(r, index), actions, universe);
    TurnShrinks(r, r');
    assert IdsOf(built + [own]) == IdsOf(built) + [own.id];
    if AllReplaceNothing(program) {
      TurnAppends(r, index, actions);
    }
  }

  /** Gentle scripts never panic. */
  lemma GentleTurn(r: Registry, index: nat, program: Program, universe: set<TypeId>)
    requires WellListed(r) && Within(program, r, universe) && AllGentle(program) && index < |r.plugins|
    ensures var actions := Script(program, r.plugins[index]);
      AllProper(actions) && BuildTurn(r, index, actions).Some?
  {
    var actions := Script(program, r.plugins[index]);
    ScriptOf(program, r, universe, r.plugins[index]);
    GentleRuns(Out(r, index), actions);
    ScriptAppends(Out(r, index), index, r.plugins[index], actions);
    TurnKeeps(r, index, actions);
  }
}
