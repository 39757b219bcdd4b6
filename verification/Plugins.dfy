/**
 * Plugin loading: a depth-first search over factories that marks plugins in progress, refuses
 * cycles, and records the order in which plugins finished loading.
 */
module Plugins {
  import opened Wrappers

  /** What a plugin shows the manager. Initialisation and shutdown either succeed or fail. */
  datatype Plugin = Plugin(name: string, deps: seq<string>, initOk: bool, shutdownOk: bool)

  datatype Error = Invalid | Unknown(name: string) | Cyclic(name: string) | InitFailed(name: string)

  datatype Manager = Manager(
    factories: map<string, Plugin>, loaded: map<string, Plugin>, loading: set<string>, order: seq<string>)

  /** A factory registered under a name builds the plugin of that name. */
  predicate NamedFactories(m: Manager) {
    forall n :: n in m.factories ==> m.factories[n].name == n && n != ""
  }

  function RegisterFactory(m: Manager, name: string, f: Option<Plugin>): (r: (Manager, bool)) {
    if name == "" || f.None? || name in m.factories then (m, false)
    else (m.(factories := m.factories[name := f.value]), true)
  }

  /** The factories that are not in progress: what bounds the depth of the search. */
  function Room(m: Manager): set<string> {
    m.factories.Keys - m.loading
  }

  function RoomToUse(m: Manager, name: string): set<string> {
    if name in m.factories then Room(m) else Room(m) + {name}
  }

  // Loading, as a function of the manager's state

  function Use(m: Manager, p: Plugin): (r: (Manager, Option<Error>))
    requires NamedFactories(m)
    ensures r.0.factories == m.factories && r.0.loading == m.loading
    decreases RoomToUse(m, p.name), 0, 0
  {
    if p.name == "" then (m, Some(Invalid))
    else if p.name in m.loaded then (m, None)
    else if p.name in m.loading then (m, Some(Cyclic(p.name)))
    else
      var marked := m.(loading := m.loading + {p.name});
      RoomShrinks(m, p.name);
      var (after, failed) := LoadAll(marked, p.deps);
      Finish(m, after, p, failed)
  }

  /** The end of Use: initialise, record, and take the mark away whatever happened. */
  function Finish(m: Manager, after: Manager, p: Plugin, failed: Option<Error>): (Manager, Option<Error>) {
    if failed.Some? then (after.(loading := m.loading), failed)
    else if !p.initOk then (after.(loading := m.loading), Some(InitFailed(p.name)))
    else
      (after.(loading := m.loading, loaded := after.loaded[p.name := p], order := after.order + [p.name]), None)
  }

  function LoadAll(m: Manager, deps: seq<string>): (r: (Manager, Option<Error>))
    requires NamedFactories(m)
    ensures r.0.factories == m.factories && r.0.loading == m.loading
    decreases Room(m), 2, |deps|
  {
    if deps == [] then (m, None)
    else
      var (after, failed) := Load(m, deps[0]);
      if failed.Some? then (after, failed) else LoadAll(after, deps[1..])
  }

  function Load(m: Manager, name: string): (r: (Manager, Option<Error>))
    requires NamedFactories(m)
    ensures r.0.factories == m.factories && r.0.loading == m.loading
    decreases Room(m), 1, 0
  {
    if name in m.loaded then (m, None)
    else if name !in m.factories then (m, Some(Unknown(name)))
    else Use(m, m.factories[name])
  }

  lemma LoadAllStep(m: Manager, deps: seq<string>, i: nat)
    requires NamedFactories(m) && i < |deps|
    ensures var (after, failed) := Load(m, deps[i]);
            LoadAll(m, deps[i..]) == if failed.Some? then (after, failed) else LoadAll(after, deps[i + 1..])
  {
    assert deps[i..][0] == deps[i] && deps[i..][1..] == deps[i + 1..];
  }

  lemma UseUnfolds(m: Manager, p: Plugin)
    requires NamedFactories(m) && p.name != "" && p.name !in m.loaded && p.name !in m.loading
    ensures var (after, failed) := LoadAll(m.(loading := m.loading + {p.name}), p.deps);
            Use(m, p) == Finish(m, after, p, failed)
  {
  }

  lemma RoomShrinks(m: Manager, name: string)
    requires name !in m.loading
    ensures Room(m.(loading := m.loading + {name})) < RoomToUse(m, name)
  {
    assert name in RoomToUse(m, name);
  }

  // What every operation keeps

  predicate Distinct(names: seq<string>) {
    forall i, j :: 0 <= i < j < |names| ==> names[i] != names[j]
  }

  /** Dependencies finish loading before the plugin that asked for them. */
  ghost predicate Topological(order: seq<string>, loaded: map<string, Plugin>) {
    forall i, d :: 0 <= i < |order| && order[i] in loaded && d in loaded[order[i]].deps ==> d in order[..i]
  }

  ghost predicate Consistent(m: Manager) {
    && NamedFactories(m)
    && (forall n :: n in m.loaded ==> m.loaded[n].name == n)
    && Distinct(m.order)
    && (forall n :: n in m.order <==> n in m.loaded)
    && Topological(m.order, m.loaded)
    && m.loading !! m.loaded.Keys
  }

  /** r extends m by plugins of graph g, none of them in progress in m, all initialised. */
  ghost predicate Extends(m: Manager, r: Manager, g: map<string, Plugin>) {
    && r.factories == m.factories && r.loading == m.loading
    && (forall n :: n in m.loaded ==> n in r.loaded && r.loaded[n] == m.loaded[n])
    && (forall n :: n in r.loaded && n !in m.loaded ==>
          n !in m.loading && n in g && r.loaded[n] == g[n] && g[n].initOk)
    && m.order <= r.order
  }

  /** The plugins Use(p) can reach: the factories', with p itself under its own name. */
  function GraphWith(m: Manager, p: Plugin): map<string, Plugin> {
    m.factories[p.name := p]
  }

  lemma {:induction false} UseKeeps(m: Manager, p: Plugin)
    requires Consistent(m)
    ensures var (r, failed) := Use(m, p);
            && Consistent(r) && Extends(m, r, GraphWith(m, p))
            && (failed.None? ==> p.name in r.loaded)
    decreases RoomToUse(m, p.name), 0, 0
  {
    if p.name != "" && p.name !in m.loaded && p.name !in m.loading {
      var marked := m.(loading := m.loading + {p.name});
      RoomShrinks(m, p.name);
      LoadAllKeeps(marked, p.deps);
      var (after, failed) := LoadAll(marked, p.deps);
      assert p.name !in after.loaded;
      if failed.None? && p.initOk {
        FinishKeeps(m, after, p);
      } else {
        assert Consistent(after.(loading := m.loading));
      }
    }
  }

  lemma FinishKeeps(m: Manager, after: Manager, p: Plugin)
    requires Consistent(m) && Consistent(after) && p.name !in after.loaded && p.name !in m.loading
    requires Extends(m.(loading := m.loading + {p.name}), after, m.factories)
    requires forall d :: d in p.deps ==> d in after.loaded
    requires p.name != "" && p.initOk
    ensures var r := Finish(m, after, p, None).0;
            Consistent(r) && Extends(m, r, GraphWith(m, p))
  {
    SnocConsistent(m, after, p);
  }

  lemma SnocConsistent(m: Manager, after: Manager, p: Plugin)
    requires Consistent(m) && Consistent(after) && p.name !in after.loaded && p.name !in m.loading && p.name != ""
    requires after.factories == m.factories && after.loading == m.loading + {p.name}
    requires forall d :: d in p.deps ==> d in after.loaded
    ensures Consistent(Finish(m, after, p, None).0) || !p.initOk
  {
    var r := after.(loading := m.loading, loaded := after.loaded[p.name := p], order := after.order + [p.name]);
    SnocTopological(after, p);
    assert Distinct(r.order) by {
      assert p.name !in after.order;
      assert forall i :: 0 <= i < |after.order| ==> after.order[i] in after.order;
    }
    forall n
      ensures n in r.order <==> n in r.loaded
    {
      assert n in r.order <==> n in after.order || n == p.name;
    }
  }

  lemma SnocTopological(after: Manager, p: Plugin)
    requires Consistent(after) && p.name !in after.loaded
    requires forall d :: d in p.deps ==> d in after.loaded
    ensures Topological(after.order + [p.name], after.loaded[p.name := p])
  {
    var order, loaded := after.order + [p.name], after.loaded[p.name := p];
    forall i, d | 0 <= i < |order| && order[i] in loaded && d in loaded[order[i]].deps
      ensures d in order[..i]
    {
      if i < |after.order| {
        assert order[i] == after.order[i] && after.order[i] in after.order && order[..i] == after.order[..i];
      } else {
        assert order[..i] == after.order;
      }
    }
  }

  lemma {:induction false} LoadAllKeeps(m: Manager, deps: seq<string>)
    requires Consistent(m)
    ensures var (r, failed) := LoadAll(m, deps);
            && Consistent(r) && Extends(m, r, m.factories)
            && (failed.None? ==> forall d :: d in deps ==> d in r.loaded)
    decreases Room(m), 2, |deps|
  {
    if deps != [] {
      LoadKeeps(m, deps[0]);
      var (after, failed) := Load(m, deps[0]);
      if failed.None? {
        LoadAllKeeps(after, deps[1..]);
        forall d | d in deps
          ensures d in LoadAll(after, deps[1..]).0.loaded || LoadAll(after, deps[1..]).1.Some?
        {
          assert d == deps[0] || d in deps[1..];
        }
      }
    }
  }

  lemma {:induction false} LoadKeeps(m: Manager, name: string)
    requires Consistent(m)
    ensures var (r, failed) := Load(m, name);
            && Consistent(r) && Extends(m, r, m.factories)
            && (failed.None? ==> name in r.loaded)
    decreases Room(m), 1, 0
  {
    if name !in m.loaded && name in m.factories {
      UseKeeps(m, m.factories[name]);
      assert GraphWith(m, m.factories[name]) == m.factories;
    }
  }

  // When loading succeeds

  /** A walk from dependent to dependency through plugins that are not loaded. */
  predicate Chain(m: Manager, g: map<string, Plugin>, path: seq<string>) {
    && path != []
    && (forall i :: 0 <= i < |path| ==> path[i] !in m.loaded)
    && (forall i :: 0 <= i < |path| - 1 ==> path[i] in g && path[i + 1] in g[path[i]].deps)
  }

  function Last(path: seq<string>): string
    requires path != []
  {
    path[|path| - 1]
  }

  /** The walk ends at a plugin that can be built and initialised, and never comes back to one. */
  predicate Loadable(g: map<string, Plugin>, path: seq<string>)
    requires path != []
  {
    Last(path) in g && g[Last(path)].initOk && Distinct(path)
  }

  function Index(order: seq<string>, n: string): (i: nat)
    requires n in order
    ensures i < |order| && order[i] == n
  {
    if order[0] == n then 0 else 1 + Index(order[1..], n)
  }

  /** In a consistent manager, every walk through loaded plugins goes down in loading order. */
  lemma {:induction false} ChainDescends(r: Manager, g: map<string, Plugin>, path: seq<string>, i: nat, j: nat)
    requires Consistent(r) && i < j < |path|
    requires path[i] in r.loaded
    requires forall k :: 0 <= k < |path| && path[k] in r.loaded ==> path[k] in g && r.loaded[path[k]] == g[path[k]]
    requires forall k :: 0 <= k < |path| - 1 ==> path[k] in g && path[k + 1] in g[path[k]].deps
    ensures path[j] in r.loaded && Index(r.order, path[j]) < Index(r.order, path[i])
    decreases j - i
  {
    var mid := j - 1;
    if i < mid {
      ChainDescends(r, g, path, i, mid);
    }
    var at := Index(r.order, path[mid]);
    assert path[j] in r.loaded[r.order[at]].deps;
    assert path[j] in r.order[..at];
    var k :| 0 <= k < at && r.order[k] == path[j];
    assert Index(r.order, path[j]) == k;
  }

  /** Every walk from a plugin that is loaded after a successful call was loadable before it. */
  lemma SuccessSound(m: Manager, r: Manager, g: map<string, Plugin>, path: seq<string>)
    requires Consistent(r) && Extends(m, r, g)
    requires Chain(m, g, path) && path[0] in r.loaded
    ensures Loadable(g, path)
  {
    var last := |path| - 1;
    if last > 0 {
      ChainDescends(r, g, path, 0, last);
    }
    assert Last(path) in r.loaded;
    forall i, j | 0 <= i < j < |path|
      ensures path[i] != path[j]
    {
      if i > 0 {
        ChainDescends(r, g, path, 0, i);
      }
      ChainDescends(r, g, path, i, j);
    }
  }

  /** What an error says about the walk at whose end it arose. */
  predicate Explains(m: Manager, g: map<string, Plugin>, path: seq<string>, e: Error)
    requires path != []
  {
    var n, front := Last(path), path[..|path| - 1];
    match e
    case Invalid => false
    case Unknown(name) => name == n && n !in m.factories && (n !in g || n in front)
    case InitFailed(name) => name == n && n in g && !g[n].initOk && n !in m.loading
    case Cyclic(name) => name == n && (n in m.loading || n in front)
  }

  /** A walk that fails only at its end: what leads there is neither in progress nor repeated. */
  predicate Leads(m: Manager, path: seq<string>)
    requires path != []
  {
    var front := path[..|path| - 1];
    Distinct(front) && forall n :: n in front ==> n !in m.loading
  }

  lemma ExplainedNotLoadable(m: Manager, g: map<string, Plugin>, path: seq<string>, e: Error)
    requires path != [] && Explains(m, g, path, e)
    ensures Loadable(g, path) ==> Last(path) in m.loading
  {
    var last := |path| - 1;
    if Last(path) in path[..last] {
      var i :| 0 <= i < last && path[..last][i] == Last(path);
      assert path[i] == path[last];
    }
  }

  /**
   * A failing call points at the walk that made it fail, and its error says how: a name without a
   * factory, a failed initialisation, or a name that is in progress or comes again. A plugin given to Use
   * without a factory that comes again is reported as unknown.
   */
  lemma {:induction false} LoadFailure(m: Manager, name: string) returns (path: seq<string>)
    requires Consistent(m) && Load(m, name).1.Some?
    ensures Chain(m, m.factories, path) && path[0] == name
    ensures Leads(m, path) && Explains(m, m.factories, path, Load(m, name).1.value)
    decreases Room(m), 1, 0
  {
    if name !in m.factories {
      path := [name];
    } else {
      assert GraphWith(m, m.factories[name]) == m.factories;
      path := UseFailure(m, m.factories[name]);
    }
  }

  lemma {:induction false} UseFailure(m: Manager, p: Plugin) returns (path: seq<string>)
    requires Consistent(m) && p.name != "" && Use(m, p).1.Some?
    ensures Chain(m, GraphWith(m, p), path) && path[0] == p.name
    ensures Leads(m, path) && Explains(m, GraphWith(m, p), path, Use(m, p).1.value)
    decreases RoomToUse(m, p.name), 0, 0
  {
    path := [p.name];
    if p.name !in m.loading {
      var marked := m.(loading := m.loading + {p.name});
      RoomShrinks(m, p.name);
      if LoadAll(marked, p.deps).1.Some? {
        var inner := LoadAllFailure(marked, p.deps);
        path := [p.name] + inner;
        ExtendChain(m, p, inner, LoadAll(marked, p.deps).1.value);
      }
    }
  }

  lemma ExtendChain(m: Manager, p: Plugin, inner: seq<string>, e: Error)
    requires p.name !in m.loaded && p.name !in m.loading
    requires Chain(m, m.factories, inner) && inner[0] in p.deps
    requires var marked := m.(loading := m.loading + {p.name});
             Leads(marked, inner) && Explains(marked, m.factories, inner, e)
    ensures Chain(m, GraphWith(m, p), [p.name] + inner)
    ensures Leads(m, [p.name] + inner) && Explains(m, GraphWith(m, p), [p.name] + inner, e)
  {
    ChainCons(m, p, inner);
    var path, front := [p.name] + inner, inner[..|inner| - 1];
    assert path[..|path| - 1] == [p.name] + front;
    assert Last(path) == Last(inner);
    assert p.name !in front;
  }

  lemma ChainCons(m: Manager, p: Plugin, inner: seq<string>)
    requires p.name !in m.loaded && Chain(m, m.factories, inner) && inner[0] in p.deps
    requires p.name !in inner[..|inner| - 1]
    ensures Chain(m, GraphWith(m, p), [p.name] + inner)
  {
    var path, g := [p.name] + inner, GraphWith(m, p);
    forall i | 0 <= i < |path| - 1
      ensures path[i] in g && path[i + 1] in g[path[i]].deps
    {
      if i > 0 {
        assert path[i] == inner[..|inner| - 1][i - 1] && path[i + 1] == inner[i];
      }
    }
  }

  lemma {:induction false} LoadAllFailure(m: Manager, deps: seq<string>) returns (path: seq<string>)
    requires Consistent(m) && LoadAll(m, deps).1.Some?
    ensures Chain(m, m.factories, path) && path[0] in deps
    ensures Leads(m, path) && Explains(m, m.factories, path, LoadAll(m, deps).1.value)
    decreases Room(m), 2, |deps|
  {
    var (after, failed) := Load(m, deps[0]);
    if failed.Some? {
      path := LoadFailure(m, deps[0]);
    } else {
      LoadKeeps(m, deps[0]);
      path := LoadAllFailure(after, deps[1..]);
      var e := LoadAll(after, deps[1..]).1.value;
      assert LoadAll(m, deps).1 == Some(e) && after.factories == m.factories && after.loading == m.loading;
      assert Explains(m, m.factories, path, e);
    }
  }

  /**
   * With nothing in progress, Load succeeds if and only if every walk of unloaded plugins from name
   * ends at one that has a factory and initialises, and repeats no plugin.
   */
  lemma LoadSucceedsIff(m: Manager, name: string)
    requires Consistent(m) && m.loading == {}
    ensures Load(m, name).1.None? <==>
            forall path :: Chain(m, m.factories, path) && path[0] == name ==> Loadable(m.factories, path)
  {
    LoadKeeps(m, name);
    var (r, failed) := Load(m, name);
    if failed.None? {
      forall path | Chain(m, m.factories, path) && path[0] == name
        ensures Loadable(m.factories, path)
      {
        SuccessSound(m, r, m.factories, path);
      }
    } else {
      var path := LoadFailure(m, name);
      ExplainedNotLoadable(m, m.factories, path, failed.value);
    }
  }

  /** The same for Use, in the graph that holds the given plugin under its own name. */
  lemma UseSucceedsIff(m: Manager, p: Plugin)
    requires Consistent(m) && m.loading == {} && p.name != ""
    ensures Use(m, p).1.None? <==>
            forall path :: Chain(m, GraphWith(m, p), path) && path[0] == p.name ==> Loadable(GraphWith(m, p), path)
  {
    UseKeeps(m, p);
    var (r, failed) := Use(m, p);
    var g := GraphWith(m, p);
    if failed.None? {
      forall path | Chain(m, g, path) && path[0] == p.name
        ensures Loadable(g, path)
      {
        SuccessSound(m, r, g, path);
      }
    } else {
      var path := UseFailure(m, p);
      ExplainedNotLoadable(m, g, path, failed.value);
    }
  }

  // What a call leaves behind

  lemma {:induction false} LoadAllSplit(m: Manager, a: seq<string>, b: seq<string>)
    requires NamedFactories(m) && LoadAll(m, a).1.None?
    ensures LoadAll(m, a + b) == LoadAll(LoadAll(m, a).0, b)
    decreases |a|
  {
    if a == [] {
      assert a + b == b;
    } else {
      assert (a + b)[1..] == a[1..] + b;
      LoadAllSplit(Load(m, a[0]).0, a[1..], b);
    }
  }

  /** What the first dependencies left is part of what all of them leave, whether the rest fails or not. */
  lemma LoadAllExtends(m: Manager, deps: seq<string>, k: nat)
    requires Consistent(m) && k <= |deps| && LoadAll(m, deps[..k]).1.None?
    ensures var some, all := LoadAll(m, deps[..k]).0, LoadAll(m, deps).0;
            && some.order <= all.order
            && (forall d :: d in deps[..k] ==> d in some.order && d in all.loaded)
  {
    LoadAllKeeps(m, deps[..k]);
    LoadAllSplit(m, deps[..k], deps[k..]);
    assert deps[..k] + deps[k..] == deps;
    LoadAllKeeps(LoadAll(m, deps[..k]).0, deps[k..]);
  }

  /**
   * Dependencies that were loaded before a later one failed, or before the plugin's own initialisation
   * did, stay loaded and keep their places in the order.
   */
  lemma DependenciesStay(m: Manager, p: Plugin, k: nat)
    requires Consistent(m) && p.name != "" && p.name !in m.loaded && p.name !in m.loading && k <= |p.deps|
    requires LoadAll(m.(loading := m.loading + {p.name}), p.deps[..k]).1.None?
    ensures var some, r := LoadAll(m.(loading := m.loading + {p.name}), p.deps[..k]).0, Use(m, p).0;
            && some.order <= r.order
            && forall d :: d in p.deps[..k] ==> d in some.order && d in r.loaded
  {
    LoadAllExtends(m.(loading := m.loading + {p.name}), p.deps, k);
    UseUnfolds(m, p);
  }

  /** A call that has nothing to do, or is refused at once, changes nothing. */
  lemma NothingToDo(m: Manager, p: Plugin)
    requires NamedFactories(m)
    ensures p.name == "" ==> Use(m, p) == (m, Some(Invalid))
    ensures p.name != "" && p.name in m.loaded ==> Use(m, p) == (m, None)
    ensures forall n :: n in m.loaded ==> Load(m, n) == (m, None)
  {
  }

  /** A factory is registered exactly once under a name that is not empty. */
  lemma RegistersIff(m: Manager, name: string, f: Option<Plugin>, other: string)
    ensures var (r, ok) := RegisterFactory(m, name, f);
            && (ok <==> name != "" && f.Some? && name !in m.factories)
            && (other in r.factories <==> other in m.factories || (ok && other == name))
            && (other in r.factories ==>
                  r.factories[other] == if ok && other == name then f.value else m.factories[other])
            && r == m.(factories := r.factories)
  {
  }

  // Runs and shutdown

  datatype Op = RegisterOp(name: string, f: Option<Plugin>) | UseOp(p: Plugin) | LoadOp(name: string)

  predicate FactoryNamed(op: Op) {
    op.RegisterOp? && op.f.Some? ==> op.f.value.name == op.name
  }

  function Apply(m: Manager, op: Op): Manager
    requires NamedFactories(m)
  {
    match op
    case RegisterOp(name, f) => RegisterFactory(m, name, f).0
    case UseOp(p) => Use(m, p).0
    case LoadOp(name) => Load(m, name).0
  }

  /** The manager is consistent, with nothing in progress, after every sequence of calls, failed ones included. */
  lemma {:induction false} RunConsistent(ops: seq<Op>, states: seq<Manager>)
    requires |states| == |ops| + 1 && states[0] == Manager(map[], map[], {}, [])
    requires forall i :: 0 <= i < |ops| ==>
               FactoryNamed(ops[i]) && NamedFactories(states[i]) && states[i + 1] == Apply(states[i], ops[i])
    ensures Consistent(states[|ops|]) && states[|ops|].loading == {}
    decreases |ops|
  {
    if ops != [] {
      var n := |ops| - 1;
      assert forall i :: 0 <= i < n ==> ops[..n][i] == ops[i] && states[..n + 1][i] == states[i];
      RunConsistent(ops[..n], states[..n + 1]);
      var m := states[n];
      assert states[..n + 1][n] == m;
      match ops[n] {
        case RegisterOp(name, f) =>
        case UseOp(p) => UseKeeps(m, p);
        case LoadOp(name) => LoadKeeps(m, name);
      }
    }
  }

  function Reverse(names: seq<string>): (r: seq<string>)
    ensures |r| == |names|
    ensures forall i :: 0 <= i < |names| ==> r[i] == names[|names| - 1 - i]
  {
    if names == [] then [] else Reverse(names[1..]) + [names[0]]
  }

  /** The plugins among those named whose shutdown fails, in the order of the names. */
  function Failing(names: seq<string>, loaded: map<string, Plugin>): seq<string> {
    if names == [] then []
    else (if names[0] in loaded && !loaded[names[0]].shutdownOk then [names[0]] else []) + Failing(names[1..], loaded)
  }

  lemma {:induction false} FailingSnoc(names: seq<string>, n: string, loaded: map<string, Plugin>)
    ensures Failing(names + [n], loaded)
         == Failing(names, loaded) + if n in loaded && !loaded[n].shutdownOk then [n] else []
  {
    if names == [] {
      assert names + [n] == [n] && [n][1..] == [];
    } else {
      assert (names + [n])[1..] == names[1..] + [n];
      FailingSnoc(names[1..], n, loaded);
    }
  }

  /** One failure's error does not keep the others from being collected, and each is collected once. */
  lemma {:induction false} FailingMembers(names: seq<string>, loaded: map<string, Plugin>)
    requires Distinct(names)
    ensures Distinct(Failing(names, loaded))
    ensures forall n :: n in Failing(names, loaded) <==> n in names && n in loaded && !loaded[n].shutdownOk
  {
    if names != [] {
      FailingMembers(names[1..], loaded);
      assert forall i :: 0 < i < |names| ==> names[i] == names[1..][i - 1];
      assert names[0] !in names[1..];
      assert forall n :: n in names <==> n == names[0] || n in names[1..];
    }
  }

  /** Reverse loading order meets every plugin once, and before anything it depends on. */
  lemma ShutdownBeforeDependencies(m: Manager, i: nat, d: string)
    requires Consistent(m) && i < |m.order|
    requires Reverse(m.order)[i] in m.loaded && d in m.loaded[Reverse(m.order)[i]].deps
    ensures d in Reverse(m.order)[i + 1..] && d !in Reverse(m.order)[..i + 1]
  {
    var visited := Reverse(m.order);
    var at := |m.order| - 1 - i;
    assert visited[i] == m.order[at];
    assert d in m.order[..at];
    var k :| 0 <= k < at && m.order[k] == d;
    assert visited[|m.order| - 1 - k] == d;
    assert visited[i + 1..][|m.order| - 1 - k - (i + 1)] == d;
    forall j | 0 <= j < i + 1
      ensures visited[j] != d
    {
      assert visited[j] == m.order[|m.order| - 1 - j];
    }
  }

  // The object itself

  /** PluginManager: the maps and the order list, updated in place around the recursion. */
  class PluginManager {
    var factories: map<string, Plugin>
    var loaded: map<string, Plugin>
    var loading: set<string>
    var order: seq<string>

    /** What the plugins saw: whose Init has run and succeeded, in order. */
    ghost var started: seq<string>

    function State(): Manager
      reads this
    {
      Manager(factories, loaded, loading, order)
    }

    method Init(p: Plugin) returns (ok: bool)
      modifies this`started
      ensures ok == p.initOk && started == old(started) + if ok then [p.name] else []
    {
      if p.initOk {
        started := started + [p.name];
      }
      return p.initOk;
    }

    constructor ()
      ensures State() == Manager(map[], map[], {}, []) && started == order
    {
      factories, loaded, loading, order, started := map[], map[], {}, [], [];
    }

    method Register(name: string, f: Option<Plugin>) returns (ok: bool)
      modifies this`factories
      ensures (State(), ok) == RegisterFactory(old(State()), name, f)
    {
      if name == "" || f.None? {
        return false;
      }
      if name in factories {
        return false;
      }
      factories := factories[name := f.value];
      return true;
    }

    method UsePlugin(p: Plugin) returns (failed: Option<Error>)
      requires NamedFactories(State()) && started == order
      modifies this
      ensures (State(), failed) == Use(old(State()), p) && started == order
      decreases RoomToUse(State(), p.name), 0, 0
    {
      if p.name == "" {
        return Some(Invalid);
      }
      if p.name in loaded {
        return None;
      }
      if p.name in loading {
        return Some(Cyclic(p.name));
      }
      ghost var before := State();
      RoomShrinks(before, p.name);
      UseUnfolds(before, p);
      loading := loading + {p.name};
      failed := LoadDependencies(p.deps);
      assert loading - {p.name} == before.loading;
      if failed.None? {
        var ok := Init(p);
        if !ok {
          failed := Some(InitFailed(p.name));
        } else {
          loaded := loaded[p.name := p];
          order := order + [p.name];
        }
      }
      loading := loading - {p.name};
    }

    /** The loop in the middle of Use. */
    method LoadDependencies(deps: seq<string>) returns (failed: Option<Error>)
      requires NamedFactories(State()) && started == order
      modifies this
      ensures (State(), failed) == LoadAll(old(State()), deps) && started == order
      decreases Room(State()), 2, 0
    {
      ghost var before := State();
      var i := 0;
      assert deps[0..] == deps;
      while i < |deps|
        invariant 0 <= i <= |deps|
        invariant factories == before.factories && loading == before.loading && started == order
        invariant LoadAll(before, deps) == LoadAll(State(), deps[i..])
      {
        LoadAllStep(State(), deps, i);
        failed := LoadPlugin(deps[i]);
        if failed.Some? {
          return;
        }
        i := i + 1;
      }
      return None;
    }

    method LoadPlugin(name: string) returns (failed: Option<Error>)
      requires NamedFactories(State()) && started == order
      modifies this
      ensures (State(), failed) == Load(old(State()), name) && started == order
      decreases Room(State()), 1, 0
    {
      if name in loaded {
        return None;
      }
      if name !in factories {
        return Some(Unknown(name));
      }
      failed := UsePlugin(factories[name]);
    }

    /** Calls each loaded plugin's Shutdown, newest first, and collects the names of those that failed. */
    method Shutdown() returns (visited: seq<string>, errs: seq<string>)
      requires Consistent(State())
      ensures visited == Reverse(order)
      ensures errs == Failing(visited, loaded)
    {
      visited, errs := [], [];
      var i := |order|;
      while i > 0
        invariant 0 <= i <= |order|
        invariant visited == Reverse(order[i..])
        invariant errs == Failing(visited, loaded)
      {
        i := i - 1;
        assert order[i..][0] == order[i] && order[i..][1..] == order[i + 1..];
        assert order[i] in order;
        FailingSnoc(visited, order[i], loaded);
        visited := visited + [order[i]];
        if !loaded[order[i]].shutdownOk {
          errs := errs + [order[i]];
        }
      }
      assert order[0..] == order;
    }
  }
}
