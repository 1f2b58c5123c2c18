/** A model of the plugin registry of plugin_framework (src/plugin_manager.rs).

    The registry owns two ordered sequences: the dynamic libraries it has
    opened and the plugin objects whose code lives in those libraries.  The
    operating-system loader and the factory call are foreign code, so each
    call to `load_plugin` is given the loader's outcome as an input.  The
    lifecycle hooks and the release of a library are recorded as events in a
    trace, so that their order can be stated and proved.

    The module has two layers: a value `Registry` with one step function per
    operation (the specification), and the class `PluginManager`, which keeps
    the same state in mutable fields and whose methods are proved against the
    step functions.
 */
module PluginFramework {

  /** Opaque identity of one opened library handle. */
  type LibraryId = nat

  /** Opaque identity of one plugin object returned by a factory. */
  type PluginId = nat

  /** A live plugin object; `origin` is the index, in the registry's library
      sequence, of the library that holds the plugin's code. */
  datatype Plugin = Plugin(id: PluginId, origin: nat)

  /** What the foreign part of `load_plugin` produces: the library cannot be
      opened, it opens but has no `_plugin_create` symbol, or it opens and the
      factory returns a plugin. */
  datatype Outcome =
    | LoadFailed
    | SymbolMissing(library: LibraryId)
    | Created(library: LibraryId, plugin: PluginId)

  /** The two errors `load_plugin` reports ("Unable to load the plugin" and
      "The `_plugin_create` symbol wasn't found."). */
  datatype LoadError = UnableToLoad | SymbolNotFound

  /** The result of `load_plugin`. */
  datatype LoadResult = Ok | Err(error: LoadError)

  /** Observable side effects: a lifecycle hook firing, or a library handle
      being dropped (its mapping released). */
  datatype Event =
    | OnLoad(plugin: PluginId)
    | OnUnload(plugin: PluginId)
    | Release(library: LibraryId)

  /** The registry as a value: its two sequences and the events so far. */
  datatype Registry = Registry(plugins: seq<Plugin>, libraries: seq<LibraryId>, trace: seq<Event>)

  // ---------------------------------------------------------------------------
  // The lifetime-coupling invariant
  // ---------------------------------------------------------------------------

  /** Every live plugin's originating library is still held. */
  predicate LifetimeCoupled(plugins: seq<Plugin>, libraries: seq<LibraryId>)
  {
    forall i :: 0 <= i < |plugins| ==> plugins[i].origin < |libraries|
  }

  /** Plugins come from distinct libraries, in the order the libraries were
      loaded (each library's factory is called at most once). */
  predicate InLoadOrder(plugins: seq<Plugin>)
  {
    forall i, j :: 0 <= i < j < |plugins| ==> plugins[i].origin < plugins[j].origin
  }

  predicate Invariant(r: Registry)
  {
    LifetimeCoupled(r.plugins, r.libraries) && InLoadOrder(r.plugins)
  }

  // ---------------------------------------------------------------------------
  // The operations, as functions of the registry value
  // ---------------------------------------------------------------------------

  /** `PluginManager::new`. */
  function NewRegistry(): (r: Registry)
    ensures Invariant(r)
    ensures |r.plugins| == 0 && |r.libraries| == 0 && |r.trace| == 0
  {
    Registry([], [], [])
  }

  /** `load_plugin`: the new state and the returned result for one loader
      outcome. */
  function LoadStep(r: Registry, outcome: Outcome): (res: (Registry, LoadResult))
    // a failed open leaves everything as it was
    ensures outcome.LoadFailed? ==> res.0 == r && res.1 == Err(UnableToLoad)
    // the library sequence grows by one for every outcome in which the file
    // opened, appending the new library last and keeping the earlier ones
    ensures !outcome.LoadFailed? ==>
      |res.0.libraries| == |r.libraries| + 1 &&
      res.0.libraries[..|r.libraries|] == r.libraries &&
      res.0.libraries[|r.libraries|] == outcome.library
    // a missing factory symbol is an error, yet the library stays registered
    ensures outcome.SymbolMissing? ==>
      res.1 == Err(SymbolNotFound) && res.0.plugins == r.plugins && res.0.trace == r.trace
    // success appends one plugin, hosted by the library just appended, and
    // fires its load hook exactly once
    ensures outcome.Created? ==>
      res.1 == Ok &&
      |res.0.plugins| == |r.plugins| + 1 &&
      res.0.plugins[..|r.plugins|] == r.plugins &&
      res.0.plugins[|r.plugins|] == Plugin(outcome.plugin, |r.libraries|) &&
      res.0.trace == r.trace + [OnLoad(outcome.plugin)]
    ensures res.1 == Ok <==> outcome.Created?
  {
    match outcome
    case LoadFailed => (r, Err(UnableToLoad))
    case SymbolMissing(lib) =>
      (r.(libraries := r.libraries + [lib]), Err(SymbolNotFound))
    case Created(lib, p) =>
      (Registry(r.plugins + [Plugin(p, |r.libraries|)], r.libraries + [lib], r.trace + [OnLoad(p)]), Ok)
  }

  /** The unload hooks of `plugins`, in order. */
  function HookEvents(plugins: seq<Plugin>): (e: seq<Event>)
    ensures |e| == |plugins|
    ensures forall i :: 0 <= i < |plugins| ==> e[i] == OnUnload(plugins[i].id)
  {
    if plugins == [] then [] else [OnUnload(plugins[0].id)] + HookEvents(plugins[1..])
  }

  /** The releases of `libraries`, in order. */
  function ReleaseEvents(libraries: seq<LibraryId>): (e: seq<Event>)
    ensures |e| == |libraries|
    ensures forall j :: 0 <= j < |libraries| ==> e[j] == Release(libraries[j])
  {
    if libraries == [] then [] else [Release(libraries[0])] + ReleaseEvents(libraries[1..])
  }

  /** The events of one `unload` of a registry holding `plugins` and
      `libraries`: every unload hook in load order, and only then every
      release in load order. */
  function UnloadEvents(plugins: seq<Plugin>, libraries: seq<LibraryId>): (e: seq<Event>)
    ensures |e| == |plugins| + |libraries|
    ensures forall i :: 0 <= i < |plugins| ==> e[i] == OnUnload(plugins[i].id)
    ensures forall j :: 0 <= j < |libraries| ==> e[|plugins| + j] == Release(libraries[j])
    // two-phase order: no hook fires after the first release
    ensures forall i, j :: 0 <= i < j < |e| && e[i].Release? ==> e[j].Release?
    ensures forall i :: 0 <= i < |e| ==> !e[i].OnLoad?
  {
    HookEvents(plugins) + ReleaseEvents(libraries)
  }

  /** `unload`: both sequences are drained; the earlier events are kept and
      one event per plugin and per library follows them. */
  function UnloadStep(r: Registry): (u: Registry)
    ensures u.plugins == [] && u.libraries == []
    ensures |u.trace| == |r.trace| + |r.plugins| + |r.libraries|
    ensures u.trace[..|r.trace|] == r.trace
  {
    Registry([], [], r.trace + UnloadEvents(r.plugins, r.libraries))
  }

  /** `Drop::drop`: unload only when something is still held. */
  function DropStep(r: Registry): (d: Registry)
    ensures d.plugins == [] && d.libraries == []
    ensures |d.trace| == |r.trace| + |r.plugins| + |r.libraries|
    ensures d.trace[..|r.trace|] == r.trace
    // an empty registry is left exactly as it was: no event is emitted
    ensures r.plugins == [] && r.libraries == [] ==> d == r
  {
    if r.plugins != [] || r.libraries != [] then UnloadStep(r) else r
  }

  // ---------------------------------------------------------------------------
  // Properties of the operations
  // ---------------------------------------------------------------------------

  /** `load_plugin` keeps the lifetime invariant for every outcome. */
  lemma LoadPreservesInvariant(r: Registry, outcome: Outcome)
    requires Invariant(r)
    ensures Invariant(LoadStep(r, outcome).0)
  {
  }

  /** `unload` leaves an empty registry, so the invariant holds after it. */
  lemma UnloadEstablishesInvariant(r: Registry)
    ensures Invariant(UnloadStep(r))
    ensures UnloadStep(r).plugins == [] && UnloadStep(r).libraries == []
  {
  }

  /** While `unload` runs, each plugin's own hook fires before the library
      holding its code is released: in the events of the teardown, position
      `i` is plugin `i`'s hook and the release of its library comes later. */
  lemma UnloadKeepsLibrariesPastHooks(plugins: seq<Plugin>, libraries: seq<LibraryId>, i: nat)
    requires LifetimeCoupled(plugins, libraries)
    requires i < |plugins|
    ensures i < |plugins| + plugins[i].origin < |UnloadEvents(plugins, libraries)|
    ensures UnloadEvents(plugins, libraries)[i] == OnUnload(plugins[i].id)
    ensures UnloadEvents(plugins, libraries)[|plugins| + plugins[i].origin] == Release(libraries[plugins[i].origin])
  {
  }

  /** A second `unload` fires nothing and changes nothing. */
  lemma UnloadIdempotent(r: Registry)
    ensures UnloadStep(UnloadStep(r)) == UnloadStep(r)
  {
  }

  /** `drop` ends in the same state, with the same events, as an explicit
      `unload`, whether or not the registry still held anything. */
  lemma DropIsUnload(r: Registry)
    ensures DropStep(r) == UnloadStep(r)
  {
  }

  // ---------------------------------------------------------------------------
  // Sessions: any sequence of calls on one registry
  // ---------------------------------------------------------------------------

  datatype Call = LoadCall(outcome: Outcome) | UnloadCall

  function Apply(r: Registry, call: Call): Registry
  {
    match call
    case LoadCall(outcome) => LoadStep(r, outcome).0
    case UnloadCall => UnloadStep(r)
  }

  /** The registry after `calls`, in order. */
  function Run(r: Registry, calls: seq<Call>): Registry
    decreases |calls|
  {
    if calls == [] then r else Run(Apply(r, calls[0]), calls[1..])
  }

  lemma {:induction false} RunAppend(r: Registry, a: seq<Call>, b: seq<Call>)
    ensures Run(r, a + b) == Run(Run(r, a), b)
    decreases |a|
  {
    if a != [] {
      assert (a + b)[0] == a[0];
      assert (a + b)[1..] == a[1..] + b;
      RunAppend(Apply(r, a[0]), a[1..], b);
    } else {
      assert a + b == b;
    }
  }

  lemma RunOne(r: Registry, call: Call)
    ensures Run(r, [call]) == Apply(r, call)
  {
    assert [call][1..] == [];
  }

  /** Whatever the calls and the loader outcomes, the invariant holds after
      every call. */
  lemma {:induction false} RunPreservesInvariant(r: Registry, calls: seq<Call>)
    requires Invariant(r)
    ensures Invariant(Run(r, calls))
    decreases |calls|
  {
    if calls != [] {
      match calls[0] {
        case LoadCall(outcome) => LoadPreservesInvariant(r, outcome);
        case UnloadCall => UnloadEstablishesInvariant(r);
      }
      RunPreservesInvariant(Apply(r, calls[0]), calls[1..]);
    }
  }

  /** Successful loads, one per (library, plugin) pair. */
  function Loads(built: seq<(LibraryId, PluginId)>): (calls: seq<Call>)
    ensures |calls| == |built|
    ensures forall k :: 0 <= k < |built| ==> calls[k] == LoadCall(Created(built[k].0, built[k].1))
  {
    if built == [] then [] else [LoadCall(Created(built[0].0, built[0].1))] + Loads(built[1..])
  }

  /** A run of successful loads appends, in order, one library, one plugin
      hosted by it, and one load hook per pair. */
  lemma {:induction false} RunLoads(r: Registry, built: seq<(LibraryId, PluginId)>)
    ensures var r' := Run(r, Loads(built));
      |r'.plugins| == |r.plugins| + |built| &&
      |r'.libraries| == |r.libraries| + |built| &&
      |r'.trace| == |r.trace| + |built| &&
      r'.plugins[..|r.plugins|] == r.plugins &&
      r'.libraries[..|r.libraries|] == r.libraries &&
      r'.trace[..|r.trace|] == r.trace &&
      (forall k :: 0 <= k < |built| ==>
        r'.plugins[|r.plugins| + k] == Plugin(built[k].1, |r.libraries| + k) &&
        r'.libraries[|r.libraries| + k] == built[k].0 &&
        r'.trace[|r.trace| + k] == OnLoad(built[k].1))
    decreases |built|
  {
    if built != [] {
      var r1 := LoadStep(r, Created(built[0].0, built[0].1)).0;
      assert Loads(built)[0] == LoadCall(Created(built[0].0, built[0].1));
      assert Loads(built)[1..] == Loads(built[1..]);
      assert Run(r, Loads(built)) == Run(r1, Loads(built[1..]));
      RunLoads(r1, built[1..]);
      var r' := Run(r, Loads(built));
      assert r'.plugins[..|r.plugins|] == r'.plugins[..|r1.plugins|][..|r.plugins|];
      assert r'.libraries[..|r.libraries|] == r'.libraries[..|r1.libraries|][..|r.libraries|];
      assert r'.trace[..|r.trace|] == r'.trace[..|r1.trace|][..|r.trace|];
      forall k | 0 <= k < |built|
        ensures r'.plugins[|r.plugins| + k] == Plugin(built[k].1, |r.libraries| + k)
        ensures r'.libraries[|r.libraries| + k] == built[k].0
        ensures r'.trace[|r.trace| + k] == OnLoad(built[k].1)
      {
        if k == 0 {
          assert r'.plugins[|r.plugins|] == r'.plugins[..|r1.plugins|][|r.plugins|];
          assert r'.libraries[|r.libraries|] == r'.libraries[..|r1.libraries|][|r.libraries|];
          assert r'.trace[|r.trace|] == r'.trace[..|r1.trace|][|r.trace|];
        } else {
          assert built[1..][k - 1] == built[k];
        }
      }
    }
  }

  /** End to end: loading plugins P1..Pn from libraries L1..Ln into a new
      registry and then unloading fires the load hooks of P1..Pn, then their
      unload hooks in the same order, then releases L1..Ln in the same order,
      and leaves the registry empty. */
  lemma LoadThenUnload(built: seq<(LibraryId, PluginId)>)
    ensures var r := Run(NewRegistry(), Loads(built) + [UnloadCall]);
      var n := |built|;
      r.plugins == [] && r.libraries == [] && |r.trace| == 3 * n &&
      forall k :: 0 <= k < n ==>
        r.trace[k] == OnLoad(built[k].1) &&
        r.trace[n + k] == OnUnload(built[k].1) &&
        r.trace[2 * n + k] == Release(built[k].0)
  {
    var loaded := Run(NewRegistry(), Loads(built));
    RunAppend(NewRegistry(), Loads(built), [UnloadCall]);
    RunOne(loaded, UnloadCall);
    RunLoadsLengths(NewRegistry(), built);
    forall k | 0 <= k < |built|
      ensures loaded.plugins[k] == Plugin(built[k].1, k)
      ensures loaded.libraries[k] == built[k].0
      ensures loaded.trace[k] == OnLoad(built[k].1)
    {
      LoadsFromNewAt(built, k);
    }
    UnloadAfterLoads(loaded, built);
  }

  /** The trace of `unload` on the registry reached by the loads `built`. */
  lemma UnloadAfterLoads(loaded: Registry, built: seq<(LibraryId, PluginId)>)
    requires |loaded.plugins| == |built| && |loaded.libraries| == |built| && |loaded.trace| == |built|
    requires forall k :: 0 <= k < |built| ==>
      loaded.plugins[k] == Plugin(built[k].1, k) &&
      loaded.libraries[k] == built[k].0 &&
      loaded.trace[k] == OnLoad(built[k].1)
    ensures var t, n := UnloadStep(loaded).trace, |built|;
      |t| == 3 * n &&
      forall k :: 0 <= k < n ==>
        t[k] == OnLoad(built[k].1) &&
        t[n + k] == OnUnload(built[k].1) &&
        t[2 * n + k] == Release(built[k].0)
  {
    var n := |built|;
    forall k | 0 <= k < n
      ensures UnloadStep(loaded).trace[k] == OnLoad(built[k].1)
      ensures UnloadStep(loaded).trace[n + k] == OnUnload(built[k].1)
      ensures UnloadStep(loaded).trace[2 * n + k] == Release(built[k].0)
    {
      UnloadAfterLoadsAt(loaded, built, k);
    }
  }

  lemma {:induction false} RunLoadsLengths(r: Registry, built: seq<(LibraryId, PluginId)>)
    ensures |Run(r, Loads(built)).plugins| == |r.plugins| + |built|
    ensures |Run(r, Loads(built)).libraries| == |r.libraries| + |built|
    ensures |Run(r, Loads(built)).trace| == |r.trace| + |built|
    decreases |built|
  {
    if built != [] {
      assert Loads(built)[1..] == Loads(built[1..]);
      RunLoadsLengths(LoadStep(r, Created(built[0].0, built[0].1)).0, built[1..]);
    }
  }

  /** Position k of a new registry after the successful loads `built`. */
  lemma LoadsFromNewAt(built: seq<(LibraryId, PluginId)>, k: nat)
    requires k < |built|
    ensures |Run(NewRegistry(), Loads(built)).plugins| == |built|
    ensures |Run(NewRegistry(), Loads(built)).libraries| == |built|
    ensures |Run(NewRegistry(), Loads(built)).trace| == |built|
    ensures Run(NewRegistry(), Loads(built)).plugins[k] == Plugin(built[k].1, k)
    ensures Run(NewRegistry(), Loads(built)).libraries[k] == built[k].0
    ensures Run(NewRegistry(), Loads(built)).trace[k] == OnLoad(built[k].1)
  {
    var empty := NewRegistry();
    assert |empty.plugins| == 0 && |empty.libraries| == 0 && |empty.trace| == 0;
    RunLoads(empty, built);
    var loaded := Run(empty, Loads(built));
    assert loaded.plugins[|empty.plugins| + k] == Plugin(built[k].1, |empty.libraries| + k);
  }

  /** The events at positions k, n + k and 2n + k of the unload of a registry
      holding n plugins, each hosted by the library at its own position, after
      n load hooks. */
  lemma UnloadAfterLoadsAt(loaded: Registry, built: seq<(LibraryId, PluginId)>, k: nat)
    requires |loaded.plugins| == |built| && |loaded.libraries| == |built| && |loaded.trace| == |built|
    requires k < |built|
    requires loaded.plugins[k] == Plugin(built[k].1, k)
    requires loaded.libraries[k] == built[k].0
    requires loaded.trace[k] == OnLoad(built[k].1)
    ensures |UnloadStep(loaded).trace| == 3 * |built|
    ensures UnloadStep(loaded).trace[k] == OnLoad(built[k].1)
    ensures UnloadStep(loaded).trace[|built| + k] == OnUnload(built[k].1)
    ensures UnloadStep(loaded).trace[2 * |built| + k] == Release(built[k].0)
  {
    var n := |built|;
    var t := UnloadStep(loaded).trace;
    var e := UnloadEvents(loaded.plugins, loaded.libraries);
    assert t == loaded.trace + e;
    assert t[k] == loaded.trace[k];
    assert t[n + k] == e[k];
    assert t[2 * n + k] == e[n + k];
  }

  lemma PrefixExtends(s: seq<Event>, i: nat)
    requires i < |s|
    ensures s[..i + 1] == s[..i] + [s[i]]
  {
  }

  // ---------------------------------------------------------------------------
  // The registry as an object with mutable fields
  // ---------------------------------------------------------------------------

  /** `PluginManager`: the two vectors are sequence fields that the methods
      reassign; the trace of hook firings and releases is ghost. */
  class PluginManager {
    var plugins: seq<Plugin>
    var loadedLibraries: seq<LibraryId>
    ghost var trace: seq<Event>

    ghost function State(): Registry
      reads this
    {
      Registry(plugins, loadedLibraries, trace)
    }

    ghost predicate Valid()
      reads this
    {
      Invariant(State())
    }

    /** `new`: both sequences empty, nothing fired yet. */
    constructor ()
      ensures Valid()
      ensures State() == NewRegistry()
    {
      plugins := [];
      loadedLibraries := [];
      trace := [];
    }

    /** `load_plugin`, with the loader's and the factory's behaviour given as
        `outcome`. */
    method LoadPlugin(outcome: Outcome) returns (result: LoadResult)
      requires Valid()
      modifies this
      ensures Valid()
      ensures (State(), result) == LoadStep(old(State()), outcome)
    {
      if outcome.LoadFailed? {
        return Err(UnableToLoad);
      }
      // the handle is stored before its factory symbol is looked up
      loadedLibraries := loadedLibraries + [outcome.library];
      var origin := |loadedLibraries| - 1;
      if outcome.SymbolMissing? {
        return Err(SymbolNotFound);
      }
      var plugin := Plugin(outcome.plugin, origin);
      trace := trace + [OnLoad(plugin.id)];
      plugins := plugins + [plugin];
      result := Ok;
      LoadPreservesInvariant(old(State()), outcome);
    }

    /** `unload`: drain the plugins, firing each unload hook in order, and
        only then drain the libraries, releasing each in order. */
    method Unload()
      requires Valid()
      modifies this
      ensures Valid()
      ensures State() == UnloadStep(old(State()))
    {
      var drained := plugins;
      plugins := [];
      ghost var hooks := HookEvents(drained);
      for i := 0 to |drained|
        invariant plugins == [] && loadedLibraries == old(loadedLibraries)
        invariant trace == old(trace) + hooks[..i]
        // every plugin still waiting for its hook has its library held
        invariant LifetimeCoupled(drained[i..], loadedLibraries)
      {
        // the library holding this plugin's code is still held when its hook fires
        assert drained[i].origin < |loadedLibraries|;
        PrefixExtends(hooks, i);
        trace := trace + [OnUnload(drained[i].id)];
      }
      assert hooks[..|drained|] == hooks;
      var released := loadedLibraries;
      loadedLibraries := [];
      ghost var releases := ReleaseEvents(released);
      for j := 0 to |released|
        invariant plugins == [] && loadedLibraries == []
        invariant trace == old(trace) + hooks + releases[..j]
      {
        PrefixExtends(releases, j);
        trace := trace + [Release(released[j])];
      }
      assert releases[..|released|] == releases;
      assert trace == old(trace) + (hooks + releases);
    }

    /** `Drop::drop`: run `unload` only if something is still held; either way
        the result is that of an explicit `unload`. */
    method Drop()
      requires Valid()
      modifies this
      ensures Valid()
      ensures State() == DropStep(old(State()))
      ensures State() == UnloadStep(old(State()))
    {
      DropIsUnload(State());
      if plugins != [] || loadedLibraries != [] {
        Unload();
      }
    }
  }

  /** One successful load into a new registry, then two unloads: the load
      stores the plugin and its library and fires one load hook, the first
      unload fires the unload hook and then releases the library, and the
      second unload changes nothing. */
  lemma OneLoadTwoUnloads(lib: LibraryId, p: PluginId)
    ensures LoadStep(NewRegistry(), Created(lib, p)) ==
      (Registry([Plugin(p, 0)], [lib], [OnLoad(p)]), Ok)
    ensures UnloadStep(Registry([Plugin(p, 0)], [lib], [OnLoad(p)])) ==
      Registry([], [], [OnLoad(p), OnUnload(p), Release(lib)])
    ensures UnloadStep(Registry([], [], [OnLoad(p), OnUnload(p), Release(lib)])) ==
      Registry([], [], [OnLoad(p), OnUnload(p), Release(lib)])
  {
    assert [] + [Plugin(p, 0)] == [Plugin(p, 0)];
    assert [] + [lib] == [lib];
    assert [] + [OnLoad(p)] == [OnLoad(p)];
    assert HookEvents([Plugin(p, 0)]) == [OnUnload(p)];
    assert ReleaseEvents([lib]) == [Release(lib)];
    assert UnloadEvents([], []) == [];
  }

  /** The same scenario on the object, through its methods. */
  method OneLoadTwoUnloadsOnObject(lib: LibraryId, p: PluginId)
  {
    OneLoadTwoUnloads(lib, p);
    var manager := new PluginManager();
    var result := manager.LoadPlugin(Created(lib, p));
    assert result == Ok;
    assert manager.State() == Registry([Plugin(p, 0)], [lib], [OnLoad(p)]);
    manager.Unload();
    assert manager.State() == Registry([], [], [OnLoad(p), OnUnload(p), Release(lib)]);
    manager.Unload();
    assert manager.State() == Registry([], [], [OnLoad(p), OnUnload(p), Release(lib)]);
  }
}
