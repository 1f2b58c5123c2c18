# PluginManager of plugin_framework, modelled in Dafny

`plugin_framework` lets a host application load plugins from dynamic
libraries at run time. Its core is `PluginManager`, a registry that owns two
ordered vectors: the opened libraries (`loaded_libraries`) and the live plugin
objects (`plugins`). A plugin's code and vtable live inside the library it was
loaded from, so a library must outlive every plugin from it. `load_plugin`
stores the library before calling the factory. `unload` fires every plugin's
`on_plugin_unload` hook before it drops any library. `Drop` runs `unload` if
anything is still held.

The model is one module, `PluginFramework`, in `plugin_manager.dfy`:

- **Values.** Libraries and plugins are opaque identifiers (`LibraryId`,
  `PluginId`). A `Plugin` also records `origin`, the index of its library in
  the library sequence. `origin` exists only so that the lifetime invariant
  can be stated. The real `Box<dyn Plugin>` has no such field.
- **Loader outcome.** `Library::new`, `lib.get(b"_plugin_create")` and the
  factory call are foreign code. Their combined effect is an input to
  `load_plugin`, the `Outcome`: `LoadFailed`, `SymbolMissing(library)` or
  `Created(library, plugin)`.
- **Events.** The hooks and the dropping of a library are recorded in a trace
  as `OnLoad(p)`, `OnUnload(p)` and `Release(lib)`.
- **Specification.** A `Registry` value holds the two sequences and the
  trace. Each operation is a step function: `NewRegistry`, `LoadStep`,
  `UnloadStep`, `DropStep`. `Run` applies any sequence of calls.
- **Object.** The class `PluginManager` keeps the same state in fields. Its
  methods change those fields in place, and each method is proved against its
  step function. `Unload` has two loops, one per `drain(..)`. The trace is a
  ghost field.
- **Invariant.** `Invariant` combines two predicates. `LifetimeCoupled`: every
  live plugin's library is still held. `InLoadOrder`: plugins come from
  distinct libraries, appear in the order the libraries were loaded, and each
  library's factory runs at most once.

The factory's type returns `&mut dyn Plugin`, and `Box::from_raw` is applied
to its result with no null check (src/plugin_manager.rs:47, 60-62). So a
`Created` outcome always carries a plugin.

## Model

| member | source | states |
|---|---|---|
| `PluginFramework.NewRegistry` | src/plugin_manager.rs:38-43 | a new registry holds no plugin and no library, has fired nothing, and satisfies the lifetime invariant |
| `PluginFramework.PluginManager.constructor` | src/plugin_manager.rs:38-43 | `new()` yields an object with both sequences and the trace empty, satisfying the invariant |
| `PluginFramework.LoadStep` | src/plugin_manager.rs:46-68 | if the library cannot be opened: `Err(UnableToLoad)`, nothing changes. If the symbol is missing: `Err(SymbolNotFound)`, yet the library sequence grows by one (the new library last, earlier ones unchanged) while plugins and trace stay unchanged. On success: `Ok`; both sequences grow by exactly one, appended at the end, earlier elements unchanged; the new plugin's origin is the library just appended; the trace gains exactly one `OnLoad` for it. The result is `Ok` exactly when the factory produced a plugin |
| `PluginFramework.PluginManager.LoadPlugin` | src/plugin_manager.rs:46-68 | the in-place `load_plugin` (the library pushed, then the factory resolved, then the hook, then the plugin pushed) ends in the state and result `LoadStep` gives, and keeps the invariant |
| `PluginFramework.LoadPreservesInvariant` | src/plugin_manager.rs:49-65 | for every loader outcome, `load_plugin` keeps every live plugin's library present and keeps plugins in library load order |
| `PluginFramework.HookEvents` | src/plugin_manager.rs:80-83 | the first drain loop fires exactly one `on_plugin_unload` per plugin, position by position, in load order |
| `PluginFramework.ReleaseEvents` | src/plugin_manager.rs:85-87 | the second drain loop releases exactly the held libraries, in load order |
| `PluginFramework.UnloadEvents` | src/plugin_manager.rs:77-88 | one `unload` emits the hooks of all plugins in load order, then the releases of all libraries in load order; no hook follows a release, and no load hook is fired |
| `PluginFramework.UnloadStep` | src/plugin_manager.rs:77-88 | after `unload` both sequences are empty; the earlier trace is kept as a prefix, followed by exactly one event per plugin and per library that was held |
| `PluginFramework.PluginManager.Unload` | src/plugin_manager.rs:77-88 | the two drain loops leave both sequences empty and append exactly `UnloadEvents` of the old sequences to the trace (the state `UnloadStep` gives); in the body, each hook is checked to fire while its plugin's library is still held |
| `PluginFramework.UnloadEstablishesInvariant` | src/plugin_manager.rs:80-87 | after `unload` both sequences are empty and the invariant holds |
| `PluginFramework.UnloadKeepsLibrariesPastHooks` | src/plugin_manager.rs:12-14 | if every plugin's library is held, then in the events of `unload` each plugin's `OnUnload` comes strictly before the `Release` of the library that holds its code, and both events are emitted |
| `PluginFramework.UnloadIdempotent` | src/plugin_manager.rs:77-88 | a second `unload` emits no event and leaves both sequences empty |
| `PluginFramework.DropIsUnload` | src/plugin_manager.rs:93-98 | `drop` (unload only if either sequence is non-empty) gives the same state and trace as an explicit `unload`, in both cases |
| `PluginFramework.DropStep` | src/plugin_manager.rs:93-98 | after `drop` both sequences are empty and the earlier trace is kept as a prefix, followed by one event per plugin and per library; a registry that already holds nothing is left exactly as it was |
| `PluginFramework.PluginManager.Drop` | src/plugin_manager.rs:93-98 | the in-place `drop` ends in the state `DropStep` gives, which equals that of `unload` |
| `PluginFramework.RunPreservesInvariant` | src/plugin_manager.rs:12-14 | the lifetime invariant holds after any sequence of `load_plugin` calls (any outcomes) and `unload` calls |
| `PluginFramework.RunLoads` | src/plugin_manager.rs:53-65 | n successful loads append n libraries, n plugins (the k-th hosted by the k-th new library) and n `OnLoad` events, in call order, and keep everything earlier |
| `PluginFramework.LoadThenUnload` | src/plugin_manager.rs:46-88 | loading P1..Pn from L1..Ln into a new registry and then unloading yields the trace OnLoad(P1..Pn), then OnUnload(P1..Pn), then Release(L1..Ln), and leaves both sequences empty |
| `PluginFramework.OneLoadTwoUnloads` | src/plugin_manager.rs:38-88 | for any library and plugin: a successful load into a new registry gives plugins=[the plugin, hosted by library 0], libraries=[the library], trace=[its load hook], and `Ok`; the first `unload` then gives empty sequences and the trace load hook, unload hook, release; a second `unload` leaves that state unchanged |

## Left out

- `Library::new`, `lib.get`, the factory call and `Box::from_raw`: foreign, unsafe code. Their combined effect is the `Outcome` given to `load_plugin`.
- `load_plugins`: its body is `todo!()`, so it has no behaviour to model.
- The `debug!`/`trace!` logging, `plugin.name()` (used only for logging) and the `chain_err` message texts. These are plumbing. The two error kinds remain, as `LoadError`.
- The hook bodies and the rest of the `Plugin` trait: external code. Hooks appear only as trace events.
- Panic during `drop`, and the abort on a double panic: unwinding behaviour, not modelled.
- The destruction of each plugin box after its hook is not a separate event. It happens inside the first drain loop, so it comes before any release.
- `PluginFramework.PluginManager.LoadPlugin`: the trace has no "stored" event. So the contract does not show that `on_plugin_load` fires before the plugin is pushed. That ordering appears only in the method body.
- Address stability of stored library handles: sequences have no addresses. The model keeps only the order "push the library before resolving its factory".
- The fields are `pub` in the source, so other code could change them directly. The model assumes they change only through these operations, as `Valid()` requires.
- `src/lib.rs`: only module declarations and re-exports.
