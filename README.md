# Alembic importer context layer, in Dafny

This project models the context layer of the Alembic importer's native
library, `Source/abci/Importer/aiContext.cpp`. The layer has four parts:

- **Path normalisation** (`NormalizePath`). The path of a loaded archive is
  kept in a canonical form: on Windows every `\` becomes `/` and every
  ASCII capital becomes lower case. A null path becomes the empty path.
- **The context registry** (`aiContextManager`). This is one process-wide
  table from a game object's uid to the importer context it owns. It can
  get or create a context, destroy one context, and destroy every context
  loaded from a given path.
- **Time lookups** on a context. `getTimeRange` gives the earliest begin
  and latest end over every time sampling except the first.
  `getTimeSamplingIndex` gives the first archive index of a time sampling.
- **The load/reset state machine** of a context (`aiContext::load`,
  `reset`).

## Modules

- `Wrappers` (wrappers.dfy): `Option`. `None` stands for a null `const char*`.
- `Paths` (paths.dfy): `NormalizeChar`, `Normalize` and `NormalizedPath` are
  the specification. `NormalizePath` is the method. It copies the path
  into a buffer and rewrites the buffer in place, as the source's loop
  does. The lemmas prove: no `\` and no capital survives; a path is left
  unchanged exactly when it is already normalised; normalising twice
  equals normalising once.
- `Archives` (archives.dfy): what the Alembic SDK hands the context. An
  archive is its list of time samplings. Each sampling has an identity
  (`SamplingPtr`, compared with `==`) and the `(begin, end)` range that
  its `aiTimeSampling` reports. `OpenOutcome` is the outcome of opening a
  file: the Ogawa reader succeeded, the HDF5 reader succeeded, or both
  failed. `Config` stands for `aiConfig`. Its definition is not part of
  this model, so it is an abstract type, stored and handed back unchanged.
  `DefaultConfig` is the value of a default-constructed `aiConfig`, which
  every new context starts with.
- `Contexts` (context.dfy): `ContextState` is the abstract state of a
  context. `Inv` is the invariant every reachable context keeps.
  `Cleared` is what `reset` leaves; `LoadStep` is what `load` does. Lemmas
  state `load`'s cases. The class `Context` holds the same state in
  fields (`m_path`, `m_archive`, `m_timesamplings`, `m_streams`,
  `m_top_node`, `m_config`). Its methods are proved against those
  functions.
- `ContextManagers` (context_manager.dfy): the class `ContextManager`, whose
  field `contexts: map<int, Context>` is the source's `m_contexts`. The
  source has one static instance. Here the registry is an object, and each
  method states the whole new table. Its invariant is that every context
  sits under its own uid and keeps the context invariant.

Archive opening is a parameter of `Load`: the `OpenOutcome` the readers
give for the normalised path. The model then follows the source's stream
handling. A stream is pushed for the Ogawa reader. It is closed again when
Ogawa fails. A failed HDF5 attempt leads to `reset`. So a context loaded by
Ogawa keeps one stream and a context loaded by HDF5 keeps none.

In `load`, the `else` branch of `if (!m_archive.valid())` (line 274) can
never run. It only logs, and `reset()` has just made the archive invalid,
so the model has no such branch.

The source calls `L(in_path)` before it looks at the path. For a null
pointer, building a `std::string` from null is undefined behaviour in C++.
The model treats `L` as the identity, so `load(nullptr)` behaves like
`load("")`: the context is reset and `load` fails.

## Model

| member | source | states |
|---|---|---|
| `Paths.Normalize` | Source/abci/Importer/aiContext.cpp:26-35 | the normalised path has the input's length, and each character is the loop's rewrite of the input's character at the same index |
| `Paths.NormalizeCharCases` | Source/abci/Importer/aiContext.cpp:28-34 | a `\` becomes `/`; a capital `A`-`Z` becomes the letter 32 code points higher, in `a`-`z`; every other character is kept |
| `Paths.NormalizedIsClean` | Source/abci/Importer/aiContext.cpp:26-35 | a normalised path contains no `\` and no capital `A`-`Z` |
| `Paths.NormalizeFixedPoint` | Source/abci/Importer/aiContext.cpp:26-35 | normalisation leaves a path unchanged if and only if the path has no `\` and no capital |
| `Paths.NormalizeIdempotent` | Source/abci/Importer/aiContext.cpp:26-35 | normalising a normalised path gives it back |
| `Paths.NormalizedPathIdempotent` | Source/abci/Importer/aiContext.cpp:18-40 | a null path normalises to the empty path; feeding `NormalizePath`'s result back to it changes nothing |
| `Paths.NormalizePath` | Source/abci/Importer/aiContext.cpp:18-40 | the in-place loop over the buffer returns exactly the normalised path, and the empty path for null |
| `Contexts.ClearedIsUnloaded` | Source/abci/Importer/aiContext.cpp:209-221 | after `reset` nothing is loaded, the path and the time samplings are empty, the invariant holds and the config is the old one |
| `Contexts.LoadSameArchive` | Source/abci/Importer/aiContext.cpp:225-232 | when the normalised path is the loaded path and the archive is valid, `load` returns true and changes nothing |
| `Contexts.LoadEmptyPath` | Source/abci/Importer/aiContext.cpp:234-237 | a null or empty path resets the context, leaves the path empty, and `load` returns false |
| `Contexts.LoadOpenFailed` | Source/abci/Importer/aiContext.cpp:240-293 | when neither reader opens the file, the context is reset and `load` returns false |
| `Contexts.LoadOpened` | Source/abci/Importer/aiContext.cpp:239-289 | when a reader opens the file, `load` returns true; the path is the normalised path; the archive is the opened one; there is one time sampling per archive sampling, in order; one stream stays open after Ogawa and none after HDF5; the config is kept |
| `Contexts.LoadResult` | Source/abci/Importer/aiContext.cpp:223-294 | `load` returns true if and only if an archive is loaded afterwards; on true the path is the normalised argument; on false the state is exactly the reset state; the config never changes |
| `Contexts.LoadKeepsInv` | Source/abci/Importer/aiContext.cpp:223-294 | `load` keeps the context invariant: loaded means a non-empty normalised path with matching time samplings, and not loaded means everything is empty |
| `Contexts.ReloadIsNoOp` | Source/abci/Importer/aiContext.cpp:225-232 | after a successful `load`, loading the same path again, or the path `getPath` now returns, gives true and no change, whatever the file system would say |
| `Contexts.Context.constructor` | Source/abci/Importer/aiContext.cpp:117-120 | a new context has the given uid, nothing loaded, and the default config |
| `Contexts.Context.GetUid` | Source/abci/Importer/aiContext.cpp:183-186 | returns the uid the context was created with |
| `Contexts.Context.GetPath` | Source/abci/Importer/aiContext.cpp:132-135 | returns the stored path; it is normalised, and it is empty if and only if no archive is loaded |
| `Contexts.Context.GetConfig` | Source/abci/Importer/aiContext.cpp:188-191 | returns the stored config |
| `Contexts.Context.SetConfig` | Source/abci/Importer/aiContext.cpp:193-196 | replaces the config and changes nothing else |
| `Contexts.Context.TimeSamplingCount` | Source/abci/Importer/aiContext.cpp:138-141 | the number of time samplings, which equals the loaded archive's sampling count |
| `Contexts.Context.GetTimeSampling` | Source/abci/Importer/aiContext.cpp:143-146 | for an index in range (`getTimeSampling` does not check it), the time range of that archive sampling |
| `Contexts.Context.GetTimeRange` | Source/abci/Importer/aiContext.cpp:148-164 | `(0, 0)` with fewer than two time samplings; otherwise `begin` is the least begin and `end` the greatest end over indices 1 to n-1 (index 0 is ignored), each attained by some sampling |
| `Contexts.Context.GetTimeSamplingIndex` | Source/abci/Importer/aiContext.cpp:171-180 | the smallest index whose archive sampling is `ts`, or 0 when none is; always 0 or a valid index |
| `Contexts.Context.Reset` | Source/abci/Importer/aiContext.cpp:209-221 | drops the top node, the time samplings, the archive, the path and the streams; keeps the config |
| `Contexts.Context.Load` | Source/abci/Importer/aiContext.cpp:223-294 | the new state and the result are those of `LoadStep`, whose cases the lemmas above state; the invariant is kept |
| `ContextManagers.SmallestKeyExists` | Source/abci/Importer/aiContext.cpp:97 | a non-empty key set has a least key: the next key the ascending `std::map` iteration visits |
| `ContextManagers.ContextManager.constructor` | Source/abci/Importer/aiContext.cpp:69 | the registry starts empty |
| `ContextManagers.ContextManager.GetContext` | Source/abci/Importer/aiContext.cpp:71-83 | the returned context has the requested uid and keeps its own invariant, so it can be loaded; a registered uid gives its own context and the table is unchanged; otherwise a fresh unloaded context with that uid and the default config is added under it, and every other entry is untouched |
| `ContextManagers.ContextManager.DestroyContext` | Source/abci/Importer/aiContext.cpp:85-92 | the table loses the entry for `uid` if there was one; nothing else changes |
| `ContextManagers.ContextManager.DestroyContextsWithPath` | Source/abci/Importer/aiContext.cpp:94-106 | no remaining context has the normalised path; every context with another path stays under the same uid; no entry is added or replaced |

## Left out

- Non-Windows builds: there `NormalizePath` is the identity. Only the `_WIN32` branch is modelled.
- `L` and `S` (UTF-8 to UTF-16 and back) are library calls. They are the identity here, and a path is a sequence of characters.
- Opening the archive: `lockFreeIStream`, the Ogawa `ReadArchive` over streams, the HDF5 fallback and their exceptions. These are file I/O and calls into the Alembic SDK. They are the `OpenOutcome` parameter of `Load`.
- Which path string each reader is given (the wide path on Windows, `in_path` on Linux, the normalised path otherwise, the normalised path for HDF5). This only affects the open outcome, which is a parameter.
- `aiCreateTimeSampling` and `aiTimeSampling::getTimeRange` are foreign. Each archive sampling carries the range its `aiTimeSampling` reports.
- `getNumTimeSamplings` on an invalid archive: the model takes the Alembic SDK's answer to be 0. The `uint32_t` to `int` cast of the count is not modelled (counts are unbounded).
- `gatherNodesRecursive`, `getTopObject` and the `aiObject` tree depend on the foreign Alembic object hierarchy. Only whether a top node exists is kept.
- `getArchive` returns the SDK archive handle. The model's `archive` field is that handle's content.
- `queueAsync`, `waitAsync`, `updateSamples` and `aiAsyncManager` exist for concurrency. `reset`'s call to `waitAsync` is a no-op here.
- `DebugLog`, `DebugLogW` and `DebugWarning` output, and the registry destructor's warning and final clear.
- Destructors: `~aiContext` runs `reset` when an erased entry is freed. Dafny has no deallocation, so an unregistered context simply stays unreachable.
- `Contexts.Context.GetTimeRange`: does not model IEEE doubles (NaN, rounding), because times are `real` and only `min`/`max` are involved.
- `Contexts.LoadEmptyPath`: for a null path the source first calls `L(in_path)` (line 226), which builds a `std::string` from a null pointer, undefined behaviour in C++, before the emptiness test at line 235. The model treats `L` as the identity, so a null path behaves like the empty path.
