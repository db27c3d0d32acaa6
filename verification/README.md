# y-indexeddb update log, modelled in Dafny

This project models the IndexedDB-backed document update log of
`packages/y-indexeddb/src/provider.ts`:

- the **datasource adapter** built by `createDatasource`, whose `queryDocState`
  reads a document's row and merges its stored Yjs updates (diffing against a
  state vector when one is given), and whose `sendDocUpdate` appends a
  timestamped fragment and compacts the row once it reaches `mergeCount`
  fragments; both swallow exactly the "The database connection is closing."
  failure and rethrow everything else;
- the **lifecycle wrapper** `createIndexedDBProvider`, with its nullable
  `datasource`/`provider` pair, `connect`, `disconnect`, the `connected`
  getter, and the module-level `mergeCount` with `setMergeCount`;
- the **unload guard** `writeOperation`, which registers a `beforeunload`
  alert around an awaited write.

Modules, one per component:

| file | module | what it holds |
|---|---|---|
| `text.dfy` | `Text` | `String.prototype.includes` and its characterisation |
| `storage.dfy` | `Storage` | fragments, the `workspace` store as a map, caught errors, the closing-error predicate, the uninterpreted Yjs primitives |
| `compaction.dfy` | `Compaction` | one write's effect on a row, series of writes, length and state lemmas |
| `adapter.dfy` | `Adapter` | `queryDocState`, `sendDocUpdate`, error masking, the append/read round trip |
| `lifecycle.dfy` | `Lifecycle` | `connect` / `disconnect` / `connected`, `setMergeCount`, leak tracking |
| `unload_guard.dfy` | `UnloadGuard` | `writeOperation` and overlapping writes |

How the environment enters the model:

- The object store is `map<DocId, seq<UpdateMessage>>`; a missing key is a missing row.
- A storage failure is a parameter. For `queryDocState` it is an `Option<DbError>`: any failure
  of an awaited step. For `sendDocUpdate` it is an `Option<WriteFault>`: either an awaited step
  (`dbPromise`, `transaction`, `get`, `put`) failed, which lands in the `catch`, or the transaction
  aborted at commit after `put` had resolved, which the code never awaits, so the call resolves
  normally. IndexedDB transactions are atomic, so in both cases nothing is written.
- `mergeUpdates` and `diffUpdate` are the two function-valued fields of a `Crdt` record and are
  otherwise uninterpreted.
- The two `Date.now()` readings of `sendDocUpdate` are the `Clock` parameter.
- What the lazy provider reports as `connected` after `connect()` is a boolean parameter.
- The `beforeunload` registration is a flag on a `Window` record.

The model keeps these behaviours of the code, which a reader might not expect:

- A negative `mergeCount` compacts on every write. Only `0` (a falsy value) switches compaction off.
- The adapter keeps the `mergeCount` read when `connect` created it, so `setMergeCount` takes
  effect at the next `connect`, not at the next write.
- `connect` does not guard against being called twice: it overwrites the old pair without
  disconnecting it, and the old database stays open.
- `sendDocUpdate` does not await the transaction's completion, so a transaction that aborts at
  commit loses the update without any error reaching the caller.
- `writeOperation` unregisters the alert only when the write fulfils; a rejected write leaves it
  registered.

## Model

| member | source | states |
|---|---|---|
| `Text.IncludesIff` | packages/y-indexeddb/src/provider.ts:72 | the substring test used on error messages holds exactly when the text occurs at some position of the message |
| `Storage.ClosingClassification` | packages/y-indexeddb/src/provider.ts:72-74 | an error with a message is swallowed exactly when the closing text occurs at some position of that message (so any message embedding it is, and every message lacking it is not); an error without a message is not |
| `Compaction.NextRows` | packages/y-indexeddb/src/provider.ts:88-96 | one write either keeps the old row as a prefix and appends `{appendTime, update}` last (length + 1), or, when the appended length reaches a non-zero `mergeCount`, leaves exactly one fragment stamped with the second clock reading whose payload merges all old payloads followed by the new one |
| `Compaction.ReplayWithoutCompaction` | packages/y-indexeddb/src/provider.ts:89-93 | with `mergeCount` 0 a series of writes only appends: the old row stays a prefix, the length grows by the number of writes, and the payloads are the old ones followed by every update in call order |
| `Compaction.ReplayEagerCompaction` | packages/y-indexeddb/src/provider.ts:93-96 | a negative `mergeCount`, or 1, leaves a single fragment after every non-empty series of writes |
| `Compaction.ReplayLength` | packages/y-indexeddb/src/provider.ts:89-96 | for `mergeCount = m >= 2`, starting below `m`, the row length after `n` writes is exactly the cyclic count that climbs to `m - 1` and falls back to 1 |
| `Compaction.ReplayBounded` | packages/y-indexeddb/src/provider.ts:93-96 | for `mergeCount = m > 0`, a row within `max(1, m - 1)` fragments (so any row shorter than `m`) stays within that bound after any series of writes |
| `Compaction.ThirdWriteCompacts` | packages/y-indexeddb/src/provider.ts:93-96 | with `mergeCount = 3` a new document holds 2 fragments after two writes and 1 fragment after the third |
| `Compaction.CompactionInvisible` | packages/y-indexeddb/src/provider.ts:93-96 | if merging absorbs an already merged prefix, the merged row after a write equals the merge of the old payloads followed by the new update, whether or not the write compacted |
| `Compaction.ReplayPreservesState` | packages/y-indexeddb/src/provider.ts:89-96 | under the same assumption, for any threshold, merging the row after a series of writes equals merging the old payloads followed by all written updates |
| `Adapter.Recover` | packages/y-indexeddb/src/provider.ts:71-76 | the shared catch handler resolves with the masked value exactly when the error is the closing error, and otherwise rethrows that same error |
| `Adapter.StoredRow` | packages/y-indexeddb/src/provider.ts:88 | a document with no row reads as the empty fragment list; otherwise as its stored list |
| `Adapter.QueryDocState` | packages/y-indexeddb/src/provider.ts:51-77 | rethrows exactly the non-closing failures; a closing failure gives `false`; without failure the result is `false` exactly when no row exists, otherwise the merge of the stored payloads in stored order, diffed against the state vector when one is given |
| `Adapter.SendDocUpdate` | packages/y-indexeddb/src/provider.ts:78-107 | rethrows exactly the non-closing failures of awaited steps; a closing failure, or an abort at commit (never awaited), resolves with the store unchanged; otherwise only the row keyed by `guid` is written (every other row is unchanged), it holds what the compaction policy computes from the old row (empty when absent), and for a new document with `mergeCount` 0 or above 1 it is exactly `[{appendTime, update}]` |
| `Adapter.CommitAbortIsSilent` | packages/y-indexeddb/src/provider.ts:98-101 | a transaction that aborts at commit after `put` resolved makes the call resolve like a successful write, yet the store is unchanged, so a first write leaves no row |
| `Adapter.SendAllReplays` | packages/y-indexeddb/src/provider.ts:88-101 | a series of successful writes to one document leaves that row equal to the compaction policy replayed over the writes in order, adds no other key and leaves every other row unchanged |
| `Adapter.QueryAfterSends` | packages/y-indexeddb/src/provider.ts:57-101 | writing `u1..un` to a document without a row and reading it back gives `mergeUpdates([u1..un])`, and with a state vector `v` gives `diffUpdate` of that against `v` |
| `Lifecycle.Initial` | packages/y-indexeddb/src/provider.ts:18 | the module-level `mergeCount` starts at 500 and nothing is open |
| `Lifecycle.SetMergeCount` | packages/y-indexeddb/src/provider.ts:36-38 | sets the module-level value and changes nothing else |
| `Lifecycle.CreateIndexedDBProvider` | packages/y-indexeddb/src/provider.ts:118-126 | a new wrapper holds neither datasource nor provider and is not connected |
| `Lifecycle.Connected` | packages/y-indexeddb/src/provider.ts:141-143 | `connected` is false whenever no provider exists, and with a provider it is what that provider reports |
| `Lifecycle.Connect` | packages/y-indexeddb/src/provider.ts:127-131 | a fresh datasource bound to the wrapper's database and to the current module-level `mergeCount`, a provider over exactly that datasource, both newly open; `connected` is what the provider reports |
| `Lifecycle.Disconnect` | packages/y-indexeddb/src/provider.ts:132-137 | both fields become null and `connected` is false; the held database is closed and the held provider disconnected; from the never-connected state it changes nothing |
| `Lifecycle.InitiallyDisconnected` | packages/y-indexeddb/src/provider.ts:122-143 | before any `connect` the wrapper is not connected, nothing leaks, and `disconnect` is a no-op |
| `Lifecycle.LifecyclePreservesTracked` | packages/y-indexeddb/src/provider.ts:127-137 | `disconnect` releases every database and provider the wrapper tracked; `connect` from a disconnected state keeps exactly one pair open |
| `Lifecycle.DoubleConnectLeaks` | packages/y-indexeddb/src/provider.ts:127-137 | a second `connect` without `disconnect` leaves the first database open and the first provider live even after the following `disconnect` |
| `Lifecycle.MergeCountTakesEffectOnReconnect` | packages/y-indexeddb/src/provider.ts:128 | the datasource keeps the `mergeCount` it was created with; a `setMergeCount` reaches the adapter only through the next `connect` |
| `UnloadGuard.WriteOperation` | packages/y-indexeddb/src/provider.ts:26-34 | the returned promise settles as the write does; afterwards the alert is registered exactly when the write rejected |
| `UnloadGuard.RejectedWriteKeepsGuard` | packages/y-indexeddb/src/provider.ts:30-33 | a rejected write leaves the alert registered until some later write fulfils |
| `UnloadGuard.GuardedWrite` | packages/y-indexeddb/src/provider.ts:26-34 | with release on every exit path, the alert is unregistered after the write settles, whichever way |
| `UnloadGuard.WriteOperationIsRun` | packages/y-indexeddb/src/provider.ts:26-34 | the registration state `writeOperation` leaves is that of running its start (the `addEventListener`) followed by the settlement of the write, which ties the event-run lemmas to the operation |
| `UnloadGuard.OverlappingWritesLoseGuard` | packages/y-indexeddb/src/provider.ts:27-33 | with two overlapping writes, the first fulfilment unregisters the one shared registration while the second write is still outstanding |
| `UnloadGuard.RunGuardedIff` | packages/y-indexeddb/src/provider.ts:26-34 | after any run of starts and settlements the alert is registered exactly when some write started after the last fulfilment (or it was registered before and nothing fulfilled) |

## Left out

- Opening the database (`openDB`, `dbVersion`, `upgradeDB`, `DEFAULT_DB_NAME`): `shared.ts` is not part of this model; the store is an abstract map and a failure is a parameter.
- Interleaving of concurrent `sendDocUpdate` calls: each call is one readwrite transaction (`get` and `put` in the same transaction), which IndexedDB does not run alongside another readwrite transaction on the same store, so the model treats each call as atomic.
- Failures thrown by `mergeUpdates`/`diffUpdate` on malformed updates: the Yjs primitives are modelled as total.
- A `mergeCount` that is not an integer (`NaN`, `undefined`, a fraction): it is modelled as `int`.
- A thrown value that is `null` or `undefined`, where reading `err.message` itself throws a `TypeError`: caught errors are modelled as objects with an optional message.
- `createLazyProvider` internals: the provider's `connected` flag after `connect()` is a parameter.
- `console.log`, `console.error`, the text and `preventDefault` of `saveAlert`, `cleanup` (an empty placeholder) and `whenSynced` (an already resolved promise).
- A failure of `db.close()` in the datasource's `disconnect`: it is only logged, so the model treats the database as closed.
- Adapter.QueryAfterSends: with compaction on it assumes `MergeAbsorbs` (merging a merged prefix together with later updates equals merging everything), reading Yjs's equivalence of document states as byte equality.
- Compaction.ReplayPreservesState: rests on the same `MergeAbsorbs` assumption.
- Compaction.CompactionInvisible: rests on the same `MergeAbsorbs` assumption.

## Findings

| source | as written | input that shows it | evidently intended | confidence | as-written member | corrected member |
|---|---|---|---|---|---|---|
| packages/y-indexeddb/src/provider.ts:30-33 | `removeEventListener` runs only after `await op` returns normally | a write promise that rejects | the alert is unregistered on every exit path (`try`/`finally`) | medium, not executed | `UnloadGuard.RejectedWriteKeepsGuard` | `UnloadGuard.GuardedWrite` |
