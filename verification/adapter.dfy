/**
 The datasource adapter `createDatasource` builds: `queryDocState` and
 `sendDocUpdate` over the `workspace` object store, each swallowing exactly
 the "connection is closing" failure.
 */
module Adapter {
  import opened Storage
  import opened Compaction

  /** What one `createDatasource` call returns: bound to one database and to the `mergeCount`
      it was created with. `serial` tells apart the objects of successive calls. */
  datatype Datasource = Datasource(serial: nat, dbName: string, mergeCount: int)

  /** What `queryDocState` resolves with: `false`, or a binary update. */
  datatype DocState = Missing | State(update: Bytes)

  /** The shared `catch (err)` of both operations: a closing connection resolves with `masked`,
      anything else is rethrown unchanged. */
  function Recover<T>(e: DbError, masked: T): (r: Result<T>)
    ensures r.Ok? <==> IsConnectionClosing(e)
    ensures r.Ok? ==> r.value == masked
    ensures r.Thrown? ==> r.error == e
  {
    if IsConnectionClosing(e) then Ok(masked) else Thrown(e)
  }

  /** The row `sendDocUpdate` reads: `(await store.get(guid)) ?? { updates: [] }`. */
  function StoredRow(store: Store, guid: DocId): (r: seq<UpdateMessage>)
    ensures guid !in store ==> r == []
    ensures guid in store ==> r == store[guid]
  {
    if guid in store then store[guid] else []
  }

  /** `queryDocState(guid, { stateVector })`. `fault` is the failure, if any, that the
      storage engine raised while the read transaction ran. */
  function QueryDocState(yjs: Crdt, store: Store, fault: Option<DbError>, guid: DocId, stateVector: Option<Bytes>): (r: Result<DocState>)
    ensures r.Thrown? <==> fault.Some? && !IsConnectionClosing(fault.value)
    ensures r.Thrown? ==> r.error == fault.value
    ensures fault.Some? && IsConnectionClosing(fault.value) ==> r == Ok(Missing)
    ensures fault.None? ==> (r == Ok(Missing) <==> guid !in store)
    ensures fault.None? && guid in store && stateVector.None? ==>
              r == Ok(State(yjs.merge(Payloads(store[guid]))))
    ensures fault.None? && guid in store && stateVector.Some? ==>
              r == Ok(State(yjs.diff(yjs.merge(Payloads(store[guid])), stateVector.value)))
  {
    match fault
    case Some(e) => Recover(e, Missing)
    case None =>
      if guid !in store then Ok(Missing)
      else
        var update := yjs.merge(Payloads(store[guid]));
        Ok(State(if stateVector.Some? then yjs.diff(update, stateVector.value) else update))
  }

  /** How the storage engine can fail one `sendDocUpdate`. A failure of an awaited step
      (`dbPromise`, `transaction`, `store.get`, `store.put`) rejects inside the `try`. A transaction
      that aborts when it commits, after `await store.put(...)` has resolved, rejects nothing the
      function awaits: the call resolves normally, and the aborted transaction wrote nothing. */
  datatype WriteFault = StepFailed(error: DbError) | CommitAborted(error: DbError)

  /** `sendDocUpdate(guid, update)` as one readwrite transaction over the row keyed by `guid`.
      `fault` is the failure, if any, the storage engine raised; a failed transaction writes nothing. */
  function SendDocUpdate(ds: Datasource, yjs: Crdt, store: Store, fault: Option<WriteFault>, guid: DocId, update: Bytes, clock: Clock): (r: Result<Store>)
    ensures r.Thrown? <==> fault.Some? && fault.value.StepFailed? && !IsConnectionClosing(fault.value.error)
    ensures r.Thrown? ==> r.error == fault.value.error
    ensures fault.Some? && fault.value.StepFailed? && IsConnectionClosing(fault.value.error) ==> r == Ok(store)
    ensures fault.Some? && fault.value.CommitAborted? ==> r == Ok(store)
    ensures fault.None? ==> r.Ok? && r.value.Keys == store.Keys + {guid}
    ensures fault.None? ==> r.value[guid] == NextRows(ds.mergeCount, yjs, StoredRow(store, guid), Write(update, clock))
    ensures r.Ok? ==> forall id :: id in store && id != guid ==> id in r.value && r.value[id] == store[id]
    ensures fault.None? && guid !in store && (ds.mergeCount == 0 || ds.mergeCount > 1) ==>
              r.value[guid] == [UpdateMessage(clock.appendTime, update)]
  {
    match fault
    case Some(StepFailed(e)) => Recover(e, store)
    case Some(CommitAborted(_)) => Ok(store)
    case None =>
      var rows := NextRows(ds.mergeCount, yjs, StoredRow(store, guid), Write(update, clock));
      Ok(store[guid := rows])
  }

  /** An abort at commit is lost silently: the call resolves as a successful one does, yet the
      store is left as it was, so a first write to a document leaves no row for it. */
  lemma CommitAbortIsSilent(ds: Datasource, yjs: Crdt, store: Store, e: DbError, guid: DocId, update: Bytes, clock: Clock)
    ensures var aborted := SendDocUpdate(ds, yjs, store, Some(CommitAborted(e)), guid, update, clock);
            var written := SendDocUpdate(ds, yjs, store, None, guid, update, clock);
            && aborted.Ok? && written.Ok?
            && aborted.value == store
            && (guid !in store ==> guid !in aborted.value && guid in written.value)
  {
  }

  /** A series of `sendDocUpdate` calls on one document that all reach the store. */
  function SendAll(ds: Datasource, yjs: Crdt, store: Store, guid: DocId, ws: seq<Write>): Store
    decreases |ws|
  {
    if ws == [] then store
    else SendAll(ds, yjs, SendDocUpdate(ds, yjs, store, None, guid, ws[0].update, ws[0].clock).value, guid, ws[1..])
  }

  /** A series of writes leaves in the document's row exactly what the compaction policy computes
      from the row read before the first write, and touches no other row. */
  lemma {:induction false} SendAllReplays(ds: Datasource, yjs: Crdt, store: Store, guid: DocId, ws: seq<Write>)
    ensures SendAll(ds, yjs, store, guid, ws).Keys == if ws == [] then store.Keys else store.Keys + {guid}
    ensures ws != [] ==> SendAll(ds, yjs, store, guid, ws)[guid] == Replay(ds.mergeCount, yjs, StoredRow(store, guid), ws)
    ensures forall id :: id in store && id != guid ==> SendAll(ds, yjs, store, guid, ws)[id] == store[id]
    decreases |ws|
  {
    if ws != [] {
      var next := SendDocUpdate(ds, yjs, store, None, guid, ws[0].update, ws[0].clock).value;
      SendAllReplays(ds, yjs, next, guid, ws[1..]);
      assert StoredRow(next, guid) == NextRows(ds.mergeCount, yjs, StoredRow(store, guid), ws[0]);
    }
  }

  /** Append/read round trip: after writing `u1..un` to a document that had no row, reading it
      back gives `mergeUpdates([u1..un])`, and `diffUpdate` of that against a given state vector.
      With compaction on, this rests on `MergeAbsorbs`. */
  lemma QueryAfterSends(ds: Datasource, yjs: Crdt, store: Store, guid: DocId, ws: seq<Write>, stateVector: Bytes)
    requires guid !in store && ws != []
    requires ds.mergeCount == 0 || MergeAbsorbs(yjs.merge)
    ensures QueryDocState(yjs, SendAll(ds, yjs, store, guid, ws), None, guid, None) == Ok(State(yjs.merge(Updates(ws))))
    ensures QueryDocState(yjs, SendAll(ds, yjs, store, guid, ws), None, guid, Some(stateVector))
              == Ok(State(yjs.diff(yjs.merge(Updates(ws)), stateVector)))
  {
    SendAllReplays(ds, yjs, store, guid, ws);
    var row := Replay(ds.mergeCount, yjs, [], ws);
    assert Payloads([]) + Updates(ws) == Updates(ws);
    if ds.mergeCount == 0 {
      ReplayWithoutCompaction(yjs, [], ws);
    } else {
      ReplayPreservesState(ds.mergeCount, yjs, [], ws);
    }
    assert yjs.merge(Payloads(row)) == yjs.merge(Updates(ws));
  }
}
