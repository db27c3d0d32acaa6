/**
 The lifecycle wrapper `createIndexedDBProvider`: two nullable closure
 variables, `datasource` and `provider`, set by `connect`, cleared by
 `disconnect`, and the `connected` getter over them.
 */
module Lifecycle {
  import opened Storage
  import opened Adapter

  /** The module-level `mergeCount` before any `setMergeCount` call. */
  const DefaultMergeCount: int := 500

  /** State outside the wrapper object: the module-level `mergeCount`, how many datasources have been
      created, and the serials of the databases not yet closed and of the lazy providers not yet disconnected. */
  datatype Globals = Globals(mergeCount: int, created: nat, openDatabases: set<nat>, liveProviders: set<nat>)

  /** The lazy provider `createLazyProvider(doc, datasource)` returns; whether it reports itself
      connected is its own business and enters the model as an opaque flag. */
  datatype LazyProvider = LazyProvider(source: Datasource, connected: bool)

  /** The object `createIndexedDBProvider(doc, dbName)` returns, reduced to its closure variables. */
  datatype IndexedDBProvider = IndexedDBProvider(dbName: string, datasource: Option<Datasource>, provider: Option<LazyProvider>)

  datatype Step = Step(wrapper: IndexedDBProvider, globals: Globals)

  function Initial(): (g: Globals)
    ensures g.mergeCount == DefaultMergeCount && g.openDatabases == {} && g.liveProviders == {}
  {
    Globals(DefaultMergeCount, 0, {}, {})
  }

  /** `setMergeCount(count)`: changes only the module-level value; no datasource already created sees it. */
  function SetMergeCount(g: Globals, count: int): (r: Globals)
    ensures r.mergeCount == count
    ensures r.created == g.created && r.openDatabases == g.openDatabases && r.liveProviders == g.liveProviders
  {
    g.(mergeCount := count)
  }

  /** The `connected` getter: `provider?.connected || false`. */
  predicate Connected(p: IndexedDBProvider)
    ensures Connected(p) ==> p.provider.Some?
    ensures p.provider.Some? ==> (Connected(p) <==> p.provider.value.connected)
  {
    p.provider.Some? && p.provider.value.connected
  }

  /** `createIndexedDBProvider(doc, dbName)`: nothing is opened until `connect`. */
  function CreateIndexedDBProvider(dbName: string): (r: IndexedDBProvider)
    ensures r.dbName == dbName
    ensures r.datasource.None? && r.provider.None?
    ensures !Connected(r)
  {
    IndexedDBProvider(dbName, None, None)
  }

  /** `connect()`: a fresh datasource capturing the current module-level `mergeCount`, and a fresh
      lazy provider over it, which is then connected (`reportsConnected` is what it reports afterwards).
      Whatever pair was there before is overwritten without being disconnected. */
  function Connect(p: IndexedDBProvider, g: Globals, reportsConnected: bool): (r: Step)
    ensures r.wrapper.dbName == p.dbName
    ensures r.wrapper.datasource.Some? && r.wrapper.provider.Some?
    ensures r.wrapper.datasource.value.dbName == p.dbName
    ensures r.wrapper.datasource.value.mergeCount == g.mergeCount
    ensures r.wrapper.provider.value.source == r.wrapper.datasource.value
    ensures Connected(r.wrapper) == reportsConnected
    ensures r.globals.mergeCount == g.mergeCount
    ensures r.globals.openDatabases == g.openDatabases + {r.wrapper.datasource.value.serial}
    ensures r.globals.liveProviders == g.liveProviders + {r.wrapper.datasource.value.serial}
  {
    var ds := Datasource(g.created, p.dbName, g.mergeCount);
    Step(IndexedDBProvider(p.dbName, Some(ds), Some(LazyProvider(ds, reportsConnected))),
         Globals(g.mergeCount, g.created + 1, g.openDatabases + {ds.serial}, g.liveProviders + {ds.serial}))
  }

  /** `disconnect()`: closes the datasource's database and disconnects the provider, when there are
      any, then nulls both. */
  function Disconnect(p: IndexedDBProvider, g: Globals): (r: Step)
    ensures r.wrapper == CreateIndexedDBProvider(p.dbName)
    ensures !Connected(r.wrapper)
    ensures p.datasource.None? && p.provider.None? ==> r == Step(p, g)
    ensures p.datasource.Some? ==> r.globals.openDatabases == g.openDatabases - {p.datasource.value.serial}
    ensures p.provider.Some? ==> r.globals.liveProviders == g.liveProviders - {p.provider.value.source.serial}
    ensures r.globals.mergeCount == g.mergeCount && r.globals.created == g.created
  {
    var open := if p.datasource.Some? then g.openDatabases - {p.datasource.value.serial} else g.openDatabases;
    var live := if p.provider.Some? then g.liveProviders - {p.provider.value.source.serial} else g.liveProviders;
    Step(IndexedDBProvider(p.dbName, None, None), g.(openDatabases := open, liveProviders := live))
  }

  /** The serial of the pair the wrapper holds, if any. */
  function Held(p: IndexedDBProvider): set<nat>
  {
    if p.datasource.Some? then {p.datasource.value.serial} else {}
  }

  /** Nothing leaks: the only open database and the only live provider are the ones the wrapper
      holds, both are there or neither, and the serial counter is ahead of every serial in use. */
  ghost predicate Tracked(p: IndexedDBProvider, g: Globals)
  {
    && (p.datasource.Some? <==> p.provider.Some?)
    && (p.provider.Some? ==> p.provider.value.source == p.datasource.value)
    && (p.datasource.Some? ==> p.datasource.value.serial < g.created)
    && g.openDatabases == Held(p)
    && g.liveProviders == Held(p)
  }

  /** A freshly created wrapper is disconnected and tracked. */
  lemma InitiallyDisconnected(dbName: string)
    ensures !Connected(CreateIndexedDBProvider(dbName))
    ensures Tracked(CreateIndexedDBProvider(dbName), Initial())
    ensures Disconnect(CreateIndexedDBProvider(dbName), Initial()) == Step(CreateIndexedDBProvider(dbName), Initial())
  {
  }

  /** `disconnect` from any tracked state releases everything, and `connect` from a disconnected
      tracked state stays tracked. */
  lemma LifecyclePreservesTracked(p: IndexedDBProvider, g: Globals, reportsConnected: bool)
    requires Tracked(p, g)
    ensures Tracked(Disconnect(p, g).wrapper, Disconnect(p, g).globals)
    ensures Disconnect(p, g).globals.openDatabases == {} && Disconnect(p, g).globals.liveProviders == {}
    ensures p.datasource.None? ==> Tracked(Connect(p, g, reportsConnected).wrapper, Connect(p, g, reportsConnected).globals)
  {
  }

  /** `connect` while connected leaves the first database open and the first provider live, and the
      `disconnect` that follows cannot reach them: they stay open for good. */
  lemma DoubleConnectLeaks(p: IndexedDBProvider, g: Globals, first: bool, second: bool)
    requires Tracked(p, g) && p.datasource.None?
    ensures var once := Connect(p, g, first);
            var twice := Connect(once.wrapper, once.globals, second);
            var after := Disconnect(twice.wrapper, twice.globals);
            && !Tracked(twice.wrapper, twice.globals)
            && after.globals.openDatabases == Held(once.wrapper) != {}
            && after.globals.liveProviders == Held(once.wrapper)
  {
  }

  /** The datasource keeps the `mergeCount` it was created with: `setMergeCount` while connected
      changes nothing the adapter uses, and only the next `connect` picks the new value up. */
  lemma MergeCountTakesEffectOnReconnect(p: IndexedDBProvider, g: Globals, count: int, first: bool, second: bool)
    ensures var c := Connect(p, g, first);
            var g' := SetMergeCount(c.globals, count);
            var d := Disconnect(c.wrapper, g');
            var c' := Connect(d.wrapper, d.globals, second);
            && c.wrapper.datasource.value.mergeCount == g.mergeCount
            && c'.wrapper.datasource.value.mergeCount == count
  {
  }
}
