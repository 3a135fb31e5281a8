/**
 * The plugin host (core/plugin_host.cpp): a registry of loaded plugin modules kept in an
 * ordered list and a dictionary from uuid to list position. The dynamic loader (dlopen, dlsym,
 * dlclose), the plugin entry points and the directory listing are collaborators: their answers
 * are parameters of the operations, and the calls made on them are recorded in a ghost log.
 */
module Plugins {
  import opened Wrappers
  import opened Codes

  datatype Version = Version(major: nat, minor: nat, patch: nat)

  datatype PluginInfo = PluginInfo(
    name: string,
    author: string,
    description: string,
    version: Version,
    minApiVersion: Version,
    uuid: string)

  /** A library handle from dlopen; 0 is the null handle. */
  type LibHandle = nat
  /** A plugin instance made by create_plugin. */
  type Instance = nat

  datatype LoadedPlugin = LoadedPlugin(path: string, handle: LibHandle, plugin: Instance, info: PluginInfo)

  /**
   * What the loader answers for one library: the dlopen handle (0 on failure), whether dlsym
   * finds create_plugin, the instance create_plugin returns (None for null), the descriptor the
   * instance reports, and whether dlsym finds destroy_plugin.
   */
  datatype Library = Library(handle: LibHandle, hasCreate: bool, instance: Option<Instance>, info: PluginInfo, hasDestroy: bool)

  /** The calls made on the loader and on plugin instances. */
  datatype HostEvent =
    | Open(handle: LibHandle)
    | Close(handle: LibHandle)
    | Destroy(plugin: Instance)
    | Shutdown(plugin: Instance)

  // ---------------------------------------------------------------------------------
  // Version compatibility
  // ---------------------------------------------------------------------------------

  /**
   * A plugin loads when its minimum API version is not above the host's, comparing major, then
   * minor; the patch number plays no part.
   */
  function Compatible(minApi: Version, host: Version): (r: bool)
    ensures r <==> minApi.major < host.major || (minApi.major == host.major && minApi.minor <= host.minor)
  {
    !(minApi.major > host.major || (minApi.major == host.major && minApi.minor > host.minor))
  }

  /** Compatibility is lexicographic order on (major, minor): reflexive and transitive. */
  lemma CompatibleIsOrder(a: Version, b: Version, c: Version)
    ensures Compatible(a, a)
    ensures Compatible(a, b) && Compatible(b, c) ==> Compatible(a, c)
    ensures Compatible(a, b) || Compatible(b, a)
  {
  }

  lemma CompatibleIgnoresPatch(minApi: Version, host: Version, p: nat, q: nat)
    ensures Compatible(minApi, host) == Compatible(minApi.(patch := p), host.(patch := q))
  {
  }

  // ---------------------------------------------------------------------------------
  // The index from uuid to position
  // ---------------------------------------------------------------------------------

  predicate Unique(ps: seq<LoadedPlugin>) {
    forall i, j :: 0 <= i < |ps| && 0 <= j < |ps| && ps[i].info.uuid == ps[j].info.uuid ==> i == j
  }

  /**
   * The dictionary the rebuilding loop of unload_plugin produces: each uuid at the position it
   * was last seen; its keys are exactly the uuids of the list.
   */
  function Index(ps: seq<LoadedPlugin>): map<string, nat> {
    if ps == [] then map[] else Index(ps[..|ps| - 1])[ps[|ps| - 1].info.uuid := |ps| - 1]
  }

  /** The index's keys are the uuids of the list, and each key names a position holding it. */
  lemma {:induction false} IndexKeys(ps: seq<LoadedPlugin>)
    ensures forall i :: 0 <= i < |ps| ==> ps[i].info.uuid in Index(ps)
    ensures forall u :: u in Index(ps) ==> Index(ps)[u] < |ps| && ps[Index(ps)[u]].info.uuid == u
  {
    if ps != [] {
      var init := ps[..|ps| - 1];
      IndexKeys(init);
      assert forall i :: 0 <= i < |init| ==> init[i] == ps[i];
    }
  }

  /** With unique uuids, the index maps every module's uuid to its position. */
  lemma IndexExact(ps: seq<LoadedPlugin>)
    requires Unique(ps)
    ensures forall i :: 0 <= i < |ps| ==> ps[i].info.uuid in Index(ps) && Index(ps)[ps[i].info.uuid] == i
  {
    IndexKeys(ps);
  }

  // ---------------------------------------------------------------------------------
  // The call log
  // ---------------------------------------------------------------------------------

  /** The handles passed to dlopen's successful calls, in call order. */
  function Opens(events: seq<HostEvent>): seq<LibHandle> {
    if events == [] then [] else (if events[0].Open? then [events[0].handle] else []) + Opens(events[1..])
  }

  /** The handles passed to dlclose, in call order. */
  function Closes(events: seq<HostEvent>): seq<LibHandle> {
    if events == [] then [] else (if events[0].Close? then [events[0].handle] else []) + Closes(events[1..])
  }

  /** The instances whose shutdown was called, in call order. */
  function Shutdowns(events: seq<HostEvent>): seq<Instance> {
    if events == [] then [] else (if events[0].Shutdown? then [events[0].plugin] else []) + Shutdowns(events[1..])
  }

  lemma {:induction false} OpensAppend(a: seq<HostEvent>, b: seq<HostEvent>)
    ensures Opens(a + b) == Opens(a) + Opens(b)
  {
    if a == [] {
      assert a + b == b;
    } else {
      assert (a + b)[0] == a[0] && (a + b)[1..] == a[1..] + b;
      OpensAppend(a[1..], b);
    }
  }

  lemma {:induction false} ClosesAppend(a: seq<HostEvent>, b: seq<HostEvent>)
    ensures Closes(a + b) == Closes(a) + Closes(b)
  {
    if a == [] {
      assert a + b == b;
    } else {
      assert (a + b)[0] == a[0] && (a + b)[1..] == a[1..] + b;
      ClosesAppend(a[1..], b);
    }
  }

  lemma {:induction false} ShutdownsAppend(a: seq<HostEvent>, b: seq<HostEvent>)
    ensures Shutdowns(a + b) == Shutdowns(a) + Shutdowns(b)
  {
    if a == [] {
      assert a + b == b;
    } else {
      assert (a + b)[0] == a[0] && (a + b)[1..] == a[1..] + b;
      ShutdownsAppend(a[1..], b);
    }
  }

  /** The three filters on a single call. */
  lemma LogOne(e: HostEvent)
    ensures Opens([e]) == if e.Open? then [e.handle] else []
    ensures Closes([e]) == if e.Close? then [e.handle] else []
    ensures Shutdowns([e]) == if e.Shutdown? then [e.plugin] else []
  {
    assert [e][1..] == [];
  }

  /** Each filter of a log distributes over concatenation. */
  lemma LogAppend(a: seq<HostEvent>, b: seq<HostEvent>)
    ensures Opens(a + b) == Opens(a) + Opens(b)
    ensures Closes(a + b) == Closes(a) + Closes(b)
    ensures Shutdowns(a + b) == Shutdowns(a) + Shutdowns(b)
  {
    OpensAppend(a, b);
    ClosesAppend(a, b);
    ShutdownsAppend(a, b);
  }

  // ---------------------------------------------------------------------------------
  // The registry state and its invariant
  // ---------------------------------------------------------------------------------

  datatype HostState = HostState(loaded: seq<LoadedPlugin>, uuidMap: map<string, nat>, events: seq<HostEvent>)

  /**
   * The host's invariant: uuids are unique, the dictionary maps each to its position (so every
   * entry is a valid position), and every loaded module holds a non-null library handle.
   */
  ghost predicate Inv(st: HostState) {
    && Unique(st.loaded)
    && st.uuidMap == Index(st.loaded)
    && (forall u :: u in st.uuidMap ==> st.uuidMap[u] < |st.loaded|)
    && (forall i :: 0 <= i < |st.loaded| ==> st.loaded[i].handle != 0)
  }

  /** The invariant spelled out: uuidMap[loaded[i].uuid] == i for every i, and nothing else is a key. */
  lemma InvIndex(st: HostState)
    requires Inv(st)
    ensures forall i :: 0 <= i < |st.loaded| ==> st.loaded[i].info.uuid in st.uuidMap && st.uuidMap[st.loaded[i].info.uuid] == i
    ensures forall u :: u in st.uuidMap ==> st.uuidMap[u] < |st.loaded| && st.loaded[st.uuidMap[u]].info.uuid == u
  {
    IndexKeys(st.loaded);
    IndexExact(st.loaded);
  }

  // ---------------------------------------------------------------------------------
  // load_plugin
  // ---------------------------------------------------------------------------------

  datatype Loading = Loading(state: HostState, result: Result)

  /** The calls a rejected library gets once it has an instance: destroy_plugin if exported, then dlclose. */
  function RejectEvents(lib: Library, inst: Instance): seq<HostEvent> {
    (if lib.hasDestroy then [Destroy(inst)] else []) + [Close(lib.handle)]
  }

  /** Whether load_plugin registers the library: every step succeeded and every check passed. */
  predicate Admits(st: HostState, host: Version, lib: Library) {
    lib.handle != 0 && lib.hasCreate && lib.instance.Some? && Compatible(lib.info.minApiVersion, host)
    && lib.info.uuid !in st.uuidMap
  }

  /** The calls load_plugin makes on the loader and on the new instance. */
  function LoadCalls(st: HostState, host: Version, lib: Library): seq<HostEvent> {
    if lib.handle == 0 then []
    else
      [Open(lib.handle)]
      + (if !lib.hasCreate || lib.instance.None? then [Close(lib.handle)]
         else if Admits(st, host, lib) then []
         else RejectEvents(lib, lib.instance.value))
  }

  /** load_plugin, as a function of the registry state, the host's API version and the loader's answers. */
  function LoadStep(st: HostState, host: Version, path: string, lib: Library): Loading
  {
    var events := st.events + LoadCalls(st, host, lib);
    if lib.handle == 0 || !lib.hasCreate || lib.instance.None? then
      Loading(st.(events := events), Error)
    else if !Compatible(lib.info.minApiVersion, host) then
      Loading(st.(events := events), NotSupported)
    else if lib.info.uuid in st.uuidMap then
      Loading(st.(events := events), AlreadyInitialized)
    else
      var p := LoadedPlugin(path, lib.handle, lib.instance.value, lib.info);
      Loading(HostState(st.loaded + [p], st.uuidMap[lib.info.uuid := |st.loaded|], events), Success)
  }

  /**
   * The outcome of load_plugin: Success exactly when the library is admitted, NotSupported for a
   * too-new plugin, AlreadyInitialized for a uuid already registered, Error for a failed
   * dlopen, a missing create_plugin or a null instance; the list and dictionary grow only on
   * success, and the calls are always logged.
   */
  lemma LoadOutcome(st: HostState, host: Version, path: string, lib: Library)
    ensures var r := LoadStep(st, host, path, lib);
      && (r.result == Success <==> Admits(st, host, lib))
      && (r.result == NotSupported <==>
            lib.handle != 0 && lib.hasCreate && lib.instance.Some? && !Compatible(lib.info.minApiVersion, host))
      && (r.result == AlreadyInitialized <==>
            lib.handle != 0 && lib.hasCreate && lib.instance.Some? && Compatible(lib.info.minApiVersion, host)
            && lib.info.uuid in st.uuidMap)
      && (r.result !in {Success, NotSupported, AlreadyInitialized} ==> r.result == Error)
      && r.state.events == st.events + LoadCalls(st, host, lib)
      && (r.result != Success ==> r.state.loaded == st.loaded && r.state.uuidMap == st.uuidMap)
      && (r.result == Success ==>
            && r.state.loaded == st.loaded + [LoadedPlugin(path, lib.handle, lib.instance.value, lib.info)]
            && r.state.uuidMap == st.uuidMap[lib.info.uuid := |st.loaded|])
  {
  }

  /**
   * A failed dlopen makes no further call; otherwise the library is opened once, first, and it
   * is closed once, as the last call, exactly when the load is rejected, so that a rejected
   * library is never left open and an admitted one stays open.
   */
  lemma LoadReleases(st: HostState, host: Version, lib: Library)
    ensures var c := LoadCalls(st, host, lib);
      && (lib.handle == 0 ==> c == [])
      && (lib.handle != 0 ==> |c| > 0 && c[0] == Open(lib.handle) && Opens(c) == [lib.handle] && Shutdowns(c) == [])
      && (lib.handle != 0 && !Admits(st, host, lib) ==> Closes(c) == [lib.handle] && c[|c| - 1] == Close(lib.handle))
      && (Admits(st, host, lib) ==> Closes(c) == [])
  {
    if lib.handle != 0 {
      var o := [Open(lib.handle)];
      var tail := LoadCalls(st, host, lib)[1..];
      assert LoadCalls(st, host, lib) == o + tail;
      LogOne(Open(lib.handle));
      LogAppend(o, tail);
      if tail != [] {
        LogOne(Close(lib.handle));
        if tail != [Close(lib.handle)] {
          LogOne(Destroy(lib.instance.value));
          LogAppend([Destroy(lib.instance.value)], [Close(lib.handle)]);
        }
      }
    }
  }

  /** load_plugin keeps the host's invariant. */
  lemma LoadKeepsInv(st: HostState, host: Version, path: string, lib: Library)
    requires Inv(st)
    ensures Inv(LoadStep(st, host, path, lib).state)
  {
    if Admits(st, host, lib) {
      var p := LoadedPlugin(path, lib.handle, lib.instance.value, lib.info);
      AppendKeepsInv(st, p, st.events + LoadCalls(st, host, lib));
    }
  }

  /** Registering a module with a new uuid and a live handle at the end of the list keeps the invariant. */
  lemma AppendKeepsInv(st: HostState, p: LoadedPlugin, events: seq<HostEvent>)
    requires Inv(st) && p.handle != 0 && p.info.uuid !in st.uuidMap
    ensures Inv(HostState(st.loaded + [p], st.uuidMap[p.info.uuid := |st.loaded|], events))
  {
    var ps := st.loaded + [p];
    assert ps[..|ps| - 1] == st.loaded;
    assert Index(ps) == st.uuidMap[p.info.uuid := |st.loaded|];
    InvIndex(st);
    AppendUnique(st.loaded, p);
  }

  /** A module whose uuid is new can be appended without breaking uniqueness. */
  lemma AppendUnique(ps: seq<LoadedPlugin>, p: LoadedPlugin)
    requires Unique(ps)
    requires forall i :: 0 <= i < |ps| ==> ps[i].info.uuid != p.info.uuid
    ensures Unique(ps + [p])
  {
  }

  // ---------------------------------------------------------------------------------
  // unload_plugin
  // ---------------------------------------------------------------------------------

  /** The list without position k: the others in their order. */
  function Without(ps: seq<LoadedPlugin>, k: nat): (r: seq<LoadedPlugin>)
    requires k < |ps|
    ensures |r| == |ps| - 1
    ensures forall i :: 0 <= i < |r| ==> r[i] == if i < k then ps[i] else ps[i + 1]
  {
    ps[..k] + ps[k + 1..]
  }

  /** Removing one module keeps the others' uuids distinct. */
  lemma WithoutUnique(ps: seq<LoadedPlugin>, k: nat)
    requires k < |ps| && Unique(ps)
    ensures Unique(Without(ps, k))
  {
    var rest := Without(ps, k);
    forall i, j | 0 <= i < |rest| && 0 <= j < |rest| && rest[i].info.uuid == rest[j].info.uuid
      ensures i == j
    {
      var i' := if i < k then i else i + 1;
      var j' := if j < k then j else j + 1;
      assert ps[i'] == rest[i] && ps[j'] == rest[j];
    }
  }

  /** The calls unload_plugin makes on a module: shutdown, destroy_plugin if exported, then dlclose. */
  function UnloadEvents(p: LoadedPlugin, hasDestroy: bool): seq<HostEvent> {
    [Shutdown(p.plugin)] + (if hasDestroy then [Destroy(p.plugin)] else []) + (if p.handle != 0 then [Close(p.handle)] else [])
  }

  /** unload_plugin; hasDestroy is what dlsym answers for destroy_plugin in the module's library. */
  function UnloadStep(st: HostState, uuid: string, hasDestroy: bool): (r: Loading)
    requires Inv(st)
    ensures r.result == Success <==> uuid in st.uuidMap
    ensures r.result != Success ==> r.result == InvalidParameter && r.state == st
    ensures r.result == Success ==> r.state.events == st.events + UnloadEvents(st.loaded[st.uuidMap[uuid]], hasDestroy)
  {
    if uuid !in st.uuidMap then
      Loading(st, InvalidParameter)
    else
      var k := st.uuidMap[uuid];
      var rest := Without(st.loaded, k);
      Loading(HostState(rest, Index(rest), st.events + UnloadEvents(st.loaded[k], hasDestroy)), Success)
  }

  /**
   * After unloading uuid, the list is the old one without that module, the dictionary no longer
   * has uuid, and every other module keeps its entry, moved down by one when it came after the
   * removed module.
   */
  lemma UnloadReindexes(st: HostState, uuid: string, hasDestroy: bool)
    requires Inv(st) && uuid in st.uuidMap
    ensures var s := UnloadStep(st, uuid, hasDestroy).state;
      var k := st.uuidMap[uuid];
      && s.loaded == st.loaded[..k] + st.loaded[k + 1..]
      && s.uuidMap.Keys == st.uuidMap.Keys - {uuid}
      && forall u :: u in s.uuidMap ==>
           && u in st.uuidMap
           && (st.uuidMap[u] < k ==> s.uuidMap[u] == st.uuidMap[u])
           && (st.uuidMap[u] > k ==> s.uuidMap[u] == st.uuidMap[u] - 1)
  {
    var k := st.uuidMap[uuid];
    var rest := Without(st.loaded, k);
    InvIndexes(st);
    WithoutIndexes(st.loaded, k);
    RemovalKeeps(st.loaded, k, rest, st.uuidMap, Index(rest));
    RemovalDrops(st.loaded, k, rest, Index(rest));
    RemovalShift(st.loaded, k, rest, st.uuidMap, Index(rest));
  }

  lemma InvIndexes(st: HostState)
    requires Inv(st)
    ensures Indexes(st.uuidMap, st.loaded)
  {
    InvIndex(st);
  }

  lemma WithoutIndexes(ps: seq<LoadedPlugin>, k: nat)
    requires k < |ps| && Unique(ps)
    ensures Unique(Without(ps, k)) && Indexes(Index(Without(ps, k)), Without(ps, k))
  {
    var rest := Without(ps, k);
    WithoutUnique(ps, k);
    IndexKeys(rest);
    IndexExact(rest);
  }

  /** m indexes ps: each module's uuid maps to its position, and every key is such a uuid. */
  ghost predicate Indexes(m: map<string, nat>, ps: seq<LoadedPlugin>) {
    && (forall i :: 0 <= i < |ps| ==> ps[i].info.uuid in m && m[ps[i].info.uuid] == i)
    && (forall u :: u in m ==> m[u] < |ps| && ps[m[u]].info.uuid == u)
  }

  /** Removing module k from an indexed list keeps every other uuid in the index. */
  lemma RemovalKeeps(ps: seq<LoadedPlugin>, k: nat, rest: seq<LoadedPlugin>, m0: map<string, nat>, m1: map<string, nat>)
    requires k < |ps| && rest == Without(ps, k) && Indexes(m0, ps) && Indexes(m1, rest)
    ensures forall u :: u in m0 && u != ps[k].info.uuid ==> u in m1
  {
    forall u | u in m0 && u != ps[k].info.uuid ensures u in m1 {
      var i := m0[u];
      assert ps[i].info.uuid == u;
      if i < k {
        assert rest[i] == ps[i];
      } else {
        assert i > k;
        assert rest[i - 1] == ps[i];
      }
    }
  }

  /** Removing module k from an indexed list drops its uuid from the index. */
  lemma RemovalDrops(ps: seq<LoadedPlugin>, k: nat, rest: seq<LoadedPlugin>, m1: map<string, nat>)
    requires k < |ps| && Unique(ps) && rest == Without(ps, k) && Indexes(m1, rest)
    ensures ps[k].info.uuid !in m1
  {
  }

  /** After removing module k, the modules before it keep their positions and the later ones move down by one. */
  lemma RemovalShift(ps: seq<LoadedPlugin>, k: nat, rest: seq<LoadedPlugin>, m0: map<string, nat>, m1: map<string, nat>)
    requires k < |ps| && rest == Without(ps, k) && Indexes(m0, ps) && Indexes(m1, rest)
    ensures forall u :: u in m1 ==>
      && u in m0
      && (m0[u] < k ==> m1[u] == m0[u])
      && (m0[u] > k ==> m1[u] == m0[u] - 1)
  {
    forall u | u in m1
      ensures u in m0
      ensures m0[u] < k ==> m1[u] == m0[u]
      ensures m0[u] > k ==> m1[u] == m0[u] - 1
    {
      var i := m1[u];
      assert rest[i].info.uuid == u;
      if i < k {
        assert ps[i] == rest[i];
      } else {
        assert ps[i + 1] == rest[i];
      }
    }
  }

  /** unload_plugin keeps the host's invariant. */
  lemma UnloadKeepsInv(st: HostState, uuid: string, hasDestroy: bool)
    requires Inv(st)
    ensures Inv(UnloadStep(st, uuid, hasDestroy).state)
  {
    if uuid in st.uuidMap {
      var k := st.uuidMap[uuid];
      WithoutUnique(st.loaded, k);
      IndexKeys(Without(st.loaded, k));
    }
  }

  /** Unloading a module calls its shutdown once and closes its library once, and opens nothing. */
  lemma UnloadCalls(p: LoadedPlugin, hasDestroy: bool)
    requires p.handle != 0
    ensures var c := UnloadEvents(p, hasDestroy);
      Shutdowns(c) == [p.plugin] && Closes(c) == [p.handle] && Opens(c) == [] && c[|c| - 1] == Close(p.handle)
  {
    var d: seq<HostEvent> := if hasDestroy then [Destroy(p.plugin)] else [];
    LogAppend([Shutdown(p.plugin)] + d, [Close(p.handle)]);
    LogAppend([Shutdown(p.plugin)], d);
    LogOne(Shutdown(p.plugin));
    LogOne(Close(p.handle));
    if hasDestroy {
      LogOne(Destroy(p.plugin));
    }
  }

  // ---------------------------------------------------------------------------------
  // shutdown_plugins
  // ---------------------------------------------------------------------------------

  /** How one module's teardown went: cleanly, or with an exception out of shutdown or destroy_plugin. */
  datatype Fault = Clean | ShutdownThrows | DestroyThrows

  /**
   * The calls made on one module during shutdown_plugins: shutdown; unless it threw,
   * destroy_plugin if exported; unless that threw, dlclose. An exception skips the rest.
   */
  function TeardownEvents(p: LoadedPlugin, fault: Fault, hasDestroy: bool): seq<HostEvent> {
    [Shutdown(p.plugin)]
    + (if fault == ShutdownThrows then []
       else (if hasDestroy then [Destroy(p.plugin)] else [])
            + (if (fault == DestroyThrows && hasDestroy) || p.handle == 0 then [] else [Close(p.handle)]))
  }

  /** The calls made for the modules from position k on, the last module first. */
  function ShutdownEvents(ps: seq<LoadedPlugin>, faults: seq<Fault>, dests: seq<bool>, k: nat): seq<HostEvent>
    requires |faults| == |ps| && |dests| == |ps| && k <= |ps|
    decreases |ps| - k
  {
    if k == |ps| then [] else ShutdownEvents(ps, faults, dests, k + 1) + TeardownEvents(ps[k], faults[k], dests[k])
  }

  /** shutdown_plugins: tear every module down, then empty the list and the dictionary. */
  function ShutdownStep(st: HostState, faults: seq<Fault>, dests: seq<bool>): (r: HostState)
    requires |faults| == |st.loaded| && |dests| == |st.loaded|
    ensures r.loaded == [] && r.uuidMap == map[]
  {
    HostState([], map[], st.events + ShutdownEvents(st.loaded, faults, dests, 0))
  }

  function Reverse<T>(s: seq<T>): seq<T> {
    if s == [] then [] else Reverse(s[1..]) + [s[0]]
  }

  function Instances(ps: seq<LoadedPlugin>): seq<Instance> {
    seq(|ps|, i requires 0 <= i < |ps| => ps[i].plugin)
  }

  function HandleList(ps: seq<LoadedPlugin>): seq<LibHandle> {
    seq(|ps|, i requires 0 <= i < |ps| => ps[i].handle)
  }

  /**
   * What one teardown contributes: one shutdown call, no dlopen, and the library's dlclose when
   * nothing threw.
   */
  lemma TeardownLog(p: LoadedPlugin, fault: Fault, hasDestroy: bool)
    ensures var t := TeardownEvents(p, fault, hasDestroy);
      && Shutdowns(t) == [p.plugin] && Opens(t) == []
      && (fault == Clean && p.handle != 0 ==> Closes(t) == [p.handle])
  {
    var d: seq<HostEvent> := if hasDestroy then [Destroy(p.plugin)] else [];
    var c: seq<HostEvent> := if (fault == DestroyThrows && hasDestroy) || p.handle == 0 then [] else [Close(p.handle)];
    var rest := if fault == ShutdownThrows then [] else d + c;
    LogOne(Shutdown(p.plugin));
    LogAppend([Shutdown(p.plugin)], rest);
    if fault != ShutdownThrows {
      LogAppend(d, c);
      if hasDestroy {
        LogOne(Destroy(p.plugin));
      }
      if c != [] {
        LogOne(Close(p.handle));
      }
    }
  }

  /**
   * Every module's shutdown is called, in reverse load order, whatever exceptions are thrown;
   * when none is thrown, every module's library is closed, in the same order.
   */
  lemma {:induction false} ShutdownVisitsInReverse(ps: seq<LoadedPlugin>, faults: seq<Fault>, dests: seq<bool>, k: nat)
    requires |faults| == |ps| && |dests| == |ps| && k <= |ps|
    ensures Shutdowns(ShutdownEvents(ps, faults, dests, k)) == Reverse(Instances(ps)[k..])
    ensures Opens(ShutdownEvents(ps, faults, dests, k)) == []
    ensures (forall i :: k <= i < |ps| ==> faults[i] == Clean && ps[i].handle != 0) ==>
      Closes(ShutdownEvents(ps, faults, dests, k)) == Reverse(HandleList(ps)[k..])
    decreases |ps| - k
  {
    if k < |ps| {
      ShutdownVisitsInReverse(ps, faults, dests, k + 1);
      var t := TeardownEvents(ps[k], faults[k], dests[k]);
      LogAppend(ShutdownEvents(ps, faults, dests, k + 1), t);
      TeardownLog(ps[k], faults[k], dests[k]);
      assert Instances(ps)[k..][1..] == Instances(ps)[k + 1..];
      assert HandleList(ps)[k..][1..] == HandleList(ps)[k + 1..];
    } else {
      assert Instances(ps)[k..] == [] && HandleList(ps)[k..] == [];
    }
  }

  /**
   * shutdown_plugins leaves an empty registry, which meets the invariant, having called every
   * module's shutdown in reverse load order and, when no module throws, closed every library in
   * that order.
   */
  lemma ShutdownEmpties(st: HostState, faults: seq<Fault>, dests: seq<bool>)
    requires Inv(st) && |faults| == |st.loaded| && |dests| == |st.loaded|
    ensures Inv(ShutdownStep(st, faults, dests))
    ensures Shutdowns(ShutdownEvents(st.loaded, faults, dests, 0)) == Reverse(Instances(st.loaded))
    ensures (forall i :: 0 <= i < |faults| ==> faults[i] == Clean) ==>
      Closes(ShutdownEvents(st.loaded, faults, dests, 0)) == Reverse(HandleList(st.loaded))
  {
    assert Index([]) == map[];
    ShutdownVisitsInReverse(st.loaded, faults, dests, 0);
    assert Instances(st.loaded)[0..] == Instances(st.loaded);
    assert HandleList(st.loaded)[0..] == HandleList(st.loaded);
  }

  // ---------------------------------------------------------------------------------
  // scan_directory
  // ---------------------------------------------------------------------------------

  /** A directory entry: its name and whether readdir reports a regular file. */
  datatype DirEntry = DirEntry(name: string, regular: bool)

  /** The name filter: at least three characters, ending in ".so". */
  predicate IsSharedObject(name: string) {
    |name| >= 3 && name[|name| - 3..] == ".so"
  }

  /** An entry scan_directory tries to load: a regular file whose name ends in ".so". */
  predicate IsCandidate(e: DirEntry) {
    e.regular && IsSharedObject(e.name)
  }

  /** The entries scan_directory tries to load, in directory order. */
  function Candidates(entries: seq<DirEntry>): seq<DirEntry> {
    if entries == [] then []
    else
      var last := entries[|entries| - 1];
      Candidates(entries[..|entries| - 1]) + (if IsCandidate(last) then [last] else [])
  }

  /** The candidates are exactly the regular entries with a ".so" name. */
  lemma {:induction false} CandidatesExact(entries: seq<DirEntry>)
    ensures forall e :: e in Candidates(entries) <==> e in entries && e.regular && IsSharedObject(e.name)
  {
    if entries != [] {
      var init := entries[..|entries| - 1];
      CandidatesExact(init);
      assert entries == init + [entries[|entries| - 1]];
    }
  }

  /** The path load_plugin is given: the directory, a slash, the entry name. */
  function PluginPath(directory: string, name: string): string {
    directory + "/" + name
  }

  /** Loading the candidates in order, each with the loader's answer for it. */
  function LoadAll(st: HostState, host: Version, directory: string, cands: seq<DirEntry>, libs: seq<Library>): HostState
    requires |libs| == |cands|
  {
    if cands == [] then st
    else
      var n := |cands| - 1;
      LoadStep(LoadAll(st, host, directory, cands[..n], libs[..n]), host, PluginPath(directory, cands[n].name), libs[n]).state
  }

  /** A scan keeps the host's invariant: it is a sequence of loads. */
  lemma {:induction false} LoadAllKeepsInv(st: HostState, host: Version, directory: string, cands: seq<DirEntry>, libs: seq<Library>)
    requires Inv(st) && |libs| == |cands|
    ensures Inv(LoadAll(st, host, directory, cands, libs))
  {
    if cands != [] {
      var n := |cands| - 1;
      LoadAllKeepsInv(st, host, directory, cands[..n], libs[..n]);
      LoadKeepsInv(LoadAll(st, host, directory, cands[..n], libs[..n]), host, PluginPath(directory, cands[n].name), libs[n]);
    }
  }

  // ---------------------------------------------------------------------------------
  // The host object
  // ---------------------------------------------------------------------------------

  class PluginHost {
    var loaded: seq<LoadedPlugin>
    var uuidMap: map<string, nat>
    /** The calls made on the loader and on plugin instances, in order. */
    ghost var events: seq<HostEvent>
    /** API_VERSION, from a header that is not part of this model. */
    const apiVersion: Version

    ghost function State(): HostState
      reads this
    {
      HostState(loaded, uuidMap, events)
    }

    ghost predicate Valid()
      reads this
    {
      Inv(State())
    }

    constructor (apiVersion: Version)
      ensures Valid() && loaded == [] && uuidMap == map[] && events == []
      ensures this.apiVersion == apiVersion
    {
      loaded, uuidMap, events := [], map[], [];
      this.apiVersion := apiVersion;
      new;
      assert Index([]) == map[];
    }

    /** load_plugin: open the library, create the instance, check version and uuid, then register. */
    method LoadPlugin(path: string, lib: Library) returns (r: Result)
      requires Valid()
      modifies this
      ensures State() == LoadStep(old(State()), apiVersion, path, lib).state
      ensures r == LoadStep(old(State()), apiVersion, path, lib).result
      ensures Valid()
    {
      LoadKeepsInv(State(), apiVersion, path, lib);
      var handle := lib.handle;
      if handle == 0 {
        return Error;
      }
      events := events + [Open(handle)];
      if !lib.hasCreate {
        UnloadLibrary(handle);
        return Error;
      }
      if lib.instance.None? {
        UnloadLibrary(handle);
        return Error;
      }
      var plugin := lib.instance.value;
      var info := lib.info;
      if info.minApiVersion.major > apiVersion.major
        || (info.minApiVersion.major == apiVersion.major && info.minApiVersion.minor > apiVersion.minor)
      {
        if lib.hasDestroy {
          events := events + [Destroy(plugin)];
        }
        UnloadLibrary(handle);
        return NotSupported;
      }
      if info.uuid in uuidMap {
        if lib.hasDestroy {
          events := events + [Destroy(plugin)];
        }
        UnloadLibrary(handle);
        return AlreadyInitialized;
      }
      var index := |loaded|;
      loaded := loaded + [LoadedPlugin(path, handle, plugin, info)];
      uuidMap := uuidMap[info.uuid := index];
      r := Success;
    }

    /** unload_library: dlclose a non-null handle. */
    method UnloadLibrary(handle: LibHandle)
      modifies `events
      ensures events == old(events) + if handle != 0 then [Close(handle)] else []
    {
      if handle != 0 {
        events := events + [Close(handle)];
      }
    }

    /**
     * unload_plugin: shut the module down, destroy it, close its library, remove it from the
     * list and rebuild the dictionary from the remaining positions.
     */
    method UnloadPlugin(uuid: string, hasDestroy: bool) returns (r: Result)
      requires Valid()
      modifies this
      ensures State() == UnloadStep(old(State()), uuid, hasDestroy).state
      ensures r == UnloadStep(old(State()), uuid, hasDestroy).result
      ensures Valid()
    {
      UnloadKeepsInv(State(), uuid, hasDestroy);
      if uuid !in uuidMap {
        return InvalidParameter;
      }
      var index := uuidMap[uuid];
      var p := loaded[index];
      ghost var want := HostState(Without(loaded, index), Index(Without(loaded, index)), events + UnloadEvents(p, hasDestroy));
      assert want == UnloadStep(State(), uuid, hasDestroy).state;
      events := events + [Shutdown(p.plugin)];
      if hasDestroy {
        events := events + [Destroy(p.plugin)];
      }
      UnloadLibrary(p.handle);
      assert events == want.events;
      loaded := loaded[..index] + loaded[index + 1..];
      RebuildIndex();
      r := Success;
    }

    /** The end of unload_plugin: clear the dictionary and refill it from the list's positions. */
    method RebuildIndex()
      modifies `uuidMap
      ensures uuidMap == Index(loaded)
    {
      uuidMap := map[];
      var i := 0;
      while i < |loaded|
        invariant 0 <= i <= |loaded|
        invariant uuidMap == Index(loaded[..i])
      {
        assert loaded[..i + 1][..i] == loaded[..i];
        uuidMap := uuidMap[loaded[i].info.uuid := i];
        i := i + 1;
      }
      assert loaded[..i] == loaded;
    }

    /**
     * initialize_plugins: initialize the modules in load order and stop at the first failure;
     * replies[i] is what module i's initialize returns, and invoked counts the calls made.
     */
    method InitializePlugins(replies: seq<Result>) returns (r: Result, invoked: nat)
      requires |replies| == |loaded|
      ensures invoked <= |replies|
      ensures r == Success <==> forall i :: 0 <= i < |replies| ==> replies[i] == Success
      ensures r == Success ==> invoked == |replies|
      ensures r != Success ==>
        && 0 < invoked && replies[invoked - 1] == r
        && forall i :: 0 <= i < invoked - 1 ==> replies[i] == Success
    {
      invoked := 0;
      while invoked < |loaded|
        invariant invoked <= |loaded|
        invariant forall i :: 0 <= i < invoked ==> replies[i] == Success
      {
        var result := replies[invoked];
        invoked := invoked + 1;
        if result != Success {
          return result, invoked;
        }
      }
      r := Success;
    }

    /**
     * shutdown_plugins: tear the modules down in reverse load order, ignoring the exceptions
     * faults[i] says module i throws (dests[i]: whether it exports destroy_plugin), then empty
     * the list and the dictionary.
     */
    method ShutdownPlugins(faults: seq<Fault>, dests: seq<bool>)
      requires Valid() && |faults| == |loaded| && |dests| == |loaded|
      modifies this
      ensures State() == ShutdownStep(old(State()), faults, dests)
      ensures Valid()
    {
      ShutdownEmpties(State(), faults, dests);
      var k := |loaded|;
      while k > 0
        invariant loaded == old(loaded) && uuidMap == old(uuidMap)
        invariant 0 <= k <= |loaded|
        invariant events == old(events) + ShutdownEvents(loaded, faults, dests, k)
      {
        k := k - 1;
        Teardown(loaded[k], faults[k], dests[k]);
      }
      loaded := [];
      uuidMap := map[];
    }

    /**
     * One step of shutdown_plugins: call the module's shutdown, then destroy_plugin if exported,
     * then close its library; an exception (fault) abandons the rest of this module's teardown.
     */
    method Teardown(p: LoadedPlugin, fault: Fault, hasDestroy: bool)
      modifies `events
      ensures events == old(events) + TeardownEvents(p, fault, hasDestroy)
    {
      ghost var d: seq<HostEvent> := if hasDestroy then [Destroy(p.plugin)] else [];
      events := events + [Shutdown(p.plugin)];
      if fault == ShutdownThrows {
        return;
      }
      if hasDestroy {
        events := events + [Destroy(p.plugin)];
      }
      assert events == old(events) + [Shutdown(p.plugin)] + d;
      if fault == DestroyThrows && hasDestroy {
        return;
      }
      UnloadLibrary(p.handle);
    }

    /** get_plugin: the instance registered under uuid, if any. */
    function GetPlugin(uuid: string): (r: Option<Instance>)
      requires Valid()
      reads this
      ensures r.None? <==> forall i :: 0 <= i < |loaded| ==> loaded[i].info.uuid != uuid
      ensures r.Some? ==> exists i :: 0 <= i < |loaded| && loaded[i].info.uuid == uuid && loaded[i].plugin == r.value
    {
      InvIndex(State());
      if uuid !in uuidMap then None else Some(loaded[uuidMap[uuid]].plugin)
    }

    /**
     * scan_directory: FileNotFound when the directory cannot be opened (dir is None); otherwise
     * try to load every regular ".so" entry, ignoring the outcome, and report Success. libs
     * holds the loader's answers for the candidates, in order.
     */
    method ScanDirectory(directory: string, dir: Option<seq<DirEntry>>, libs: seq<Library>) returns (r: Result)
      requires Valid()
      requires dir.Some? ==> |libs| == |Candidates(dir.value)|
      modifies this
      ensures dir.None? ==> r == FileNotFound && State() == old(State())
      ensures dir.Some? ==> r == Success && State() == LoadAll(old(State()), apiVersion, directory, Candidates(dir.value), libs)
      ensures Valid()
    {
      if dir.None? {
        return FileNotFound;
      }
      var entries := dir.value;
      var i, n := 0, 0;
      ghost var st0 := State();
      ghost var cands: seq<DirEntry> := [];
      while i < |entries|
        invariant 0 <= i <= |entries|
        invariant cands == Candidates(entries[..i])
        invariant n == |cands| <= |libs|
        invariant Valid()
        invariant State() == LoadAll(st0, apiVersion, directory, cands, libs[..n])
      {
        cands := ScanStep(st0, apiVersion, directory, entries, i, cands, libs);
        n := ScanEntry(directory, entries[i], libs, n);
        i := i + 1;
      }
      assert entries[..i] == entries;
      assert libs[..n] == libs;
      r := Success;
    }

    /** One entry of the scan: a candidate is loaded with the next loader answer, any other entry is skipped. */
    method ScanEntry(directory: string, entry: DirEntry, libs: seq<Library>, n: nat) returns (next: nat)
      requires Valid()
      requires IsCandidate(entry) ==> n < |libs|
      modifies this
      ensures Valid()
      ensures !IsCandidate(entry) ==> next == n && State() == old(State())
      ensures IsCandidate(entry) ==>
        next == n + 1 && State() == LoadStep(old(State()), apiVersion, PluginPath(directory, entry.name), libs[n]).state
    {
      next := n;
      if IsCandidate(entry) {
        var _ := LoadPlugin(PluginPath(directory, entry.name), libs[n]);
        next := n + 1;
      }
    }
  }

  /**
   * The bookkeeping of one iteration of the scan: the candidates among the first i + 1 entries,
   * which are one more than before, and one more load step, exactly when entry i is a candidate.
   */
  lemma ScanStep(st: HostState, host: Version, directory: string, entries: seq<DirEntry>, i: nat,
                 cands: seq<DirEntry>, libs: seq<Library>) returns (next: seq<DirEntry>)
    requires i < |entries| && cands == Candidates(entries[..i]) && |Candidates(entries)| == |libs|
    ensures next == Candidates(entries[..i + 1])
    ensures !IsCandidate(entries[i]) ==> next == cands
    ensures IsCandidate(entries[i]) ==> |next| == |cands| + 1 <= |libs|
    ensures IsCandidate(entries[i]) ==>
      LoadAll(st, host, directory, next, libs[..|next|])
      == LoadStep(LoadAll(st, host, directory, cands, libs[..|cands|]), host, PluginPath(directory, entries[i].name), libs[|cands|]).state
  {
    CandidatesGrow(entries, i);
    next := Candidates(entries[..i + 1]);
    if IsCandidate(entries[i]) {
      LoadAllStep(st, host, directory, cands, entries[i], libs, |cands|);
    }
  }

  /** Loading one more candidate is one more load step after the others. */
  lemma LoadAllStep(st: HostState, host: Version, directory: string, cands: seq<DirEntry>, e: DirEntry,
                    libs: seq<Library>, n: nat)
    requires n == |cands| < |libs|
    ensures LoadAll(st, host, directory, cands + [e], libs[..n + 1])
         == LoadStep(LoadAll(st, host, directory, cands, libs[..n]), host, PluginPath(directory, e.name), libs[n]).state
  {
    assert (cands + [e])[..n] == cands;
    assert libs[..n + 1][..n] == libs[..n];
  }

  /** One more entry adds itself to the candidates exactly when it passes the filter. */
  lemma CandidatesGrow(entries: seq<DirEntry>, i: nat)
    requires i < |entries|
    ensures IsCandidate(entries[i]) ==>
      Candidates(entries[..i + 1]) == Candidates(entries[..i]) + [entries[i]]
    ensures !IsCandidate(entries[i]) ==>
      Candidates(entries[..i + 1]) == Candidates(entries[..i])
    ensures |Candidates(entries[..i])| <= |Candidates(entries[..i + 1])| <= |Candidates(entries)|
  {
    assert entries[..i + 1][..i] == entries[..i];
    CandidatesPrefix(entries, i + 1);
  }

  lemma {:induction false} CandidatesPrefix(entries: seq<DirEntry>, j: nat)
    requires j <= |entries|
    ensures |Candidates(entries[..j])| <= |Candidates(entries)|
    decreases |entries| - j
  {
    if j < |entries| {
      CandidatesPrefix(entries, j + 1);
      assert entries[..j + 1][..j] == entries[..j];
    } else {
      assert entries[..j] == entries;
    }
  }
}
