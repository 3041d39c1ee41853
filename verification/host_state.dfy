// The plugin host's state and what each section under its mutex does to it. A plugin's
// path is kept in cleaned form, which is the only form the host ever compares.
module HostState {
  import opened Text

  datatype File = File(id: string, path: string, version: string)

  // loadedPlugin; clients are numbered in the order they are installed.
  datatype Loaded = Loaded(id: string, path: string, version: string, client: nat)

  // capabilityRecord; its capabilities call the client it was registered with.
  datatype Record = Record(id: string, path: string, version: string, priority: int, client: nat)

  // Snapshots are compared by identity, which the serial number stands for.
  datatype Snapshot = Snapshot(serial: nat, enabled: bool, records: seq<Record>)

  // pluginModelRegistration
  datatype Registration = Registration(provider: string, models: seq<string>, hasExecutor: bool)

  // pluginFileVersions, activePluginVersions and activePluginPaths
  datatype Maps = Maps(files: map<string, string>, versions: map<string, string>, paths: map<string, string>)

  // Besides the host's own fields: how many snapshots were published and clients installed,
  // and the clients handed to shutdown, in order.
  datatype Host = Host(
    loaded: map<string, Loaded>,
    retired: map<string, seq<Loaded>>,
    loading: set<string>,
    fused: set<string>,
    maps: Maps,
    modelProviders: map<string, string>,
    modelRegistrations: map<string, Registration>,
    snapshot: Snapshot,
    published: nat,
    installed: nat,
    handed: seq<nat>)

  // ---- Sections of ApplyConfig -------------------------------------------------------------

  // rebuildActivePluginMapsLocked, after the first n records
  function Rebuilt(records: seq<Record>, n: nat): Maps
    requires n <= |records|
  {
    if n == 0 then Maps(map[], map[], map[])
    else
      var m, r := Rebuilt(records, n - 1), records[n - 1];
      var id, version := TrimSpace(r.id), TrimSpace(r.version);
      if id == "" || r.path == "" then m
      else Maps(m.files[r.path := version], m.versions[id := version], m.paths[id := r.path])
  }

  function Store(h: Host, enabled: bool, records: seq<Record>): Host
  {
    h.(snapshot := Snapshot(h.published, enabled, records), published := h.published + 1)
  }

  function Publish(h: Host, records: seq<Record>): Host
  {
    Store(h.(maps := Rebuilt(records, |records|)), true, records)
  }

  // Plugins switched off, or no files to be had.
  function Disable(h: Host): Host
  {
    Store(h.(maps := Rebuilt([], 0)), false, [])
  }

  predicate Selected(files: seq<File>, id: string)
  {
    exists i :: 0 <= i < |files| && TrimSpace(files[i].id) == id
  }

  // withLoadedPluginFallbacks: plugins wanted at some version, not selected and not switched
  // off, stay at the file they are loaded from.
  function Fallbacks(h: Host, files: seq<File>, desired: seq<string>, off: set<string>): seq<File>
    decreases |desired|
  {
    if |desired| == 0 then files
    else
      var id := desired[0];
      if Selected(files, id) || id in off || id !in h.loaded || h.loaded[id].path == ""
          then Fallbacks(h, files, desired[1..], off)
      else Fallbacks(h, files + [File(id, h.loaded[id].path, TrimSpace(h.loaded[id].version))], desired[1..], off)
  }

  // The loaded plugin that a file replaces, if it is at another path.
  function Replaced(h: Host, file: File): Option<Loaded>
  {
    if file.id in h.loaded && h.loaded[file.id].path != file.path then Some(h.loaded[file.id]) else None
  }

  predicate AlreadyLoaded(h: Host, file: File)
  {
    file.id in h.loaded && h.loaded[file.id].path == file.path
  }

  function MarkLoading(h: Host, id: string): Host
  {
    h.(loading := h.loading + {id})
  }

  function LoadFailed(h: Host, id: string): Host
  {
    h.(loading := h.loading - {id})
  }

  function RetiredFor(h: Host, id: string): seq<Loaded>
  {
    if id in h.retired then h.retired[id] else []
  }

  // retireLoadedPluginLocked
  function Retire(h: Host, lp: Loaded): Host
  {
    h.(retired := h.retired[lp.id := RetiredFor(h, lp.id) + [lp]])
  }

  // removePluginRuntimeStateLocked
  function RemoveRuntimeState(h: Host, id: string): Host
  {
    h.(modelProviders := h.modelProviders - {id}, modelRegistrations := h.modelRegistrations - {id})
  }

  // The mark is taken back, and what the new client replaces is retired and forgotten.
  function Cleared(h: Host, file: File, replaced: Option<Loaded>): Host
  {
    var before := LoadFailed(h, file.id);
    if replaced.None? then before
    else RemoveRuntimeState(Retire(before, replaced.value).(fused := h.fused - {file.id}), file.id)
  }

  function Install(h: Host, file: File, replaced: Option<Loaded>): Host
  {
    var cleared := Cleared(h, file, replaced);
    cleared.(loaded := cleared.loaded[file.id := Loaded(file.id, file.path, file.version, h.installed)],
        installed := h.installed + 1)
  }

  // A plugin that came without a version takes the one it registered with.
  function Named(h: Host, id: string, version: string): Host
    requires id in h.loaded
  {
    if TrimSpace(h.loaded[id].version) == ""
        then h.(loaded := h.loaded[id := h.loaded[id].(version := TrimSpace(version))]) else h
  }

  // ---- Sections of UnloadPlugin, ShutdownAll and the rest ------------------------------------

  function Targets(h: Host, id: string): seq<Loaded>
  {
    (if id in h.loaded then [h.loaded[id]] else []) + RetiredFor(h, id)
  }

  function Clients(ls: seq<Loaded>): (r: seq<nat>)
    ensures |r| == |ls|
  {
    seq(|ls|, i requires 0 <= i < |ls| => ls[i].client)
  }

  function PathsOf(ls: seq<Loaded>): set<string>
  {
    set i | 0 <= i < |ls| :: ls[i].path
  }

  // snapshotWithoutPluginLocked
  function Without(records: seq<Record>, id: string): seq<Record>
  {
    if |records| == 0 then []
    else (if records[0].id == id then [] else [records[0]]) + Without(records[1..], id)
  }

  // The plugin taken out of the maps.
  function Forgotten(h: Host, id: string): Host
  {
    h.(loaded := h.loaded - {id},
       retired := h.retired - {id},
       fused := h.fused - {id},
       maps := Maps(h.maps.files - PathsOf(Targets(h, id)), h.maps.versions - {id}, h.maps.paths - {id}))
  }

  function Unload(h: Host, id: string): Host
  {
    var targets := Targets(h, id);
    if |targets| == 0 then h
    else
      var dropped := Forgotten(h, id).(handed := h.handed + Clients(targets));
      Store(RemoveRuntimeState(dropped, id), h.snapshot.enabled, Without(h.snapshot.records, id))
  }

  function Emptied(h: Host): Host
  {
    Store(
      h.(loaded := map[], retired := map[], loading := {}, maps := Maps(map[], map[], map[]), modelProviders := map[],
         modelRegistrations := map[]),
      false, [])
  }

  // `order` lists the clients as the maps are ranged over.
  function ShutDown(h: Host, order: seq<nat>): Host
  {
    Emptied(h).(handed := h.handed + order)
  }

  function Providers(next: map<string, Registration>): map<string, string>
  {
    map id | id in next :: next[id].provider
  }

  // commitModelClients under the mutex: only if the snapshot is still the published one.
  function CommitModels(h: Host, seen: Snapshot, next: map<string, Registration>): Host
  {
    if h.snapshot.serial != seen.serial then h
    else h.(modelProviders := Providers(next), modelRegistrations := next)
  }

  function Fuse(h: Host, id: string): Host
  {
    h.(fused := h.fused + {id})
  }

  // A map lookup in Go: absent keys read as the empty string.
  function Get(m: map<string, string>, key: string): string
  {
    if key in m then m[key] else ""
  }

  // pluginIdentityCurrent
  predicate Current(m: Maps, id: string, path: string, version: string)
  {
    var i, v := TrimSpace(id), TrimSpace(version);
    && i != ""
    && path != "" && Get(m.paths, i) == path
    && path in m.files && m.files[path] == v
    && Get(m.versions, i) == v
  }

  const START := Host(map[], map[], {}, {}, Maps(map[], map[], map[]), map[], map[], Snapshot(0, false, []), 1, 0, [])

  // ---- Where a client is -----------------------------------------------------------------------

  datatype Place = Live(id: string) | Old(id: string) | HandedOver

  function Box(h: Host, p: Place): seq<nat>
  {
    match p
    case Live(id) => if id in h.loaded then [h.loaded[id].client] else []
    case Old(id) => Clients(RetiredFor(h, id))
    case HandedOver => h.handed
  }

  function Boxes(h: Host): Place -> seq<nat>
  {
    p => Box(h, p)
  }

  // ---- All threads -----------------------------------------------------------------------------

  // Where the thread that holds applyMu stands. `records` are those it has registered so far.
  datatype Applier =
    | Free
    | Between(todo: seq<File>, records: seq<Record>)
    | Marking(file: File, replaced: Option<Loaded>, todo: seq<File>, records: seq<Record>)
    | Opening(file: File, replaced: Option<Loaded>, todo: seq<File>, records: seq<Record>)
    | Registering(file: File, todo: seq<File>, records: seq<Record>)

  // A RegisterModels call: the snapshot it read and what it will commit so far.
  datatype Gathering = Gathering(seen: Snapshot, next: map<string, Registration>)

  datatype State = State(host: Host, applier: Applier, gatherers: map<nat, Gathering>)

  datatype Step =
    | Begin(files: seq<File>, desired: seq<string>, off: set<string>)
    | SwitchOff
    | Skip
    | Look
    | Mark
    | Open(ok: bool)
    | Register(ok: bool, version: string, priority: int)
    | Finish(order: seq<Record>)
    | UnloadPlugin(id: string)
    | ShutdownAll(clients: seq<nat>)
    | ReadSnapshot(t: nat)
    | Gather(t: nat, id: string, registration: Registration)
    | Commit(t: nat)
    | FusePlugin(id: string)

  predicate NoRepeatedIds(files: seq<File>)
  {
    forall i, j :: 0 <= i < j < |files| ==> files[i].id != files[j].id
  }

  // What the file search yields: ids are trimmed names taken from the path, one file each.
  predicate Selectable(owner: string -> string, files: seq<File>)
  {
    NoRepeatedIds(files) && forall i :: 0 <= i < |files| ==> SelectableFile(owner, files[i])
  }

  predicate SelectableFile(owner: string -> string, file: File)
  {
    TrimSpace(file.id) == file.id != "" && file.path != "" && owner(file.path) == file.id
  }

  predicate HasId(records: seq<Record>, id: string)
  {
    exists i :: 0 <= i < |records| && records[i].id == id
  }

  ghost predicate Lists(h: Host, order: seq<nat>)
  {
    && (forall i, j :: 0 <= i < j < |order| ==> order[i] != order[j])
    && (forall c :: c in order <==> exists p :: p != HandedOver && c in Boxes(h)(p))
  }

  ghost predicate Enabled(owner: string -> string, s: State, step: Step)
  {
    match step
    case Begin(files, desired, _) => s.applier == Free && Selectable(owner, files) && forall i ::
        0 <= i < |desired| ==> TrimSpace(desired[i]) == desired[i] != ""
    case SwitchOff => s.applier == Free
    case Skip => s.applier.Between? && |s.applier.todo| > 0
    case Look => s.applier.Between? && |s.applier.todo| > 0
    case Mark => s.applier.Marking?
    case Open(_) => s.applier.Opening?
    case Register(_, _, _) => s.applier.Registering? && s.applier.file.id in s.host.loaded
    case Finish(order) => s.applier.Between? && s.applier.todo == [] && multiset(order) == multiset(s.applier.records)
    case UnloadPlugin(_) => s.applier == Free
    case ShutdownAll(clients) => s.applier == Free && Lists(s.host, clients)
    case ReadSnapshot(t) => t !in s.gatherers
    case Gather(t, id, _) => t in s.gatherers && HasId(s.gatherers[t].seen.records, id)
    case Commit(t) => t in s.gatherers
    case FusePlugin(_) => true
  }

  function AfterLook(h: Host, file: File, todo: seq<File>, records: seq<Record>): Applier
  {
    if file.id in h.fused && Replaced(h, file).None? then Between(todo, records)
    else if AlreadyLoaded(h, file) then Registering(file, todo, records)
    else Marking(file, Replaced(h, file), todo, records)
  }

  ghost function Next(owner: string -> string, s: State, step: Step): State
    requires Enabled(owner, s, step)
  {
    var h, a := s.host, s.applier;
    match step
    case Begin(files, desired, off) => s.(applier := Between(Fallbacks(h, files, desired, off), []))
    case SwitchOff => s.(host := Disable(h))
    case Skip => s.(applier := Between(a.todo[1..], a.records))
    case Look => s.(applier := AfterLook(h, a.todo[0], a.todo[1..], a.records))
    case Mark => s.(host := MarkLoading(h, a.file.id), applier := Opening(a.file, a.replaced, a.todo, a.records))
    case Open(ok) =>
      if ok then s.(host := Install(h, a.file, a.replaced), applier := Registering(a.file, a.todo, a.records))
      else s.(host := LoadFailed(h, a.file.id), applier := Between(a.todo, a.records))
    case Register(ok, version, priority) =>
      if ok then
        s.(host := Named(h, a.file.id, version),
           applier := Between(a.todo,
               a.records + [Record(a.file.id, a.file.path, a.file.version, priority, h.loaded[a.file.id].client)]))
      else s.(applier := Between(a.todo, a.records))
    case Finish(order) => s.(host := Publish(h, order), applier := Free)
    case UnloadPlugin(id) => s.(host := Unload(h, id))
    case ShutdownAll(clients) => s.(host := ShutDown(h, clients))
    case ReadSnapshot(t) => s.(gatherers := s.gatherers[t := Gathering(h.snapshot, map[])])
    case Gather(t, id, registration) =>
      s.(gatherers := s.gatherers[t := s.gatherers[t].(next := s.gatherers[t].next[id := registration])])
    case Commit(t) => s.(host := CommitModels(h, s.gatherers[t].seen, s.gatherers[t].next),
        gatherers := s.gatherers - {t})
    case FusePlugin(id) => s.(host := Fuse(h, id))
  }

  ghost predicate Legal(owner: string -> string, s: State, steps: seq<Step>)
    decreases |steps|
  {
    |steps| == 0 || (Enabled(owner, s, steps[0]) && Legal(owner, Next(owner, s, steps[0]), steps[1..]))
  }

  ghost function Run(owner: string -> string, s: State, steps: seq<Step>): State
    requires Legal(owner, s, steps)
    decreases |steps|
  {
    if |steps| == 0 then s else Run(owner, Next(owner, s, steps[0]), steps[1..])
  }

  const INITIAL := State(START, Free, map[])
}
