// The plugin host as the code runs it: fields that its methods update, one method for each
// section under the mutex, and the operations made of them. What an operation does is a
// run of the steps of HostState, so that everything HostLaws proves of runs holds of it.
module PluginHost {
  import opened Text
  import opened Places
  import opened HostState
  import opened HostLaws
  import opened HostApply
  import opened HostFields
  import opened Ordering
  import opened RecordOrder

  class PluginHost {
    var loaded: map<string, Loaded>
    var retired: map<string, seq<Loaded>>
    var loading: set<string>
    var fused: set<string>
    var pluginFileVersions: map<string, string>
    var activePluginVersions: map<string, string>
    var activePluginPaths: map<string, string>
    var modelProviders: map<string, string>
    var modelRegistrations: map<string, Registration>
    var snapshot: Snapshot
    var published: nat
    var installed: nat
    // The clients whose Shutdown was called, in order.
    var handed: seq<nat>

    ghost function View(): Host
      reads this
    {
      Host(loaded, retired, loading, fused, Maps(pluginFileVersions, activePluginVersions, activePluginPaths),
           modelProviders, modelRegistrations, snapshot, published, installed, handed)
    }

    // The state of the host while no thread is in the middle of an operation.
    ghost function Rest(): State
      reads this
    {
      State(View(), Free, map[])
    }

    // Everything that HostLaws proves of every reachable state.
    ghost predicate Valid(owner: string -> string)
      reads this
    {
      Inv(owner, Rest())
    }

    constructor (ghost owner: string -> string)
      ensures View() == START && Valid(owner)
      ensures loaded == map[] && retired == map[] && handed == [] && snapshot.records == []
    {
      loaded, retired, loading, fused := map[], map[], {}, {};
      pluginFileVersions, activePluginVersions, activePluginPaths := map[], map[], map[];
      modelProviders, modelRegistrations := map[], map[];
      snapshot, published, installed, handed := Snapshot(0, false, []), 1, 0, [];
      new;
      StartInv(owner);
    }

    // ---- Small sections ------------------------------------------------------------------------

    method StoreSnapshot(enabled: bool, records: seq<Record>)
      modifies this`snapshot, this`published
      ensures View() == Store(old(View()), enabled, records)
      ensures snapshot == Snapshot(old(published), enabled, records) && published == old(published) + 1
    {
      snapshot := Snapshot(published, enabled, records);
      published := published + 1;
    }

    method RebuildActivePluginMaps(records: seq<Record>)
      modifies this`pluginFileVersions, this`activePluginVersions, this`activePluginPaths
      ensures View() == old(View()).(maps := Rebuilt(records, |records|))
    {
      pluginFileVersions, activePluginVersions, activePluginPaths := map[], map[], map[];
      for i := 0 to |records|
        invariant View() == old(View()).(maps := Rebuilt(records, i))
      {
        var id := TrimSpace(records[i].id);
        if id == "" || records[i].path == "" {
          continue;
        }
        pluginFileVersions := pluginFileVersions[records[i].path := TrimSpace(records[i].version)];
        activePluginVersions := activePluginVersions[id := TrimSpace(records[i].version)];
        activePluginPaths := activePluginPaths[id := records[i].path];
      }
    }

    method PluginIdentityCurrent(id: string, path: string, version: string) returns (current: bool)
      ensures current == Current(View().maps, id, path, version)
    {
      var v, i := TrimSpace(version), TrimSpace(id);
      if i == "" {
        return false;
      }
      if path == "" || Get(activePluginPaths, i) != path {
        return false;
      }
      if path !in pluginFileVersions || pluginFileVersions[path] != v {
        return false;
      }
      return Get(activePluginVersions, i) == v;
    }

    method RemovePluginRuntimeState(id: string)
      modifies this`modelProviders, this`modelRegistrations
      ensures View() == RemoveRuntimeState(old(View()), id)
      ensures modelProviders == old(modelProviders) - {id} && modelRegistrations == old(modelRegistrations) - {id}
    {
      modelProviders := modelProviders - {id};
      modelRegistrations := modelRegistrations - {id};
    }

    method RetireLoadedPlugin(lp: Loaded)
      modifies this`retired
      ensures View() == Retire(old(View()), lp)
      ensures var was := if lp.id in old(retired) then old(retired)[lp.id] else [];
              retired == old(retired)[lp.id := was + [lp]]
    {
      retired := retired[lp.id := (if lp.id in retired then retired[lp.id] else []) + [lp]];
    }

    method FusePlugin(id: string)
      modifies this`fused
      ensures View() == Fuse(old(View()), id)
      ensures fused == old(fused) + {id}
    {
      fused := fused + {id};
    }

    // ---- ApplyConfig -----------------------------------------------------------------------------

    method SwitchOff()
      modifies this`snapshot, this`published
      modifies this`pluginFileVersions, this`activePluginVersions, this`activePluginPaths
      ensures View() == Disable(old(View()))
      ensures snapshot == Snapshot(old(published), false, []) && published == old(published) + 1
      ensures pluginFileVersions == map[] && activePluginVersions == map[] && activePluginPaths == map[]
    {
      RebuildActivePluginMaps([]);
      StoreSnapshot(false, []);
    }

    method WithLoadedPluginFallbacks(files: seq<File>, desired: seq<string>, off: set<string>) returns (all: seq<File>)
      ensures all == Fallbacks(View(), files, desired, off)
    {
      all := files;
      for i := 0 to |desired|
        invariant Fallbacks(View(), files, desired, off) == Fallbacks(View(), all, desired[i..], off)
      {
        var id := desired[i];
        assert desired[i..][0] == id && desired[i..][1..] == desired[i + 1..];
        var selected := IsSelected(all, id);
        if selected || id in off || id !in loaded || loaded[id].path == "" {
          continue;
        }
        all := all + [File(id, loaded[id].path, TrimSpace(loaded[id].version))];
      }
    }

    static method IsSelected(files: seq<File>, id: string) returns (selected: bool)
      ensures selected == Selected(files, id)
    {
      for i := 0 to |files|
        invariant forall j :: 0 <= j < i ==> TrimSpace(files[j].id) != id
      {
        if TrimSpace(files[i].id) == id {
          return true;
        }
      }
      return false;
    }

    // The section that puts a freshly opened client in place.
    method InstallLoaded(file: File, replaced: Option<Loaded>)
      modifies this`loaded, this`installed, this`retired, this`loading, this`fused
      modifies this`modelProviders, this`modelRegistrations
      ensures View() == Install(old(View()), file, replaced)
      ensures loaded == old(loaded)[file.id := Loaded(file.id, file.path, file.version, old(installed))]
      ensures installed == old(installed) + 1 && loading == old(loading) - {file.id}
      ensures replaced.Some? ==>
                && replaced.value.id in retired && |retired[replaced.value.id]| > 0
                && retired[replaced.value.id][|retired[replaced.value.id]| - 1] == replaced.value
                && fused == old(fused) - {file.id}
                && modelProviders == old(modelProviders) - {file.id}
                && modelRegistrations == old(modelRegistrations) - {file.id}
      ensures replaced.None? ==>
                && retired == old(retired) && fused == old(fused)
                && modelProviders == old(modelProviders) && modelRegistrations == old(modelRegistrations)
    {
      hide Cleared;
      ClearReplaced(file, replaced);
      loaded := loaded[file.id := Loaded(file.id, file.path, file.version, installed)];
      installed := installed + 1;
    }

    method ClearReplaced(file: File, replaced: Option<Loaded>)
      modifies this`retired, this`loading, this`fused, this`modelProviders, this`modelRegistrations
      ensures View() == Cleared(old(View()), file, replaced)
      ensures loading == old(loading) - {file.id}
      ensures replaced.Some? ==>
                && replaced.value.id in retired && |retired[replaced.value.id]| > 0
                && retired[replaced.value.id][|retired[replaced.value.id]| - 1] == replaced.value
                && fused == old(fused) - {file.id}
                && modelProviders == old(modelProviders) - {file.id}
                && modelRegistrations == old(modelRegistrations) - {file.id}
      ensures replaced.None? ==>
                && retired == old(retired) && fused == old(fused)
                && modelProviders == old(modelProviders) && modelRegistrations == old(modelRegistrations)
    {
      loading := loading - {file.id};
      if replaced.Some? {
        RetireLoadedPlugin(replaced.value);
        fused := fused - {file.id};
        RemovePluginRuntimeState(file.id);
      }
    }

    method NamePlugin(id: string, version: string)
      requires id in loaded
      modifies this`loaded
      ensures View() == Named(old(View()), id, version)
      ensures var was := old(loaded)[id].version;
              loaded == old(loaded)[id := old(loaded)[id].(version := if TrimSpace(was) == "" then TrimSpace(version)
                  else was)]
    {
      if TrimSpace(loaded[id].version) == "" {
        loaded := loaded[id := loaded[id].(version := TrimSpace(version))];
      }
    }

    // Loading one file, whose library can be opened or not.
    method LoadFile(ghost owner: string -> string, file: File, replaced: Option<Loaded>, ok: bool,
        ghost todo: seq<File>,
            ghost records: seq<Record>)
      returns (ghost steps: seq<Step>)
      modifies this
      ensures View() == if ok then Install(MarkLoading(old(View()), file.id), file, replaced)
                        else LoadFailed(MarkLoading(old(View()), file.id), file.id)
      ensures ok ==> file.id in loaded && loaded[file.id].path == file.path
      ensures var s := State(old(View()), Marking(file, replaced, todo, records), map[]);
              var r := State(View(), if ok then Registering(file, todo, records) else Between(todo, records), map[]);
              Legal(owner, s, steps) && Run(owner, s, steps) == r
    {
      hide Legal, Run, Cleared;
      ghost var s := State(View(), Marking(file, replaced, todo, records), map[]);
      steps := [Mark, Open(ok)];
      Two(owner, s, Mark, Open(ok));
      loading := loading + {file.id};
      if !ok {
        loading := loading - {file.id};
        return;
      }
      InstallLoaded(file, replaced);
    }

    // One pass of ApplyConfig's loop.
    method ApplyFile(ghost owner: string -> string, file: File, c: Conditions, ghost todo: seq<File>,
        records: seq<Record>)
      returns (more: seq<Record>, ghost steps: seq<Step>)
      modifies this
      ensures View() == Applied(old(View()), c, file)
      ensures Reaches(old(View()), c, file) ==> HasRecord(View(), c, file)
      ensures more == if Reaches(old(View()), c, file) then records + [RecordOf(View(), c, file)] else records
      ensures OwnIds(old(View())) ==>
                && (forall id :: id != file.id ==> SameAsBefore(old(View()), View(), id))
                && if Opens(old(View()), c, file.id, file.path) then Opened(old(View()), View(), file.id, file.path)
                   else Kept(old(View()), View(), file.id)
      ensures installed == old(installed) + if Opens(old(View()), c, file.id, file.path) then 1 else 0
      ensures Runs(old(View()), c, file.id, file.path) ==>
                && file.id in loaded
                && more == records + [Record(file.id, file.path, file.version, c.items[file.id].priority,
                                             loaded[file.id].client)]
      ensures !Runs(old(View()), c, file.id, file.path) ==> more == records
      ensures snapshot == old(snapshot) && published == old(published) && handed == old(handed)
      ensures var s, r := State(old(View()), Between([file] + todo, records), map[]),
          State(View(), Between(todo, more), map[]);
              Legal(owner, s, steps) && Run(owner, s, steps) == r
    {
      hide TrimSpace, Applied, Legal, Run, SameAsBefore, Opened, Kept, OwnIds, Opens, Runs, Reaches;
      PassFields(View(), c, file);
      more, steps := OnePass(owner, file, c, todo, records);
    }

    method OnePass(ghost owner: string -> string, file: File, c: Conditions, ghost todo: seq<File>,
        records: seq<Record>)
      returns (more: seq<Record>, ghost steps: seq<Step>)
      modifies this
      ensures View() == Applied(old(View()), c, file)
      ensures Reaches(old(View()), c, file) ==> HasRecord(View(), c, file)
      ensures more == if Reaches(old(View()), c, file) then records + [RecordOf(View(), c, file)] else records
      ensures var s, r := State(old(View()), Between([file] + todo, records), map[]),
          State(View(), Between(todo, more), map[]);
              Legal(owner, s, steps) && Run(owner, s, steps) == r
    {
      hide TrimSpace, Install, Registered, RecordOf, Legal, Run, LoadFailed;
      more := records;
      ghost var s := State(View(), Between([file] + todo, records), map[]);
      assert ([file] + todo)[1..] == todo;
      if file.id !in c.items || !c.items[file.id].enabled {
        steps := [Skip];
        One(owner, s, Skip);
        return;
      }
      var current := file.id in loaded && loaded[file.id].path == file.path;
      var replaced := if file.id in loaded && !current then Some(loaded[file.id]) else None;
      if file.id in fused && replaced.None? {
        steps := [Look];
        One(owner, s, Look);
        return;
      }
      steps := [Look];
      One(owner, s, Look);
      if !current {
        ghost var load;
        var ok := file.id in c.opens;
        load := LoadFile(owner, file, replaced, ok, todo, records);
        RunAppend(owner, s, steps, load);
        steps := steps + load;
        if !ok {
          return;
        }
      }
      ghost var before := steps;
      more, steps := RegisterFile(owner, file, c, todo, records);
      RunAppend(owner, s, before, steps);
      steps := before + steps;
    }

    // callRegister and the record it leads to.
    method RegisterFile(ghost owner: string -> string, file: File, c: Conditions, ghost todo: seq<File>,
        records: seq<Record>)
      returns (more: seq<Record>, ghost steps: seq<Step>)
      requires file.id in loaded && loaded[file.id].path == file.path && file.id in c.items
      modifies this
      ensures View() == Registered(old(View()), c, file)
      ensures HasRecord(View(), c, file)
      ensures more == if file.id in c.registers then records + [RecordOf(View(), c, file)] else records
      ensures var s, r := State(old(View()), Registering(file, todo, records), map[]),
          State(View(), Between(todo, more), map[]);
              Legal(owner, s, steps) && Run(owner, s, steps) == r
    {
      hide TrimSpace;
      ghost var s := State(View(), Registering(file, todo, records), map[]);
      var ok, priority := file.id in c.registers, c.items[file.id].priority;
      var version := if ok then c.registers[file.id] else "";
      steps := [Register(ok, version, priority)];
      One(owner, s, steps[0]);
      more := records;
      if ok {
        more := records + [Record(file.id, file.path, file.version, priority, loaded[file.id].client)];
        NamePlugin(file.id, version);
      }
    }

    // ApplyConfig: the plugins are off, no files can be found, or the files are gone through.
    method ApplyConfig(ghost owner: string -> string, enabled: bool, found: Option<seq<File>>, desired: seq<string>,
            c: Conditions)
      returns (ghost steps: seq<Step>)
      requires found.Some? ==> Selectable(owner, found.value)
      requires forall i :: 0 <= i < |desired| ==> TrimSpace(desired[i]) == desired[i] != ""
      requires Valid(owner)
      modifies this
      ensures Valid(owner)
      ensures Legal(owner, old(Rest()), steps) && Run(owner, old(Rest()), steps) == Rest()
      ensures !enabled || found.None? ==>
                && steps == [Step.SwitchOff] && View() == Disable(old(View()))
                && snapshot == Snapshot(old(published), false, []) && loaded == old(loaded) && retired == old(retired)
                && activePluginPaths == map[] && activePluginVersions == map[] && pluginFileVersions == map[]
      ensures enabled && found.Some? ==>
                && |steps| >= 2 && steps[0] == Begin(found.value, desired, Off(c))
                    && steps[|steps| - 1] == Finish(snapshot.records)
                && Publishes(old(View()), c, Fallbacks(old(View()), found.value, desired, Off(c)), View())
      ensures enabled && found.Some? ==> Comes(old(View()), c, found.value, desired, View())
    {
      hide TrimSpace, Inv, Publishes, Fallbacks, Comes, Searchable, Selectable;
      if !enabled || found.None? {
        ghost var s := Rest();
        SwitchOff();
        steps := [Step.SwitchOff];
        One(owner, s, Step.SwitchOff);
        StepKeeps(owner, s, Step.SwitchOff);
        return;
      }
      var off := set id | id in c.items && !c.items[id].enabled;
      var files := WithLoadedPluginFallbacks(found.value, desired, off);
      ValidSearchable(owner, View(), found.value, desired);
      ghost var h := View();
      steps := ApplySelected(owner, found.value, desired, off, files, c);
      ConfigComes(owner, h, c, found.value, desired, View());
    }

    // The rest of ApplyConfig, once the files are selected.
    method ApplySelected(ghost owner: string -> string, ghost found: seq<File>, ghost desired: seq<string>,
            ghost off: set<string>, files: seq<File>, c: Conditions)
      returns (ghost steps: seq<Step>)
      requires Valid(owner) && Enabled(owner, Rest(), Begin(found, desired, off))
      requires files == Fallbacks(View(), found, desired, off)
      modifies this
      ensures Valid(owner)
      ensures Legal(owner, old(Rest()), steps) && Run(owner, old(Rest()), steps) == Rest()
      ensures |steps| >= 2 && steps[0] == Begin(found, desired, off) && steps[|steps| - 1] == Finish(snapshot.records)
      ensures Publishes(old(View()), c, files, View())
      ensures View() == Publish(AppliedAll(old(View()), c, files, |files|), snapshot.records)
      ensures Falling(snapshot.records) && handed == old(handed)
      ensures snapshot.enabled && snapshot.serial == old(published)
    {
      hide TrimSpace, Inv, Publishes, Applied, Collected, Fallbacks, AppliedAll, Selectable, Falling;
      hide Rebuilt;
      ghost var s, first := Rest(), Begin(found, desired, off);
      var records: seq<Record>;
      ghost var more;
      records, more := ApplyFiles(owner, files, c);
      ghost var m := View();
      var order := SortRecords(records);
      PublishRecords(order);
      steps := [first] + more + [Finish(order)];
      AllSteps(owner, s, first, more, State(m, Between([], records), map[]), order);
      RunKeeps(owner, s, steps);
      NoIdTwice(owner, s.host, found, desired, off);
      PublishesSorted(s.host, c, files, order);
    }

    method PublishRecords(records: seq<Record>)
      modifies this
      ensures View() == Publish(old(View()), records)
      ensures snapshot == Snapshot(old(published), true, records) && handed == old(handed)
    {
      RebuildActivePluginMaps(records);
      StoreSnapshot(true, records);
    }

    // The loop of ApplyConfig.
    method ApplyFiles(ghost owner: string -> string, files: seq<File>, c: Conditions)
      returns (records: seq<Record>, ghost steps: seq<Step>)
      modifies this
      ensures View() == AppliedAll(old(View()), c, files, |files|)
      ensures records == Collected(old(View()), c, files, |files|)
      ensures published == old(published) && handed == old(handed)
      ensures var s, r := State(old(View()), Between(files, []), map[]), State(View(), Between([], records), map[]);
              Legal(owner, s, steps) && Run(owner, s, steps) == r
    {
      hide TrimSpace, Applied, Reaches, RecordOf, HasRecord;
      ghost var s := State(View(), Between(files, []), map[]);
      records, steps := [], [];
      assert files[0..] == files;
      for i := 0 to |files|
        invariant View() == AppliedAll(old(View()), c, files, i) && records == Collected(old(View()), c, files, i)
        invariant published == old(published) && handed == old(handed)
        invariant Legal(owner, s, steps) && Run(owner, s, steps) == State(View(), Between(files[i..], records), map[])
      {
        ghost var more;
        assert files[i..] == [files[i]] + files[i + 1..];
        records, more := ApplyFile(owner, files[i], c, files[i + 1..], records);
        RunAppend(owner, s, steps, more);
        steps := steps + more;
      }
      assert files[|files|..] == [];
    }

    // ---- UnloadPlugin and ShutdownAll ------------------------------------------------------------

    method SnapshotWithoutPlugin(id: string) returns (records: seq<Record>)
      ensures records == Without(snapshot.records, id)
      ensures Picked(snapshot.records, (r: Record) => r.id != id, records)
    {
      hide Without, Picked;
      records := [];
      ghost var others := (r: Record) => r.id != id;
      PickedNone(others);
      assert snapshot.records[0..] == snapshot.records;
      for i := 0 to |snapshot.records|
        invariant records + Without(snapshot.records[i..], id) == Without(snapshot.records, id)
        invariant Picked(snapshot.records[..i], others, records)
      {
        assert snapshot.records[..i + 1] == snapshot.records[..i] + [snapshot.records[i]];
        PickedMore(snapshot.records[..i], others, records, snapshot.records[i]);
        var record := snapshot.records[i];
        WithoutStep(snapshot.records, i, id);
        if record.id == id {
          continue;
        }
        records := records + [record];
      }
      WithoutNone(snapshot.records, id);
      assert records + [] == records && snapshot.records[..|snapshot.records|] == snapshot.records;
    }

    method TargetsOf(id: string) returns (targets: seq<Loaded>)
      ensures targets == Targets(View(), id)
    {
      targets := [];
      if id in loaded {
        targets := [loaded[id]];
      }
      if id in retired {
        targets := targets + retired[id];
      }
    }

    // Every map without the plugin, and a new snapshot without its records.
    twostate predicate Dropped(id: string)
      reads this
    {
      && loaded == old(loaded) - {id} && retired == old(retired) - {id} && fused == old(fused) - {id}
      && activePluginVersions == old(activePluginVersions) - {id} && activePluginPaths == old(activePluginPaths) - {id}
      && modelProviders == old(modelProviders) - {id} && modelRegistrations == old(modelRegistrations) - {id}
      && snapshot.serial == old(published) && snapshot.enabled == old(snapshot).enabled
      && Picked(old(snapshot).records, (r: Record) => r.id != id, snapshot.records)
    }

    // The section of UnloadPlugin: the targets, which are no longer in the maps.
    method TakeTargets(id: string) returns (targets: seq<Loaded>)
      modifies this
      ensures targets == Targets(old(View()), id)
      ensures View() == Unload(old(View()), id).(handed := old(handed))
      ensures if |targets| == 0 then unchanged(this) else Dropped(id)
    {
      hide TrimSpace, PathsOf, Without, Clients, Targets, Forgotten, Picked;
      targets := TargetsOf(id);
      if |targets| == 0 {
        return;
      }
      ForgetPlugin(id, targets);
      var records := SnapshotWithoutPlugin(id);
      RemovePluginRuntimeState(id);
      StoreSnapshot(snapshot.enabled, records);
    }

    method ForgetPlugin(id: string, targets: seq<Loaded>)
      requires targets == Targets(View(), id)
      modifies this
      ensures View() == Forgotten(old(View()), id)
      ensures snapshot == old(snapshot) && published == old(published) && handed == old(handed)
      ensures loaded == old(loaded) - {id} && retired == old(retired) - {id} && fused == old(fused) - {id}
      ensures activePluginVersions == old(activePluginVersions) - {id}
      ensures activePluginPaths == old(activePluginPaths) - {id}
      ensures modelProviders == old(modelProviders) && modelRegistrations == old(modelRegistrations)
    {
      hide PathsOf, Targets, TrimSpace;
      loaded := loaded - {id};
      retired := retired - {id};
      fused := fused - {id};
      activePluginVersions := activePluginVersions - {id};
      activePluginPaths := activePluginPaths - {id};
      ForgetPaths(targets);
    }

    method ForgetPaths(targets: seq<Loaded>)
      modifies this`pluginFileVersions
      ensures pluginFileVersions == old(pluginFileVersions) - PathsOf(targets)
    {
      for i := 0 to |targets|
        invariant pluginFileVersions == old(pluginFileVersions) - PathsOf(targets[..i])
      {
        assert PathsOf(targets[..i + 1]) == PathsOf(targets[..i]) + {targets[i].path} by { PathsOneMore(targets, i); }
        pluginFileVersions := pluginFileVersions - {targets[i].path};
      }
      assert targets[..|targets|] == targets;
    }

    // target.client.Shutdown(), for each target in turn.
    method ShutdownClients(targets: seq<Loaded>)
      modifies this`handed
      ensures handed == old(handed) + Clients(targets)
    {
      for i := 0 to |targets|
        invariant handed == old(handed) + Clients(targets[..i])
      {
        assert Clients(targets[..i + 1]) == Clients(targets[..i]) + [targets[i].client];
        handed := handed + [targets[i].client];
      }
      assert targets[..|targets|] == targets;
    }

    method UnloadPlugin(ghost owner: string -> string, id: string) returns (unloaded: bool)
      requires Valid(owner)
      modifies this
      ensures Valid(owner)
      ensures TrimSpace(id) == "" ==> !unloaded && View() == old(View())
      ensures TrimSpace(id) != "" ==>
                View() == Unload(old(View()), TrimSpace(id)) && unloaded == (|Targets(old(View()), TrimSpace(id))| > 0)
      ensures var t := TrimSpace(id);
              unloaded == (t != "" && (t in old(loaded) || (t in old(retired) && |old(retired)[t]| > 0)))
      ensures if unloaded then Dropped(TrimSpace(id)) else unchanged(this)
      ensures unloaded ==>
                var t := TrimSpace(id);
                var live := if t in old(loaded) then [old(loaded)[t].client] else [];
                var olds := if t in old(retired) then old(retired)[t] else [];
                handed == old(handed) + live + Clients(olds)
    {
      hide TrimSpace, Without, PathsOf, Inv, Picked, Targets, Clients, Forgotten;
      var trimmed := TrimSpace(id);
      if trimmed == "" {
        return false;
      }
      TargetsAre(View(), trimmed);
      StepKeeps(owner, Rest(), Step.UnloadPlugin(trimmed));
      var targets := TakeTargets(trimmed);
      if |targets| == 0 {
        return false;
      }
      ShutdownClients(targets);
      return true;
    }

    // Every loaded plugin and every retired one, as the two maps are ranged over.
    method AllTargets() returns (targets: seq<Loaded>)
      requires OnePlace(Boxes(View()), installed)
      ensures Lists(View(), Clients(targets))
    {
      targets := [];
      var ids := loaded.Keys;
      assert loaded.Keys - ids == {};
      while ids != {}
        invariant ids <= loaded.Keys
        invariant Ranged(View(), targets, loaded.Keys - ids, {})
        decreases ids
      {
        var id :| id in ids;
        RangeLoaded(View(), targets, loaded.Keys - ids, id);
        assert loaded.Keys - (ids - {id}) == loaded.Keys - ids + {id};
        ids := ids - {id};
        targets := targets + [loaded[id]];
      }
      assert loaded.Keys - {} == loaded.Keys;
      var olds := retired.Keys;
      assert retired.Keys - olds == {};
      while olds != {}
        invariant olds <= retired.Keys
        invariant Ranged(View(), targets, loaded.Keys, retired.Keys - olds)
        decreases olds
      {
        var id :| id in olds;
        RangeRetired(View(), targets, retired.Keys - olds, id);
        assert retired.Keys - (olds - {id}) == retired.Keys - olds + {id};
        olds := olds - {id};
        targets := targets + retired[id];
      }
      assert retired.Keys - {} == retired.Keys;
      RangedAll(View(), targets);
    }

    method ShutdownAll(ghost owner: string -> string) returns (ghost order: seq<nat>)
      requires Valid(owner)
      modifies this
      ensures Valid(owner)
      ensures Lists(old(View()), order) && View() == ShutDown(old(View()), order)
      ensures loaded == map[] && retired == map[] && loading == {} && fused == old(fused)
      ensures activePluginPaths == map[] && activePluginVersions == map[] && pluginFileVersions == map[]
      ensures modelProviders == map[] && modelRegistrations == map[]
      ensures snapshot == Snapshot(old(published), false, [])
      ensures handed == old(handed) + order && NoRepeats(order)
      ensures forall c: nat :: c in order <==> HeldIn(old(loaded), old(retired), c)
    {
      ListsHeld(View());
      hide Inv, OnePlace, Clients, Lists, Selectable, Fallbacks, AfterLook, Rebuilt, Emptied;
      Accounted(owner, Rest());
      var targets := AllTargets();
      StepKeeps(owner, Rest(), Step.ShutdownAll(Clients(targets)));
      Empty();
      ShutdownClients(targets);
      order := Clients(targets);
      OnceEach(old(View()), order);
    }

    // The section of ShutdownAll, after it has listed the targets.
    method Empty()
      modifies this
      ensures View() == Emptied(old(View())) && handed == old(handed) && fused == old(fused)
      ensures loaded == map[] && retired == map[] && loading == {}
      ensures activePluginPaths == map[] && activePluginVersions == map[] && pluginFileVersions == map[]
      ensures modelProviders == map[] && modelRegistrations == map[]
      ensures snapshot == Snapshot(old(published), false, [])
    {
      hide Store;
      loaded, retired, loading := map[], map[], {};
      modelProviders, modelRegistrations := map[], map[];
      EmptyIdentityMaps();
      StoreSnapshot(false, []);
    }

    method EmptyIdentityMaps()
      modifies this`pluginFileVersions, this`activePluginVersions, this`activePluginPaths
      ensures View() == old(View()).(maps := Maps(map[], map[], map[]))
      ensures activePluginPaths == map[] && activePluginVersions == map[] && pluginFileVersions == map[]
    {
      pluginFileVersions, activePluginVersions, activePluginPaths := map[], map[], map[];
    }

    // ---- RegisterModels --------------------------------------------------------------------------

    // activeRecordsFromSnapshot
    method ActiveRecords(seen: Snapshot) returns (records: seq<Record>)
      ensures forall r :: r in records <==> r in seen.records && IsCurrent(View(), r)
      ensures var h := View(); Picked(seen.records, r => IsCurrent(h, r), records)
    {
      hide Picked, Current;
      records := [];
      ghost var h := View();
      ghost var current := r => IsCurrent(h, r);
      PickedNone(current);
      for i := 0 to |seen.records|
        invariant forall r :: r in records <==> r in seen.records[..i] && IsCurrent(View(), r)
        invariant Picked(seen.records[..i], current, records)
      {
        assert seen.records[..i + 1] == seen.records[..i] + [seen.records[i]];
        PickedMore(seen.records[..i], current, records, seen.records[i]);
        var r := seen.records[i];
        var ok := PluginIdentityCurrent(r.id, r.path, r.version);
        if ok {
          records := records + [r];
        }
      }
      assert seen.records[..|seen.records|] == seen.records;
    }

    method CommitModelClients(seen: Snapshot, next: map<string, Registration>)
      modifies this`modelProviders, this`modelRegistrations
      ensures View() == CommitModels(old(View()), seen, next)
      ensures snapshot.serial == seen.serial ==>
                && modelRegistrations == next && modelProviders.Keys == next.Keys
                && forall id :: id in next ==> modelProviders[id] == next[id].provider
      ensures snapshot.serial != seen.serial ==>
                modelRegistrations == old(modelRegistrations) && modelProviders == old(modelProviders)
    {
      if snapshot.serial != seen.serial {
        return;
      }
      modelProviders := map id | id in next :: next[id].provider;
      modelRegistrations := next;
    }

    // Its loop over the active records.
    static method Gathered(records: seq<Record>, answers: map<string, Registration>)
      returns (gathered: map<string, Registration>)
      ensures forall id :: id in gathered <==> id in answers && HasId(records, id)
      ensures forall id :: id in gathered ==> gathered[id] == answers[id]
    {
      gathered := map[];
      for i := 0 to |records|
        invariant forall id :: id in gathered <==> id in answers && HasId(records[..i], id)
        invariant forall id :: id in gathered ==> gathered[id] == answers[id]
      {
        HasIdMore(records, i);
        if records[i].id !in answers {
          continue;
        }
        gathered := gathered[records[i].id := answers[records[i].id]];
      }
      assert records[..|records|] == records;
    }

    // RegisterModels, given what each plugin answers, if it answers anything that counts.
    method RegisterModels(ghost owner: string -> string, answers: map<string, Registration>)
      returns (ghost next: map<string, Registration>)
      requires Valid(owner)
      modifies this`modelProviders, this`modelRegistrations
      ensures Valid(owner)
      ensures View() == CommitModels(old(View()), old(snapshot), next)
      ensures forall id :: id in next <==> id in answers && HasCurrent(old(View()), id)
      ensures forall id :: id in next ==> next[id] == answers[id]
      ensures forall id :: id in modelRegistrations <==> id in answers && HasId(snapshot.records, id)
      ensures forall id :: id in modelRegistrations ==> modelRegistrations[id] == answers[id]
      ensures modelProviders.Keys == modelRegistrations.Keys
      ensures forall id :: id in modelProviders ==> modelProviders[id] == answers[id].provider
    {
      hide Inv, Current, IsCurrent, HasCurrent, HasId, CommitModels, Picked;
      AllCurrent(owner, View());
      var seen := snapshot;
      var records := ActiveRecords(seen);
      var gathered := Gathered(records, answers);
      forall id ensures HasId(records, id) <==> HasCurrent(View(), id) {
        ActiveIds(View(), records, id);
      }
      CommitKeeps(owner, View(), gathered);
      CommitModelClients(seen, gathered);
      next := gathered;
    }
  }

  // recordCurrent
  predicate IsCurrent(h: Host, r: Record)
  {
    Current(h.maps, r.id, r.path, r.version)
  }

  // The published snapshot has a current record of this plugin.
  predicate HasCurrent(h: Host, id: string)
  {
    exists i :: 0 <= i < |h.snapshot.records| && h.snapshot.records[i].id == id && IsCurrent(h, h.snapshot.records[i])
  }

  // Between operations every published record is current.
  lemma AllCurrent(owner: string -> string, h: Host)
    requires Inv(owner, State(h, Free, map[]))
    ensures forall id :: HasCurrent(h, id) <==> HasId(h.snapshot.records, id)
  {
    hide OnePlace, MapsFor, GatherersOk, Keyed, RegistrationsOk, DistinctIds, AllBacked, TrimSpace, Current;
    BackedFileable(owner, h, h.snapshot.records);
    forall i | 0 <= i < |h.snapshot.records| ensures IsCurrent(h, h.snapshot.records[i]) {
      var r := h.snapshot.records[i];
      CurrentAgrees(owner, h.maps, h.snapshot.records, r.id, r.path, r.version);
      assert Matches(r, r.id, r.path, r.version);
    }
  }

  lemma ActiveIds(h: Host, records: seq<Record>, id: string)
    requires forall r :: r in records <==> r in h.snapshot.records && IsCurrent(h, r)
    ensures HasId(records, id) <==> HasCurrent(h, id)
    ensures HasId(records, id) ==> HasId(h.snapshot.records, id)
  {
    hide IsCurrent;
    if HasId(records, id) {
      var i :| 0 <= i < |records| && records[i].id == id;
      assert records[i] in h.snapshot.records;
    }
    if i :| 0 <= i < |h.snapshot.records| && h.snapshot.records[i].id == id && IsCurrent(h, h.snapshot.records[i]) {
      assert h.snapshot.records[i] in records;
    }
  }

  lemma HasIdMore(records: seq<Record>, n: nat)
    requires n < |records|
    ensures forall id :: HasId(records[..n + 1], id) <==> HasId(records[..n], id) || id == records[n].id
  {
    var before, after := records[..n], records[..n + 1];
    assert forall i :: 0 <= i < n ==> before[i] == after[i];
    forall id ensures HasId(after, id) <==> HasId(before, id) || id == records[n].id {
      if i :| 0 <= i < |after| && after[i].id == id {
        assert i < n ==> before[i].id == id;
      }
      assert after[n].id == records[n].id;
    }
  }

  lemma WithoutStep(records: seq<Record>, i: nat, id: string)
    requires i < |records|
    ensures Without(records[i..], id)
        == (if records[i].id == id then [] else [records[i]]) + Without(records[i + 1..], id)
  {
    assert records[i..][1..] == records[i + 1..];
  }

  lemma WithoutNone(records: seq<Record>, id: string)
    ensures Without(records[|records|..], id) == []
  {
  }

  lemma NoIdTwice(owner: string -> string, h: Host, found: seq<File>, desired: seq<string>, off: set<string>)
    requires Inv(owner, State(h, Free, map[])) && Selectable(owner, found)
    requires forall i :: 0 <= i < |desired| ==> TrimSpace(desired[i]) == desired[i] != ""
    ensures NoRepeatedIds(Fallbacks(h, found, desired, off))
  {
    hide TrimSpace, Fallbacks, OnePlace, MapsFor, GatherersOk, AllBacked;
    FallbacksSelectable(owner, h, found, desired, off);
  }

  lemma Accounted(owner: string -> string, s: State)
    requires Inv(owner, s)
    ensures OnePlace(Boxes(s.host), s.host.installed)
  {
  }

  // A commit of what was gathered from the published snapshot keeps the invariant.
  lemma CommitKeeps(owner: string -> string, h: Host, next: map<string, Registration>)
    requires Inv(owner, State(h, Free, map[])) && forall id :: id in next ==> HasId(h.snapshot.records, id)
    ensures Inv(owner, State(CommitModels(h, h.snapshot, next), Free, map[]))
  {
    hide OnePlace, MapsFor, Keyed, DistinctIds, AllBacked, RegistrationsOk, Providers;
    var s := State(h, Free, map[0 := Gathering(h.snapshot, next)]);
    StepKeeps(owner, s, Commit(0));
    assert map[0 := Gathering(h.snapshot, next)] - {0} == map[];
  }

  lemma PathsOneMore(ls: seq<Loaded>, n: nat)
    requires n < |ls|
    ensures PathsOf(ls[..n + 1]) == PathsOf(ls[..n]) + {ls[n].path}
  {
    assert ls[..n + 1] == ls[..n] + [ls[n]];
    forall p | p in PathsOf(ls[..n]) + {ls[n].path} ensures p in PathsOf(ls[..n + 1]) {
      if p == ls[n].path {
        assert ls[..n + 1][n].path == p;
      } else {
        var i :| 0 <= i < n && ls[..n][i].path == p;
        assert ls[..n + 1][i].path == p;
      }
    }
  }

  // The loaded client and the retired ones.
  lemma TargetsAre(h: Host, id: string)
    ensures var live := if id in h.loaded then [h.loaded[id].client] else [];
            var olds := if id in h.retired then h.retired[id] else [];
            && Clients(Targets(h, id)) == live + Clients(olds)
            && (|Targets(h, id)| > 0 <==> id in h.loaded || |olds| > 0)
  {
  }

  // A client that some plugin is loaded with, or was replaced or retired with.
  ghost predicate HeldIn(loaded: map<string, Loaded>, retired: map<string, seq<Loaded>>, c: nat)
  {
    || (exists id :: id in loaded && loaded[id].client == c)
    || (exists id, k :: id in retired && 0 <= k < |retired[id]| && retired[id][k].client == c)
  }

  lemma ListsHeld(h: Host)
    ensures forall order: seq<nat> :: Lists(h, order) ==>
              forall c: nat :: c in order <==> HeldIn(h.loaded, h.retired, c)
  {
    forall order: seq<nat>, c: nat | Lists(h, order) ensures c in order <==> HeldIn(h.loaded, h.retired, c) {
      HeldBox(h, c);
    }
  }

  lemma HeldBox(h: Host, c: nat)
    ensures HeldIn(h.loaded, h.retired, c) <==> exists p :: p != HandedOver && c in Boxes(h)(p)
  {
    if id :| id in h.loaded && h.loaded[id].client == c {
      assert c in Boxes(h)(Place.Live(id));
    } else if id, k :| id in h.retired && 0 <= k < |h.retired[id]| && h.retired[id][k].client == c {
      assert Clients(h.retired[id])[k] == c;
      assert c in Boxes(h)(Old(id));
    }
    if p :| p != HandedOver && c in Boxes(h)(p) {
      if p.Old? {
        var k :| 0 <= k < |Box(h, p)| && Box(h, p)[k] == c;
        assert h.retired[p.id][k].client == c;
      } else {
        assert h.loaded[p.id].client == c;
      }
    }
  }

  lemma OnceEach(h: Host, order: seq<nat>)
    requires Lists(h, order)
    ensures NoRepeats(order)
  {
  }

  // ---- Ranging over the maps -----------------------------------------------------------------------

  // The targets are the clients of exactly these places.
  ghost predicate Ranged(h: Host, targets: seq<Loaded>, live: set<string>, olds: set<string>)
  {
    && (forall i, j :: 0 <= i < j < |targets| ==> targets[i].client != targets[j].client)
    && (forall c :: c in Clients(targets) <==> exists p :: Among(p, live, olds) && c in Boxes(h)(p))
  }

  predicate Among(p: Place, live: set<string>, olds: set<string>)
  {
    match p
    case Live(id) => id in live
    case Old(id) => id in olds
    case HandedOver => false
  }

  lemma ClientsJoin(a: seq<Loaded>, b: seq<Loaded>)
    ensures Clients(a + b) == Clients(a) + Clients(b)
  {
  }

  // Taking in one more place.
  lemma RangeMore(h: Host, targets: seq<Loaded>, live: set<string>, olds: set<string>, p: Place, more: seq<Loaded>,
          live': set<string>, olds': set<string>)
    requires OnePlace(Boxes(h), h.installed) && Ranged(h, targets, live, olds) && p != HandedOver
    requires !Among(p, live, olds)
    requires Clients(more) == Boxes(h)(p)
    requires forall q :: Among(q, live', olds') <==> Among(q, live, olds) || q == p
    ensures Ranged(h, targets + more, live', olds')
  {
    var all := targets + more;
    ClientsJoin(targets, more);
    forall i, j | 0 <= i < j < |all| ensures all[i].client != all[j].client {
      if i < |targets| && j >= |targets| {
        assert Clients(targets)[i] in Clients(targets) && Clients(more)[j - |targets|] in Boxes(h)(p);
      } else if i >= |targets| {
        assert Clients(more)[i - |targets|] != Clients(more)[j - |targets|];
      }
    }
    forall c ensures c in Clients(all) <==> exists q :: Among(q, live', olds') && c in Boxes(h)(q) {
      if c in Clients(targets) {
        var q :| Among(q, live, olds) && c in Boxes(h)(q);
        assert Among(q, live', olds');
      } else if c in Clients(more) {
        assert Among(p, live', olds');
      }
    }
  }

  lemma RangeLoaded(h: Host, targets: seq<Loaded>, live: set<string>, id: string)
    requires OnePlace(Boxes(h), h.installed) && Ranged(h, targets, live, {}) && id in h.loaded && id !in live
    ensures Ranged(h, targets + [h.loaded[id]], live + {id}, {})
  {
    RangeMore(h, targets, live, {}, Place.Live(id), [h.loaded[id]], live + {id}, {});
  }

  lemma RangeRetired(h: Host, targets: seq<Loaded>, olds: set<string>, id: string)
    requires OnePlace(Boxes(h), h.installed) && Ranged(h, targets, h.loaded.Keys, olds) && id in h.retired
    requires id !in olds
    ensures Ranged(h, targets + h.retired[id], h.loaded.Keys, olds + {id})
  {
    RangeMore(h, targets, h.loaded.Keys, olds, Old(id), h.retired[id], h.loaded.Keys, olds + {id});
  }

  lemma RangedAll(h: Host, targets: seq<Loaded>)
    requires Ranged(h, targets, h.loaded.Keys, h.retired.Keys)
    ensures Lists(h, Clients(targets))
  {
    var order := Clients(targets);
    forall c ensures c in order <==> exists p :: p != HandedOver && c in Boxes(h)(p) {
      if p :| p != HandedOver && c in Boxes(h)(p) {
        assert Among(p, h.loaded.Keys, h.retired.Keys);
      }
    }
  }

  // From Begin through the passes to Finish.
  lemma AllSteps(owner: string -> string, s: State, first: Step, more: seq<Step>, m: State, order: seq<Record>)
    requires Enabled(owner, s, first) && Legal(owner, Next(owner, s, first), more)
    requires Run(owner, Next(owner, s, first), more) == m
    requires Enabled(owner, m, Finish(order))
    ensures var steps := [first] + more + [Finish(order)];
            Legal(owner, s, steps) && Run(owner, s, steps) == Next(owner, m, Finish(order))
  {
    hide Enabled, Next;
    One(owner, s, first);
    One(owner, m, Finish(order));
    RunAppend(owner, s, [first], more);
    RunAppend(owner, s, [first] + more, [Finish(order)]);
  }

  // ---- Runs of one and of several steps ----------------------------------------------------------

  lemma One(owner: string -> string, s: State, step: Step)
    requires Enabled(owner, s, step)
    ensures Legal(owner, s, [step]) && Run(owner, s, [step]) == Next(owner, s, step)
  {
    hide Enabled, Next;
    assert [step][1..] == [];
  }

  lemma Two(owner: string -> string, s: State, a: Step, b: Step)
    requires Enabled(owner, s, a) && Enabled(owner, Next(owner, s, a), b)
    ensures Legal(owner, s, [a, b]) && Run(owner, s, [a, b]) == Next(owner, Next(owner, s, a), b)
  {
    hide Enabled, Next;
    One(owner, Next(owner, s, a), b);
    assert [a, b][1..] == [b];
  }

  lemma {:induction false} RunAppend(owner: string -> string, s: State, a: seq<Step>, b: seq<Step>)
    requires Legal(owner, s, a) && Legal(owner, Run(owner, s, a), b)
    ensures Legal(owner, s, a + b) && Run(owner, s, a + b) == Run(owner, Run(owner, s, a), b)
    decreases |a|
  {
    hide Enabled, Next;
    if |a| == 0 {
      assert a + b == b;
    } else {
      assert (a + b)[1..] == a[1..] + b;
      RunAppend(owner, Next(owner, s, a[0]), a[1..], b);
    }
  }
}
