// What ApplyConfig leaves behind, said of the host's fields and of the configured items.
module HostFields {
  import opened HostApply
  import opened HostLaws
  import opened HostState
  import opened Ordering
  import opened Places
  import opened RecordOrder
  import opened Text

  predicate At(h: Host, id: string, path: string)
  {
    id in h.loaded && h.loaded[id].path == path
  }

  // An item that is switched on, and a plugin that is not fused, or moves to this path.
  predicate On(h: Host, c: Conditions, id: string, path: string)
  {
    && id in c.items && c.items[id].enabled
    && (id in h.fused ==> id in h.loaded && h.loaded[id].path != path)
  }

  // It registers, with the client it has at this path or with one that can be opened.
  predicate Runs(h: Host, c: Conditions, id: string, path: string)
  {
    On(h, c, id, path) && id in c.registers && (At(h, id, path) || id in c.opens)
  }

  // A client has to be opened for it, and can be.
  predicate Opens(h: Host, c: Conditions, id: string, path: string)
  {
    On(h, c, id, path) && !At(h, id, path) && id in c.opens
  }

  predicate HasFile(files: seq<File>, id: string)
  {
    exists i :: 0 <= i < |files| && files[i].id == id
  }

  // ---- Which files are gone through -----------------------------------------------------------

  predicate StaysOn(h: Host, c: Conditions, found: seq<File>, desired: seq<string>, id: string)
  {
    id in desired && !HasFile(found, id) && id in h.loaded && !(id in c.items && !c.items[id].enabled)
  }

  ghost predicate Searchable(owner: string -> string, h: Host, found: seq<File>, desired: seq<string>)
  {
    && Keyed(owner, h) && Selectable(owner, found)
    && forall i :: 0 <= i < |desired| ==> TrimSpace(desired[i]) == desired[i] != ""
  }

  // The files found, and for a wanted plugin without one the file it is loaded from.
  lemma FallbackFiles(owner: string -> string, h: Host, c: Conditions, found: seq<File>, desired: seq<string>, f: File)
    requires Searchable(owner, h, found, desired)
    ensures f in Fallbacks(h, found, desired, Off(c)) <==>
            f in found || (StaysOn(h, c, found, desired, f.id) && AtLoadedPath(h, f))
  {
    hide TrimSpace, Keyed, Fallbacks, SelectableFile;
    var all := Fallbacks(h, found, desired, Off(c));
    FallbacksSelectable(owner, h, found, desired, Off(c));
    FallbacksComplete(owner, h, found, desired, Off(c), f.id);
    SelectedIs(owner, found, f.id);
    SelectedIs(owner, all, f.id);
    if f in all {
      var i :| 0 <= i < |all| && all[i] == f;
      if i >= |found| { AddedIsNew(found, all, i); }
    }
    if f in found {
      var i :| 0 <= i < |found| && found[i] == f;
      assert all[i] == f;
    } else if StaysOn(h, c, found, desired, f.id) && AtLoadedPath(h, f) {
      var i :| 0 <= i < |all| && all[i].id == f.id;
      if i < |found| { assert all[i] == found[i]; }
    }
  }

  lemma AddedIsNew(found: seq<File>, all: seq<File>, i: nat)
    requires NoRepeatedIds(all) && found <= all && |found| <= i < |all|
    ensures !HasFile(found, all[i].id)
  {
    assert forall j :: 0 <= j < |found| ==> all[j] == found[j];
  }

  lemma SelectedIs(owner: string -> string, files: seq<File>, id: string)
    requires Selectable(owner, files)
    ensures Selected(files, id) <==> HasFile(files, id)
  {
    hide TrimSpace;
    forall i | 0 <= i < |files| ensures TrimSpace(files[i].id) == files[i].id {
      assert SelectableFile(owner, files[i]);
    }
  }

  // ---- Which plugins are published ---------------------------------------------------------------

  predicate SomeRuns(h: Host, c: Conditions, found: seq<File>, id: string)
  {
    exists i :: 0 <= i < |found| && found[i].id == id && Runs(h, c, id, found[i].path)
  }

  lemma RunsIs(h: Host, c: Conditions, file: File)
    ensures Reaches(h, c, file) <==> Runs(h, c, file.id, file.path)
  {
  }

  // A plugin is published exactly when it runs at a file of it that was found, or, if none
  // was, at the path it is loaded from.
  lemma PublishedExactly(owner: string -> string, h: Host, c: Conditions, found: seq<File>, desired: seq<string>,
          n: Host, id: string)
    requires Searchable(owner, h, found, desired) && Publishes(h, c, Fallbacks(h, found, desired, Off(c)), n)
    ensures HasId(n.snapshot.records, id) <==>
            || SomeRuns(h, c, found, id)
            || (StaysOn(h, c, found, desired, id) && Runs(h, c, id, h.loaded[id].path))
  {
    hide TrimSpace, Keyed, Selectable, Fallbacks, Publishes, Reaches, Runs, StaysOn;
    var all := Fallbacks(h, found, desired, Off(c));
    PublishedIds(h, c, all, n, id);
    if i :| 0 <= i < |all| && all[i].id == id && Reaches(h, c, all[i]) {
      FallbackFiles(owner, h, c, found, desired, all[i]);
      RunsIs(h, c, all[i]);
      if all[i] in found {
        var j :| 0 <= j < |found| && found[j] == all[i];
      }
    }
    if i :| 0 <= i < |found| && found[i].id == id && Runs(h, c, id, found[i].path) {
      ReachesFile(owner, h, c, found, desired, found[i]);
    } else if StaysOn(h, c, found, desired, id) {
      assert id in h.loaded by { assert StaysOn(h, c, found, desired, id); Staying(h, c, found, desired, id); }
      if Runs(h, c, id, h.loaded[id].path) {
        ReachesFile(owner, h, c, found, desired, File(id, h.loaded[id].path, TrimSpace(h.loaded[id].version)));
      }
    }
  }

  lemma StaysLoaded(h: Host, c: Conditions, found: seq<File>, desired: seq<string>)
    ensures forall id :: StaysOn(h, c, found, desired, id) ==> id in h.loaded
  {
  }

  lemma ValidSearchable(owner: string -> string, h: Host, found: seq<File>, desired: seq<string>)
    requires Inv(owner, State(h, Free, map[])) && Selectable(owner, found)
    requires forall i :: 0 <= i < |desired| ==> TrimSpace(desired[i]) == desired[i] != ""
    ensures Searchable(owner, h, found, desired)
  {
    hide OnePlace, MapsFor, GatherersOk, RegistrationsOk, DistinctIds, AllBacked, TrimSpace, Keyed, Selectable;
  }

  lemma Staying(h: Host, c: Conditions, found: seq<File>, desired: seq<string>, id: string)
    requires StaysOn(h, c, found, desired, id)
    ensures id in h.loaded
  {
  }

  lemma ReachesFile(owner: string -> string, h: Host, c: Conditions, found: seq<File>, desired: seq<string>, f: File)
    requires Searchable(owner, h, found, desired) && Runs(h, c, f.id, f.path)
    requires f in found || (StaysOn(h, c, found, desired, f.id) && AtLoadedPath(h, f))
    ensures var all := Fallbacks(h, found, desired, Off(c));
            exists i :: 0 <= i < |all| && all[i].id == f.id && Reaches(h, c, all[i])
  {
    hide TrimSpace, Keyed, Selectable, Fallbacks, Reaches, Runs, StaysOn;
    FallbackFiles(owner, h, c, found, desired, f);
    RunsIs(h, c, f);
    var all := Fallbacks(h, found, desired, Off(c));
    var i :| 0 <= i < |all| && all[i] == f;
  }

  // What each record says: the file it came from, the item's priority, the client in use.
  predicate Fits(h: Host, c: Conditions, found: seq<File>, n: Host, r: Record)
  {
    && r.id in c.items && r.priority == c.items[r.id].priority
    && r.id in n.loaded && n.loaded[r.id].path == r.path && n.loaded[r.id].client == r.client
    && (|| File(r.id, r.path, r.version) in found
        || (At(h, r.id, r.path) && r.version == TrimSpace(h.loaded[r.id].version)))
  }

  lemma RecordsFit(owner: string -> string, h: Host, c: Conditions, found: seq<File>, desired: seq<string>, n: Host)
    requires Searchable(owner, h, found, desired) && Publishes(h, c, Fallbacks(h, found, desired, Off(c)), n)
    ensures forall k :: 0 <= k < |n.snapshot.records| ==> Fits(h, c, found, n, n.snapshot.records[k])
  {
    hide TrimSpace, Keyed, Selectable, Fallbacks, StaysOn, Reaches;
    var all := Fallbacks(h, found, desired, Off(c));
    var reached := Reached(h, c, all, |all|);
    ReachedIs(h, c, all, |all|);
    assert all[..|all|] == all;
    var records: seq<Record> :| multiset(n.snapshot.records) == multiset(records) && RecordsOf(n, c, reached, records);
    Permuted(n.snapshot.records, records);
    forall k | 0 <= k < |n.snapshot.records| ensures Fits(h, c, found, n, n.snapshot.records[k]) {
      assert n.snapshot.records[k] in records;
      var j :| 0 <= j < |records| && records[j] == n.snapshot.records[k];
      assert reached[j] in all;
      FallbackFiles(owner, h, c, found, desired, reached[j]);
    }
  }

  // ---- Which clients are installed -----------------------------------------------------------------

  // A new client at this path, and the one it replaces is retired and its models forgotten.
  predicate Opened(h: Host, n: Host, id: string, path: string)
  {
    && At(n, id, path) && h.installed <= n.loaded[id].client < n.installed
    && if id in h.loaded then
         && id in n.retired
         && n.retired[id] == (if id in h.retired then h.retired[id] else []) + [h.loaded[id]]
         && id !in n.modelProviders && id !in n.modelRegistrations && id !in n.fused
       else SameOld(h, n, id) && SameModels(h, n, id) && (id in n.fused <==> id in h.fused)
  }

  predicate SameOld(h: Host, n: Host, id: string)
  {
    (id in n.retired <==> id in h.retired) && (id in h.retired ==> n.retired[id] == h.retired[id])
  }

  predicate SameModels(h: Host, n: Host, id: string)
  {
    && (id in n.modelProviders <==> id in h.modelProviders)
    && (id in h.modelProviders ==> n.modelProviders[id] == h.modelProviders[id])
    && (id in n.modelRegistrations <==> id in h.modelRegistrations)
    && (id in h.modelRegistrations ==> n.modelRegistrations[id] == h.modelRegistrations[id])
  }

  // The same client at the same path as before, or none as before.
  predicate Untouched(h: Host, n: Host, id: string)
  {
    && (id in n.loaded <==> id in h.loaded)
    && (id in h.loaded ==> n.loaded[id].path == h.loaded[id].path && n.loaded[id].client == h.loaded[id].client)
    && (id in n.fused <==> id in h.fused)
    && SameOld(h, n, id) && SameModels(h, n, id)
  }

  predicate Kept(h: Host, n: Host, id: string)
  {
    Untouched(h, n, id) && h.installed <= n.installed
  }

  predicate SameAsBefore(h: Host, n: Host, id: string)
  {
    Kept(h, n, id) && (id in h.loaded ==> n.loaded[id] == h.loaded[id])
  }

  predicate OwnIds(h: Host)
  {
    forall id :: id in h.loaded ==> h.loaded[id].id == id
  }

  function Installed(h: Host, file: File): Host
  {
    Install(MarkLoading(h, file.id), file, Replaced(h, file))
  }

  lemma InstallKeeps(h: Host, file: File, id: string)
    requires OwnIds(h)
    ensures OwnIds(Installed(h, file)) && (id != file.id ==> SameAsBefore(h, Installed(h, file), id))
  {
    hide SameAsBefore;
    if id != file.id { InstallSame(h, file, id); }
  }

  lemma InstallSame(h: Host, file: File, id: string)
    requires OwnIds(h) && id != file.id
    ensures SameAsBefore(h, Installed(h, file), id)
  {
  }

  lemma InstallOpens(h: Host, file: File)
    requires OwnIds(h) && !At(h, file.id, file.path) && (file.id in h.fused ==> file.id in h.loaded)
    ensures Opened(h, Installed(h, file), file.id, file.path)
  {
  }

  lemma RegisterKeeps(h: Host, c: Conditions, file: File, id: string)
    requires OwnIds(h) && file.id in h.loaded
    ensures var n := Registered(h, c, file); OwnIds(n) && Kept(h, n, id) && (id != file.id ==> SameAsBefore(h, n, id))
  {
    hide TrimSpace;
  }

  lemma FailKeeps(h: Host, file: File, id: string)
    requires OwnIds(h)
    ensures OwnIds(LoadFailed(MarkLoading(h, file.id), file.id))
    ensures SameAsBefore(h, LoadFailed(MarkLoading(h, file.id), file.id), id)
  {
  }

  lemma AppliedKeeps(h: Host, c: Conditions, file: File, id: string)
    requires OwnIds(h)
    ensures var n := Applied(h, c, file);
            && OwnIds(n)
            && (id != file.id ==> SameAsBefore(h, n, id))
            && (id == file.id ==> if Opens(h, c, id, file.path) then Opened(h, n, id, file.path) else Kept(h, n, id))
  {
    hide OwnIds, SameAsBefore, Kept, Opened, Install, Registered, MarkLoading, LoadFailed;
    SameKept(h, id);
    if Wanted(h, c, file) {
      if AlreadyLoaded(h, file) {
        RegisterKeeps(h, c, file, id);
      } else if file.id in c.opens {
        var m := Installed(h, file);
        InstallOpens(h, file);
        InstallKeeps(h, file, id);
        OpenedLoads(h, m, file.id, file.path);
        RegisterKeeps(m, c, file, id);
        KeptThen(h, m, Applied(h, c, file), id);
        if id != file.id { SameOpens(h, m, Applied(h, c, file), c, id, file.path); }
      } else {
        FailKeeps(h, file, id);
        SameIsKept(h, Applied(h, c, file), id);
      }
    }
  }

  // One pass of the loop, when the ids are the plugins' own and when they are not.
  lemma PassFields(h: Host, c: Conditions, file: File)
    ensures var n, id, path := Applied(h, c, file), file.id, file.path;
            && (OwnIds(h) ==>
                  && (forall other :: other != id ==> SameAsBefore(h, n, other))
                  && if Opens(h, c, id, path) then Opened(h, n, id, path) else Kept(h, n, id))
            && n.installed == h.installed + (if Opens(h, c, id, path) then 1 else 0)
            && n.snapshot == h.snapshot && n.published == h.published && n.handed == h.handed
    ensures Reaches(h, c, file) <==> Runs(h, c, file.id, file.path)
    ensures forall n: Host :: HasRecord(n, c, file) ==>
        var client := n.loaded[file.id].client;
        RecordOf(n, c, file) == Record(file.id, file.path, file.version, c.items[file.id].priority, client)
  {
    hide TrimSpace, SameAsBefore, Opened, Kept, OwnIds, Applied, Opens, Runs, Reaches;
    PassCounts(h, c, file);
    RunsIs(h, c, file);
    if OwnIds(h) {
      forall other ensures other != file.id ==> SameAsBefore(h, Applied(h, c, file), other) {
        AppliedKeeps(h, c, file, other);
      }
      AppliedKeeps(h, c, file, file.id);
    }
  }

  lemma PassCounts(h: Host, c: Conditions, file: File)
    ensures var n := Applied(h, c, file);
            && n.installed == h.installed + (if Opens(h, c, file.id, file.path) then 1 else 0)
            && n.snapshot == h.snapshot && n.published == h.published && n.handed == h.handed
  {
    hide Install, Registered, LoadFailed;
    InstallCounts(MarkLoading(h, file.id), file, Replaced(h, file));
    InstallPublishes(MarkLoading(h, file.id), file, Replaced(h, file));
    InstallHands(MarkLoading(h, file.id), file, Replaced(h, file));
    FailCounts(MarkLoading(h, file.id), file.id);
    if AlreadyLoaded(h, file) {
      RegisterCounts(h, c, file);
    } else {
      RegisterCounts(Installed(h, file), c, file);
    }
  }

  lemma InstallHands(h: Host, file: File, replaced: Option<Loaded>)
    ensures Install(h, file, replaced).handed == h.handed && file.id in Install(h, file, replaced).loaded
  {
  }

  lemma FailCounts(h: Host, id: string)
    ensures var n := LoadFailed(h, id);
            n.installed == h.installed && n.snapshot == h.snapshot && n.published == h.published && n.handed == h.handed
  {
  }

  lemma RegisterCounts(h: Host, c: Conditions, file: File)
    requires file.id in h.loaded
    ensures var n := Registered(h, c, file);
            n.installed == h.installed && n.snapshot == h.snapshot && n.published == h.published && n.handed == h.handed
  {
    hide TrimSpace;
  }

  lemma OpenedLoads(h: Host, n: Host, id: string, path: string)
    requires Opened(h, n, id, path)
    ensures id in n.loaded
  {
  }

  lemma SameKept(h: Host, id: string)
    ensures SameAsBefore(h, h, id) && Kept(h, h, id)
  {
  }

  lemma SameIsKept(h: Host, n: Host, id: string)
    requires SameAsBefore(h, n, id)
    ensures Kept(h, n, id)
  {
  }

  lemma SameOpens(h: Host, m: Host, n: Host, c: Conditions, id: string, path: string)
    requires SameAsBefore(h, m, id)
    ensures Opens(m, c, id, path) <==> Opens(h, c, id, path)
    ensures Opened(m, n, id, path) ==> Opened(h, n, id, path)
    ensures Kept(m, n, id) ==> Kept(h, n, id)
    ensures SameAsBefore(m, n, id) ==> SameAsBefore(h, n, id)
  {
  }

  lemma KeptThen(h: Host, m: Host, n: Host, id: string)
    requires Kept(m, n, id)
    ensures Kept(h, m, id) ==> Kept(h, n, id)
    ensures forall path :: Opened(h, m, id, path) ==> Opened(h, n, id, path)
  {
  }

  // A client is installed for exactly the files that need one and whose library opens; all
  // other plugins keep theirs.
  lemma {:induction false} InstalledExactly(h: Host, c: Conditions, files: seq<File>, n: nat, id: string)
    requires OwnIds(h) && NoRepeatedIds(files) && n <= |files|
    ensures var r := AppliedAll(h, c, files, n);
            && OwnIds(r)
            && (forall i :: 0 <= i < n && files[i].id == id ==>
                    if Opens(h, c, id, files[i].path) then Opened(h, r, id, files[i].path) else Kept(h, r, id))
            && ((forall i :: 0 <= i < n ==> files[i].id != id) ==> SameAsBefore(h, r, id))
    decreases n
  {
    hide Opens, Opened, Kept, SameAsBefore, Applied, OwnIds;
    if n == 0 {
      SameKept(h, id);
    } else {
      InstalledExactly(h, c, files, n - 1, id);
      var m, file := AppliedAll(h, c, files, n - 1), files[n - 1];
      var r := Applied(m, c, file);
      AppliedKeeps(m, c, file, id);
      if file.id == id {
        SameOpens(h, m, r, c, id, file.path);
      } else {
        SameIsKept(m, r, id);
        KeptThen(h, m, r, id);
        if SameAsBefore(h, m, id) { SameOpens(h, m, r, c, id, file.path); }
      }
    }
  }

  // For each file found, and for each plugin without one.
  ghost predicate InstallsFor(h: Host, c: Conditions, found: seq<File>, n: Host)
  {
    && (forall i :: 0 <= i < |found| ==>
          if Opens(h, c, found[i].id, found[i].path) then Opened(h, n, found[i].id, found[i].path)
          else Kept(h, n, found[i].id))
    && forall id :: !HasFile(found, id) ==> Kept(h, n, id)
  }

  lemma ConfigInstalls(owner: string -> string, h: Host, c: Conditions, found: seq<File>, desired: seq<string>,
          order: seq<Record>)
    requires Searchable(owner, h, found, desired)
    ensures var all := Fallbacks(h, found, desired, Off(c));
            InstallsFor(h, c, found, Publish(AppliedAll(h, c, all, |all|), order))
  {
    hide TrimSpace, Selectable, Fallbacks, Opens, Opened, Kept, AppliedAll, Publish;
    var all := Fallbacks(h, found, desired, Off(c));
    var m := AppliedAll(h, c, all, |all|);
    var n := Publish(m, order);
    FallbacksSelectable(owner, h, found, desired, Off(c));
    NoTwo(owner, all);
    forall i | 0 <= i < |found|
      ensures if Opens(h, c, found[i].id, found[i].path) then Opened(h, n, found[i].id, found[i].path)
              else Kept(h, n, found[i].id)
    {
      InstalledExactly(h, c, all, |all|, found[i].id);
      assert all[i] == found[i];
      PublishKeeps(m, order, found[i].id);
      KeptThen(h, m, n, found[i].id);
    }
    forall id | !HasFile(found, id) ensures Kept(h, n, id) {
      InstalledExactly(h, c, all, |all|, id);
      PublishKeeps(m, order, id);
      KeptThen(h, m, n, id);
      if i :| 0 <= i < |all| && all[i].id == id {
        FallbackFiles(owner, h, c, found, desired, all[i]);
        NoneToOpen(h, c, all[i]);
      } else {
        SameIsKept(h, m, id);
      }
    }
  }

  lemma NoTwo(owner: string -> string, files: seq<File>)
    requires Selectable(owner, files)
    ensures NoRepeatedIds(files)
  {
  }

  lemma NoneToOpen(h: Host, c: Conditions, f: File)
    requires AtLoadedPath(h, f)
    ensures !Opens(h, c, f.id, f.path)
  {
  }

  lemma PublishKeeps(h: Host, order: seq<Record>, id: string)
    ensures Kept(h, Publish(h, order), id)
  {
    hide Rebuilt;
  }

  // ---- ApplyConfig, said of the fields ---------------------------------------------------------------

  // Exactly the plugins that run are published, each with what its record has to say, in
  // order; exactly the clients that have to be opened, and can be, are installed.
  ghost predicate Comes(h: Host, c: Conditions, found: seq<File>, desired: seq<string>, n: Host)
  {
    && n.snapshot.enabled && n.snapshot.serial == h.published && n.handed == h.handed
    && (forall id :: HasId(n.snapshot.records, id) <==>
          || SomeRuns(h, c, found, id)
          || (StaysOn(h, c, found, desired, id) && Runs(h, c, id, h.loaded[id].path)))
    && (forall k :: 0 <= k < |n.snapshot.records| ==> Fits(h, c, found, n, n.snapshot.records[k]))
    && Falling(n.snapshot.records)
    && InstallsFor(h, c, found, n)
  }

  lemma ConfigComes(owner: string -> string, h: Host, c: Conditions, found: seq<File>, desired: seq<string>, n: Host)
    requires Searchable(owner, h, found, desired) && Publishes(h, c, Fallbacks(h, found, desired, Off(c)), n)
    requires var all := Fallbacks(h, found, desired, Off(c));
             n == Publish(AppliedAll(h, c, all, |all|), n.snapshot.records)
    requires n.snapshot.serial == h.published && n.handed == h.handed && Falling(n.snapshot.records)
    ensures Comes(h, c, found, desired, n)
  {
    hide TrimSpace, Keyed, Selectable, Searchable, Fallbacks, Publishes, Falling, Fits, InstallsFor, SomeRuns, StaysOn,
         Runs, HasId, AppliedAll, Publish;
    StaysLoaded(h, c, found, desired);
    forall id ensures HasId(n.snapshot.records, id) <==>
        || SomeRuns(h, c, found, id)
        || (StaysOn(h, c, found, desired, id) && Runs(h, c, id, h.loaded[id].path))
    {
      PublishedExactly(owner, h, c, found, desired, n, id);
    }
    RecordsFit(owner, h, c, found, desired, n);
    ConfigInstalls(owner, h, c, found, desired, n.snapshot.records);
    PublishesOn(h, c, Fallbacks(h, found, desired, Off(c)), n);
  }

  lemma PublishesOn(h: Host, c: Conditions, files: seq<File>, n: Host)
    requires Publishes(h, c, files, n)
    ensures n.snapshot.enabled
  {
  }
}
