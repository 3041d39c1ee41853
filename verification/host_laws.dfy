// What every interleaving of the host's sections keeps: each client in one place, records
// that only call clients still held, identity maps that agree with the published snapshot,
// model registrations only of loaded plugins.
module HostLaws {
  import opened Text
  import opened Places
  import opened HostState
  import opened Ordering

  // ---- The invariant ---------------------------------------------------------------------------

  // The maps are keyed by plugin id, and a path belongs to one plugin.
  predicate LoadedOk(owner: string -> string, id: string, lp: Loaded)
  {
    lp.id == id && TrimSpace(id) == id != "" && lp.path != "" && owner(lp.path) == id
  }

  predicate AllLoadedOk(owner: string -> string, id: string, ls: seq<Loaded>)
  {
    forall i :: 0 <= i < |ls| ==> LoadedOk(owner, id, ls[i])
  }

  ghost predicate Keyed(owner: string -> string, h: Host)
  {
    && (forall id :: id in h.loaded ==> LoadedOk(owner, id, h.loaded[id]))
    && (forall id :: id in h.retired ==> AllLoadedOk(owner, id, h.retired[id]))
  }

  predicate Holds(lp: Loaded, r: Record)
  {
    lp.client == r.client && lp.path == r.path
  }

  predicate SomeHolds(ls: seq<Loaded>, r: Record)
  {
    exists i :: 0 <= i < |ls| && Holds(ls[i], r)
  }

  // The record's plugin is loaded, and its client is held, as loaded or as retired.
  predicate Backed(h: Host, r: Record)
  {
    r.id in h.loaded && (Holds(h.loaded[r.id], r) || SomeHolds(RetiredFor(h, r.id), r))
  }

  function IdOf(r: Record): string
  {
    r.id
  }

  predicate DistinctIds(records: seq<Record>)
  {
    DistinctBy(records, IdOf)
  }

  predicate AllBacked(h: Host, records: seq<Record>)
  {
    forall i :: 0 <= i < |records| ==> Backed(h, records[i])
  }

  predicate HasPath(records: seq<Record>, path: string)
  {
    exists i :: 0 <= i < |records| && records[i].path == path
  }

  // The maps say exactly what these records say.
  predicate Filed(m: Maps, r: Record)
  {
    && r.id in m.paths && m.paths[r.id] == r.path
    && r.id in m.versions && m.versions[r.id] == TrimSpace(r.version)
    && r.path in m.files && m.files[r.path] == TrimSpace(r.version)
  }

  ghost predicate MapsFor(m: Maps, records: seq<Record>)
  {
    && (forall i :: 0 <= i < |records| ==> Filed(m, records[i]))
    && (forall id :: id in m.paths ==> HasId(records, id))
    && (forall id :: id in m.versions ==> HasId(records, id))
    && (forall path :: path in m.files ==> HasPath(records, path))
  }

  predicate RegistrationsOk(h: Host)
  {
    h.modelRegistrations.Keys <= h.loaded.Keys && h.modelProviders.Keys <= h.loaded.Keys
  }

  // What a RegisterModels call has gathered comes from the snapshot it read, which is the
  // published one exactly when the two are identical.
  ghost predicate GathererOk(h: Host, g: Gathering)
  {
    && g.seen.serial < h.published
    && (g.seen.serial == h.snapshot.serial ==> g.seen == h.snapshot)
    && forall id :: id in g.next ==> HasId(g.seen.records, id)
  }

  ghost predicate GatherersOk(s: State)
  {
    && s.host.snapshot.serial < s.host.published
    && forall t :: t in s.gatherers ==> GathererOk(s.host, s.gatherers[t])
  }

  predicate Live(h: Host, r: Record)
  {
    r.id in h.loaded && Holds(h.loaded[r.id], r)
  }

  // Records collected so far, and files still to be looked at, are of different plugins.
  predicate WorkOk(owner: string -> string, h: Host, todo: seq<File>, records: seq<Record>)
  {
    && Selectable(owner, todo)
    && DistinctIds(records)
    && (forall i :: 0 <= i < |records| ==> Live(h, records[i]))
    && (forall i, j :: 0 <= i < |records| && 0 <= j < |todo| ==> records[i].id != todo[j].id)
  }

  // Where ApplyConfig stands with the file it is at.
  predicate PendingOk(h: Host, file: File, replaced: Option<Loaded>)
  {
    && replaced == (if file.id in h.loaded then Some(h.loaded[file.id]) else None)
    && (replaced.Some? ==> replaced.value.path != file.path)
  }

  predicate ApplierOk(owner: string -> string, h: Host, a: Applier)
  {
    match a
    case Free => true
    case Between(todo, records) => WorkOk(owner, h, todo, records)
    case Marking(file, replaced, todo, records) => WorkOk(owner, h, [file] + todo, records)
        && PendingOk(h, file, replaced)
    case Opening(file, replaced, todo, records) => WorkOk(owner, h, [file] + todo, records)
        && PendingOk(h, file, replaced)
    case Registering(file, todo, records) => WorkOk(owner, h, [file] + todo, records) && AlreadyLoaded(h, file)
  }

  ghost predicate Inv(owner: string -> string, s: State)
  {
    && OnePlace(Boxes(s.host), s.host.installed)
    && Keyed(owner, s.host)
    && DistinctIds(s.host.snapshot.records) && AllBacked(s.host, s.host.snapshot.records)
    && MapsFor(s.host.maps, s.host.snapshot.records)
    && RegistrationsOk(s.host)
    && GatherersOk(s)
    && ApplierOk(owner, s.host, s.applier)
  }

  // ---- Clients stay accounted for ----------------------------------------------------------------

  lemma InstallPlaces(h: Host, file: File, replaced: Option<Loaded>)
    requires OnePlace(Boxes(h), h.installed) && PendingOk(h, file, replaced)
    requires (replaced.Some? ==> replaced.value.id == file.id)
    ensures OnePlace(Boxes(Install(h, file, replaced)), h.installed + 1)
  {
    hide OnePlace;
    var r := Install(h, file, replaced);
    if replaced.None? {
      AddOne(Boxes(h), Boxes(r), h.installed, Place.Live(file.id));
    } else {
      var id := file.id;
      var m := Retire(h, replaced.value).(loaded := h.loaded - {id});
      assert Box(m, Old(id)) == Box(h, Old(id)) + Box(h, Place.Live(id));
      MoveAll(Boxes(h), Boxes(m), h.installed, Place.Live(id), Old(id));
      assert Box(r, Old(id)) == Box(m, Old(id));
      AddOne(Boxes(m), Boxes(r), h.installed, Place.Live(id));
    }
  }

  // What an unload does to each place.
  lemma UnloadBox(h: Host, id: string, p: Place)
    requires |Targets(h, id)| > 0
    ensures Box(Unload(h, id), p) ==
            match p
            case Live(i) => if i == id then [] else Box(h, p)
            case Old(i) => if i == id then [] else Box(h, p)
            case HandedOver => h.handed + Box(h, Place.Live(id)) + Box(h, Old(id))
  {
    hide Without;
    assert Clients(Targets(h, id)) == Box(h, Place.Live(id)) + Box(h, Old(id));
  }

  lemma UnloadPlaces(h: Host, id: string)
    requires OnePlace(Boxes(h), h.installed)
    ensures OnePlace(Boxes(Unload(h, id)), h.installed)
  {
    hide OnePlace, Unload;
    var r := Unload(h, id);
    if |Targets(h, id)| > 0 {
      var m := h.(loaded := h.loaded - {id}, handed := h.handed + Box(h, Place.Live(id)));
      MoveAll(Boxes(h), Boxes(m), h.installed, Place.Live(id), HandedOver);
      UnloadRest(h, m, r, id);
    } else {
      NoTargets(h, id);
    }
  }

  lemma NoTargets(h: Host, id: string)
    requires |Targets(h, id)| == 0
    ensures Unload(h, id) == h
  {
  }

  lemma UnloadRest(h: Host, m: Host, r: Host, id: string)
    requires |Targets(h, id)| > 0 && r == Unload(h, id)
    requires m == h.(loaded := h.loaded - {id}, handed := h.handed + Box(h, Place.Live(id)))
    requires OnePlace(Boxes(m), h.installed)
    ensures OnePlace(Boxes(r), h.installed)
  {
    hide OnePlace, Unload;
    forall p ensures Boxes(r)(p) == if p == Old(id) then []
        else if p == HandedOver then Boxes(m)(HandedOver) + Boxes(m)(Old(id)) else Boxes(m)(p) {
      UnloadBox(h, id, p);
    }
    MoveAll(Boxes(m), Boxes(r), h.installed, Old(id), HandedOver);
  }

  lemma PlacesKeep(owner: string -> string, s: State, step: Step)
    requires Inv(owner, s) && Enabled(owner, s, step)
    ensures OnePlace(Boxes(Next(owner, s, step).host), Next(owner, s, step).host.installed)
  {
    hide OnePlace, MapsFor, GatherersOk, WorkOk, Keyed, DistinctIds, AllBacked, RegistrationsOk, Selectable, TrimSpace,
         Install, Unload, ShutDown;
    match step
    case Open(ok) =>
      if ok {
        if s.applier.replaced.Some? { ReplacedId(owner, s); }
        InstallPlaces(s.host, s.applier.file, s.applier.replaced);
        InstallCounts(s.host, s.applier.file, s.applier.replaced);
      } else {
        QuietPlaces(owner, s, step);
      }
    case UnloadPlugin(id) =>
      UnloadPlaces(s.host, id);
      UnloadCounts(s.host, id);
    case ShutdownAll(clients) => ShutDownPlaces(s.host, clients);
    case _ => QuietPlaces(owner, s, step);
  }

  lemma InstallCounts(h: Host, file: File, replaced: Option<Loaded>)
    ensures Install(h, file, replaced).installed == h.installed + 1
  {
  }

  lemma UnloadCounts(h: Host, id: string)
    ensures Unload(h, id).installed == h.installed
  {
    hide Without;
  }

  lemma ShutDownPlaces(h: Host, clients: seq<nat>)
    requires OnePlace(Boxes(h), h.installed) && Lists(h, clients)
    ensures OnePlace(Boxes(ShutDown(h, clients)), ShutDown(h, clients).installed)
  {
    hide OnePlace;
    GatherAll(Boxes(h), Boxes(ShutDown(h, clients)), h.installed, HandedOver, clients);
  }

  lemma QuietPlaces(owner: string -> string, s: State, step: Step)
    requires OnePlace(Boxes(s.host), s.host.installed) && Enabled(owner, s, step)
    requires step != Open(true) && !step.UnloadPlugin? && !step.ShutdownAll?
    ensures OnePlace(Boxes(Next(owner, s, step).host), Next(owner, s, step).host.installed)
  {
    hide OnePlace, Selectable, TrimSpace, Rebuilt, Fallbacks, AfterLook, Providers, HasId, Install;
    Same(Boxes(s.host), Boxes(Next(owner, s, step).host), s.host.installed);
  }

  lemma ReplacedId(owner: string -> string, s: State)
    requires Inv(owner, s) && s.applier.Opening? && s.applier.replaced.Some?
    ensures s.applier.replaced.value.id == s.applier.file.id
  {
  }

  // ---- Plugins stay keyed --------------------------------------------------------------------------

  lemma KeyedKeep(owner: string -> string, s: State, step: Step)
    requires Inv(owner, s) && Enabled(owner, s, step)
    ensures Keyed(owner, Next(owner, s, step).host)
  {
    hide OnePlace, MapsFor, GatherersOk, AllBacked, RegistrationsOk, TrimSpace, Lists, Rebuilt;
    match step
    case Open(ok) =>
      if ok {
        FileInHand(owner, s);
        InstallKeyed(owner, s.host, s.applier.file, s.applier.replaced);
      }
    case _ =>
  }

  lemma FileInHand(owner: string -> string, s: State)
    requires ApplierOk(owner, s.host, s.applier) && (s.applier.Marking? || s.applier.Opening? || s.applier.Registering?)
    ensures var a := s.applier;
            && SelectableFile(owner, a.file) && WorkOk(owner, s.host, a.todo, a.records)
            && (forall j :: 0 <= j < |a.todo| ==> a.todo[j].id != a.file.id)
            && forall i :: 0 <= i < |a.records| ==> a.records[i].id != a.file.id
  {
    hide Selectable, SelectableFile, DistinctIds, PendingOk, AlreadyLoaded;
    WorkWithout(owner, s.host, s.applier.file, s.applier.todo, s.applier.records);
  }

  lemma WorkWithout(owner: string -> string, h: Host, file: File, todo: seq<File>, records: seq<Record>)
    requires WorkOk(owner, h, [file] + todo, records)
    ensures SelectableFile(owner, file) && WorkOk(owner, h, todo, records)
    ensures forall j :: 0 <= j < |todo| ==> todo[j].id != file.id
    ensures forall i :: 0 <= i < |records| ==> records[i].id != file.id
  {
    hide Selectable, SelectableFile, DistinctIds;
    SelectableRest(owner, file, todo);
    var all := [file] + todo;
    assert all[0] == file && forall j :: 0 <= j < |todo| ==> all[j + 1] == todo[j];
  }

  lemma SelectableRest(owner: string -> string, file: File, todo: seq<File>)
    requires Selectable(owner, [file] + todo)
    ensures SelectableFile(owner, file) && Selectable(owner, todo)
    ensures forall j :: 0 <= j < |todo| ==> todo[j].id != file.id
  {
    hide SelectableFile;
    var all := [file] + todo;
    assert all[0] == file && forall j :: 0 <= j < |todo| ==> all[j + 1] == todo[j];
  }

  lemma InstallKeyed(owner: string -> string, h: Host, file: File, replaced: Option<Loaded>)
    requires Keyed(owner, h) && SelectableFile(owner, file) && PendingOk(h, file, replaced)
    ensures Keyed(owner, Install(h, file, replaced))
  {
    hide TrimSpace;
    var r := Install(h, file, replaced);
    if replaced.Some? {
      var was := RetiredFor(h, file.id);
      assert AllLoadedOk(owner, file.id, was + [replaced.value]);
    }
  }

  // ---- Records stay backed ---------------------------------------------------------------------------

  lemma InstallBacks(h: Host, file: File, replaced: Option<Loaded>, r: Record)
    requires Backed(h, r) && PendingOk(h, file, replaced) && (replaced.Some? ==> replaced.value.id == file.id)
    ensures Backed(Install(h, file, replaced), r)
  {
    var n := Install(h, file, replaced);
    if r.id == file.id {
      var was := RetiredFor(h, r.id);
      assert RetiredFor(n, r.id) == was + [replaced.value];
      if Holds(h.loaded[r.id], r) {
        assert Holds(RetiredFor(n, r.id)[|was|], r);
      } else {
        var i :| 0 <= i < |was| && Holds(was[i], r);
        assert Holds(RetiredFor(n, r.id)[i], r);
      }
    }
  }

  lemma {:induction false} WithoutKeeps(records: seq<Record>, id: string)
    ensures forall i ::
        0 <= i < |Without(records, id)| ==> Without(records, id)[i] in records && Without(records, id)[i].id != id
    ensures forall i :: 0 <= i < |records| && records[i].id != id ==> records[i] in Without(records, id)
    ensures DistinctIds(records) ==> DistinctIds(Without(records, id))
  {
    if |records| > 0 {
      WithoutKeeps(records[1..], id);
      var rest := Without(records[1..], id);
      if records[0].id != id && DistinctIds(records) {
        forall j | 0 <= j < |rest| ensures rest[j].id != records[0].id {
          assert rest[j] in records[1..];
        }
      }
    }
  }

  // Steps that leave the plugins and the published records alone, or publish none.
  lemma QuietRecords(owner: string -> string, s: State, step: Step)
    requires Enabled(owner, s, step) && step != Open(true) && !step.Register? && !step.Finish? && !step.UnloadPlugin?
    ensures var h, n := s.host, Next(owner, s, step).host;
            n.snapshot.records == [] || (n.snapshot == h.snapshot && n.loaded == h.loaded && n.retired == h.retired)
  {
    hide TrimSpace, Lists, Rebuilt, Selectable, Fallbacks, AfterLook, Providers, HasId, Install;
  }

  lemma RecordsKeep(owner: string -> string, s: State, step: Step)
    requires Inv(owner, s) && Enabled(owner, s, step)
    ensures var h := Next(owner, s, step).host; DistinctIds(h.snapshot.records) && AllBacked(h, h.snapshot.records)
  {
    hide OnePlace, MapsFor, GatherersOk, RegistrationsOk, TrimSpace, Lists, Rebuilt, Keyed, Selectable, DistinctIds,
         Fallbacks, AfterLook, Providers, Install, ShutDown, Disable, CommitModels, Publish, Unload, Named, ApplierOk;
    match step
    case Open(ok) =>
      if ok {
        OpenBacks(owner, s);
        InstallPublishes(s.host, s.applier.file, s.applier.replaced);
      } else {
        QuietBacks(owner, s, step);
      }
    case Finish(order) => FinishBacks(owner, s, order);
    case UnloadPlugin(id) => UnloadBacks(s.host, id);
    case Register(ok, version, _) =>
      if ok {
        NamedBacks(s.host, s.applier.file.id, version);
      }
    case _ => QuietBacks(owner, s, step);
  }

  lemma QuietBacks(owner: string -> string, s: State, step: Step)
    requires Inv(owner, s) && Enabled(owner, s, step)
    requires step != Open(true) && !step.Register? && !step.Finish? && !step.UnloadPlugin?
    ensures var h := Next(owner, s, step).host; DistinctIds(h.snapshot.records) && AllBacked(h, h.snapshot.records)
  {
    hide OnePlace, MapsFor, GatherersOk, RegistrationsOk, Keyed, ApplierOk, Next, Enabled;
    QuietRecords(owner, s, step);
  }

  lemma FinishBacks(owner: string -> string, s: State, order: seq<Record>)
    requires Inv(owner, s) && Enabled(owner, s, Finish(order))
    ensures var h := Publish(s.host, order); DistinctIds(h.snapshot.records) && AllBacked(h, h.snapshot.records)
  {
    hide OnePlace, MapsFor, GatherersOk, RegistrationsOk, TrimSpace, Rebuilt, Keyed, Selectable, SomeHolds, AllBacked;
    Permuted(order, s.applier.records);
    PermutedDistinct(s.applier.records, order, IdOf);
    forall i | 0 <= i < |order| ensures Backed(s.host, order[i]) {
      assert order[i] in s.applier.records;
    }
    PublishBacks(s.host, order);
  }

  lemma PublishBacks(h: Host, order: seq<Record>)
    requires forall i :: 0 <= i < |order| ==> Backed(h, order[i])
    ensures AllBacked(Publish(h, order), order)
  {
    hide Rebuilt;
  }

  lemma InstallPublishes(h: Host, file: File, replaced: Option<Loaded>)
    ensures Install(h, file, replaced).snapshot == h.snapshot && Install(h, file, replaced).published == h.published
  {
  }

  lemma OpenBacks(owner: string -> string, s: State)
    requires Inv(owner, s) && s.applier.Opening?
    ensures AllBacked(Install(s.host, s.applier.file, s.applier.replaced), s.host.snapshot.records)
  {
    hide OnePlace, MapsFor, GatherersOk, RegistrationsOk, Backed, Install;
    if s.applier.replaced.Some? { ReplacedId(owner, s); }
    forall i | 0 <= i < |s.host.snapshot.records|
      ensures Backed(Install(s.host, s.applier.file, s.applier.replaced), s.host.snapshot.records[i]) {
      InstallBacks(s.host, s.applier.file, s.applier.replaced, s.host.snapshot.records[i]);
    }
  }

  lemma NamedBacks(h: Host, id: string, version: string)
    requires id in h.loaded && AllBacked(h, h.snapshot.records)
    ensures Named(h, id, version).snapshot == h.snapshot && AllBacked(Named(h, id, version), h.snapshot.records)
  {
    hide TrimSpace;
    forall i | 0 <= i < |h.snapshot.records| ensures Backed(Named(h, id, version), h.snapshot.records[i]) {
      assert Backed(h, h.snapshot.records[i]);
    }
  }

  lemma UnloadBacks(h: Host, id: string)
    requires DistinctIds(h.snapshot.records) && AllBacked(h, h.snapshot.records)
    ensures var n := Unload(h, id); DistinctIds(n.snapshot.records) && AllBacked(n, n.snapshot.records)
  {
    hide Without;
    WithoutKeeps(h.snapshot.records, id);
    if |Targets(h, id)| > 0 {
      var left := Without(h.snapshot.records, id);
      forall i | 0 <= i < |left| ensures Backed(Unload(h, id), left[i]) {
        assert left[i] in h.snapshot.records;
        assert Backed(h, left[i]);
      }
    }
  }

  // ---- The identity maps agree with the snapshot -----------------------------------------------------

  // Records a rebuild can file without clashes: distinct trimmed ids, and paths that belong
  // to one id.
  predicate Fileable(owner: string -> string, records: seq<Record>)
  {
    && DistinctIds(records)
    && forall i :: 0 <= i < |records| ==>
         TrimSpace(records[i].id) == records[i].id != "" && records[i].path != ""
             && owner(records[i].path) == records[i].id
  }

  lemma {:induction false} RebuiltFiles(owner: string -> string, records: seq<Record>, n: nat)
    requires Fileable(owner, records) && n <= |records|
    ensures MapsFor(Rebuilt(records, n), records[..n])
    decreases n
  {
    hide TrimSpace, MapsFor;
    if n > 0 {
      RebuiltFiles(owner, records, n - 1);
      FileOne(owner, Rebuilt(records, n - 1), records, n - 1);
    } else {
      NoMaps();
    }
  }

  function WithRecord(m: Maps, r: Record): Maps
  {
    Maps(m.files[r.path := TrimSpace(r.version)], m.versions[r.id := TrimSpace(r.version)], m.paths[r.id := r.path])
  }

  // One more record filed.
  lemma FileOne(owner: string -> string, m: Maps, records: seq<Record>, n: nat)
    requires Fileable(owner, records) && n < |records| && MapsFor(m, records[..n])
    ensures MapsFor(WithRecord(m, records[n]), records[..n + 1])
  {
    hide TrimSpace, HasId, HasPath;
    var w, r, now := WithRecord(m, records[n]), records[n], records[..n + 1];
    forall i | 0 <= i < n + 1 ensures Filed(w, now[i]) {
      if i < n {
        assert records[..n][i] == records[i];
        assert Filed(m, records[i]) && records[i].id != r.id && owner(records[i].path) != owner(r.path);
      }
    }
    HasMore(records, n);
    HasLast(records, n);
  }

  lemma HasLast(records: seq<Record>, n: nat)
    requires n < |records|
    ensures HasId(records[..n + 1], records[n].id) && HasPath(records[..n + 1], records[n].path)
  {
    assert records[..n + 1][n] == records[n];
  }

  lemma HasMore(records: seq<Record>, n: nat)
    requires n < |records|
    ensures forall id :: HasId(records[..n], id) ==> HasId(records[..n + 1], id)
    ensures forall path :: HasPath(records[..n], path) ==> HasPath(records[..n + 1], path)
  {
    assert forall i :: 0 <= i < n ==> records[..n][i] == records[..n + 1][i];
  }

  // Whoever backs a record vouches for its id and path.
  lemma BackedFileable(owner: string -> string, h: Host, records: seq<Record>)
    requires Keyed(owner, h) && DistinctIds(records) && AllBacked(h, records)
    ensures Fileable(owner, records)
  {
    hide TrimSpace;
    forall i | 0 <= i < |records|
      ensures TrimSpace(records[i].id) == records[i].id != "" && records[i].path != ""
      ensures owner(records[i].path) == records[i].id
    {
      var r := records[i];
      assert Backed(h, r);
      assert LoadedOk(owner, r.id, h.loaded[r.id]);
      if !Holds(h.loaded[r.id], r) {
        var ls := RetiredFor(h, r.id);
        var j :| 0 <= j < |ls| && Holds(ls[j], r);
        assert LoadedOk(owner, r.id, ls[j]);
      }
    }
  }

  // What an unload leaves of the maps.
  lemma UnloadedMaps(h: Host, id: string)
    requires |Targets(h, id)| > 0
    ensures Unload(h, id).maps
        == Maps(h.maps.files - PathsOf(Targets(h, id)), h.maps.versions - {id}, h.maps.paths - {id})
  {
  }

  // After an unload the maps say what the records left over say.
  lemma UnloadMaps(owner: string -> string, h: Host, id: string)
    requires Keyed(owner, h) && MapsFor(h.maps, h.snapshot.records) && AllBacked(h, h.snapshot.records)
    requires DistinctIds(h.snapshot.records)
    requires |Targets(h, id)| > 0
    ensures MapsFor(Unload(h, id).maps, Without(h.snapshot.records, id))
  {
    hide TrimSpace, Unload, Without, Targets, Keyed, AllBacked, HasId, HasPath, Filed, PathsOf;
    var records, left, n := h.snapshot.records, Without(h.snapshot.records, id), Unload(h, id).maps;
    UnloadedMaps(h, id);
    BackedFileable(owner, h, records);
    WithoutKeeps(records, id);
    forall i | 0 <= i < |left| ensures Filed(n, left[i]) {
      StillFiled(owner, h, id, left[i]);
    }
    forall k | k in n.paths || k in n.versions ensures HasId(left, k) {
      StillHasId(h, id, k);
    }
    forall path | path in n.files ensures HasPath(left, path) {
      StillHasPath(h, id, path);
    }
  }

  lemma StillFiled(owner: string -> string, h: Host, id: string, r: Record)
    requires Keyed(owner, h) && Fileable(owner, h.snapshot.records) && r in h.snapshot.records && r.id != id
    requires |Targets(h, id)| > 0
    requires forall i :: 0 <= i < |h.snapshot.records| ==> Filed(h.maps, h.snapshot.records[i])
    ensures Filed(Unload(h, id).maps, r)
  {
    hide TrimSpace, Unload, Targets, Keyed;
    UnloadedMaps(h, id);
    TargetPaths(owner, h, id);
  }

  lemma StillHasId(h: Host, id: string, k: string)
    requires HasId(h.snapshot.records, k) && k != id
    ensures HasId(Without(h.snapshot.records, id), k)
  {
    var records, left := h.snapshot.records, Without(h.snapshot.records, id);
    WithoutKeeps(records, id);
    var i :| 0 <= i < |records| && records[i].id == k;
    assert records[i] in left;
  }

  lemma StillHasPath(h: Host, id: string, path: string)
    requires HasPath(h.snapshot.records, path) && AllBacked(h, h.snapshot.records) && path !in PathsOf(Targets(h, id))
    ensures HasPath(Without(h.snapshot.records, id), path)
  {
    hide Targets, PathsOf, Backed;
    var records, left := h.snapshot.records, Without(h.snapshot.records, id);
    WithoutKeeps(records, id);
    var i :| 0 <= i < |records| && records[i].path == path;
    RecordPathIsTarget(h, records[i]);
    assert records[i] in left;
  }

  lemma TargetPaths(owner: string -> string, h: Host, id: string)
    requires Keyed(owner, h)
    ensures forall path :: path in PathsOf(Targets(h, id)) ==> owner(path) == id
  {
    var ts := Targets(h, id);
    forall i | 0 <= i < |ts| ensures owner(ts[i].path) == id {
      if id in h.loaded && i == 0 {
        assert LoadedOk(owner, id, h.loaded[id]);
      } else {
        assert ts[i] in RetiredFor(h, id);
      }
    }
  }

  lemma RecordPathIsTarget(h: Host, r: Record)
    requires Backed(h, r)
    ensures r.path in PathsOf(Targets(h, r.id))
  {
    var ts, gone := Targets(h, r.id), RetiredFor(h, r.id);
    if Holds(h.loaded[r.id], r) {
      assert ts[0].path == r.path;
    } else {
      var i :| 0 <= i < |gone| && Holds(gone[i], r);
      assert ts[i + 1].path == r.path;
    }
  }

  lemma MapsKeep(owner: string -> string, s: State, step: Step)
    requires Inv(owner, s) && Enabled(owner, s, step)
    ensures var h := Next(owner, s, step).host; MapsFor(h.maps, h.snapshot.records)
  {
    hide OnePlace, GatherersOk, RegistrationsOk, TrimSpace, Lists, Selectable, AllBacked, MapsFor, Rebuilt, Keyed,
         DistinctIds;
    match step
    case SwitchOff => NoMaps();
    case ShutdownAll(_) => NoMaps();
    case Finish(order) => FinishMaps(owner, s, order);
    case UnloadPlugin(id) =>
      if |Targets(s.host, id)| > 0 {
        UnloadMaps(owner, s.host, id);
      }
    case _ =>
  }

  lemma NoMaps()
    ensures MapsFor(Maps(map[], map[], map[]), []) && Rebuilt([], 0) == Maps(map[], map[], map[])
  {
  }

  lemma FinishMaps(owner: string -> string, s: State, order: seq<Record>)
    requires Inv(owner, s) && Enabled(owner, s, Finish(order))
    ensures MapsFor(Rebuilt(order, |order|), order)
  {
    hide OnePlace, GatherersOk, RegistrationsOk, TrimSpace, Rebuilt, MapsFor;
    Permuted(order, s.applier.records);
    PermutedDistinct(s.applier.records, order, IdOf);
    forall i | 0 <= i < |order| ensures Backed(s.host, order[i]) {
      assert order[i] in s.applier.records;
    }
    BackedFileable(owner, s.host, order);
    RebuiltFiles(owner, order, |order|);
    assert order[..|order|] == order;
  }

  // ---- Registrations and gatherers -------------------------------------------------------------------

  lemma RegistrationsKeep(owner: string -> string, s: State, step: Step)
    requires Inv(owner, s) && Enabled(owner, s, step)
    ensures RegistrationsOk(Next(owner, s, step).host)
  {
    hide OnePlace, MapsFor, TrimSpace, Lists, Selectable, Rebuilt, Keyed, DistinctIds, SomeHolds, Holds, Install,
        Unload,
         ApplierOk, AfterLook, Fallbacks;
    match step
    case Open(ok) => if ok { InstallRegisters(s.host, s.applier.file, s.applier.replaced); }
    case UnloadPlugin(id) => UnloadRegisters(s.host, id);
    case Commit(t) =>
      var g, records := s.gatherers[t], s.host.snapshot.records;
      if g.seen.serial == s.host.snapshot.serial {
        forall id | id in g.next ensures id in s.host.loaded {
          var i :| 0 <= i < |records| && records[i].id == id;
          assert Backed(s.host, records[i]);
        }
      }
    case _ =>
  }

  lemma InstallRegisters(h: Host, file: File, replaced: Option<Loaded>)
    requires RegistrationsOk(h)
    ensures RegistrationsOk(Install(h, file, replaced))
  {
  }

  lemma UnloadRegisters(h: Host, id: string)
    requires RegistrationsOk(h)
    ensures RegistrationsOk(Unload(h, id))
  {
    hide Without, Clients, PathsOf;
  }

  // The published snapshot stays, or a new one with a new serial number takes its place.
  predicate Moved(h: Host, n: Host)
  {
    || (n.snapshot == h.snapshot && n.published == h.published)
    || (n.snapshot.serial == h.published && n.published == h.published + 1)
  }

  lemma HostMoves(owner: string -> string, s: State, step: Step)
    requires Enabled(owner, s, step)
    ensures Moved(s.host, Next(owner, s, step).host)
  {
    hide TrimSpace, Lists, Selectable, Rebuilt, Fallbacks, AfterLook, Providers, HasId, Install, Unload;
    match step
    case Open(ok) => if ok { InstallPublishes(s.host, s.applier.file, s.applier.replaced); }
    case UnloadPlugin(id) => UnloadMoves(s.host, id);
    case _ =>
  }

  lemma UnloadMoves(h: Host, id: string)
    ensures Moved(h, Unload(h, id))
  {
    hide Without, Clients, PathsOf;
  }

  lemma GatherersKeep(owner: string -> string, s: State, step: Step)
    requires GatherersOk(s) && Enabled(owner, s, step)
    ensures GatherersOk(Next(owner, s, step))
  {
    hide Lists, Selectable, AfterLook, Fallbacks, MarkLoading, LoadFailed, Install, Named, Publish, Disable, Unload,
         ShutDown, CommitModels, Fuse, HasId;
    HostMoves(owner, s, step);
    var r := Next(owner, s, step);
    forall t | t in r.gatherers ensures GathererOk(r.host, r.gatherers[t]) {
      if t in s.gatherers {
        assert GathererOk(s.host, s.gatherers[t]);
      }
    }
  }

  // ---- The applying thread --------------------------------------------------------------------------

  // The files stay, and what is added is at the path that its plugin is loaded from.
  predicate AddsLoaded(h: Host, files: seq<File>, all: seq<File>)
  {
    && files <= all
    && forall i :: |files| <= i < |all| ==> AtLoadedPath(h, all[i])
  }

  predicate AtLoadedPath(h: Host, file: File)
  {
    file.id in h.loaded && file.path == h.loaded[file.id].path && file.version == TrimSpace(h.loaded[file.id].version)
  }

  lemma {:induction false} FallbacksSelectable(owner: string -> string, h: Host, files: seq<File>,
          desired: seq<string>, off: set<string>)
    requires Keyed(owner, h) && Selectable(owner, files)
    requires forall i :: 0 <= i < |desired| ==> TrimSpace(desired[i]) == desired[i] != ""
    ensures Selectable(owner, Fallbacks(h, files, desired, off))
    ensures AddsLoaded(h, files, Fallbacks(h, files, desired, off))
    decreases |desired|
  {
    hide TrimSpace;
    if |desired| > 0 {
      var id := desired[0];
      if Selected(files, id) || id in off || id !in h.loaded || h.loaded[id].path == "" {
        FallbacksSelectable(owner, h, files, desired[1..], off);
      } else {
        var added := File(id, h.loaded[id].path, TrimSpace(h.loaded[id].version));
        OneMoreSelectable(owner, h, files, added);
        FallbacksSelectable(owner, h, files + [added], desired[1..], off);
        assert (files + [added])[|files|] == added;
      }
    }
  }

  lemma OneMoreSelectable(owner: string -> string, h: Host, files: seq<File>, added: File)
    requires Keyed(owner, h) && Selectable(owner, files) && AtLoadedPath(h, added) && !Selected(files, added.id)
    ensures Selectable(owner, files + [added])
  {
    hide TrimSpace;
    assert LoadedOk(owner, added.id, h.loaded[added.id]);
    forall i | 0 <= i < |files| ensures files[i].id != added.id {
      assert TrimSpace(files[i].id) == files[i].id;
    }
  }

  // Which are added: the wanted plugins, not switched off, that are loaded and not selected.
  lemma {:induction false} FallbacksComplete(owner: string -> string, h: Host, files: seq<File>, desired: seq<string>,
          off: set<string>, id: string)
    requires Keyed(owner, h) && Selectable(owner, files)
    requires forall i :: 0 <= i < |desired| ==> TrimSpace(desired[i]) == desired[i] != ""
    ensures Selected(Fallbacks(h, files, desired, off), id) <==>
            Selected(files, id) || (id in desired && id !in off && id in h.loaded)
    decreases |desired|
  {
    hide TrimSpace, Selectable;
    if |desired| > 0 {
      var first := desired[0];
      assert id in desired <==> id == first || id in desired[1..];
      if Selected(files, first) || first in off || first !in h.loaded || h.loaded[first].path == "" {
        assert first in h.loaded ==> LoadedOk(owner, first, h.loaded[first]);
        FallbacksComplete(owner, h, files, desired[1..], off, id);
      } else {
        var added := File(first, h.loaded[first].path, TrimSpace(h.loaded[first].version));
        OneMoreSelectable(owner, h, files, added);
        FallbacksComplete(owner, h, files + [added], desired[1..], off, id);
        SelectedMore(files, added, id);
      }
    }
  }

  lemma SelectedMore(files: seq<File>, added: File, id: string)
    ensures Selected(files + [added], id) <==> Selected(files, id) || TrimSpace(added.id) == id
  {
    hide TrimSpace;
    var all := files + [added];
    assert all[|files|] == added;
    if i :| 0 <= i < |files| && TrimSpace(files[i].id) == id {
      assert all[i] == files[i];
    }
  }

  lemma LookKeeps(owner: string -> string, h: Host, todo: seq<File>, records: seq<Record>)
    requires WorkOk(owner, h, todo, records) && |todo| > 0
    ensures ApplierOk(owner, h, AfterLook(h, todo[0], todo[1..], records)) && WorkOk(owner, h, todo[1..], records)
  {
    hide TrimSpace;
    assert [todo[0]] + todo[1..] == todo;
  }

  lemma WorkStays(owner: string -> string, h: Host, n: Host, todo: seq<File>, records: seq<Record>)
    requires WorkOk(owner, h, todo, records)
    requires forall i :: 0 <= i < |records| ==> records[i].id in h.loaded ==>
               records[i].id in n.loaded && n.loaded[records[i].id].client == h.loaded[records[i].id].client
               && n.loaded[records[i].id].path == h.loaded[records[i].id].path
    ensures WorkOk(owner, n, todo, records)
  {
    hide Selectable, TrimSpace;
  }

  lemma OpenKeeps(owner: string -> string, s: State, ok: bool)
    requires Inv(owner, s) && s.applier.Opening?
    ensures ApplierOk(owner, Next(owner, s, Open(ok)).host, Next(owner, s, Open(ok)).applier)
  {
    hide OnePlace, MapsFor, GatherersOk, RegistrationsOk, AllBacked, TrimSpace, WorkOk, Selectable;
    FileInHand(owner, s);
    var a, n := s.applier, Next(owner, s, Open(ok)).host;
    if ok {
      WorkStays(owner, s.host, n, [a.file] + a.todo, a.records);
    } else {
      WorkStays(owner, s.host, n, a.todo, a.records);
    }
  }

  lemma RegisterKeeps(owner: string -> string, s: State, ok: bool, version: string, priority: int)
    requires Inv(owner, s) && s.applier.Registering?
    ensures ApplierOk(owner, Next(owner, s, Register(ok, version, priority)).host,
        Next(owner, s, Register(ok, version, priority)).applier)
  {
    hide OnePlace, MapsFor, GatherersOk, RegistrationsOk, AllBacked, TrimSpace, Selectable;
    FileInHand(owner, s);
    var a, n := s.applier, Next(owner, s, Register(ok, version, priority)).host;
    WorkStays(owner, s.host, n, a.todo, a.records);
  }

  lemma ApplierKeeps(owner: string -> string, s: State, step: Step)
    requires Inv(owner, s) && Enabled(owner, s, step)
    ensures ApplierOk(owner, Next(owner, s, step).host, Next(owner, s, step).applier)
  {
    hide OnePlace, MapsFor, GatherersOk, RegistrationsOk, AllBacked, TrimSpace, Lists, DistinctIds, Selectable,
         Keyed, WorkOk, Fallbacks, AfterLook, Install;
    var r := Next(owner, s, step);
    match step
    case Begin(files, desired, off) =>
      FallbacksSelectable(owner, s.host, files, desired, off);
      NoRecordsYet(owner, s.host, Fallbacks(s.host, files, desired, off));
    case Skip => LookKeeps(owner, s.host, s.applier.todo, s.applier.records);
    case Look => LookKeeps(owner, s.host, s.applier.todo, s.applier.records);
    case Mark => WorkStays(owner, s.host, r.host, [s.applier.file] + s.applier.todo, s.applier.records);
    case Open(ok) => OpenKeeps(owner, s, ok);
    case Register(ok, version, priority) => RegisterKeeps(owner, s, ok, version, priority);
    case Commit(t) => SameLoaded(owner, s.host, r.host, s.applier);
    case FusePlugin(id) => SameLoaded(owner, s.host, r.host, s.applier);
    case _ =>
  }

  lemma NoRecordsYet(owner: string -> string, h: Host, files: seq<File>)
    requires Selectable(owner, files)
    ensures WorkOk(owner, h, files, [])
  {
  }

  lemma SameLoaded(owner: string -> string, h: Host, n: Host, a: Applier)
    requires ApplierOk(owner, h, a) && n.loaded == h.loaded
    ensures ApplierOk(owner, n, a)
  {
    hide TrimSpace, Selectable;
  }

  // ---- Over every run --------------------------------------------------------------------------------

  lemma StepKeeps(owner: string -> string, s: State, step: Step)
    requires Inv(owner, s) && Enabled(owner, s, step)
    ensures Inv(owner, Next(owner, s, step))
  {
    PlacesKeep(owner, s, step);
    KeyedKeep(owner, s, step);
    RecordsKeep(owner, s, step);
    MapsKeep(owner, s, step);
    RegistrationsKeep(owner, s, step);
    GatherersKeep(owner, s, step);
    ApplierKeeps(owner, s, step);
    hide OnePlace, Keyed, MapsFor, GatherersOk, RegistrationsOk, AllBacked, DistinctIds, ApplierOk, Next, Enabled;
  }

  lemma StartInv(owner: string -> string)
    ensures Inv(owner, INITIAL)
  {
    assert forall p :: Boxes(START)(p) == [];
  }

  lemma {:induction false} RunKeeps(owner: string -> string, s: State, steps: seq<Step>)
    requires Inv(owner, s) && Legal(owner, s, steps)
    ensures Inv(owner, Run(owner, s, steps))
    decreases |steps|
  {
    hide Inv, Next, Enabled;
    if |steps| > 0 {
      StepKeeps(owner, s, steps[0]);
      RunKeeps(owner, Next(owner, s, steps[0]), steps[1..]);
    }
  }

  // Conservation: whatever loads, fails, reloads, unloads and shuts down, each installed
  // client is in exactly one of loaded, retired or handed to shutdown, is handed over at
  // most once, and no record of the published snapshot calls a client already handed over.
  lemma ClientsConserved(owner: string -> string, steps: seq<Step>)
    requires Legal(owner, INITIAL, steps)
    ensures var h := Run(owner, INITIAL, steps).host;
            && (forall c :: 0 <= c < h.installed ==> InOnePlace(Boxes(h), c))
            && NoRepeats(h.handed)
            && (forall i :: 0 <= i < |h.snapshot.records| ==> h.snapshot.records[i].client !in h.handed)
  {
    hide InOnePlace, OnePlace, MapsFor, GatherersOk, ApplierOk, Keyed, RegistrationsOk, DistinctIds, Legal, Run;
    StartInv(owner);
    RunKeeps(owner, INITIAL, steps);
    var h := Run(owner, INITIAL, steps).host;
    forall c | 0 <= c < h.installed ensures InOnePlace(Boxes(h), c) {
      Places.Found(Boxes(h), h.installed, c);
    }
    HandedOnce(h);
    forall i | 0 <= i < |h.snapshot.records| ensures h.snapshot.records[i].client !in h.handed {
      BackedNotHanded(h, h.snapshot.records[i]);
    }
  }

  lemma HandedOnce(h: Host)
    requires OnePlace(Boxes(h), h.installed)
    ensures NoRepeats(h.handed)
  {
    assert Boxes(h)(HandedOver) == h.handed;
  }

  lemma BackedNotHanded(h: Host, r: Record)
    requires OnePlace(Boxes(h), h.installed) && Backed(h, r)
    ensures r.client !in h.handed
  {
    assert Boxes(h)(HandedOver) == h.handed;
    if Holds(h.loaded[r.id], r) {
      assert r.client in Boxes(h)(Place.Live(r.id));
    } else {
      var ls := RetiredFor(h, r.id);
      var i :| 0 <= i < |ls| && Holds(ls[i], r);
      assert Clients(ls)[i] == r.client;
      assert r.client in Boxes(h)(Old(r.id));
    }
  }

  // No resurrection: at every moment, in any interleaving, only loaded plugins have model
  // registrations or providers, and only loaded plugins are in the published snapshot.
  lemma OnlyLoadedRegister(owner: string -> string, steps: seq<Step>)
    requires Legal(owner, INITIAL, steps)
    ensures var h := Run(owner, INITIAL, steps).host;
            && h.modelRegistrations.Keys <= h.loaded.Keys && h.modelProviders.Keys <= h.loaded.Keys
            && forall i :: 0 <= i < |h.snapshot.records| ==> h.snapshot.records[i].id in h.loaded
  {
    hide OnePlace, MapsFor, GatherersOk, ApplierOk, Keyed, DistinctIds, Legal, Run;
    StartInv(owner);
    RunKeeps(owner, INITIAL, steps);
    var h := Run(owner, INITIAL, steps).host;
    forall i | 0 <= i < |h.snapshot.records| ensures h.snapshot.records[i].id in h.loaded {
      assert Backed(h, h.snapshot.records[i]);
    }
  }

  // The steps never install this plugin.
  ghost predicate NeverInstalls(owner: string -> string, s: State, steps: seq<Step>, id: string)
    requires Legal(owner, s, steps)
    decreases |steps|
  {
    |steps| > 0 ==>
      && !(steps[0] == Open(true) && s.applier.file.id == id)
      && NeverInstalls(owner, Next(owner, s, steps[0]), steps[1..], id)
  }

  lemma {:induction false} StaysAway(owner: string -> string, s: State, steps: seq<Step>, id: string)
    requires Inv(owner, s) && Legal(owner, s, steps) && NeverInstalls(owner, s, steps, id) && id !in s.host.loaded
    ensures Inv(owner, Run(owner, s, steps)) && id !in Run(owner, s, steps).host.loaded
    decreases |steps|
  {
    hide Inv;
    if |steps| > 0 {
      StepKeeps(owner, s, steps[0]);
      NotInstalled(owner, s, steps[0], id);
      StaysAway(owner, Next(owner, s, steps[0]), steps[1..], id);
    }
  }

  // No section but the one that installs a client adds a plugin to those that are loaded.
  lemma NotInstalled(owner: string -> string, s: State, step: Step, id: string)
    requires Enabled(owner, s, step) && id !in s.host.loaded && !(step == Open(true) && s.applier.file.id == id)
    ensures id !in Next(owner, s, step).host.loaded
  {
    hide TrimSpace, Without, Fallbacks, Lists, AfterLook, Selectable, HasId, Publish, Disable, Install, Unload,
        ShutDown,
         CommitModels;
    match step
    case Open(ok) => InstallLoads(s.host, s.applier.file, s.applier.replaced);
    case UnloadPlugin(gone) => UnloadRemoves(s.host, gone);
    case _ => KeptLoaded(owner, s, step);
  }

  lemma InstallLoads(h: Host, file: File, replaced: Option<Loaded>)
    ensures Install(h, file, replaced).loaded.Keys == h.loaded.Keys + {file.id}
  {
  }

  lemma KeptLoaded(owner: string -> string, s: State, step: Step)
    requires Enabled(owner, s, step) && !step.Open? && !step.UnloadPlugin?
    ensures Next(owner, s, step).host.loaded.Keys <= s.host.loaded.Keys
  {
    hide TrimSpace, Rebuilt, Fallbacks, Lists, AfterLook, Selectable, HasId, Providers;
  }

  // After an unload nothing but loading the plugin again brings it back: no registration
  // computed before the unload, committed at any later time, makes it reappear.
  lemma UnloadSticks(owner: string -> string, before: seq<Step>, id: string, after: seq<Step>)
    requires Legal(owner, INITIAL, before) && Enabled(owner, Run(owner, INITIAL, before), UnloadPlugin(id))
    requires var u := Next(owner, Run(owner, INITIAL, before), UnloadPlugin(id));
             Legal(owner, u, after) && NeverInstalls(owner, u, after, id)
    ensures var h := Run(owner, Next(owner, Run(owner, INITIAL, before), UnloadPlugin(id)), after).host;
            && id !in h.loaded && id !in h.modelRegistrations && id !in h.modelProviders
            && !HasId(h.snapshot.records, id)
  {
    hide Inv, Legal, Run, Enabled;
    StartInv(owner);
    RunKeeps(owner, INITIAL, before);
    var m := Run(owner, INITIAL, before);
    StepKeeps(owner, m, UnloadPlugin(id));
    var u := Next(owner, m, UnloadPlugin(id));
    UnloadRemoves(m.host, id);
    StaysAway(owner, u, after, id);
    GoneEverywhere(owner, Run(owner, u, after), id);
  }

  lemma UnloadRemoves(h: Host, id: string)
    ensures Unload(h, id).loaded.Keys == h.loaded.Keys - {id}
  {
    hide Without;
  }

  lemma GoneEverywhere(owner: string -> string, s: State, id: string)
    requires Inv(owner, s) && id !in s.host.loaded
    ensures id !in s.host.modelRegistrations && id !in s.host.modelProviders && !HasId(s.host.snapshot.records, id)
  {
    hide OnePlace, MapsFor, GatherersOk, ApplierOk, Keyed, DistinctIds;
    var records := s.host.snapshot.records;
    forall i | 0 <= i < |records| ensures records[i].id != id {
      assert Backed(s.host, records[i]);
    }
  }

  // The identity check agrees with the snapshot: at every moment it holds of an id, a path
  // and a version exactly when the published snapshot has a record with that trimmed id,
  // that path and that trimmed version.
  lemma IdentityAgrees(owner: string -> string, steps: seq<Step>, id: string, path: string, version: string)
    requires Legal(owner, INITIAL, steps)
    ensures var h := Run(owner, INITIAL, steps).host;
            Current(h.maps, id, path, version) <==>
            exists i :: 0 <= i < |h.snapshot.records| && Matches(h.snapshot.records[i], id, path, version)
  {
    hide OnePlace, MapsFor, GatherersOk, ApplierOk, Keyed, RegistrationsOk, DistinctIds, AllBacked, Legal, Run,
         TrimSpace;
    StartInv(owner);
    RunKeeps(owner, INITIAL, steps);
    var h := Run(owner, INITIAL, steps).host;
    BackedFileable(owner, h, h.snapshot.records);
    CurrentAgrees(owner, h.maps, h.snapshot.records, id, path, version);
  }

  predicate Matches(r: Record, id: string, path: string, version: string)
  {
    r.id == TrimSpace(id) && r.path == path && TrimSpace(r.version) == TrimSpace(version)
  }

  lemma CurrentAgrees(owner: string -> string, m: Maps, records: seq<Record>, id: string, path: string, version: string)
    requires MapsFor(m, records) && Fileable(owner, records)
    ensures Current(m, id, path, version) <==> exists i :: 0 <= i < |records| && Matches(records[i], id, path, version)
  {
    hide TrimSpace;
    if Current(m, id, path, version) {
      var i :| 0 <= i < |records| && records[i].id == TrimSpace(id);
      assert Filed(m, records[i]);
      assert Matches(records[i], id, path, version);
    }
    if i :| 0 <= i < |records| && Matches(records[i], id, path, version) {
      assert Filed(m, records[i]);
    }
  }
}
