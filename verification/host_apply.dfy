// What ApplyConfig comes to: which files reach the published snapshot, and as which records.
module HostApply {
  import opened HostState
  import opened Ordering
  import opened RecordOrder
  import opened Text

  datatype Item = Item(enabled: bool, priority: int)

  // The configured items, the ids whose library can be opened, and the ids whose plugin
  // registers, each with the version it names.
  datatype Conditions = Conditions(items: map<string, Item>, opens: set<string>, registers: map<string, string>)

  predicate IsEnabled(c: Conditions, id: string)
  {
    id in c.items && c.items[id].enabled
  }

  // The plugins that are configured and switched off.
  function Off(c: Conditions): set<string>
  {
    set id | id in c.items && !c.items[id].enabled
  }

  // A fused plugin is left alone, unless its file has moved.
  predicate Wanted(h: Host, c: Conditions, file: File)
  {
    IsEnabled(c, file.id) && !(file.id in h.fused && Replaced(h, file).None?)
  }

  predicate Reaches(h: Host, c: Conditions, file: File)
  {
    Wanted(h, c, file) && (AlreadyLoaded(h, file) || file.id in c.opens) && file.id in c.registers
  }

  // One pass of the loop.
  function Applied(h: Host, c: Conditions, file: File): Host
  {
    if !Wanted(h, c, file) then h
    else if AlreadyLoaded(h, file) then Registered(h, c, file)
    else
      var marked := MarkLoading(h, file.id);
      if file.id in c.opens then Registered(Install(marked, file, Replaced(h, file)), c, file)
          else LoadFailed(marked, file.id)
  }

  function Registered(h: Host, c: Conditions, file: File): Host
    requires file.id in h.loaded
  {
    if file.id in c.registers then Named(h, file.id, c.registers[file.id]) else h
  }

  predicate HasRecord(h: Host, c: Conditions, file: File)
  {
    AlreadyLoaded(h, file) && file.id in c.items
  }

  function RecordOf(h: Host, c: Conditions, file: File): Record
    requires HasRecord(h, c, file)
  {
    Record(file.id, file.path, file.version, c.items[file.id].priority, h.loaded[file.id].client)
  }

  // A pass leaves the other plugins as they are, and a file that reaches the end of it loaded.
  predicate SameFor(h: Host, n: Host, id: string)
  {
    && (id in n.fused <==> id in h.fused)
    && (id in n.loaded <==> id in h.loaded)
    && (id in h.loaded ==> n.loaded[id].path == h.loaded[id].path && n.loaded[id].client == h.loaded[id].client)
  }

  lemma AppliedOthers(h: Host, c: Conditions, file: File, id: string)
    requires id != file.id
    ensures SameFor(h, Applied(h, c, file), id)
  {
    hide Install, Registered, Wanted, Replaced;
    if AlreadyLoaded(h, file) {
      RegisteredOthers(h, c, file, id);
    } else {
      var installed := Install(MarkLoading(h, file.id), file, Replaced(h, file));
      InstallOthers(MarkLoading(h, file.id), file, Replaced(h, file), id);
      RegisteredOthers(installed, c, file, id);
    }
  }

  lemma InstallOthers(h: Host, file: File, replaced: Option<Loaded>, id: string)
    requires id != file.id
    ensures file.id in Install(h, file, replaced).loaded && SameFor(h, Install(h, file, replaced), id)
  {
  }

  lemma RegisteredOthers(h: Host, c: Conditions, file: File, id: string)
    requires file.id in h.loaded && id != file.id
    ensures SameFor(h, Registered(h, c, file), id)
  {
    hide TrimSpace;
  }

  lemma AppliedReached(h: Host, c: Conditions, file: File)
    requires Reaches(h, c, file)
    ensures HasRecord(Applied(h, c, file), c, file)
  {
    hide TrimSpace;
  }

  // The host after the first n files, and the records collected by then.
  function AppliedAll(h: Host, c: Conditions, files: seq<File>, n: nat): Host
    requires n <= |files|
  {
    if n == 0 then h else Applied(AppliedAll(h, c, files, n - 1), c, files[n - 1])
  }

  function Collected(h: Host, c: Conditions, files: seq<File>, n: nat): seq<Record>
    requires n <= |files|
  {
    if n == 0 then []
    else
      var before, file := AppliedAll(h, c, files, n - 1), files[n - 1];
      Collected(h, c, files, n - 1) +
      if !Reaches(before, c, file) then []
      else
        AppliedReached(before, c, file);
        [RecordOf(Applied(before, c, file), c, file)]
  }

  // The files that reach the snapshot, judged by the host as ApplyConfig finds it.
  function Reached(h: Host, c: Conditions, files: seq<File>, n: nat): seq<File>
    requires n <= |files|
  {
    if n == 0 then [] else Reached(h, c, files, n - 1) + if Reaches(h, c, files[n - 1]) then [files[n - 1]] else []
  }

  lemma {:induction false} ReachedIs(h: Host, c: Conditions, files: seq<File>, n: nat)
    requires n <= |files|
    ensures forall f :: f in Reached(h, c, files, n) <==> f in files[..n] && Reaches(h, c, f)
    decreases n
  {
    hide Reaches;
    if n > 0 {
      ReachedIs(h, c, files, n - 1);
      assert files[..n] == files[..n - 1] + [files[n - 1]];
    }
  }

  predicate RecordsOf(h: Host, c: Conditions, files: seq<File>, records: seq<Record>)
  {
    |records| == |files| && forall i ::
        0 <= i < |files| ==> HasRecord(h, c, files[i]) && records[i] == RecordOf(h, c, files[i])
  }

  lemma {:induction false} OthersSame(h: Host, c: Conditions, files: seq<File>, n: nat, id: string)
    requires n <= |files| && forall i :: 0 <= i < n ==> files[i].id != id
    ensures SameFor(h, AppliedAll(h, c, files, n), id)
    decreases n
  {
    hide Applied;
    if n > 0 {
      OthersSame(h, c, files, n - 1, id);
      AppliedOthers(AppliedAll(h, c, files, n - 1), c, files[n - 1], id);
    }
  }

  // However the passes go, what they collect are the records of exactly those files.
  lemma {:induction false} CollectedAre(h: Host, c: Conditions, files: seq<File>, n: nat)
    requires NoRepeatedIds(files) && n <= |files|
    ensures RecordsOf(AppliedAll(h, c, files, n), c, Reached(h, c, files, n), Collected(h, c, files, n))
    decreases n
  {
    hide Applied, Reaches, HasRecord;
    if n > 0 {
      CollectedAre(h, c, files, n - 1);
      var before, file := AppliedAll(h, c, files, n - 1), files[n - 1];
      OthersSame(h, c, files, n - 1, file.id);
      SameReaches(h, before, c, file);
      ReachedIs(h, c, files, n - 1);
      var reached, after := Reached(h, c, files, n - 1), Applied(before, c, file);
      forall i | 0 <= i < |reached|
        ensures HasRecord(after, c, reached[i]) && RecordOf(after, c, reached[i]) == RecordOf(before, c, reached[i]) {
        assert reached[i] in files[..n - 1];
        AppliedOthers(before, c, file, reached[i].id);
        SameRecord(before, after, c, reached[i]);
      }
      if Reaches(h, c, file) {
        AppliedReached(before, c, file);
      }
    }
  }

  lemma SameReaches(h: Host, n: Host, c: Conditions, file: File)
    requires SameFor(h, n, file.id)
    ensures Reaches(n, c, file) <==> Reaches(h, c, file)
  {
  }

  lemma SameRecord(h: Host, n: Host, c: Conditions, file: File)
    requires SameFor(h, n, file.id) && HasRecord(h, c, file)
    ensures HasRecord(n, c, file) && RecordOf(n, c, file) == RecordOf(h, c, file)
  {
  }

  // What a published snapshot has to be after ApplyConfig on these files.
  ghost predicate Publishes(h: Host, c: Conditions, files: seq<File>, n: Host)
  {
    && n.snapshot.enabled && Ordered(n.snapshot.records, Leq)
    && exists records: seq<Record> ::
      && multiset(n.snapshot.records) == multiset(records)
      && RecordsOf(n, c, Reached(h, c, files, |files|), records)
  }

  lemma PublishesSorted(h: Host, c: Conditions, files: seq<File>, order: seq<Record>)
    requires NoRepeatedIds(files) && Ordered(order, Leq) && multiset(order) == multiset(Collected(h, c, files, |files|))
    ensures Publishes(h, c, files, Publish(AppliedAll(h, c, files, |files|), order))
  {
    hide Leq, Collected, Reached;
    CollectedAre(h, c, files, |files|);
    var m := AppliedAll(h, c, files, |files|);
    assert RecordsOf(Publish(m, order), c, Reached(h, c, files, |files|), Collected(h, c, files, |files|));
  }

  // So a plugin has a record in the new snapshot exactly when a file of it reaches it.
  lemma PublishedIds(h: Host, c: Conditions, files: seq<File>, n: Host, id: string)
    requires Publishes(h, c, files, n)
    ensures HasId(n.snapshot.records, id) <==> exists i ::
        0 <= i < |files| && files[i].id == id && Reaches(h, c, files[i])
  {
    hide Leq, Ordered, Reaches, HasRecord, Reached;
    var reached := Reached(h, c, files, |files|);
    ReachedIs(h, c, files, |files|);
    var records: seq<Record> :| multiset(n.snapshot.records) == multiset(records) && RecordsOf(n, c, reached, records);
    Permuted(n.snapshot.records, records);
    assert files[..|files|] == files;
    if HasId(n.snapshot.records, id) {
      var k :| 0 <= k < |n.snapshot.records| && n.snapshot.records[k].id == id;
      assert n.snapshot.records[k] in records;
      var j :| 0 <= j < |records| && records[j] == n.snapshot.records[k];
      assert reached[j] in files;
    }
    if i :| 0 <= i < |files| && files[i].id == id && Reaches(h, c, files[i]) {
      assert files[i] in reached;
      var j :| 0 <= j < |reached| && reached[j] == files[i];
      assert records[j] in n.snapshot.records && records[j].id == id;
    }
  }
}
