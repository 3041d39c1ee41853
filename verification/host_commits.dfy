// What a RegisterModels call commits, over every interleaving of the host's sections.
module HostCommits {
  import opened HostState
  import opened HostLaws

  // The answers that thread t was given since it last read the snapshot, `sofar` before.
  function Told(steps: seq<Step>, t: nat, sofar: map<string, Registration>): map<string, Registration>
  {
    if |steps| == 0 then sofar
    else
      var told := match steps[0]
                  case ReadSnapshot(u) => if u == t then map[] else sofar
                  case Gather(u, id, registration) => if u == t then sofar[id := registration] else sofar
                  case _ => sofar;
      Told(steps[1..], t, told)
  }

  // The snapshot it read last, `first` before.
  ghost function Read(owner: string -> string, s: State, steps: seq<Step>, t: nat, first: Snapshot): Snapshot
    requires Legal(owner, s, steps)
    decreases |steps|
  {
    if |steps| == 0 then first
    else Read(owner, Next(owner, s, steps[0]), steps[1..], t,
              if steps[0] == ReadSnapshot(t) then s.host.snapshot else first)
  }

  lemma StepTells(owner: string -> string, s: State, step: Step, t: nat)
    requires Enabled(owner, s, step)
    ensures var g, r := s.gatherers, Next(owner, s, step).gatherers;
            match step
            case ReadSnapshot(u) => if u == t then t in r && r[t] == Gathering(s.host.snapshot, map[])
                else (t in r <==> t in g) && (t in r ==> r[t] == g[t])
            case Gather(u, id, registration) => if u == t then t in g && t in r && r[t].seen == g[t].seen
                && r[t].next == g[t].next[id := registration]
                else (t in r <==> t in g) && (t in r ==> r[t] == g[t])
            case Commit(u) => if u == t then t !in r else (t in r <==> t in g) && (t in r ==> r[t] == g[t])
            case _ => r == g
  {
    hide Publish, Disable, Install, Unload, ShutDown, CommitModels, Named, Fallbacks, AfterLook, Lists, Selectable;
  }

  lemma {:induction false} GatheredIs(owner: string -> string, s: State, steps: seq<Step>, t: nat,
          sofar: map<string, Registration>, first: Snapshot)
    requires Legal(owner, s, steps) && t in Run(owner, s, steps).gatherers
    requires t in s.gatherers ==> s.gatherers[t] == Gathering(first, sofar)
    ensures var g := Run(owner, s, steps).gatherers[t];
            g.next == Told(steps, t, sofar) && g.seen == Read(owner, s, steps, t, first)
    decreases |steps|
  {
    hide Enabled, Next;
    if |steps| > 0 {
      StepTells(owner, s, steps[0], t);
      var n := Next(owner, s, steps[0]);
      match steps[0]
      case ReadSnapshot(u) =>
        if u == t { GatheredIs(owner, n, steps[1..], t, map[], s.host.snapshot); }
        else { GatheredIs(owner, n, steps[1..], t, sofar, first); }
      case Gather(u, id, registration) =>
        GatheredIs(owner, n, steps[1..], t, if u == t then sofar[id := registration] else sofar, first);
      case _ => GatheredIs(owner, n, steps[1..], t, sofar, first);
    }
  }

  // A commit is all or nothing: if the snapshot the thread read is still the published one,
  // both maps hold exactly the answers it was given since; otherwise the host is unchanged.
  lemma CommitExactly(owner: string -> string, steps: seq<Step>, t: nat)
    requires Legal(owner, INITIAL, steps) && Enabled(owner, Run(owner, INITIAL, steps), Commit(t))
    ensures var h := Run(owner, INITIAL, steps).host;
            var n := Next(owner, Run(owner, INITIAL, steps), Commit(t)).host;
            var told := Told(steps, t, map[]);
            if h.snapshot == Read(owner, INITIAL, steps, t, h.snapshot) then
              && n.modelRegistrations == told && n.modelProviders.Keys == told.Keys
              && (forall id :: id in told ==> n.modelProviders[id] == told[id].provider)
              && n == h.(modelProviders := n.modelProviders, modelRegistrations := n.modelRegistrations)
            else n == h
  {
    hide Inv, Legal, Run;
    var s := Run(owner, INITIAL, steps);
    StartInv(owner);
    RunKeeps(owner, INITIAL, steps);
    SeenIs(owner, s, t);
    GatheredIs(owner, INITIAL, steps, t, map[], s.host.snapshot);
  }

  // Snapshots with one serial number are one snapshot.
  lemma SeenIs(owner: string -> string, s: State, t: nat)
    requires Inv(owner, s) && t in s.gatherers
    ensures s.host.snapshot.serial == s.gatherers[t].seen.serial <==> s.host.snapshot == s.gatherers[t].seen
  {
    assert GathererOk(s.host, s.gatherers[t]);
  }
}
