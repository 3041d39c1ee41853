// The registry of host callback contexts and the cleanups they own, as atomic sections,
// with every interleaving of opening, adding, closing and running.
module CallbackContexts {
  import opened Decimal
  import opened Places

  // A cleanup, numbered in the order of the addCleanup calls that carry one.
  type Cleanup = nat

  // ---- The registry ------------------------------------------------------------------------

  datatype Registry = Registry(next: nat, contexts: map<string, seq<Cleanup>>)

  const MAX_UINT64: nat := 0xFFFF_FFFF_FFFF_FFFF

  // open before its lock: the id of the next context
  function Reserve(r: Registry): Registry
  {
    r.(next := if r.next == MAX_UINT64 then 0 else r.next + 1)
  }

  // open under its lock
  function Insert(r: Registry, id: string): Registry
  {
    r.(contexts := r.contexts[id := []])
  }

  // the close function under its lock: what it takes, and what is left
  function Pending(r: Registry, id: string): seq<Cleanup>
  {
    if id in r.contexts then r.contexts[id] else []
  }

  function Remove(r: Registry, id: string): Registry
  {
    r.(contexts := r.contexts - {id})
  }

  // addCleanup under its lock, for a context that is there
  function Append(r: Registry, id: string, c: Cleanup): Registry
    requires id in r.contexts
  {
    r.(contexts := r.contexts[id := r.contexts[id] + [c]])
  }

  // The record of which cleanups have run, in order.
  class RunLog {
    var ran: seq<Cleanup>

    method Run(c: Cleanup)
      modifies this
      ensures ran == old(ran) + [c]
    {
      ran := ran + [c];
    }
  }

  class CallbackContextRegistry {
    var next: nat
    var contexts: map<string, seq<Cleanup>>

    ghost function View(): Registry
      reads this
    {
      Registry(next, contexts)
    }

    constructor ()
      ensures View() == Registry(0, map[])
    {
      next, contexts := 0, map[];
    }

    method NextId() returns (id: string)
      modifies this`next
      ensures View() == Reserve(old(View())) && id == Itoa(next)
      ensures next == if old(next) == 0xFFFF_FFFF_FFFF_FFFF then 0 else old(next) + 1
    {
      next := if next == MAX_UINT64 then 0 else next + 1;
      id := Itoa(next);
    }

    method OpenContext(id: string)
      modifies this`contexts
      ensures View() == Insert(old(View()), id)
      ensures contexts == old(contexts)[id := []]
    {
      contexts := contexts[id := []];
    }

    method TakeContext(id: string) returns (cleanup: seq<Cleanup>)
      modifies this`contexts
      ensures View() == Remove(old(View()), id) && cleanup == Pending(old(View()), id)
      ensures contexts == old(contexts) - {id} && cleanup == if id in old(contexts) then old(contexts)[id] else []
    {
      cleanup := if id in contexts then contexts[id] else [];
      contexts := contexts - {id};
    }

    // addCleanup, whose caller runs the cleanup itself when the context is gone.
    method AddCleanup(id: string, c: Cleanup, log: RunLog) returns (kept: bool)
      requires log as object != this as object
      modifies this`contexts, log
      ensures kept == (id != "" && id in old(contexts))
      ensures View() == if kept then Append(old(View()), id, c) else old(View())
      ensures contexts == if kept then old(contexts)[id := old(contexts)[id] + [c]] else old(contexts)
      ensures log.ran == if kept || id == "" then old(log.ran) else old(log.ran) + [c]
    {
      if id == "" {
        return false;
      }
      kept := id in contexts;
      if kept {
        contexts := contexts[id := contexts[id] + [c]];
      }
      if !kept {
        log.Run(c);
      }
    }
  }

  // The close function that open returns, with its sync.Once.
  class Closer {
    const registry: CallbackContextRegistry
    const id: string
    var done: bool

    constructor (registry: CallbackContextRegistry, id: string)
      ensures this.registry == registry && this.id == id && !done
    {
      this.registry, this.id, done := registry, id, false;
    }

    // Takes the cleanups of the context and runs them in the order they were added, the
    // first time only.
    method Close(log: RunLog)
      requires log as object != registry as object && log as object != this as object
      modifies this, registry`contexts, log
      ensures done
      ensures registry.contexts == old(registry.contexts) - (if old(done) then {} else {id})
      ensures log.ran == old(log.ran) +
                if old(done) || id !in old(registry.contexts) then [] else old(registry.contexts)[id]
      ensures registry.View() == if old(done) then old(registry.View()) else Remove(old(registry.View()), id)
      ensures log.ran == old(log.ran) + if old(done) then [] else Pending(old(registry.View()), id)
    {
      if done {
        return;
      }
      done := true;
      var cleanup := registry.TakeContext(id);
      for i := 0 to |cleanup|
        invariant done && registry.View() == Remove(old(registry.View()), id)
        invariant registry.contexts == old(registry.contexts) - {id}
        invariant log.ran == old(log.ran) + cleanup[..i]
      {
        log.Run(cleanup[i]);
      }
      assert cleanup[..|cleanup|] == cleanup;
    }
  }

  // ---- All threads -------------------------------------------------------------------------

  // Contexts go through reserved (an id was drawn), open (inserted) and closed. A runner is
  // a thread that owns cleanups it still has to run.
  datatype State = State(
    registry: Registry,
    reserved: set<nat>,
    live: set<nat>,
    closed: set<nat>,
    todo: map<nat, seq<Cleanup>>,
    ran: seq<Cleanup>,
    issued: nat)

  datatype Step =
    | Draw
    | Open(n: nat)
    | Add(id: string, runner: nat)
    | Close(n: nat, runner: nat)
    | RunNext(runner: nat)

  // A step that its thread can take now. The counter of ids is taken not to go round: that
  // needs 2^64 contexts.
  predicate Enabled(s: State, step: Step)
  {
    match step
    case Draw => s.registry.next < MAX_UINT64
    case Open(n) => n in s.reserved
    case Add(id, runner) => id != "" && runner !in s.todo
    case Close(n, runner) => n in s.live && runner !in s.todo
    case RunNext(runner) => runner in s.todo && s.todo[runner] != []
  }

  function Next(s: State, step: Step): State
    requires Enabled(s, step)
  {
    match step
    case Draw => s.(registry := Reserve(s.registry), reserved := s.reserved + {s.registry.next + 1})
    case Open(n) => s.(registry := Insert(s.registry, Itoa(n)), reserved := s.reserved - {n}, live := s.live + {n})
    case Add(id, runner) =>
      if id in s.registry.contexts then s.(registry := Append(s.registry, id, s.issued), issued := s.issued + 1)
      else s.(todo := s.todo[runner := [s.issued]], issued := s.issued + 1)
    case Close(n, runner) =>
      s.(registry := Remove(s.registry, Itoa(n)), live := s.live - {n}, closed := s.closed + {n},
         todo := s.todo[runner := Pending(s.registry, Itoa(n))])
    case RunNext(runner) =>
      s.(todo := s.todo[runner := s.todo[runner][1..]], ran := s.ran + [s.todo[runner][0]])
  }

  predicate Legal(s: State, steps: seq<Step>)
    decreases |steps|
  {
    |steps| == 0 || (Enabled(s, steps[0]) && Legal(Next(s, steps[0]), steps[1..]))
  }

  function Run(s: State, steps: seq<Step>): State
    requires Legal(s, steps)
    decreases |steps|
  {
    if |steps| == 0 then s else Run(Next(s, steps[0]), steps[1..])
  }

  const INITIAL := State(Registry(0, map[]), {}, {}, {}, map[], [], 0)

  // ---- Where a cleanup is ------------------------------------------------------------------

  datatype Place = Waiting(id: string) | Handed(runner: nat) | Done

  function Box(s: State, p: Place): seq<Cleanup>
  {
    match p
    case Waiting(id) => Pending(s.registry, id)
    case Handed(runner) => if runner in s.todo then s.todo[runner] else []
    case Done => s.ran
  }

  function Boxes(s: State): Place -> seq<nat>
  {
    p => Box(s, p)
  }

  // Every cleanup given to addCleanup is in exactly one place, once.
  ghost predicate Accounted(s: State)
  {
    OnePlace(Boxes(s), s.issued)
  }

  ghost predicate Registered(contexts: map<string, seq<Cleanup>>, live: set<nat>)
  {
    forall id :: id in contexts <==> exists n :: n in live && id == Itoa(n)
  }

  // The registry holds exactly the open contexts, and numbers are never drawn twice.
  ghost predicate IdsOk(s: State)
  {
    && s.reserved !! s.live && s.reserved !! s.closed && s.live !! s.closed
    && (forall n :: n in s.reserved || n in s.live || n in s.closed ==> 0 < n <= s.registry.next)
    && Registered(s.registry.contexts, s.live)
  }

  lemma ItoaInjective(m: nat, n: nat)
    ensures Itoa(m) == Itoa(n) ==> m == n
  {
    if Itoa(m) == Itoa(n) {
      DigitsInjective(m, n);
    }
  }

  lemma OpenRegisters(contexts: map<string, seq<Cleanup>>, live: set<nat>, n: nat)
    requires Registered(contexts, live)
    ensures Registered(contexts[Itoa(n) := []], live + {n})
  {
    assert n in live + {n};
    forall id | id in contexts ensures exists m :: m in live + {n} && id == Itoa(m) {
      var m :| m in live && id == Itoa(m);
      assert m in live + {n};
    }
  }

  lemma CloseRegisters(contexts: map<string, seq<Cleanup>>, live: set<nat>, n: nat)
    requires Registered(contexts, live)
    ensures Registered(contexts - {Itoa(n)}, live - {n})
  {
    forall m: nat ensures Itoa(m) == Itoa(n) ==> m == n { ItoaInjective(m, n); }
    forall id | id in contexts && id != Itoa(n) ensures exists m :: m in live - {n} && id == Itoa(m) {
      var m :| m in live && id == Itoa(m);
      assert m in live - {n};
    }
  }

  lemma IdsKeep(s: State, step: Step)
    requires IdsOk(s) && Enabled(s, step)
    ensures IdsOk(Next(s, step))
  {
    hide Registered, Itoa;
    match step
    case Draw =>
    case Open(n) => OpenRegisters(s.registry.contexts, s.live, n);
    case Close(n, _) => CloseRegisters(s.registry.contexts, s.live, n);
    case Add(id, _) => SameKeys(s.registry.contexts, Next(s, step).registry.contexts, s.live);
    case RunNext(_) =>
  }

  lemma SameKeys(a: map<string, seq<Cleanup>>, b: map<string, seq<Cleanup>>, live: set<nat>)
    requires Registered(a, live) && forall id :: id in a <==> id in b
    ensures Registered(b, live)
  {
  }

  lemma PlacesKeep(s: State, step: Step)
    requires IdsOk(s) && Accounted(s) && Enabled(s, step)
    ensures Accounted(Next(s, step))
  {
    hide OnePlace, IdsOk;
    var r := Next(s, step);
    match step
    case Draw => Same(Boxes(s), Boxes(r), s.issued);
    case Open(n) =>
      NotThere(s, n);
      Same(Boxes(s), Boxes(r), s.issued);
    case Add(id, runner) =>
      AddOne(Boxes(s), Boxes(r), s.issued, if id in s.registry.contexts then Waiting(id) else Handed(runner));
    case Close(n, runner) => MoveAll(Boxes(s), Boxes(r), s.issued, Waiting(Itoa(n)), Handed(runner));
    case RunNext(runner) => MoveFirst(Boxes(s), Boxes(r), s.issued, Handed(runner), Done);
  }

  // A context that is being inserted is not there yet.
  lemma NotThere(s: State, n: nat)
    requires IdsOk(s) && n in s.reserved
    ensures Itoa(n) !in s.registry.contexts
  {
    if Itoa(n) in s.registry.contexts {
      var m :| m in s.live && Itoa(n) == Itoa(m);
      ItoaInjective(n, m);
    }
  }

  lemma StartOk()
    ensures IdsOk(INITIAL) && Accounted(INITIAL)
  {
    assert forall p :: Boxes(INITIAL)(p) == [];
  }

  lemma {:induction false} RunKeeps(s: State, steps: seq<Step>)
    requires IdsOk(s) && Accounted(s) && Legal(s, steps)
    ensures IdsOk(Run(s, steps)) && Accounted(Run(s, steps))
    decreases |steps|
  {
    hide IdsOk, Accounted, Next;
    if |steps| > 0 {
      IdsKeep(s, steps[0]);
      PlacesKeep(s, steps[0]);
      RunKeeps(Next(s, steps[0]), steps[1..]);
    }
  }

  // ---- Over every run ----------------------------------------------------------------------

  // At every moment of every run each cleanup that was added under a non-empty id is in
  // exactly one place: waiting in one open context, handed to one runner, or done, and it
  // has been run at most once. Nothing waits under an id that is closed.
  lemma ExactlyOnePlace(steps: seq<Step>)
    requires Legal(INITIAL, steps)
    ensures var r := Run(INITIAL, steps);
            && (forall c :: 0 <= c < r.issued ==> InOnePlace(Boxes(r), c))
            && NoRepeats(r.ran)
            && (forall id :: id in r.registry.contexts ==> exists n :: n in r.live && id == Itoa(n))
            && (forall n :: n in r.closed ==> Box(r, Waiting(Itoa(n))) == [])
  {
    hide OnePlace, InOnePlace;
    StartOk();
    RunKeeps(INITIAL, steps);
    var r := Run(INITIAL, steps);
    forall c | 0 <= c < r.issued ensures InOnePlace(Boxes(r), c) {
      Found(Boxes(r), r.issued, c);
    }
    RanOnce(r);
    forall n | n in r.closed ensures Itoa(n) !in r.registry.contexts {
      if Itoa(n) in r.registry.contexts {
        var m :| m in r.live && Itoa(n) == Itoa(m);
        ItoaInjective(m, n);
      }
    }
  }

  lemma RanOnce(s: State)
    requires Accounted(s)
    ensures NoRepeats(s.ran)
  {
    assert Boxes(s)(Done) == s.ran;
  }

  // Once every context is closed and every runner has finished, every cleanup has been run
  // exactly once.
  lemma AllRunOnce(steps: seq<Step>)
    requires Legal(INITIAL, steps) && Run(INITIAL, steps).live == {}
    requires forall runner :: runner in Run(INITIAL, steps).todo ==> Run(INITIAL, steps).todo[runner] == []
    ensures var r := Run(INITIAL, steps);
            NoRepeats(r.ran) && forall c :: c in r.ran <==> 0 <= c < r.issued
  {
    StartOk();
    RunKeeps(INITIAL, steps);
    var r := Run(INITIAL, steps);
    RanOnce(r);
    forall c: nat ensures c in r.ran <==> c < r.issued {
      if c < r.issued {
        Found(Boxes(r), r.issued, c);
        var p :| c in Boxes(r)(p);
      }
      if c in r.ran {
        assert c in Boxes(r)(Done);
      }
    }
  }

  // What has been run stays run.
  lemma {:induction false} RanGrows(s: State, steps: seq<Step>)
    requires Legal(s, steps)
    ensures s.ran <= Run(s, steps).ran
    decreases |steps|
  {
    if |steps| > 0 {
      RanGrows(Next(s, steps[0]), steps[1..]);
    }
  }

  // A cleanup that has run stays run: at any later time it stands at the same place in the
  // order, nowhere else in it, and waits for nobody.
  lemma RanForGood(before: seq<Step>, after: seq<Step>, i: nat)
    requires Legal(INITIAL, before) && Legal(Run(INITIAL, before), after) && i < |Run(INITIAL, before).ran|
    ensures var m := Run(INITIAL, before);
            var r := Run(m, after);
            && i < |r.ran| && r.ran[i] == m.ran[i]
            && (forall j :: 0 <= j < |r.ran| && j != i ==> r.ran[j] != m.ran[i])
            && (forall p :: p != Done ==> m.ran[i] !in Boxes(r)(p))
  {
    hide IdsOk, Legal, Run;
    StartOk();
    RunKeeps(INITIAL, before);
    var m := Run(INITIAL, before);
    RunKeeps(m, after);
    RanGrows(m, after);
    var r := Run(m, after);
    assert Boxes(r)(Done) == r.ran;
    RanOnce(r);
    assert r.ran[i] == r.ran[..|m.ran|][i] == m.ran[i];
  }
}
