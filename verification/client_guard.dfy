// guardedPluginClient: calls and shutdown of one plugin client under a mutex and a
// condition variable, as atomic sections between two releases of the mutex, with every
// interleaving of any number of threads.
module ClientGuard {

  // ---- The guarded fields ----------------------------------------------------------------

  // inner says whether the client is still held.
  datatype Guard = Guard(calls: int, closed: bool, inner: bool)

  // Where a thread stands. First marks the Shutdown that set `closed`.
  datatype Phase =
    | Idle
    | InCall
    | Asleep(first: bool)
    | Woken(first: bool)
    | Closing
    | Running

  // What one section does to the guard and to the thread that runs it.
  datatype Section = Section(guard: Guard, phase: Phase, broadcast: bool)

  // acquire
  function Acquire(g: Guard): Section
  {
    if g.closed || !g.inner then Section(g, Idle, false) else Section(g.(calls := g.calls + 1), InCall, false)
  }

  // release
  function Release(g: Guard): Section
  {
    Section(g.(calls := g.calls - 1), Idle, g.calls - 1 == 0)
  }

  // The test of either wait loop, and what follows it when no call is left.
  function WaitOrLeave(g: Guard, first: bool): Section
  {
    if g.calls > 0 then Section(g, Asleep(first), false)
    else if first then Section(g.(inner := false), if g.inner then Closing else Idle, false)
    else Section(g, Idle, false)
  }

  // Shutdown up to its first wait or its end.
  function Shutdown(g: Guard): Section
  {
    if g.closed then WaitOrLeave(g, false) else WaitOrLeave(g.(closed := true), true)
  }

  class Client {}

  class GuardedPluginClient {
    var inner: Client?
    var calls: int
    var closed: bool

    ghost function View(): Guard
      reads this
    {
      Guard(calls, closed, inner != null)
    }

    constructor (inner: Client?)
      ensures View() == Guard(0, false, inner != null) && this.inner == inner
    {
      this.inner, calls, closed := inner, 0, false;
    }

    method TryAcquire() returns (client: Client?)
      modifies this`calls
      ensures View() == Acquire(old(View())).guard && (client != null <==> Acquire(old(View())).phase == InCall)
      ensures client == (if closed then null else inner)
      ensures calls == old(calls) + if client != null then 1 else 0
    {
      if closed || inner == null {
        return null;
      }
      calls := calls + 1;
      return inner;
    }

    method Leave() returns (broadcast: bool)
      modifies this`calls
      ensures View() == Release(old(View())).guard && broadcast == Release(old(View())).broadcast
      ensures calls == old(calls) - 1 && (broadcast <==> calls == 0)
    {
      calls := calls - 1;
      return calls == 0;
    }

    // From the lock in Shutdown to its first wait or its unlock. `taken` is the client
    // that it is left to shut down.
    method EnterShutdown() returns (phase: Phase, taken: Client?)
      modifies this`closed, this`inner
      ensures View() == Shutdown(old(View())).guard && phase == Shutdown(old(View())).phase
      ensures taken == if phase == Closing then old(inner) else null
      ensures closed && (phase.Asleep? <==> calls > 0) && (phase.Asleep? ==> phase.first == !old(closed))
      ensures inner == if calls > 0 || old(closed) then old(inner) else null
      ensures phase == Closing <==> calls <= 0 && !old(closed) && old(inner) != null
    {
      if closed {
        phase, taken := PassWait(false);
        return;
      }
      closed := true;
      phase, taken := PassWait(true);
    }

    // From the end of a wait to the next wait or the unlock.
    method PassWait(first: bool) returns (phase: Phase, taken: Client?)
      modifies this`inner
      ensures View() == WaitOrLeave(old(View()), first).guard && phase == WaitOrLeave(old(View()), first).phase
      ensures taken == if phase == Closing then old(inner) else null
      ensures (phase.Asleep? <==> calls > 0) && (phase.Asleep? ==> phase.first == first)
      ensures inner == if calls > 0 || !first then old(inner) else null
      ensures phase == Closing <==> calls <= 0 && first && old(inner) != null
    {
      if calls > 0 {
        return Asleep(first), null;
      }
      if !first {
        return Idle, null;
      }
      taken := inner;
      inner := null;
      phase := if taken != null then Closing else Idle;
    }
  }

  // ---- All threads -------------------------------------------------------------------------

  // `started` counts how often the client's own Shutdown has been started.
  datatype State = State(guard: Guard, threads: seq<Phase>, started: nat)

  datatype Step =
    | Call(t: nat)
    | Return(t: nat)
    | Close(t: nat)
    | Resume(t: nat)
    | StartInner(t: nat)
    | EndInner(t: nat)

  predicate Enabled(s: State, step: Step)
  {
    step.t < |s.threads| &&
    match step
    case Call(t) => s.threads[t] == Idle
    case Return(t) => s.threads[t] == InCall
    case Close(t) => s.threads[t] == Idle
    case Resume(t) => s.threads[t].Woken?
    case StartInner(t) => s.threads[t] == Closing
    case EndInner(t) => s.threads[t] == Running
  }

  // cond.Broadcast
  function WakeAll(threads: seq<Phase>): (r: seq<Phase>)
    ensures |r| == |threads|
  {
    seq(|threads|, i requires 0 <= i < |threads| => if threads[i].Asleep? then Woken(threads[i].first) else threads[i])
  }

  function After(s: State, t: nat, section: Section): State
    requires t < |s.threads|
  {
    s.(guard := section.guard,
        threads := (if section.broadcast then WakeAll(s.threads) else s.threads)[t := section.phase])
  }

  function Next(s: State, step: Step): State
    requires Enabled(s, step)
  {
    match step
    case Call(t) => After(s, t, Acquire(s.guard))
    case Return(t) => After(s, t, Release(s.guard))
    case Close(t) => After(s, t, Shutdown(s.guard))
    case Resume(t) => After(s, t, WaitOrLeave(s.guard, s.threads[t].first))
    case StartInner(t) => s.(threads := s.threads[t := Running], started := s.started + 1)
    case EndInner(t) => s.(threads := s.threads[t := Idle])
  }

  predicate Legal(s: State, steps: seq<Step>)
    decreases |steps|
  {
    |steps| == 0 || (Enabled(s, steps[0]) && Legal(Next(s, steps[0]), steps[1..]))
  }

  function Run(s: State, steps: seq<Step>): State
    requires Legal(s, steps)
    decreases |steps|
  {
    if |steps| == 0 then s else Run(Next(s, steps[0]), steps[1..])
  }

  // A new guard, with any number of threads about to use it.
  predicate Initial(s: State)
  {
    s.guard == Guard(0, false, true) && s.started == 0 && forall t :: 0 <= t < |s.threads| ==> s.threads[t] == Idle
  }

  // ---- The invariant -----------------------------------------------------------------------

  // The threads between acquire and release.
  function InCalls(threads: seq<Phase>): set<nat>
  {
    set t | 0 <= t < |threads| && threads[t] == InCall
  }

  // The first Shutdown, before it takes the client.
  predicate IsFirst(p: Phase)
  {
    (p.Asleep? || p.Woken?) && p.first
  }

  predicate OneAtMost(threads: seq<Phase>)
  {
    forall t, u :: 0 <= t < u < |threads| ==>
      !(IsFirst(threads[t]) && IsFirst(threads[u])) && !(threads[t] == Closing && threads[u] == Closing)
  }

  ghost predicate Inv(s: State)
  {
    && s.guard.calls == |InCalls(s.threads)|
    && PhasesOk(s.guard, s.threads)
    && OneAtMost(s.threads)
    && ClientOk(s.guard.inner, s.guard.closed, s.threads, s.started)
  }

  predicate PhasesOk(g: Guard, threads: seq<Phase>)
  {
    forall t :: 0 <= t < |threads| ==> PhaseOk(g, threads[t])
  }

  predicate SomeFirst(threads: seq<Phase>)
  {
    exists t :: 0 <= t < |threads| && IsFirst(threads[t])
  }

  // The client is held by the guard, or by the Shutdown that took it, or was shut down.
  predicate ClientOk(inner: bool, closed: bool, threads: seq<Phase>, started: nat)
  {
    && started <= 1
    && (Running in threads ==> started == 1)
    && (inner ==> started == 0)
    && (!inner ==> closed && (started == 0 <==> Closing in threads))
    && (inner && closed ==> SomeFirst(threads))
  }

  predicate PhaseOk(g: Guard, p: Phase)
  {
    match p
    case Idle => true
    case InCall => true
    case Asleep(first) => g.closed && g.calls > 0 && (first ==> g.inner)
    case Woken(first) => g.closed && g.calls == 0 && (first ==> g.inner)
    case Closing => g.closed && g.calls == 0 && !g.inner
    case Running => g.closed && g.calls == 0 && !g.inner
  }

  lemma InCallsJoin(threads: seq<Phase>, t: nat, p: Phase)
    requires t < |threads|
    ensures InCalls(threads[t := p]) == if p == InCall then InCalls(threads) + {t} else InCalls(threads) - {t}
  {
  }

  lemma InitialInv(s: State)
    requires Initial(s)
    ensures Inv(s)
  {
    assert InCalls(s.threads) == {};
  }

  // A phase in which a thread has nothing to do with the client's own shutdown.
  predicate Quiet(p: Phase)
  {
    !IsFirst(p) && p != Closing && p != Running
  }

  // Who else has a phase does not depend on where t goes from and to.
  lemma OthersStay(threads: seq<Phase>, t: nat, p: Phase, q: Phase)
    requires t < |threads| && q != p && q != threads[t]
    ensures q in threads[t := p] <==> q in threads
  {
    if q in threads {
      var u :| 0 <= u < |threads| && threads[u] == q;
      assert threads[t := p][u] == q;
    }
  }

  lemma FirstStays(threads: seq<Phase>, t: nat, p: Phase)
    requires t < |threads| && !IsFirst(threads[t]) && SomeFirst(threads)
    ensures SomeFirst(threads[t := p])
  {
    var f :| 0 <= f < |threads| && IsFirst(threads[f]);
    assert IsFirst(threads[t := p][f]);
  }

  // A quiet thread that stays quiet moves nothing of the client.
  lemma QuietKeeps(inner: bool, closed: bool, threads: seq<Phase>, started: nat, t: nat, p: Phase)
    requires t < |threads| && Quiet(threads[t]) && Quiet(p)
    requires OneAtMost(threads) && ClientOk(inner, closed, threads, started)
    ensures OneAtMost(threads[t := p]) && ClientOk(inner, closed, threads[t := p], started)
  {
    hide SomeFirst;
    OthersStay(threads, t, p, Closing);
    OthersStay(threads, t, p, Running);
    if inner && closed {
      FirstStays(threads, t, p);
    }
  }

  lemma CallKeeps(s: State, t: nat)
    requires Inv(s) && Enabled(s, Call(t))
    ensures Inv(Next(s, Call(t)))
  {
    hide OneAtMost, ClientOk, InCalls;
    var section := Acquire(s.guard);
    InCallsJoin(s.threads, t, section.phase);
    QuietKeeps(s.guard.inner, s.guard.closed, s.threads, s.started, t, section.phase);
    if section.phase == InCall {
      CallCounted(s.threads, t);
      assert PhasesOk(section.guard, s.threads) by { OpenPhases(s.guard, section.guard, s.threads); }
    } else {
      assert s.threads[t := Idle] == s.threads;
    }
  }

  lemma CallCounted(threads: seq<Phase>, t: nat)
    requires t < |threads| && threads[t] != InCall
    ensures |InCalls(threads) + {t}| == |InCalls(threads)| + 1
  {
  }

  // Before the guard is closed, no thread stands anywhere but in a call or at rest.
  lemma OpenPhases(g: Guard, h: Guard, threads: seq<Phase>)
    requires PhasesOk(g, threads) && !g.closed
    ensures PhasesOk(h, threads) && forall u :: 0 <= u < |threads| ==> threads[u] == Idle || threads[u] == InCall
  {
  }

  lemma ReturnKeeps(s: State, t: nat)
    requires Inv(s) && Enabled(s, Return(t))
    ensures Inv(Next(s, Return(t)))
  {
    hide OneAtMost, ClientOk, InCalls, WakeAll;
    var g, was := s.guard, if s.guard.calls == 1 then WakeAll(s.threads) else s.threads;
    if g.calls == 1 {
      WakeKeeps(s);
    } else {
      FewerCalls(g, s.threads);
    }
    InCallsJoin(was, t, Idle);
    ReturnCounted(was, t);
    QuietKeeps(g.inner, g.closed, was, s.started, t, Idle);
  }

  lemma ReturnCounted(threads: seq<Phase>, t: nat)
    requires t < |threads| && threads[t] == InCall
    ensures |InCalls(threads) - {t}| == |InCalls(threads)| - 1
  {
  }

  lemma FewerCalls(g: Guard, threads: seq<Phase>)
    requires PhasesOk(g, threads) && InCall in threads && g.calls == |InCalls(threads)| && g.calls != 1
    ensures PhasesOk(g.(calls := g.calls - 1), threads)
  {
    var u :| 0 <= u < |threads| && threads[u] == InCall;
    assert u in InCalls(threads);
  }

  // Waking everybody when the last call leaves.
  lemma WakeKeeps(s: State)
    requires Inv(s) && s.guard.calls == 1
    ensures var woken := WakeAll(s.threads);
            && InCalls(woken) == InCalls(s.threads)
            && PhasesOk(s.guard.(calls := 0), woken)
            && OneAtMost(woken)
            && ClientOk(s.guard.inner, s.guard.closed, woken, s.started)
            && forall u :: 0 <= u < |woken| && s.threads[u] == InCall ==> woken[u] == InCall
  {
    var woken := WakeAll(s.threads);
    WakeNotClosing(s.threads, Closing);
    WakeNotClosing(s.threads, Running);
    if SomeFirst(s.threads) {
      var f :| 0 <= f < |s.threads| && IsFirst(s.threads[f]);
      assert IsFirst(woken[f]);
    }
  }

  lemma WakeNotClosing(threads: seq<Phase>, p: Phase)
    requires !p.Woken? && !p.Asleep?
    ensures p in WakeAll(threads) <==> p in threads
  {
    forall u | 0 <= u < |threads| ensures WakeAll(threads)[u] == p <==> threads[u] == p {}
  }

  // The Shutdown that closes the guard: to sleep, or straight to the client.
  lemma FirstCloseKeeps(s: State, t: nat)
    requires Inv(s) && Enabled(s, Close(t)) && !s.guard.closed
    ensures Inv(Next(s, Close(t)))
  {
    hide InCalls;
    var section := Shutdown(s.guard);
    OpenPhases(s.guard, section.guard, s.threads);
    InCallsJoin(s.threads, t, section.phase);
    assert InCalls(s.threads) - {t} == InCalls(s.threads) by { NotCounted(s.threads, t); }
    assert s.threads[t := section.phase][t] == section.phase && s.guard.inner;
    assert Running !in s.threads && Closing !in s.threads;
  }

  // A later one: to sleep, or back at once.
  lemma LaterCloseKeeps(s: State, t: nat)
    requires Inv(s) && Enabled(s, Close(t)) && s.guard.closed
    ensures Inv(Next(s, Close(t)))
  {
    hide OneAtMost, ClientOk, InCalls;
    var section := Shutdown(s.guard);
    InCallsJoin(s.threads, t, section.phase);
    QuietKeeps(s.guard.inner, s.guard.closed, s.threads, s.started, t, section.phase);
    assert InCalls(s.threads) - {t} == InCalls(s.threads) by { NotCounted(s.threads, t); }
  }

  lemma NotCounted(threads: seq<Phase>, t: nat)
    requires t < |threads| && threads[t] != InCall
    ensures t !in InCalls(threads)
  {
  }

  lemma ResumeKeeps(s: State, t: nat)
    requires Inv(s) && Enabled(s, Resume(t))
    ensures Inv(Next(s, Resume(t)))
  {
    hide InCalls;
    var p := WaitOrLeave(s.guard, s.threads[t].first).phase;
    InCallsJoin(s.threads, t, p);
    assert InCalls(s.threads) - {t} == InCalls(s.threads) by { NotCounted(s.threads, t); }
    if s.threads[t].first {
      OthersStay(s.threads, t, p, Running);
      assert s.threads[t := p][t] == p;
    } else {
      QuietKeeps(s.guard.inner, s.guard.closed, s.threads, s.started, t, p);
    }
  }

  lemma InnerKeeps(s: State, step: Step)
    requires Inv(s) && Enabled(s, step) && (step.StartInner? || step.EndInner?)
    ensures Inv(Next(s, step))
  {
    hide InCalls, SomeFirst;
    var t, p := step.t, Next(s, step).threads[step.t];
    InCallsJoin(s.threads, t, p);
    assert InCalls(s.threads) - {t} == InCalls(s.threads) by { NotCounted(s.threads, t); }
    assert s.threads[t] in s.threads;
    if step.EndInner? {
      OthersStay(s.threads, t, p, Closing);
    } else {
      assert Closing !in s.threads[t := p];
    }
  }

  lemma StepKeeps(s: State, step: Step)
    requires Inv(s) && Enabled(s, step)
    ensures Inv(Next(s, step))
  {
    hide Inv, Next;
    match step
    case Call(t) => CallKeeps(s, t);
    case Return(t) => ReturnKeeps(s, t);
    case Close(t) => if s.guard.closed { LaterCloseKeeps(s, t); } else { FirstCloseKeeps(s, t); }
    case Resume(t) => ResumeKeeps(s, t);
    case StartInner(_) => InnerKeeps(s, step);
    case EndInner(_) => InnerKeeps(s, step);
  }

  lemma {:induction false} RunKeeps(s: State, steps: seq<Step>)
    requires Inv(s) && Legal(s, steps)
    ensures Inv(Run(s, steps))
    decreases |steps|
  {
    if |steps| > 0 {
      StepKeeps(s, steps[0]);
      RunKeeps(Next(s, steps[0]), steps[1..]);
    }
  }

  // ---- Over every run ----------------------------------------------------------------------

  // At every moment of every run: `calls` counts the threads in a call; a thread sleeps only
  // while a call is in flight, so no wake-up is lost; a woken Shutdown does not go back to
  // sleep; the client's own Shutdown has been started at most once, and a Shutdown that has
  // taken the client sees no call in flight.
  lemma GuardProtocol(s: State, steps: seq<Step>, t: nat)
    requires Initial(s) && Legal(s, steps) && t < |s.threads|
    ensures var r := Run(s, steps);
            && r.guard.calls == |InCalls(r.threads)|
            && r.started <= 1
            && |r.threads| == |s.threads|
            && (r.threads[t].Asleep? ==> InCalls(r.threads) != {})
            && (r.threads[t].Woken? ==> !WaitOrLeave(r.guard, r.threads[t].first).phase.Asleep?)
            && (r.threads[t] == Closing ==> InCalls(r.threads) == {} && r.started == 0 && !r.guard.inner)
            && (r.threads[t] == Running ==> InCalls(r.threads) == {} && r.started == 1 && !r.guard.inner)
  {
    InitialInv(s);
    RunKeeps(s, steps);
    ThreadsStay(s, steps);
    var r := Run(s, steps);
  }

  lemma {:induction false} ThreadsStay(s: State, steps: seq<Step>)
    requires Legal(s, steps)
    ensures |Run(s, steps).threads| == |s.threads|
    decreases |steps|
  {
    if |steps| > 0 {
      ThreadsStay(Next(s, steps[0]), steps[1..]);
    }
  }

  // Once closed, always closed, and no thread enters a call any more.
  lemma {:induction false} ClosedForGood(s: State, steps: seq<Step>)
    requires Inv(s) && Legal(s, steps) && s.guard.closed
    ensures Run(s, steps).guard.closed && InCalls(Run(s, steps).threads) <= InCalls(s.threads)
    decreases |steps|
  {
    hide Inv, Next, Enabled, InCalls;
    if |steps| > 0 {
      StepKeeps(s, steps[0]);
      StillClosed(s, steps[0]);
      ClosedForGood(Next(s, steps[0]), steps[1..]);
    }
  }

  lemma StillClosed(s: State, step: Step)
    requires Enabled(s, step) && s.guard.closed
    ensures Next(s, step).guard.closed && InCalls(Next(s, step).threads) <= InCalls(s.threads)
  {
    hide InCalls;
    var p := Next(s, step).threads[step.t];
    InCallsJoin(s.threads, step.t, p);
    InCallsJoin(WakeAll(s.threads), step.t, p);
    assert InCalls(WakeAll(s.threads)) == InCalls(s.threads) by { WakeCalls(s.threads); }
  }

  lemma WakeCalls(threads: seq<Phase>)
    ensures InCalls(WakeAll(threads)) == InCalls(threads)
  {
  }

  // From the start of the client's own Shutdown on, no call is ever in flight again and
  // the client is not shut down a second time.
  lemma ShutdownIsLast(s: State, before: seq<Step>, t: nat, after: seq<Step>)
    requires Initial(s) && Legal(s, before) && Enabled(Run(s, before), StartInner(t))
    requires Legal(Next(Run(s, before), StartInner(t)), after)
    ensures InCalls(Run(s, before).threads) == {} && Run(s, before).started == 0
    ensures var r := Run(Next(Run(s, before), StartInner(t)), after);
            InCalls(r.threads) == {} && r.started == 1
  {
    InitialInv(s);
    RunKeeps(s, before);
    var m := Run(s, before);
    StepKeeps(m, StartInner(t));
    InCallsJoin(m.threads, t, Running);
    ClosedForGood(Next(m, StartInner(t)), after);
    RunKeeps(Next(m, StartInner(t)), after);
    StartedStays(Next(m, StartInner(t)), after);
  }

  lemma {:induction false} StartedStays(s: State, steps: seq<Step>)
    requires Legal(s, steps)
    ensures Run(s, steps).started >= s.started
    decreases |steps|
  {
    if |steps| > 0 {
      StartedStays(Next(s, steps[0]), steps[1..]);
    }
  }

  // The last call to return wakes every sleeper at once.
  lemma LastReturnWakes(s: State, t: nat, u: nat)
    requires Inv(s) && Enabled(s, Return(t)) && InCalls(s.threads) == {t}
    requires u < |s.threads| && s.threads[u].Asleep?
    ensures Next(s, Return(t)).threads[u] == Woken(s.threads[u].first)
  {
    assert s.guard.calls == 1;
  }

  // ---- What a later Shutdown finds when it returns -------------------------------------------

  // The client's own Shutdown was called and has returned.
  predicate ClientDown(s: State)
  {
    s.started == 1 && Running !in s.threads
  }

  // The first Shutdown is on its way: about to take the client, or at it.
  predicate FirstPending(threads: seq<Phase>)
  {
    Woken(true) in threads || Closing in threads || Running in threads
  }

  // A Shutdown that is not the first returns in this step, at once or after a wait.
  predicate LaterReturns(s: State, step: Step)
    requires Enabled(s, step)
  {
    && ((step.Close? && s.guard.closed) || (step.Resume? && s.threads[step.t] == Woken(false)))
    && Next(s, step).threads[step.t] == Idle
  }

  // In every run a Shutdown that is not the first finds the client shut down when it returns
  // exactly when the first one has returned before.
  lemma LaterShutdown(s: State, before: seq<Step>, step: Step)
    requires Initial(s) && Legal(s, before) && Enabled(Run(s, before), step) && LaterReturns(Run(s, before), step)
    ensures ClientDown(Next(Run(s, before), step)) <==> !FirstPending(Run(s, before).threads)
  {
    hide InCalls;
    InitialInv(s);
    RunKeeps(s, before);
    var m := Run(s, before);
    OthersStay(m.threads, step.t, Idle, Running);
    if SomeFirst(m.threads) {
      var f :| 0 <= f < |m.threads| && IsFirst(m.threads[f]);
      assert PhaseOk(m.guard, m.threads[f]) && m.threads[f] == Woken(true);
    }
    if Woken(true) in m.threads {
      var f :| 0 <= f < |m.threads| && m.threads[f] == Woken(true);
      assert PhaseOk(m.guard, m.threads[f]);
    }
  }

  // One that comes late returns at once exactly when no call is in flight; one that has
  // waited returns as soon as it is woken.
  lemma LaterReturnsWhen(s: State, step: Step)
    requires Inv(s) && Enabled(s, step)
    requires (step.Close? && s.guard.closed) || (step.Resume? && s.threads[step.t] == Woken(false))
    ensures LaterReturns(s, step) <==> InCalls(s.threads) == {}
    ensures step.Resume? ==> LaterReturns(s, step)
  {
    assert PhaseOk(s.guard, s.threads[step.t]);
  }

  // It can return at once while the client's own Shutdown has not even started.
  lemma SecondShutdownReturnsEarly()
    ensures var s, steps := State(Guard(0, false, true), [Idle, Idle], 0), [Close(0), Close(1)];
            && Initial(s) && Legal(s, steps)
            && Run(s, steps).threads == [Closing, Idle] && Run(s, steps).started == 0
  {
    var s := State(Guard(0, false, true), [Idle, Idle], 0);
    var one := Next(s, Close(0));
    var two := Next(one, Close(1));
    assert one == State(Guard(0, true, false), [Closing, Idle], 0);
    assert two == one;
    assert Legal(two, []) && [Close(0), Close(1)][1..] == [Close(1)] && [Close(1)][1..] == [];
  }

  // So it can after a wait: thread 1 is back, and the guard still holds the client.
  lemma WokenShutdownReturnsEarly()
    ensures var s := State(Guard(0, false, true), [Idle, Idle, Idle], 0);
            var steps := [Call(2), Close(0), Close(1), Return(2), Resume(1)];
            && Initial(s) && Legal(s, steps)
            && Run(s, steps) == State(Guard(0, true, true), [Woken(true), Idle, Idle], 0)
  {
    var s := State(Guard(0, false, true), [Idle, Idle, Idle], 0);
    var steps := [Call(2), Close(0), Close(1), Return(2), Resume(1)];
    var s1 := Next(s, steps[0]);
    assert s1 == State(Guard(1, false, true), [Idle, Idle, InCall], 0);
    var s2 := Next(s1, steps[1]);
    assert s2 == State(Guard(1, true, true), [Asleep(true), Idle, InCall], 0);
    var s3 := Next(s2, steps[2]);
    assert s3 == State(Guard(1, true, true), [Asleep(true), Asleep(false), InCall], 0);
    var s4 := Next(s3, steps[3]);
    assert s4 == State(Guard(0, true, true), [Woken(true), Woken(false), Idle], 0);
    var s5 := Next(s4, steps[4]);
    assert s5 == State(Guard(0, true, true), [Woken(true), Idle, Idle], 0);
    FromHere(s5, steps, 5, s5);
    FromHere(s4, steps, 4, s5);
    FromHere(s3, steps, 3, s5);
    FromHere(s2, steps, 2, s5);
    FromHere(s1, steps, 1, s5);
    FromHere(s, steps, 0, s5);
    assert steps[0..] == steps;
  }

  // One more step in front of a run.
  lemma FromHere(s: State, steps: seq<Step>, i: nat, last: State)
    requires i <= |steps|
    requires i == |steps| ==> s == last
    requires i < |steps| ==> Enabled(s, steps[i]) && Legal(Next(s, steps[i]), steps[i + 1..])
    requires i < |steps| ==> Run(Next(s, steps[i]), steps[i + 1..]) == last
    ensures Legal(s, steps[i..]) && Run(s, steps[i..]) == last
  {
    hide Enabled, Next;
    if i < |steps| {
      assert steps[i..][0] == steps[i] && steps[i..][1..] == steps[i + 1..];
    }
  }

  // ---- Nobody waits for ever ---------------------------------------------------------------

  // Steps that finish what has been started, without new calls or new Shutdowns.
  predicate Finishing(step: Step)
  {
    !step.Call? && !step.Close?
  }

  predicate Resting(s: State)
  {
    forall t :: 0 <= t < |s.threads| ==> s.threads[t] == Idle
  }

  // How far a thread is from the end of what it does.
  function Distance(p: Phase): nat
  {
    match p
    case Idle => 0
    case Running => 1
    case Closing => 2
    case Woken(_) => 3
    case Asleep(_) => 4
    case InCall => 5
  }

  function Remaining(threads: seq<Phase>): nat
  {
    if |threads| == 0 then 0 else Distance(threads[0]) + Remaining(threads[1..])
  }

  lemma {:induction false} RemainingUpdate(threads: seq<Phase>, t: nat, p: Phase)
    requires t < |threads|
    ensures Remaining(threads[t := p]) == Remaining(threads) - Distance(threads[t]) + Distance(p)
  {
    if t == 0 {
      assert threads[0 := p][1..] == threads[1..];
    } else {
      assert threads[t := p][1..] == threads[1..][t - 1 := p];
      RemainingUpdate(threads[1..], t - 1, p);
    }
  }

  lemma {:induction false} RemainingWoken(threads: seq<Phase>)
    ensures Remaining(WakeAll(threads)) <= Remaining(threads)
  {
    if |threads| > 0 {
      assert WakeAll(threads)[1..] == WakeAll(threads[1..]);
      RemainingWoken(threads[1..]);
    }
  }

  lemma FinishingShrinks(s: State, step: Step)
    requires Inv(s) && Enabled(s, step) && Finishing(step)
    ensures Remaining(Next(s, step).threads) < Remaining(s.threads)
  {
    var t := step.t;
    RemainingUpdate(s.threads, t, Next(s, step).threads[t]);
    RemainingUpdate(WakeAll(s.threads), t, Next(s, step).threads[t]);
    RemainingWoken(s.threads);
  }

  // As long as some thread is not done, some thread can go on.
  lemma SomeoneCanFinish(s: State) returns (step: Step)
    requires Inv(s) && !Resting(s)
    ensures Finishing(step) && Enabled(s, step)
  {
    var t :| 0 <= t < |s.threads| && s.threads[t] != Idle;
    match s.threads[t]
    case InCall => step := Return(t);
    case Asleep(_) =>
      assert InCalls(s.threads) != {};
      var u :| u in InCalls(s.threads);
      step := Return(u);
    case Woken(_) => step := Resume(t);
    case Closing => step := StartInner(t);
    case Running => step := EndInner(t);
  }

  // Once closed, and once no thread starts anything new, every schedule comes to an end
  // after boundedly many steps; it can only end with every thread done, and then the client
  // has been shut down exactly once.
  lemma {:induction false} EveryoneFinishes(s: State, steps: seq<Step>)
    requires Inv(s) && Legal(s, steps) && s.guard.closed && forall i :: 0 <= i < |steps| ==> Finishing(steps[i])
    ensures var r := Run(s, steps);
            && |steps| + Remaining(r.threads) <= Remaining(s.threads)
            && ((forall step :: Finishing(step) ==> !Enabled(r, step)) ==> Resting(r))
            && (Resting(r) ==> r.started == 1)
    decreases |steps|
  {
    if |steps| > 0 {
      StepKeeps(s, steps[0]);
      FinishingShrinks(s, steps[0]);
      StillClosed(s, steps[0]);
      EveryoneFinishes(Next(s, steps[0]), steps[1..]);
    } else if !Resting(s) {
      var step := SomeoneCanFinish(s);
    }
  }

}
