/** The mutex of `concurrent_lru.cpp` and the GIL, as a state machine over the threads that call the cache.
    Every call is made with the GIL held and keeps it while it waits for the mutex. A `set` that overwrites or
    evicts releases an object with the mutex in hand, and that may run the object's finaliser. */
module CacheLocks {
  import opened Options

  /** What finalisers of cached objects may do: let another thread run, and call the cache. */
  datatype Finalisers = Finalisers(letGo: bool, callCache: bool)

  datatype Phase =
    | Away                     // without the GIL, in no call
    | Running                  // holds the GIL, in no call
    | Waiting(writes: bool)    // calls the cache: holds the GIL, wants the mutex
    | Inside(writes: bool)     // holds both
    | Finalising               // holds both and runs a finaliser
    | Suspended                // the finaliser let go of the GIL and wants it back; holds the mutex
    | Reentered                // the finaliser called the cache: holds both and wants the mutex again

  datatype State = State(phases: seq<Phase>, gil: Option<nat>, mutex: Option<nat>)

  datatype Step =
    | Lock(i: nat) | Return(i: nat) | FinaliserEnds(i: nat) | TakeBack(i: nat) | Leave(i: nat)
    // decided by the environment
    | Enter(i: nat) | Call(i: nat, writes: bool) | Release(i: nat) | LetGo(i: nat) | CallAgain(i: nat)

  predicate Internal(step: Step) {
    step.Lock? || step.Return? || step.FinaliserEnds? || step.TakeBack? || step.Leave?
  }

  function Init(threads: nat): State {
    State(seq(threads, _ => Away), None, None)
  }

  predicate Enabled(f: Finalisers, s: State, step: Step) {
    step.i < |s.phases| &&
    var p := s.phases[step.i];
    match step
    case Lock(_) => p.Waiting? && s.mutex == None
    case Return(_) => p.Inside?
    case FinaliserEnds(_) => p == Finalising
    case TakeBack(_) => p == Suspended && s.gil == None
    case Leave(_) => p == Running
    case Enter(_) => p == Away && s.gil == None
    case Call(_, _) => p == Running
    case Release(_) => p == Inside(true)
    case LetGo(_) => p == Finalising && f.letGo
    case CallAgain(_) => p == Finalising && f.callCache
  }

  /** Where a step takes its thread. */
  function Target(s: State, step: Step): Phase
    requires step.i < |s.phases| && (step.Lock? ==> s.phases[step.i].Waiting?)
  {
    match step
    case Lock(i) => Inside(s.phases[i].writes)
    case Return(_) => Running
    case FinaliserEnds(_) => Inside(true)
    case TakeBack(_) => Finalising
    case Leave(_) => Away
    case Enter(_) => Running
    case Call(_, writes) => Waiting(writes)
    case Release(_) => Finalising
    case LetGo(_) => Suspended
    case CallAgain(_) => Reentered
  }

  function Next(f: Finalisers, s: State, step: Step): State
    requires Enabled(f, s, step)
  {
    State(s.phases[step.i := Target(s, step)],
          if step.Enter? || step.TakeBack? then Some(step.i) else if step.Leave? || step.LetGo? then None else s.gil,
          if step.Lock? then Some(step.i) else if step.Return? then None else s.mutex)
  }

  /** Where an interleaving of fresh threads leads, if its steps are possible. */
  function Run(f: Finalisers, threads: nat, steps: seq<Step>): Option<State> {
    if steps == [] then Some(Init(threads))
    else
      var before, step := Run(f, threads, steps[..|steps| - 1]), steps[|steps| - 1];
      if before.Some? && Enabled(f, before.value, step) then Some(Next(f, before.value, step)) else None
  }

  predicate InCall(p: Phase) {
    p != Away && p != Running
  }

  /** Some call is under way and no thread can go on. */
  ghost predicate Deadlocked(f: Finalisers, s: State) {
    && (exists i :: 0 <= i < |s.phases| && InCall(s.phases[i]))
    && forall step :: Internal(step) ==> !Enabled(f, s, step)
  }

  ghost predicate CanDeadlock(f: Finalisers, threads: nat) {
    exists steps :: Run(f, threads, steps).Some? && Deadlocked(f, Run(f, threads, steps).value)
  }

  // ---------------------------------------------------------------------------
  // Who holds what
  // ---------------------------------------------------------------------------

  predicate HasGil(p: Phase) {
    p != Away && p != Suspended
  }

  predicate HasMutex(p: Phase) {
    p.Inside? || p == Finalising || p == Suspended || p == Reentered
  }

  ghost predicate GilInv(s: State) {
    && (forall i :: 0 <= i < |s.phases| ==> (HasGil(s.phases[i]) <==> s.gil == Some(i)))
    && (s.gil.Some? ==> s.gil.value < |s.phases|)
  }

  ghost predicate MutexInv(s: State) {
    && (forall i :: 0 <= i < |s.phases| ==> (HasMutex(s.phases[i]) <==> s.mutex == Some(i)))
    && (s.mutex.Some? ==> s.mutex.value < |s.phases|)
  }

  /** Finalisers do only what they may do. */
  ghost predicate FinaliserInv(f: Finalisers, s: State) {
    forall i :: 0 <= i < |s.phases| ==>
      (s.phases[i] == Suspended ==> f.letGo) && (s.phases[i] == Reentered ==> f.callCache)
  }

  ghost predicate Inv(f: Finalisers, s: State) {
    GilInv(s) && MutexInv(s) && FinaliserInv(f, s)
  }

  lemma GilStep(f: Finalisers, s: State, step: Step)
    requires GilInv(s) && Enabled(f, s, step)
    ensures GilInv(Next(f, s, step))
  {
    var n := Next(f, s, step);
    forall k | 0 <= k < |n.phases|
      ensures HasGil(n.phases[k]) <==> n.gil == Some(k)
    {
      assert HasGil(s.phases[k]) <==> s.gil == Some(k);
      assert HasGil(s.phases[step.i]) <==> s.gil == Some(step.i);
    }
  }

  lemma MutexStep(f: Finalisers, s: State, step: Step)
    requires MutexInv(s) && Enabled(f, s, step)
    ensures MutexInv(Next(f, s, step))
  {
    var n := Next(f, s, step);
    forall k | 0 <= k < |n.phases|
      ensures HasMutex(n.phases[k]) <==> n.mutex == Some(k)
    {
      assert HasMutex(s.phases[k]) <==> s.mutex == Some(k);
      assert HasMutex(s.phases[step.i]) <==> s.mutex == Some(step.i);
    }
  }

  lemma InvStep(f: Finalisers, s: State, step: Step)
    requires Inv(f, s) && Enabled(f, s, step)
    ensures Inv(f, Next(f, s, step))
  {
    hide GilInv, MutexInv;
    GilStep(f, s, step);
    MutexStep(f, s, step);
  }

  lemma {:induction false} InvRun(f: Finalisers, threads: nat, steps: seq<Step>, s: State)
    requires Run(f, threads, steps) == Some(s)
    ensures Inv(f, s) && |s.phases| == threads
  {
    if steps != [] {
      hide Inv, Enabled;
      var n := |steps| - 1;
      var before := Run(f, threads, steps[..n]).value;
      InvRun(f, threads, steps[..n], before);
      InvStep(f, before, steps[n]);
    }
  }

  /** Threads and finalisers are free: whoever may have the GIL can take it, call the cache to read or to write,
      and release objects in a call that writes; and finalisers can do all they may do. */
  lemma EnvironmentFree(f: Finalisers, s: State, i: nat, writes: bool)
    requires i < |s.phases|
    ensures s.phases[i] == Away && s.gil == None ==> Enabled(f, s, Enter(i))
    ensures s.phases[i] == Running ==> Enabled(f, s, Call(i, writes)) && Enabled(f, s, Leave(i))
    ensures s.phases[i] == Inside(true) ==> Enabled(f, s, Release(i))
    ensures s.phases[i] == Finalising && f.letGo ==> Enabled(f, s, LetGo(i))
    ensures s.phases[i] == Finalising && f.callCache ==> Enabled(f, s, CallAgain(i))
  {}

  // ---------------------------------------------------------------------------
  // When a call can get stuck
  // ---------------------------------------------------------------------------

  /** Whoever holds the GIL can go on, unless it waits for a mutex that a finaliser keeps. */
  lemma HolderMoves(f: Finalisers, s: State, j: nat) returns (step: Step)
    requires Inv(f, s) && s.gil == Some(j) && s.phases[j] != Reentered
    requires s.phases[j].Waiting? ==> s.mutex == None
    ensures Internal(step) && Enabled(f, s, step)
  {
    match s.phases[j]
    case Running => step := Leave(j);
    case Waiting(_) => step := Lock(j);
    case Inside(_) => step := Return(j);
    case Finalising => step := FinaliserEnds(j);
  }

  /** A waiting thread with the GIL is blocked by a suspended finaliser only, and not by its own. */
  lemma BlockedBySuspended(f: Finalisers, s: State, j: nat)
    requires Inv(f, s) && s.gil == Some(j) && s.phases[j].Waiting? && s.mutex.Some?
    ensures f.letGo && |s.phases| >= 2
  {
    var k := s.mutex.value;
    assert HasMutex(s.phases[k]) && k != j;
    assert s.phases[k] == Suspended;
  }

  /** With harmless finalisers, or a single thread whose finalisers only let go, no call gets stuck. */
  lemma NoDeadlock(f: Finalisers, threads: nat, steps: seq<Step>, s: State)
    requires Run(f, threads, steps) == Some(s) && !f.callCache && (f.letGo ==> threads < 2)
    ensures !Deadlocked(f, s)
  {
    InvRun(f, threads, steps, s);
    if i :| 0 <= i < |s.phases| && InCall(s.phases[i]) {
      if s.gil == None {
        assert s.phases[i] == Suspended;
        assert Enabled(f, s, TakeBack(i));
      } else {
        var j := s.gil.value;
        if s.phases[j].Waiting? && s.mutex.Some? { BlockedBySuspended(f, s, j); }
        var step := HolderMoves(f, s, j);
      }
    }
  }

  /** No call writes, so no object is released. */
  ghost predicate OnlyReads(s: State) {
    forall i :: 0 <= i < |s.phases| ==>
      var p := s.phases[i];
      p == Away || p == Running || p == Waiting(false) || p == Inside(false)
  }

  lemma {:induction false} ReadersOnly(f: Finalisers, threads: nat, steps: seq<Step>, s: State)
    requires Run(f, threads, steps) == Some(s)
    requires forall k :: 0 <= k < |steps| && steps[k].Call? ==> !steps[k].writes
    ensures OnlyReads(s)
  {
    if steps != [] {
      var n := |steps| - 1;
      var before := Run(f, threads, steps[..n]).value;
      ReadersOnly(f, threads, steps[..n], before);
      hide Run;
    }
  }

  /** A cache that is only read never gets stuck, whatever finalisers may do. */
  lemma ReadersNeverStuck(f: Finalisers, threads: nat, steps: seq<Step>, s: State)
    requires Run(f, threads, steps) == Some(s)
    requires forall k :: 0 <= k < |steps| && steps[k].Call? ==> !steps[k].writes
    ensures !Deadlocked(f, s)
  {
    InvRun(f, threads, steps, s);
    ReadersOnly(f, threads, steps, s);
    hide Run;
    if i :| 0 <= i < |s.phases| && InCall(s.phases[i]) {
      assert HasGil(s.phases[i]);
      assert s.mutex.Some? ==> HasGil(s.phases[s.mutex.value]);
      var step := HolderMoves(f, s, i);
    }
  }

  lemma RunNext(f: Finalisers, threads: nat, steps: seq<Step>, s: State, step: Step)
    returns (longer: seq<Step>, n: State)
    requires Run(f, threads, steps) == Some(s) && Enabled(f, s, step)
    ensures longer == steps + [step] && n == Next(f, s, step) && Run(f, threads, longer) == Some(n)
  {
    longer, n := steps + [step], Next(f, s, step);
    assert longer[..|longer| - 1] == steps && longer[|longer| - 1] == step;
  }

  /** Thread 0 runs a finaliser with the mutex in hand. */
  lemma FinaliserRuns(f: Finalisers, threads: nat) returns (steps: seq<Step>, s: State)
    requires threads >= 1
    ensures Run(f, threads, steps) == Some(s)
    ensures s == State(Init(threads).phases[0 := Finalising], Some(0), Some(0))
  {
    hide Run;
    steps, s := [], Init(threads);
    assert Run(f, threads, steps) == Some(s) by { FreshRun(f, threads); }
    steps, s := RunNext(f, threads, steps, s, Enter(0));
    steps, s := RunNext(f, threads, steps, s, Call(0, true));
    steps, s := RunNext(f, threads, steps, s, Lock(0));
    steps, s := RunNext(f, threads, steps, s, Release(0));
    assert s.phases == Init(threads).phases[0 := Finalising];
  }

  lemma FreshRun(f: Finalisers, threads: nat)
    ensures Run(f, threads, []) == Some(Init(threads))
  {}

  /** A finaliser that calls the cache waits for the mutex of its own thread. */
  lemma CallingFinaliserStuck(f: Finalisers, threads: nat) returns (steps: seq<Step>, s: State)
    requires f.callCache && threads >= 1
    ensures Run(f, threads, steps) == Some(s) && Deadlocked(f, s)
    ensures s == State(Init(threads).phases[0 := Reentered], Some(0), Some(0))
  {
    hide Run;
    steps, s := FinaliserRuns(f, threads);
    steps, s := RunNext(f, threads, steps, s, CallAgain(0));
    assert s.phases == Init(threads).phases[0 := Reentered];
    assert InCall(s.phases[0]);
  }

  /** A finaliser that lets another thread run may find that thread waiting for the mutex with the GIL. */
  lemma YieldingFinaliserStuck(f: Finalisers, threads: nat) returns (steps: seq<Step>, s: State)
    requires f.letGo && threads >= 2
    ensures Run(f, threads, steps) == Some(s) && Deadlocked(f, s)
    ensures s == State(Init(threads).phases[0 := Suspended][1 := Waiting(false)], Some(1), Some(0))
  {
    hide Run;
    steps, s := FinaliserRuns(f, threads);
    steps, s := RunNext(f, threads, steps, s, LetGo(0));
    steps, s := RunNext(f, threads, steps, s, Enter(1));
    steps, s := RunNext(f, threads, steps, s, Call(1, false));
    assert s.phases == Init(threads).phases[0 := Suspended][1 := Waiting(false)];
    assert InCall(s.phases[0]);
  }

  /** Calls of the cache can get stuck exactly when a finaliser may call the cache, or may let one of several
      threads run. */
  lemma CanDeadlockIff(f: Finalisers, threads: nat)
    ensures CanDeadlock(f, threads) <==> (f.callCache && threads >= 1) || (f.letGo && threads >= 2)
  {
    hide Run, Deadlocked;
    if f.callCache && threads >= 1 {
      var steps, s := CallingFinaliserStuck(f, threads);
    } else if f.letGo && threads >= 2 {
      var steps, s := YieldingFinaliserStuck(f, threads);
    } else {
      forall steps | Run(f, threads, steps).Some?
        ensures !Deadlocked(f, Run(f, threads, steps).value)
      {
        var s := Run(f, threads, steps).value;
        if threads == 0 { NobodyCalls(f, steps, s); } else { NoDeadlock(f, threads, steps, s); }
      }
    }
  }

  lemma NobodyCalls(f: Finalisers, steps: seq<Step>, s: State)
    requires Run(f, 0, steps) == Some(s)
    ensures !Deadlocked(f, s)
  {
    InvRun(f, 0, steps, s);
  }
}
