/** The worker pool of `fast_threadpool.cpp` as a state machine over the steps of its threads: pool
    workers, the Python threads that submit, and the thread that destroys the pool, which may itself be
    one of the workers. */
module ThreadPool {
  import opened Options

  /** The identity of a callable. */
  type Obj = nat

  /** An accepted submission: its place in the order of acceptance, and its callable. */
  datatype Task = Task(ticket: nat, obj: Obj)

  datatype Worker =
    | WantLock                // about to lock the queue mutex, at first or after a wake-up
    | Checking                // holds the mutex and evaluates the wait predicate
    | Sleeping                // blocked in wait, mutex released
    | NeedGil(task: Task)     // took a task, blocked on the GIL
    | Running(task: Task)     // executes the callable, holds the GIL
    | Paused(task: Task)      // the callable let go of the GIL and wants it back
    | Destroying(pending: Option<Task>)  // dropped the last reference to the pool and runs its destructor
    | Exited

  /** The call of `enqueue` in progress. It is made with the GIL held throughout, so there is at most one. */
  datatype Call = NoCall | CallWantsLock(obj: Obj) | CallLocked(obj: Obj) | CallOwesNotify

  /** The progress of the thread that deallocates the pool; it releases the GIL before it starts. */
  datatype Owner = Alive | OwnerWantsLock | OwnerLocked | OwesNotifyAll | Joining(joined: nat) | OwnerNeedsGil | Done

  datatype Mutex = Unlocked | ByWorker(i: nat) | ByCall | ByOwner

  datatype Gil = GilFree | GilClient | GilWorker(i: nat)

  datatype Pool = Pool(
    workers: seq<Worker>, queue: seq<Task>, stop: bool,
    mutex: Mutex, gil: Gil, call: Call, owner: Owner,
    // the worker that deallocates the pool, if it is one of them
    destroyer: Option<nat>,
    // history
    accepted: seq<Obj>, taken: seq<Task>, finished: seq<Task>,
    // references the pool holds on callables
    refs: multiset<Obj>)

  datatype Step =
    | WorkerLock(i: nat) | WorkerSleep(i: nat) | WorkerExit(i: nat) | WorkerTake(i: nat)
    | WorkerGil(i: nat) | WorkerResume(i: nat) | WorkerFinish(i: nat)
    | CallLock | CallPush | CallReject | CallNotify(target: Option<nat>)
    | ClientRelease
    | OwnerLock | OwnerStop | OwnerNotifyAll | OwnerJoin | OwnerLeave | OwnerGil
    // decided by the environment
    | SpuriousWake(i: nat) | Yield(i: nat) | ClientAcquire | BeginCall(obj: Obj)
    // the last reference to the pool goes: on a client thread, inside a callable, or with a callable
    | OwnerStart | DropInCallable(i: nat) | DropWithCallable(i: nat)

  predicate Starts(step: Step) {
    step.OwnerStart? || step.DropInCallable? || step.DropWithCallable?
  }

  predicate Internal(step: Step) {
    !step.SpuriousWake? && !step.Yield? && !step.ClientAcquire? && !step.BeginCall? && !Starts(step)
  }

  /** The steps that release a callable which has run. */
  predicate Finishes(step: Step) {
    step.WorkerFinish? || step.DropWithCallable?
  }

  function Init(threads: nat): Pool {
    Pool(seq(threads, _ => WantLock), [], false, Unlocked, GilFree, NoCall, Alive, None, [], [], [], multiset{})
  }

  predicate SomeSleeping(workers: seq<Worker>) {
    exists i :: 0 <= i < |workers| && workers[i] == Sleeping
  }

  predicate At(s: Pool, i: nat, w: Worker) {
    i < |s.workers| && s.workers[i] == w
  }

  predicate Enabled(s: Pool, step: Step) {
    match step
    case WorkerLock(i) => At(s, i, WantLock) && s.mutex == Unlocked
    case WorkerSleep(i) => At(s, i, Checking) && !s.stop && s.queue == []
    case WorkerExit(i) => At(s, i, Checking) && s.stop && s.queue == []
    case WorkerTake(i) => At(s, i, Checking) && s.queue != []
    case WorkerGil(i) => i < |s.workers| && s.workers[i].NeedGil? && s.gil == GilFree
    case WorkerResume(i) => i < |s.workers| && s.workers[i].Paused? && s.gil == GilFree
    case WorkerFinish(i) => i < |s.workers| && s.workers[i].Running? && s.call == NoCall
    case CallLock => s.call.CallWantsLock? && s.mutex == Unlocked
    case CallPush => s.call.CallLocked? && !s.stop
    case CallReject => s.call.CallLocked? && s.stop
    case CallNotify(None) => s.call == CallOwesNotify && !SomeSleeping(s.workers)
    case CallNotify(Some(i)) => s.call == CallOwesNotify && At(s, i, Sleeping)
    case ClientRelease => s.gil == GilClient && s.call == NoCall
    case OwnerLock => s.owner == OwnerWantsLock && s.mutex == Unlocked
    case OwnerStop => s.owner == OwnerLocked
    case OwnerNotifyAll => s.owner == OwesNotifyAll
    case OwnerJoin => s.owner.Joining? && At(s, s.owner.joined, Exited)
    case OwnerLeave => s.owner.Joining? && s.owner.joined == |s.workers|
    case OwnerGil => s.owner == OwnerNeedsGil && s.gil == GilFree
    case SpuriousWake(i) => At(s, i, Sleeping)
    case Yield(i) => i < |s.workers| && s.workers[i].Running? && s.call == NoCall
    case ClientAcquire => s.gil == GilFree
    case BeginCall(_) => s.gil != GilFree && s.call == NoCall
    case OwnerStart => s.owner == Alive && s.gil == GilClient && s.call == NoCall
    case DropInCallable(i) => s.owner == Alive && i < |s.workers| && s.workers[i].Running? && s.call == NoCall
    case DropWithCallable(i) => s.owner == Alive && i < |s.workers| && s.workers[i].Running? && s.call == NoCall
  }

  function Put(s: Pool, i: nat, w: Worker): Pool
    requires i < |s.workers|
  {
    s.(workers := s.workers[i := w])
  }

  /** `notify_all`. */
  function WakeAll(workers: seq<Worker>): (r: seq<Worker>)
    ensures |r| == |workers|
    ensures forall i :: 0 <= i < |r| ==> r[i] == if workers[i] == Sleeping then WantLock else workers[i]
  {
    seq(|workers|, i requires 0 <= i < |workers| => if workers[i] == Sleeping then WantLock else workers[i])
  }

  function Next(s: Pool, step: Step): Pool
    requires Enabled(s, step)
  {
    match step
    case WorkerLock(i) => Put(s, i, Checking).(mutex := ByWorker(i))
    case WorkerSleep(i) => Put(s, i, Sleeping).(mutex := Unlocked)
    case WorkerExit(i) => Put(s, i, Exited).(mutex := Unlocked)
    case WorkerTake(i) =>
      Put(s, i, NeedGil(s.queue[0])).(queue := s.queue[1..], taken := s.taken + [s.queue[0]], mutex := Unlocked)
    case WorkerGil(i) => Put(s, i, Running(s.workers[i].task)).(gil := GilWorker(i))
    case WorkerResume(i) => Put(s, i, Running(s.workers[i].task)).(gil := GilWorker(i))
    case WorkerFinish(i) =>
      var t := s.workers[i].task;
      Put(s, i, WantLock).(finished := s.finished + [t], refs := s.refs - multiset{t.obj}, gil := GilFree)
    case CallLock => s.(call := CallLocked(s.call.obj), mutex := ByCall)
    case CallPush =>
      s.(call := CallOwesNotify, mutex := Unlocked, refs := s.refs + multiset{s.call.obj},
         queue := s.queue + [Task(|s.accepted|, s.call.obj)], accepted := s.accepted + [s.call.obj])
    case CallReject => s.(call := NoCall, mutex := Unlocked)
    case CallNotify(None) => s.(call := NoCall)
    case CallNotify(Some(i)) => Put(s, i, WantLock).(call := NoCall)
    case ClientRelease => s.(gil := GilFree)
    case OwnerLock => s.(owner := OwnerLocked, mutex := ByOwner)
    case OwnerStop => s.(owner := OwesNotifyAll, stop := true, mutex := Unlocked)
    case OwnerNotifyAll => s.(owner := Joining(0), workers := WakeAll(s.workers))
    case OwnerJoin => s.(owner := Joining(s.owner.joined + 1))
    case OwnerLeave => s.(owner := OwnerNeedsGil)
    case OwnerGil => s.(owner := Done, gil := GilClient)
    case SpuriousWake(i) => Put(s, i, WantLock)
    case Yield(i) => Put(s, i, Paused(s.workers[i].task)).(gil := GilFree)
    case ClientAcquire => s.(gil := GilClient)
    case BeginCall(obj) => s.(call := CallWantsLock(obj))
    case OwnerStart => s.(owner := OwnerWantsLock, gil := GilFree)
    case DropInCallable(i) =>
      Put(s, i, Destroying(Some(s.workers[i].task))).(owner := OwnerWantsLock, gil := GilFree, destroyer := Some(i))
    case DropWithCallable(i) =>
      var t := s.workers[i].task;
      Put(s, i, Destroying(None)).(finished := s.finished + [t], refs := s.refs - multiset{t.obj},
                                   owner := OwnerWantsLock, gil := GilFree, destroyer := Some(i))
  }

  /** `states` are the pool before, between and after the given steps. */
  ghost predicate Trace(steps: seq<Step>, states: seq<Pool>) {
    && |states| == |steps| + 1
    && forall i :: 0 <= i < |steps| ==> Enabled(states[i], steps[i]) && states[i + 1] == Next(states[i], steps[i])
  }

  /** An interleaving of a fresh pool that leads to s. */
  ghost predicate Run(threads: nat, steps: seq<Step>, states: seq<Pool>, s: Pool) {
    Trace(steps, states) && states[0] == Init(threads) && states[|steps|] == s
  }

  ghost predicate Reachable(threads: nat, s: Pool) {
    exists steps, states :: Run(threads, steps, states, s)
  }

  lemma Fresh(threads: nat)
    ensures Reachable(threads, Init(threads))
  {
    assert Run(threads, [], [Init(threads)], Init(threads));
  }

  lemma TraceSnoc(steps: seq<Step>, states: seq<Pool>, step: Step)
    requires Trace(steps, states) && Enabled(states[|steps|], step)
    ensures Trace(steps + [step], states + [Next(states[|steps|], step)])
  {
    hide Enabled, Next;
  }

  lemma Onward(threads: nat, s: Pool, step: Step) returns (n: Pool)
    requires Reachable(threads, s) && Enabled(s, step)
    ensures n == Next(s, step) && Reachable(threads, n)
  {
    hide Enabled, Next;
    n := Next(s, step);
    var steps, states :| Run(threads, steps, states, s);
    TraceSnoc(steps, states, step);
    hide Trace;
    assert Run(threads, steps + [step], states + [n], n);
  }

  /** One submission to a pool in which nobody sleeps. */
  lemma Submission(threads: nat, s: Pool, obj: Obj) returns (n: Pool)
    requires Reachable(threads, s) && s.gil != GilFree && s.call == NoCall && s.mutex == Unlocked && !s.stop
    requires !SomeSleeping(s.workers)
    ensures n == s.(queue := s.queue + [Task(|s.accepted|, obj)], accepted := s.accepted + [obj],
                    refs := s.refs + multiset{obj})
    ensures Reachable(threads, n)
  {
    hide Reachable;
    n := Onward(threads, s, BeginCall(obj));
    n := Onward(threads, n, CallLock);
    n := Onward(threads, n, CallPush);
    n := Onward(threads, n, CallNotify(None));
  }

  /** Callable 7 is submitted to a fresh pool. */
  lemma FirstSubmission(threads: nat) returns (s: Pool)
    ensures s == Pool(seq(threads, _ => WantLock), [Task(0, 7)], false, Unlocked, GilClient, NoCall, Alive, None,
                      [7], [], [], multiset{7})
    ensures Reachable(threads, s)
  {
    hide Reachable;
    Fresh(threads);
    s := Onward(threads, Init(threads), ClientAcquire);
    s := Submission(threads, s, 7);
    assert s.queue == [Task(0, 7)] && s.accepted == [7] && s.refs == multiset{7};
  }

  /** The destructor up to the joins, in a pool in which nobody sleeps. */
  lemma Destruction(threads: nat, s: Pool) returns (n: Pool)
    requires Reachable(threads, s) && s.owner == OwnerWantsLock && s.mutex == Unlocked && !SomeSleeping(s.workers)
    ensures n == s.(owner := Joining(0), stop := true)
    ensures Reachable(threads, n)
  {
    hide Reachable;
    n := Onward(threads, s, OwnerLock);
    n := Onward(threads, n, OwnerStop);
    n := Onward(threads, n, OwnerNotifyAll);
    assert WakeAll(s.workers) == s.workers;
  }

  /** The destructor after the last join. */
  lemma Departure(threads: nat, s: Pool) returns (n: Pool)
    requires Reachable(threads, s) && s.owner == Joining(|s.workers|) && s.gil == GilFree
    ensures n == s.(owner := Done, gil := GilClient)
    ensures Reachable(threads, n)
  {
    hide Reachable;
    n := Onward(threads, s, OwnerLeave);
    n := Onward(threads, n, OwnerGil);
  }

  // ---------------------------------------------------------------------------
  // Adding up over workers
  // ---------------------------------------------------------------------------

  function Tally(workers: seq<Worker>, f: Worker -> nat): nat {
    if workers == [] then 0 else Tally(workers[..|workers| - 1], f) + f(workers[|workers| - 1])
  }

  lemma {:induction false} TallyUpdate(workers: seq<Worker>, f: Worker -> nat, i: nat, w: Worker)
    requires i < |workers|
    ensures Tally(workers[i := w], f) + f(workers[i]) == Tally(workers, f) + f(w)
  {
    var n := |workers| - 1;
    if i < n {
      TallyUpdate(workers[..n], f, i, w);
      assert workers[i := w][..n] == workers[..n][i := w];
    } else {
      assert workers[i := w][..n] == workers[..n];
    }
  }

  lemma {:induction false} TallyPositive(workers: seq<Worker>, f: Worker -> nat, i: nat)
    requires i < |workers|
    ensures Tally(workers, f) >= f(workers[i])
  {
    if i < |workers| - 1 { TallyPositive(workers[..|workers| - 1], f, i); }
  }

  lemma {:induction false} TallyZero(workers: seq<Worker>, f: Worker -> nat)
    requires forall i :: 0 <= i < |workers| ==> f(workers[i]) == 0
    ensures Tally(workers, f) == 0
  {
    if workers != [] { TallyZero(workers[..|workers| - 1], f); }
  }

  /** The task a worker has in hand. */
  function Load(w: Worker): Option<Task> {
    if w.NeedGil? || w.Running? || w.Paused? then Some(w.task) else if w.Destroying? then w.pending else None
  }

  function Carried(w: Worker): multiset<Task> {
    if Load(w).Some? then multiset{Load(w).value} else multiset{}
  }

  /** The tasks that workers have taken and not finished. */
  function Held(workers: seq<Worker>): multiset<Task> {
    if workers == [] then multiset{}
    else Held(workers[..|workers| - 1]) + Carried(workers[|workers| - 1])
  }

  lemma AddBoth<T>(a: multiset<T>, b: multiset<T>, c: multiset<T>, d: multiset<T>, e: multiset<T>)
    requires a + b == c + d
    ensures (a + e) + b == (c + e) + d
  {
    assert (a + e) + b == (a + b) + e;
    assert (c + e) + d == (c + d) + e;
  }

  lemma Cancel<T>(a: multiset<T>, b: multiset<T>, c: multiset<T>)
    requires a + c == b + c
    ensures a == b
  {
    assert a == (a + c) - c;
    assert b == (b + c) - c;
  }

  lemma AddNothing<T>(a: multiset<T>)
    ensures a + multiset{} == a
  {}

  lemma AddLast<T>(a: multiset<T>, b: multiset<T>, c: multiset<T>)
    ensures (a + b) + c == (a + c) + b
  {}

  /** All but the last worker after an update. */
  lemma UpdateInit(workers: seq<Worker>, i: nat, w: Worker)
    requires i < |workers|
    ensures var n := |workers| - 1;
            && workers[i := w] != []
            && workers[i := w][..n] == (if i < n then workers[..n][i := w] else workers[..n])
            && workers[i := w][n] == if i < n then workers[n] else w
  {}

  lemma HeldLast(workers: seq<Worker>)
    requires workers != []
    ensures Held(workers) == Held(workers[..|workers| - 1]) + Carried(workers[|workers| - 1])
  {}

  lemma {:induction false} HeldUpdate(workers: seq<Worker>, i: nat, w: Worker)
    requires i < |workers|
    ensures Held(workers[i := w]) + Carried(workers[i]) == Held(workers) + Carried(w)
  {
    hide Held, Carried;
    var n := |workers| - 1;
    HeldLast(workers);
    HeldLast(workers[i := w]);
    UpdateInit(workers, i, w);
    if i < n {
      HeldUpdate(workers[..n], i, w);
      AddBoth(Held(workers[..n][i := w]), Carried(workers[i]), Held(workers[..n]), Carried(w), Carried(workers[n]));
    } else {
      AddLast(Held(workers[..n]), Carried(w), Carried(workers[n]));
    }
  }

  lemma HeldPut(workers: seq<Worker>, i: nat, w: Worker)
    requires i < |workers|
    ensures Carried(workers[i]) == Carried(w) ==> Held(workers[i := w]) == Held(workers)
    ensures Carried(workers[i]) == multiset{} ==> Held(workers[i := w]) == Held(workers) + Carried(w)
    ensures Carried(w) == multiset{} ==> Held(workers[i := w]) + Carried(workers[i]) == Held(workers)
  {
    hide Held;
    HeldUpdate(workers, i, w);
    AddNothing(Held(workers));
    AddNothing(Held(workers[i := w]));
    if Carried(workers[i]) == Carried(w) { Cancel(Held(workers[i := w]), Held(workers), Carried(w)); }
  }

  lemma {:induction false} HeldWakeAll(workers: seq<Worker>)
    ensures Held(WakeAll(workers)) == Held(workers)
  {
    if workers != [] {
      assert WakeAll(workers)[..|workers| - 1] == WakeAll(workers[..|workers| - 1]);
      HeldWakeAll(workers[..|workers| - 1]);
    }
  }

  function Objects(tasks: seq<Task>): multiset<Obj> {
    multiset(seq(|tasks|, i requires 0 <= i < |tasks| => tasks[i].obj))
  }

  function Referred(w: Worker): multiset<Obj> {
    if Load(w).Some? then multiset{Load(w).value.obj} else multiset{}
  }

  /** The callables of the tasks that workers have taken and not finished. */
  function HeldObjects(workers: seq<Worker>): multiset<Obj> {
    if workers == [] then multiset{}
    else HeldObjects(workers[..|workers| - 1]) + Referred(workers[|workers| - 1])
  }

  lemma HeldObjectsLast(workers: seq<Worker>)
    requires workers != []
    ensures HeldObjects(workers) == HeldObjects(workers[..|workers| - 1]) + Referred(workers[|workers| - 1])
  {}

  lemma {:induction false} HeldObjectsUpdate(workers: seq<Worker>, i: nat, w: Worker)
    requires i < |workers|
    ensures HeldObjects(workers[i := w]) + Referred(workers[i]) == HeldObjects(workers) + Referred(w)
  {
    hide HeldObjects, Referred;
    var n := |workers| - 1;
    HeldObjectsLast(workers);
    HeldObjectsLast(workers[i := w]);
    UpdateInit(workers, i, w);
    if i < n {
      HeldObjectsUpdate(workers[..n], i, w);
      AddBoth(HeldObjects(workers[..n][i := w]), Referred(workers[i]), HeldObjects(workers[..n]), Referred(w),
              Referred(workers[n]));
    } else {
      AddLast(HeldObjects(workers[..n]), Referred(w), Referred(workers[n]));
    }
  }

  lemma HeldObjectsPut(workers: seq<Worker>, i: nat, w: Worker)
    requires i < |workers|
    ensures Referred(workers[i]) == Referred(w) ==> HeldObjects(workers[i := w]) == HeldObjects(workers)
    ensures Referred(workers[i]) == multiset{} ==> HeldObjects(workers[i := w]) == HeldObjects(workers) + Referred(w)
    ensures Referred(w) == multiset{} ==> HeldObjects(workers[i := w]) + Referred(workers[i]) == HeldObjects(workers)
  {
    hide HeldObjects;
    HeldObjectsUpdate(workers, i, w);
    AddNothing(HeldObjects(workers));
    AddNothing(HeldObjects(workers[i := w]));
    if Referred(workers[i]) == Referred(w) { Cancel(HeldObjects(workers[i := w]), HeldObjects(workers), Referred(w)); }
  }

  lemma {:induction false} HeldObjectsWakeAll(workers: seq<Worker>)
    ensures HeldObjects(WakeAll(workers)) == HeldObjects(workers)
  {
    if workers != [] {
      assert WakeAll(workers)[..|workers| - 1] == WakeAll(workers[..|workers| - 1]);
      HeldObjectsWakeAll(workers[..|workers| - 1]);
    }
  }

  lemma ObjectsAppend(tasks: seq<Task>, t: Task)
    ensures Objects(tasks + [t]) == Objects(tasks) + multiset{t.obj}
  {
    var s := seq(|tasks|, i requires 0 <= i < |tasks| => tasks[i].obj);
    assert seq(|tasks + [t]|, i requires 0 <= i < |tasks + [t]| => (tasks + [t])[i].obj) == s + [t.obj];
  }

  lemma ObjectsPop(tasks: seq<Task>)
    requires tasks != []
    ensures Objects(tasks) == multiset{tasks[0].obj} + Objects(tasks[1..])
  {
    var s := seq(|tasks[1..]|, i requires 0 <= i < |tasks[1..]| => tasks[1..][i].obj);
    assert seq(|tasks|, i requires 0 <= i < |tasks| => tasks[i].obj) == [tasks[0].obj] + s;
  }

  // ---------------------------------------------------------------------------
  // The invariant
  // ---------------------------------------------------------------------------

  /** Who holds the queue mutex. */
  ghost predicate MutexInv(s: Pool) {
    && WorkerHolds(s)
    && (s.call.CallLocked? <==> s.mutex == ByCall)
    && (s.owner == OwnerLocked <==> s.mutex == ByOwner)
  }

  ghost predicate WorkerHolds(s: Pool) {
    && (forall i :: 0 <= i < |s.workers| ==> (s.workers[i] == Checking <==> s.mutex == ByWorker(i)))
    && (s.mutex.ByWorker? ==> s.mutex.i < |s.workers|)
  }

  /** Who holds the GIL. No thread waits for it with the mutex in hand: NeedGil and Paused are not Checking. */
  ghost predicate GilInv(s: Pool) {
    && (forall i :: 0 <= i < |s.workers| ==> (s.workers[i].Running? <==> s.gil == GilWorker(i)))
    && (s.gil.GilWorker? ==> s.gil.i < |s.workers|)
    && (s.call != NoCall ==> s.gil != GilFree)
  }

  /** Stopping: set under the mutex; workers leave only when stopped with nothing queued; nobody sleeps
      once everyone was notified; and joined workers have left. */
  ghost predicate StopInv(s: Pool) {
    FlagInv(s) && ExitInv(s) && NotifiedInv(s) && JoinInv(s)
  }

  ghost predicate FlagInv(s: Pool) {
    s.stop <==> s.owner.OwesNotifyAll? || s.owner.Joining? || s.owner.OwnerNeedsGil? || s.owner.Done?
  }

  ghost predicate ExitInv(s: Pool) {
    SomeExited(s.workers) ==> s.stop && s.queue == []
  }

  ghost predicate NotifiedInv(s: Pool) {
    s.owner.Joining? || s.owner.OwnerNeedsGil? || s.owner.Done? ==> !SomeSleeping(s.workers)
  }

  ghost predicate JoinInv(s: Pool) {
    && (s.owner.Joining? ==> s.owner.joined <= |s.workers|)
    && (s.owner.Joining? ==> forall i :: 0 <= i < s.owner.joined ==> s.workers[i] == Exited)
    && (s.owner.OwnerNeedsGil? || s.owner.Done? ==> forall i :: 0 <= i < |s.workers| ==> s.workers[i] == Exited)
  }

  ghost predicate SomeExited(workers: seq<Worker>) {
    exists i :: 0 <= i < |workers| && workers[i] == Exited
  }

  /** A worker that destroys the pool does nothing else any more, and it is the one on record. */
  ghost predicate DestroyInv(s: Pool) {
    && (forall i :: 0 <= i < |s.workers| ==> (s.workers[i].Destroying? <==> s.destroyer == Some(i)))
    && (s.destroyer.Some? ==> s.destroyer.value < |s.workers| && s.owner != Alive)
  }

  /** Accepted submissions, numbered in order. */
  function Numbered(accepted: seq<Obj>): seq<Task> {
    seq(|accepted|, i requires 0 <= i < |accepted| => Task(i, accepted[i]))
  }

  /** Tasks leave the queue in the order they were accepted, and a taken task is held or finished. */
  ghost predicate TaskInv(s: Pool) {
    && s.taken + s.queue == Numbered(s.accepted)
    && multiset(s.taken) == Held(s.workers) + multiset(s.finished)
  }

  /** One reference per queued or held task. */
  ghost predicate RefInv(s: Pool) {
    s.refs == Objects(s.queue) + HeldObjects(s.workers)
  }

  function IsUp(w: Worker): nat {
    if w == WantLock || w == Checking then 1 else 0
  }

  /** While anybody sleeps, every queued task has its own worker on the way to it, or its notification
      is still owed. */
  ghost predicate WakeInv(s: Pool) {
    SomeSleeping(s.workers) ==> |s.queue| <= Tally(s.workers, IsUp) + if s.call == CallOwesNotify then 1 else 0
  }

  ghost predicate Inv(s: Pool) {
    MutexInv(s) && GilInv(s) && StopInv(s) && DestroyInv(s) && TaskInv(s) && RefInv(s) && WakeInv(s)
  }

  lemma {:induction false} InitHolds(threads: nat)
    ensures Inv(Init(threads))
  {
    InitHolds'(seq(threads, _ => WantLock));
  }

  lemma {:induction false} InitHolds'(workers: seq<Worker>)
    requires forall i :: 0 <= i < |workers| ==> workers[i] == WantLock
    ensures Held(workers) == multiset{} && HeldObjects(workers) == multiset{}
  {
    if workers != [] { InitHolds'(workers[..|workers| - 1]); }
  }

  lemma MutexFacts(s: Pool, step: Step)
    requires MutexInv(s) && Enabled(s, step)
    ensures var n := Next(s, step);
            match Moved(s, step)
            case Some((i, w)) =>
              && (w == Checking ==> s.mutex == Unlocked && n.mutex == ByWorker(i))
              && (s.workers[i] == Checking ==> n.mutex == Unlocked && w != Checking)
              && (w != Checking && s.workers[i] != Checking ==> n.mutex == s.mutex)
            case None => n.mutex == s.mutex || !(n.mutex.ByWorker? || s.mutex.ByWorker?)
  {
    match Moved(s, step)
    case Some((i, w)) => assert s.workers[i] == Checking <==> s.mutex == ByWorker(i);
    case None =>
  }

  lemma WorkerHoldsStep(s: Pool, step: Step)
    requires MutexInv(s) && Enabled(s, step)
    ensures WorkerHolds(Next(s, step))
  {
    hide Next, Enabled, Moved;
    MutexFacts(s, step);
    MovedWorkers(s, step);
    var n := Next(s, step);
    forall k | 0 <= k < |n.workers|
      ensures n.workers[k] == Checking <==> n.mutex == ByWorker(k)
    {
      assert s.workers[k] == Checking <==> s.mutex == ByWorker(k);
    }
  }

  lemma MutexStep(s: Pool, step: Step)
    requires MutexInv(s) && Enabled(s, step)
    ensures MutexInv(Next(s, step))
  {
    WorkerHoldsStep(s, step);
    MutexFacts(s, step);
    hide WorkerHolds;
  }

  lemma GilFacts(s: Pool, step: Step)
    requires GilInv(s) && Enabled(s, step)
    ensures var n := Next(s, step);
            && (n.call != NoCall ==> n.gil != GilFree)
            && match Moved(s, step)
               case Some((i, w)) =>
                 && (w.Running? ==> s.gil == GilFree && n.gil == GilWorker(i))
                 && (s.workers[i].Running? ==> n.gil == GilFree && !w.Running?)
                 && (!w.Running? && !s.workers[i].Running? ==> n.gil == s.gil)
               case None => n.gil == s.gil || !(n.gil.GilWorker? || s.gil.GilWorker?)
  {
    match Moved(s, step)
    case Some((i, w)) => assert s.workers[i].Running? <==> s.gil == GilWorker(i);
    case None =>
  }

  lemma GilStep(s: Pool, step: Step)
    requires GilInv(s) && Enabled(s, step)
    ensures GilInv(Next(s, step))
  {
    hide Next, Enabled, Moved;
    GilFacts(s, step);
    MovedWorkers(s, step);
    var n := Next(s, step);
    forall k | 0 <= k < |n.workers|
      ensures n.workers[k].Running? <==> n.gil == GilWorker(k)
    {
      assert s.workers[k].Running? <==> s.gil == GilWorker(k);
    }
  }

  lemma FlagStep(s: Pool, step: Step)
    requires FlagInv(s) && Enabled(s, step)
    ensures FlagInv(Next(s, step))
  {}

  lemma ExitFacts(s: Pool, step: Step)
    requires Enabled(s, step)
    ensures var n := Next(s, step);
            && (step.WorkerExit? || (s.stop && s.queue == []) ==> n.stop && n.queue == [])
            && (s.stop ==> n.stop)
    ensures match Moved(s, step)
            case Some((i, w)) => s.workers[i] != Exited && (w == Exited ==> step.WorkerExit?)
            case None => true
  {}

  lemma ExitStep(s: Pool, step: Step)
    requires ExitInv(s) && Enabled(s, step)
    ensures ExitInv(Next(s, step))
  {
    hide Next, Enabled, Moved;
    ExitFacts(s, step);
    MovedWorkers(s, step);
    if SomeExited(Next(s, step).workers) && !step.WorkerExit? { assert SomeExited(s.workers); }
  }

  lemma NotifiedFacts(s: Pool, step: Step)
    requires FlagInv(s) && Enabled(s, step)
    ensures var n := Next(s, step);
            n.owner.Joining? || n.owner.OwnerNeedsGil? || n.owner.Done? ==>
              step == OwnerNotifyAll || s.owner.Joining? || s.owner.OwnerNeedsGil? || s.owner.Done?
    ensures match Moved(s, step)
            case Some((i, w)) => w == Sleeping ==> s.owner.Alive? || s.owner.OwnerWantsLock? || s.owner.OwnerLocked?
            case None => true
    ensures Moved(s, step).Some? && Next(s, step).owner != s.owner ==> Next(s, step).owner == OwnerWantsLock
  {}

  lemma NotifiedStep(s: Pool, step: Step)
    requires FlagInv(s) && NotifiedInv(s) && Enabled(s, step)
    ensures NotifiedInv(Next(s, step))
  {
    hide Next, Enabled, Moved, FlagInv;
    NotifiedFacts(s, step);
    MovedWorkers(s, step);
  }

  lemma JoinFacts(s: Pool, step: Step)
    requires Enabled(s, step)
    ensures var n, o := Next(s, step), s.owner;
            && (n.owner.Joining? && n.owner != o ==>
                  (step == OwnerNotifyAll && n.owner.joined == 0) ||
                  (o.Joining? && n.owner.joined == o.joined + 1 && At(s, o.joined, Exited)))
            && (n.owner.OwnerNeedsGil? && n.owner != o ==> o.Joining? && o.joined == |s.workers|)
            && (n.owner.Done? && n.owner != o ==> o.OwnerNeedsGil?)
  {}

  lemma JoinStep(s: Pool, step: Step)
    requires JoinInv(s) && Enabled(s, step)
    ensures JoinInv(Next(s, step))
  {
    hide Next, Enabled, Moved;
    ExitFacts(s, step);
    JoinFacts(s, step);
    MovedWorkers(s, step);
  }

  lemma StopStep(s: Pool, step: Step)
    requires MutexInv(s) && StopInv(s) && Enabled(s, step)
    ensures StopInv(Next(s, step))
  {
    hide MutexInv, FlagInv, ExitInv, NotifiedInv, JoinInv, Next, Enabled;
    FlagStep(s, step);
    ExitStep(s, step);
    NotifiedStep(s, step);
    JoinStep(s, step);
  }

  lemma DestroyFacts(s: Pool, step: Step)
    requires Enabled(s, step)
    ensures var n := Next(s, step);
            match Moved(s, step)
            case Some((i, w)) =>
              && !s.workers[i].Destroying?
              && (if w.Destroying? then s.owner == Alive && n.owner != Alive && n.destroyer == Some(i)
                  else n.owner == s.owner && n.destroyer == s.destroyer)
            case None => n.destroyer == s.destroyer && (s.owner != Alive ==> n.owner != Alive)
  {}

  lemma DestroyStep(s: Pool, step: Step)
    requires DestroyInv(s) && Enabled(s, step)
    ensures DestroyInv(Next(s, step))
  {
    hide Next, Enabled, Moved;
    DestroyFacts(s, step);
    MovedWorkers(s, step);
    var n := Next(s, step);
    forall k | 0 <= k < |n.workers|
      ensures n.workers[k].Destroying? <==> n.destroyer == Some(k)
    {
      assert s.workers[k].Destroying? <==> s.destroyer == Some(k);
    }
  }

  /** The worker a step moves, if any, and where to. */
  function Moved(s: Pool, step: Step): Option<(nat, Worker)>
    requires Enabled(s, step)
  {
    match step
    case WorkerLock(i) => Some((i, Checking))
    case WorkerSleep(i) => Some((i, Sleeping))
    case WorkerExit(i) => Some((i, Exited))
    case WorkerTake(i) => Some((i, NeedGil(s.queue[0])))
    case WorkerGil(i) => Some((i, Running(s.workers[i].task)))
    case WorkerResume(i) => Some((i, Running(s.workers[i].task)))
    case WorkerFinish(i) => Some((i, WantLock))
    case CallNotify(Some(i)) => Some((i, WantLock))
    case SpuriousWake(i) => Some((i, WantLock))
    case Yield(i) => Some((i, Paused(s.workers[i].task)))
    case DropInCallable(i) => Some((i, Destroying(Some(s.workers[i].task))))
    case DropWithCallable(i) => Some((i, Destroying(None)))
    case _ => None
  }

  lemma MovedWorkers(s: Pool, step: Step)
    requires Enabled(s, step)
    ensures Next(s, step).workers ==
            match Moved(s, step)
            case Some((i, w)) => s.workers[i := w]
            case None => if step == OwnerNotifyAll then WakeAll(s.workers) else s.workers
    ensures Moved(s, step).Some? ==> Moved(s, step).value.0 < |s.workers|
  {}

  /** What a moved worker has in hand before and after. */
  lemma MovedTasks(s: Pool, step: Step)
    requires Enabled(s, step)
    ensures match Moved(s, step)
            case Some((i, w)) =>
              if step.WorkerTake? then s.queue != [] && Load(s.workers[i]) == None && Load(w) == Some(s.queue[0])
              else if Finishes(step) then
                step.i == i && s.workers[i].Running? && Load(s.workers[i]) == Some(s.workers[i].task) && Load(w) == None
              else Load(s.workers[i]) == Load(w)
            case None => !step.WorkerTake? && !Finishes(step)
  {}

  /** Every step moves tasks between queue, workers and the finished list without losing any. */
  lemma HeldStep(s: Pool, step: Step)
    requires Enabled(s, step)
    ensures var n := Next(s, step);
            if step.WorkerTake? then Held(n.workers) == Held(s.workers) + multiset{s.queue[0]}
            else if Finishes(step) then Held(n.workers) + multiset{s.workers[step.i].task} == Held(s.workers)
            else Held(n.workers) == Held(s.workers)
  {
    hide Held, Next, Enabled, Moved;
    MovedWorkers(s, step);
    MovedTasks(s, step);
    if step == OwnerNotifyAll { HeldWakeAll(s.workers); }
    match Moved(s, step)
    case Some((i, w)) => HeldPut(s.workers, i, w);
    case None =>
  }

  lemma HeldObjectsStep(s: Pool, step: Step)
    requires Enabled(s, step)
    ensures var n := Next(s, step);
            if step.WorkerTake? then HeldObjects(n.workers) == HeldObjects(s.workers) + multiset{s.queue[0].obj}
            else if Finishes(step) then
              HeldObjects(n.workers) + multiset{s.workers[step.i].task.obj} == HeldObjects(s.workers)
            else HeldObjects(n.workers) == HeldObjects(s.workers)
  {
    hide HeldObjects, Next, Enabled, Moved;
    MovedWorkers(s, step);
    MovedTasks(s, step);
    if step == OwnerNotifyAll { HeldObjectsWakeAll(s.workers); }
    match Moved(s, step)
    case Some((i, w)) => HeldObjectsPut(s.workers, i, w);
    case None =>
  }

  lemma OrderStep(s: Pool, step: Step)
    requires s.taken + s.queue == Numbered(s.accepted) && Enabled(s, step)
    ensures var n := Next(s, step); n.taken + n.queue == Numbered(n.accepted)
  {
    var n := Next(s, step);
    match step
    case WorkerTake(i) =>
      assert s.queue == [s.queue[0]] + s.queue[1..];
      assert n.taken + n.queue == s.taken + s.queue;
    case CallPush =>
      assert Numbered(n.accepted) == Numbered(s.accepted) + [Task(|s.accepted|, s.call.obj)];
      assert n.taken + n.queue == (s.taken + s.queue) + [Task(|s.accepted|, s.call.obj)];
    case _ =>
  }

  /** What a step writes into the history. */
  lemma HistoryStep(s: Pool, step: Step)
    requires Enabled(s, step)
    ensures var n := Next(s, step);
            && n.taken == (if step.WorkerTake? then s.taken + [s.queue[0]] else s.taken)
            && n.finished == if Finishes(step) then s.finished + [s.workers[step.i].task] else s.finished
  {}

  lemma CountTake<T>(taken: seq<T>, held: multiset<T>, finished: seq<T>, t: T)
    requires multiset(taken) == held + multiset(finished)
    ensures multiset(taken + [t]) == (held + multiset{t}) + multiset(finished)
  {}

  lemma CountFinish<T>(taken: seq<T>, held: multiset<T>, after: multiset<T>, finished: seq<T>, t: T)
    requires multiset(taken) == held + multiset(finished) && after + multiset{t} == held
    ensures multiset(taken) == after + multiset(finished + [t])
  {
    AddLast(after, multiset{t}, multiset(finished));
  }

  lemma CountStep(s: Pool, step: Step)
    requires multiset(s.taken) == Held(s.workers) + multiset(s.finished) && Enabled(s, step)
    ensures var n := Next(s, step); multiset(n.taken) == Held(n.workers) + multiset(n.finished)
  {
    HeldStep(s, step);
    HistoryStep(s, step);
    if step.WorkerTake? {
      CountTake(s.taken, Held(s.workers), s.finished, s.queue[0]);
    } else if Finishes(step) {
      CountFinish(s.taken, Held(s.workers), Held(Next(s, step).workers), s.finished, s.workers[step.i].task);
    }
    hide Held, Next, Enabled;
  }

  lemma TaskStep(s: Pool, step: Step)
    requires TaskInv(s) && Enabled(s, step)
    ensures TaskInv(Next(s, step))
  {
    OrderStep(s, step);
    CountStep(s, step);
  }

  /** A reference released, handed over from the queue to a worker, and added to the queue. */
  lemma ReleaseOne(refs: multiset<Obj>, q: multiset<Obj>, held: multiset<Obj>, after: multiset<Obj>, o: Obj)
    requires refs == q + held && after + multiset{o} == held
    ensures refs - multiset{o} == q + after
  {
    assert refs == (q + after) + multiset{o};
  }

  lemma HandOver(refs: multiset<Obj>, q: multiset<Obj>, held: multiset<Obj>, rest: multiset<Obj>,
                 after: multiset<Obj>, o: Obj)
    requires refs == q + held && q == multiset{o} + rest && after == held + multiset{o}
    ensures refs == rest + after
  {}

  lemma AddOne(refs: multiset<Obj>, q: multiset<Obj>, held: multiset<Obj>, longer: multiset<Obj>, o: Obj)
    requires refs == q + held && longer == q + multiset{o}
    ensures refs + multiset{o} == longer + held
  {}

  lemma RefStep(s: Pool, step: Step)
    requires RefInv(s) && Enabled(s, step)
    ensures RefInv(Next(s, step))
  {
    HeldObjectsStep(s, step);
    QueueStep(s, step);
    hide HeldObjects, Objects, Next, Enabled;
    var n := Next(s, step);
    var q, held, r, after := Objects(s.queue), HeldObjects(s.workers), Objects(n.queue), HeldObjects(n.workers);
    if step.WorkerTake? {
      ObjectsPop(s.queue);
      HandOver(s.refs, q, held, r, after, s.queue[0].obj);
    } else if Finishes(step) {
      ReleaseOne(s.refs, q, held, after, s.workers[step.i].task.obj);
    } else if step.CallPush? {
      ObjectsAppend(s.queue, Task(|s.accepted|, s.call.obj));
      AddOne(s.refs, q, held, r, s.call.obj);
    }
  }

  /** What a step does to the queue and to the references. */
  lemma QueueStep(s: Pool, step: Step)
    requires Enabled(s, step)
    ensures var n := Next(s, step);
            if step.WorkerTake? then n.queue == s.queue[1..] && n.refs == s.refs
            else if Finishes(step) then n.queue == s.queue && n.refs == s.refs - multiset{s.workers[step.i].task.obj}
            else if step.CallPush? then
              n.queue == s.queue + [Task(|s.accepted|, s.call.obj)] && n.refs == s.refs + multiset{s.call.obj}
            else n.queue == s.queue && n.refs == s.refs
  {}

  lemma UpStep(s: Pool, step: Step)
    requires Enabled(s, step) && Moved(s, step).Some?
    ensures var (i, w) := Moved(s, step).value;
            Tally(Next(s, step).workers, IsUp) + IsUp(s.workers[i]) == Tally(s.workers, IsUp) + IsUp(w)
  {
    MovedWorkers(s, step);
    var (i, w) := Moved(s, step).value;
    TallyUpdate(s.workers, IsUp, i, w);
  }

  lemma WakeStep(s: Pool, step: Step)
    requires WakeInv(s) && Enabled(s, step)
    ensures WakeInv(Next(s, step))
  {
    hide Tally;
    MovedWorkers(s, step);
    if Moved(s, step).Some? { UpStep(s, step); }
    if SomeSleeping(Next(s, step).workers) && !step.WorkerSleep? {
      assert SomeSleeping(s.workers);
    }
  }

  /** Every interleaving keeps the invariant. */
  lemma InvStep(s: Pool, step: Step)
    requires Inv(s) && Enabled(s, step)
    ensures Inv(Next(s, step))
  {
    hide MutexInv, GilInv, StopInv, DestroyInv, TaskInv, RefInv, WakeInv, Next, Enabled;
    MutexStep(s, step);
    GilStep(s, step);
    StopStep(s, step);
    DestroyStep(s, step);
    TaskStep(s, step);
    RefStep(s, step);
    WakeStep(s, step);
  }

  lemma {:induction false} InvTrace(steps: seq<Step>, states: seq<Pool>, k: nat)
    requires Trace(steps, states) && Inv(states[0]) && k <= |steps|
    ensures Inv(states[k]) && |states[k].workers| == |states[0].workers|
  {
    if k > 0 {
      hide Inv, Next, Enabled;
      InvTrace(steps, states, k - 1);
      InvStep(states[k - 1], steps[k - 1]);
      MovedWorkers(states[k - 1], steps[k - 1]);
    }
  }

  lemma InvRun(threads: nat, steps: seq<Step>, states: seq<Pool>, s: Pool)
    requires Run(threads, steps, states, s)
    ensures Inv(s) && |s.workers| == threads
  {
    InitHolds(threads);
    InvTrace(steps, states, |steps|);
  }

  // ---------------------------------------------------------------------------
  // Exactly once, in order
  // ---------------------------------------------------------------------------

  lemma {:induction false} NumberedOnce(accepted: seq<Obj>, t: nat)
    requires t < |accepted|
    ensures multiset(Numbered(accepted))[Task(t, accepted[t])] == 1
  {
    var n := |accepted| - 1;
    assert Numbered(accepted) == Numbered(accepted[..n]) + [Task(n, accepted[n])];
    if t < n {
      NumberedOnce(accepted[..n], t);
    } else {
      assert forall k :: 0 <= k < n ==> Numbered(accepted[..n])[k].ticket != n;
      assert Task(n, accepted[n]) !in Numbered(accepted[..n]);
    }
  }

  /** In every reachable state an accepted submission is queued, held by one worker, or finished: exactly
      one of these, exactly once. Tasks were taken in the order of acceptance. */
  lemma ExactlyOnce(threads: nat, steps: seq<Step>, states: seq<Pool>, s: Pool, t: nat)
    requires Run(threads, steps, states, s) && t < |s.accepted|
    ensures var task := Task(t, s.accepted[t]);
            multiset(s.queue)[task] + Held(s.workers)[task] + multiset(s.finished)[task] == 1
    ensures s.taken <= Numbered(s.accepted)
  {
    InvRun(threads, steps, states, s);
    hide MutexInv, GilInv, StopInv, RefInv, WakeInv, Held, Run;
    NumberedOnce(s.accepted, t);
    assert multiset(s.taken + s.queue) == multiset(s.taken) + multiset(s.queue);
  }

  /** The callables of the calls of `enqueue`, in order. */
  function Submitted(steps: seq<Step>): seq<Obj> {
    if steps == [] then []
    else
      var init, step := Submitted(steps[..|steps| - 1]), steps[|steps| - 1];
      if step.BeginCall? then init + [step.obj] else init
  }

  /** The callable of the call in progress, until it is pushed. */
  function Unpushed(c: Call): seq<Obj> {
    match c
    case CallWantsLock(obj) => [obj]
    case CallLocked(obj) => [obj]
    case _ => []
  }

  /** Only a push accepts, and only before the stop. */
  lemma PushAccepts(s: Pool, step: Step)
    requires Enabled(s, step)
    ensures var n := Next(s, step);
            && n.accepted == (if step.CallPush? then s.accepted + [s.call.obj] else s.accepted)
            && (s.stop ==> n.stop && !step.CallPush?) && (!s.stop && n.stop ==> step == OwnerStop)
  {}

  /** Before the stop a submission stays unpushed until it is pushed. */
  lemma UnpushedStep(s: Pool, step: Step)
    requires Enabled(s, step) && !s.stop
    ensures var u, v := Unpushed(s.call), Unpushed(Next(s, step).call);
            if step.BeginCall? then u == [] && v == [step.obj]
            else if step.CallPush? then u == [s.call.obj] && v == []
            else v == u
  {}

  lemma AcceptStep(s: Pool, step: Step)
    requires Enabled(s, step)
    ensures var n := Next(s, step);
            && (s.stop ==> n.stop && n.accepted == s.accepted)
            && (!n.stop ==> n.accepted + Unpushed(n.call) ==
                            s.accepted + Unpushed(s.call) + if step.BeginCall? then [step.obj] else [])
            && (!s.stop && n.stop ==> n.accepted == s.accepted)
  {
    PushAccepts(s, step);
    if !s.stop { UnpushedStep(s, step); }
    hide Enabled, Next, Unpushed;
  }

  lemma SubmittedNext(steps: seq<Step>, k: nat)
    requires k < |steps|
    ensures Submitted(steps[..k + 1]) == Submitted(steps[..k]) + if steps[k].BeginCall? then [steps[k].obj] else []
  {
    assert steps[..k + 1][..k] == steps[..k];
  }

  lemma {:induction false} AcceptedPrefix(steps: seq<Step>, states: seq<Pool>, k: nat)
    requires Trace(steps, states) && k <= |steps| && states[0].accepted == [] && states[0].call == NoCall
    ensures !states[k].stop ==> Submitted(steps[..k]) == states[k].accepted + Unpushed(states[k].call)
    ensures states[k].accepted <= Submitted(steps[..k])
  {
    if k > 0 {
      hide Enabled, Next, Unpushed, Submitted;
      AcceptedPrefix(steps, states, k - 1);
      AcceptStep(states[k - 1], steps[k - 1]);
      SubmittedNext(steps, k - 1);
    }
  }

  /** A running pool accepts everything: as long as it is not stopped, the callables of all calls of
      `enqueue`, in order, are the accepted ones followed by that of the call in progress, if it has not
      pushed it yet. After the stop the accepted ones are still the first of them. */
  lemma EverythingAccepted(threads: nat, steps: seq<Step>, states: seq<Pool>, s: Pool)
    requires Run(threads, steps, states, s)
    ensures !s.stop ==> Submitted(steps) == s.accepted + Unpushed(s.call)
    ensures s.accepted <= Submitted(steps)
  {
    AcceptedPrefix(steps, states, |steps|);
    assert steps[..|steps|] == steps;
  }

  /** The pool holds one reference for each queued or held task and no other. */
  lemma ReferencesConserved(threads: nat, steps: seq<Step>, states: seq<Pool>, s: Pool)
    requires Run(threads, steps, states, s)
    ensures s.refs == Objects(s.queue) + HeldObjects(s.workers)
  {
    InvRun(threads, steps, states, s);
  }

  /** At most one worker is in the critical section and at most one holds the GIL; a thread that waits for
      the GIL never has the mutex; workers leave only when stopped with an empty queue; and after
      notify_all nobody sleeps. */
  lemma LocksRespected(threads: nat, steps: seq<Step>, states: seq<Pool>, s: Pool)
    requires Run(threads, steps, states, s)
    ensures forall i, j :: 0 <= i < j < |s.workers| ==>
              && !(s.workers[i] == Checking && s.workers[j] == Checking)
              && !(s.workers[i].Running? && s.workers[j].Running?)
    ensures forall i :: 0 <= i < |s.workers| && (s.workers[i].NeedGil? || s.workers[i].Paused?) ==>
              s.mutex != ByWorker(i)
    ensures SomeExited(s.workers) ==> s.stop && s.queue == []
    ensures s.owner.Joining? || s.owner == OwnerNeedsGil || s.owner == Done ==> s.stop && !SomeSleeping(s.workers)
  {
    InvRun(threads, steps, states, s);
  }

  predicate Awake(w: Worker) {
    w != Sleeping && w != Exited && !w.Destroying?
  }

  ghost predicate SomeAwake(workers: seq<Worker>) {
    exists i :: 0 <= i < |workers| && Awake(workers[i])
  }

  /** When no worker is awake and nothing is owed, nothing is queued, unless the only worker has left for
      the destructor. */
  lemma NobodyAwake(s: Pool)
    requires Inv(s) && |s.workers| >= 1 && s.call != CallOwesNotify && !SomeAwake(s.workers)
    ensures s.queue == [] || (|s.workers| == 1 && s.destroyer == Some(0))
  {
    hide TaskInv, RefInv, MutexInv, GilInv;
    TallyZero(s.workers, IsUp);
    if i :| 0 <= i < |s.workers| && s.workers[i] == Sleeping {
      assert SomeSleeping(s.workers);
    } else if i :| 0 <= i < |s.workers| && s.workers[i] == Exited {
      assert SomeExited(s.workers);
    } else {
      assert s.workers[0].Destroying? && s.workers[|s.workers| - 1].Destroying?;
    }
  }

  /** No lost wake-up: with a task queued, some worker is awake or a notification is owed, unless the only
      worker is destroying the pool; and while any worker sleeps, there is a distinct awake worker or owed
      notification for every queued task. */
  lemma NoLostWakeup(threads: nat, steps: seq<Step>, states: seq<Pool>, s: Pool)
    requires threads >= 1 && Run(threads, steps, states, s)
    ensures SomeSleeping(s.workers) ==> |s.queue| <= Tally(s.workers, IsUp) + if s.call == CallOwesNotify then 1 else 0
    ensures s.queue != [] ==>
              s.call == CallOwesNotify || SomeAwake(s.workers) || (threads == 1 && s.destroyer == Some(0))
  {
    InvRun(threads, steps, states, s);
    hide MutexInv, GilInv, StopInv, TaskInv, RefInv;
    if !SomeAwake(s.workers) && s.call != CallOwesNotify { NobodyAwake(s); }
  }

  /** Submissions seen after the stop flag is set are never accepted. */
  lemma {:induction false} NothingAcceptedAfterStop(steps: seq<Step>, states: seq<Pool>, k: nat)
    requires Trace(steps, states) && states[0].stop && k <= |steps|
    ensures states[k].stop && states[k].accepted == states[0].accepted
  {
    if k > 0 {
      NothingAcceptedAfterStop(steps, states, k - 1);
      assert states[k] == Next(states[k - 1], steps[k - 1]);
    }
  }

  // ---------------------------------------------------------------------------
  // Progress
  // ---------------------------------------------------------------------------

  /** Nothing is under way and nothing is waiting: either the pool idles, or it is destroyed. */
  ghost predicate Quiet(s: Pool) {
    && s.call == NoCall && s.mutex == Unlocked && (s.workers != [] ==> s.queue == [])
    && ((s.owner == Alive && forall i :: 0 <= i < |s.workers| ==> s.workers[i] == Sleeping) ||
        (s.owner == Done && forall i :: 0 <= i < |s.workers| ==> s.workers[i] == Exited))
  }

  /** A worker destroys the pool and waits for itself to leave; the others have left. */
  ghost predicate JoinsItself(s: Pool) {
    && s.call == NoCall && s.mutex == Unlocked && (|s.workers| >= 2 ==> s.queue == [])
    && s.destroyer.Some? && s.owner == Joining(s.destroyer.value)
    && forall i :: 0 <= i < |s.workers| && i != s.destroyer.value ==> s.workers[i] == Exited
  }

  ghost predicate AtRest(s: Pool) {
    if s.destroyer == None then Quiet(s) else JoinsItself(s)
  }

  /** When no worker is awake and the destructor is not joining, the pool is quiet. */
  lemma NothingLeft(s: Pool)
    requires StopInv(s) && DestroyInv(s) && s.mutex == Unlocked && s.call == NoCall && !SomeAwake(s.workers)
    requires s.owner == Alive || s.owner == Done
    requires s.workers != [] && s.destroyer == None ==> s.queue == []
    ensures AtRest(s)
  {
    forall i | 0 <= i < |s.workers|
      ensures s.workers[i] == if s.owner == Alive then Sleeping else Exited
    {
      assert s.owner == Alive && s.workers[i] == Exited ==> SomeExited(s.workers);
    }
    var d := if s.destroyer.Some? then s.destroyer.value else 0;
    assert d < |s.workers| ==> !s.workers[d].Destroying?;
  }

  /** A worker that has not left when it is joined, with nobody awake, is the one that joins. */
  lemma SelfJoin(s: Pool)
    requires StopInv(s) && DestroyInv(s) && s.mutex == Unlocked && s.call == NoCall && !SomeAwake(s.workers)
    requires s.owner.Joining? && s.owner.joined < |s.workers| && s.workers[s.owner.joined] != Exited
    ensures JoinsItself(s)
  {
    hide FlagInv, JoinInv;
    var k := s.owner.joined;
    forall i | 0 <= i < |s.workers|
      ensures s.workers[i] == Exited || s.workers[i].Destroying?
    {}
    if |s.workers| >= 2 {
      assert s.workers[if k == 0 then 1 else 0] == Exited;
      assert SomeExited(s.workers);
    }
  }

  /** When no worker is awake, only the destructor can be under way. */
  lemma OnlyOwnerLeft(s: Pool) returns (step: Step)
    requires Inv(s) && !AtRest(s)
    requires s.mutex == Unlocked && s.call == NoCall && !SomeAwake(s.workers)
    requires s.owner == Alive || s.owner.Joining? || s.owner == Done
    ensures Internal(step) && Enabled(s, step)
  {
    hide TaskInv, RefInv, WakeInv, MutexInv, GilInv, FlagInv, ExitInv, NotifiedInv;
    if !s.owner.Joining? {
      if s.workers != [] { NobodyAwake(s); }
      NothingLeft(s);
    } else if s.owner.joined == |s.workers| {
      step := OwnerLeave;
    } else {
      if s.workers[s.owner.joined] != Exited { SelfJoin(s); }
      step := OwnerJoin;
    }
  }

  /** Whoever holds the queue mutex can go on. */
  lemma MutexMoves(s: Pool) returns (step: Step)
    requires MutexInv(s) && s.mutex != Unlocked
    ensures Internal(step) && Enabled(s, step)
  {
    match s.mutex
    case ByWorker(i) =>
      step := if s.queue != [] then WorkerTake(i) else if s.stop then WorkerExit(i) else WorkerSleep(i);
    case ByCall => step := if s.stop then CallReject else CallPush;
    case ByOwner => step := OwnerStop;
  }

  /** With the mutex free, the call in progress can go on, and without one so can the holder of the GIL. */
  lemma CallMoves(s: Pool) returns (step: Step)
    requires MutexInv(s) && GilInv(s) && s.mutex == Unlocked && (s.call != NoCall || s.gil != GilFree)
    ensures Internal(step) && Enabled(s, step)
  {
    if s.call.CallWantsLock? {
      step := CallLock;
    } else if s.call == CallOwesNotify {
      if i :| 0 <= i < |s.workers| && s.workers[i] == Sleeping {
        step := CallNotify(Some(i));
      } else {
        step := CallNotify(None);
      }
    } else {
      step := if s.gil == GilClient then ClientRelease else WorkerFinish(s.gil.i);
    }
  }

  /** What a worker waits for, if it waits, is free. A callable that runs must have ended its own calls. */
  predicate Unhindered(s: Pool, w: Worker) {
    match w
    case WantLock => s.mutex == Unlocked
    case NeedGil(_) => s.gil == GilFree
    case Paused(_) => s.gil == GilFree
    case Running(_) => s.call == NoCall
    case _ => true
  }

  /** No awake worker is held up by anything but the lock it waits for. */
  lemma WorkerMoves(s: Pool, i: nat) returns (step: Step)
    requires i < |s.workers| && Awake(s.workers[i]) && Unhindered(s, s.workers[i])
    ensures Internal(step) && Enabled(s, step)
    ensures Moved(s, step).Some? && Moved(s, step).value.0 == i
  {
    match s.workers[i]
    case WantLock => step := WorkerLock(i);
    case Checking =>
      step := if s.queue != [] then WorkerTake(i) else if s.stop then WorkerExit(i) else WorkerSleep(i);
    case NeedGil(_) => step := WorkerGil(i);
    case Paused(_) => step := WorkerResume(i);
    case Running(_) => step := WorkerFinish(i);
  }

  /** The environment is free: sleepers may wake for no reason, callables may let go of the GIL, whoever has
      the GIL may submit anything, a client may take a free GIL, and the last reference to the pool may go
      on any thread that runs Python code. */
  lemma EnvironmentFree(s: Pool, i: nat, obj: Obj)
    requires Inv(s) && i < |s.workers|
    ensures s.workers[i] == Sleeping ==> Enabled(s, SpuriousWake(i))
    ensures s.workers[i].Running? && s.call == NoCall ==> Enabled(s, Yield(i)) && Enabled(s, BeginCall(obj))
    ensures s.workers[i].Running? && s.call == NoCall && s.owner == Alive ==>
              Enabled(s, DropInCallable(i)) && Enabled(s, DropWithCallable(i))
    ensures s.gil == GilFree ==> Enabled(s, ClientAcquire)
    ensures s.gil == GilClient && s.call == NoCall ==> Enabled(s, BeginCall(obj))
    ensures s.gil == GilClient && s.call == NoCall && s.owner == Alive ==> Enabled(s, OwnerStart)
  {
    hide MutexInv, StopInv, DestroyInv, TaskInv, RefInv, WakeInv;
  }

  /** The destructor starts without the GIL: any thread that waits for it can have it. */
  lemma StartFreesGil(s: Pool, step: Step, i: nat)
    requires Enabled(s, step) && Starts(step) && i < |s.workers|
    ensures Enabled(Next(s, step), ClientAcquire)
    ensures s.workers[i].NeedGil? ==> Enabled(Next(s, step), WorkerGil(i))
    ensures s.workers[i].Paused? ==> Enabled(Next(s, step), WorkerResume(i))
  {}

  /** No deadlock but one: in every state some thread of the pool can take a step, unless the pool is
      quiet or one of its workers has come to join itself. */
  lemma NoDeadlock(s: Pool) returns (step: Step)
    requires Inv(s) && !AtRest(s)
    ensures Internal(step) && Enabled(s, step)
  {
    if s.mutex != Unlocked {
      step := MutexMoves(s);
    } else if s.call != NoCall || s.gil != GilFree {
      step := CallMoves(s);
    } else if i :| 0 <= i < |s.workers| && Awake(s.workers[i]) {
      step := WorkerMoves(s, i);
    } else {
      hide Inv, SomeAwake, AtRest;
      match s.owner
      case OwnerWantsLock => step := OwnerLock;
      case OwesNotifyAll => step := OwnerNotifyAll;
      case OwnerNeedsGil => step := OwnerGil;
      case OwnerLocked => step := OwnerStop;
      case _ => step := OnlyOwnerLeft(s);
    }
  }

  // ---------------------------------------------------------------------------
  // Termination
  // ---------------------------------------------------------------------------

  function WorkerRank(w: Worker): nat {
    match w
    case WantLock => 2
    case Checking => 1
    case Sleeping => 0
    case NeedGil(_) => 5
    case Paused(_) => 4
    case Running(_) => 3
    case Destroying(_) => 0
    case Exited => 0
  }

  function CallRank(c: Call): nat {
    match c
    case NoCall => 0
    case CallWantsLock(_) => 11
    case CallLocked(_) => 10
    case CallOwesNotify => 3
  }

  function OwnerRank(o: Owner, threads: nat): nat {
    match o
    case Alive => 0
    case OwnerWantsLock => 3 * threads + 6
    case OwnerLocked => 3 * threads + 5
    case OwesNotifyAll => 3 * threads + 4
    case Joining(k) => 3 + if k <= threads then threads - k else 0
    case OwnerNeedsGil => 2
    case Done => 0
  }

  /** Work still to be done by the threads of the pool and by the call in progress. */
  function Measure(s: Pool): nat {
    Tally(s.workers, WorkerRank) + 6 * |s.queue| + CallRank(s.call) + OwnerRank(s.owner, |s.workers|) +
    if s.gil == GilClient then 1 else 0
  }

  lemma {:induction false} TallyWakeAll(workers: seq<Worker>)
    ensures Tally(WakeAll(workers), WorkerRank) <= Tally(workers, WorkerRank) + 2 * |workers|
  {
    if workers != [] {
      assert WakeAll(workers)[..|workers| - 1] == WakeAll(workers[..|workers| - 1]);
      TallyWakeAll(workers[..|workers| - 1]);
    }
  }

  lemma MoveDecreases(s: Pool, step: Step)
    requires Internal(step) && Enabled(s, step) && Moved(s, step).Some? && !step.CallNotify?
    ensures Measure(Next(s, step)) < Measure(s)
  {
    hide Tally;
    MovedWorkers(s, step);
    var (i, w) := Moved(s, step).value;
    TallyUpdate(s.workers, WorkerRank, i, w);
  }

  lemma CallDecreases(s: Pool, step: Step)
    requires Enabled(s, step)
    requires step.CallLock? || step.CallPush? || step.CallReject? || step.CallNotify? || step.ClientRelease?
    ensures Measure(Next(s, step)) < Measure(s)
  {
    hide Tally;
    MovedWorkers(s, step);
    if step.CallNotify? && step.target.Some? { TallyUpdate(s.workers, WorkerRank, step.target.value, WantLock); }
  }

  lemma OwnerDecreases(s: Pool, step: Step)
    requires Enabled(s, step)
    requires step.OwnerLock? || step.OwnerStop? || step.OwnerNotifyAll? || step.OwnerJoin? || step.OwnerLeave? ||
             step.OwnerGil?
    ensures Measure(Next(s, step)) < Measure(s)
  {
    hide Tally;
    MovedWorkers(s, step);
    if step == OwnerNotifyAll { TallyWakeAll(s.workers); }
  }

  /** Every step that the environment does not decide brings the pool closer to quiet. */
  lemma InternalDecreases(s: Pool, step: Step)
    requires Internal(step) && Enabled(s, step)
    ensures Measure(Next(s, step)) < Measure(s)
  {
    hide Measure, Next;
    if step.CallLock? || step.CallPush? || step.CallReject? || step.CallNotify? || step.ClientRelease? {
      CallDecreases(s, step);
    } else if Moved(s, step).Some? {
      MoveDecreases(s, step);
    } else {
      OwnerDecreases(s, step);
    }
  }

  ghost predicate AllInternal(steps: seq<Step>) {
    forall i :: 0 <= i < |steps| ==> Internal(steps[i])
  }

  /** Left to itself the pool stops within Measure steps, whatever the interleaving. */
  lemma {:induction false} InternalRunsEnd(steps: seq<Step>, states: seq<Pool>, k: nat)
    requires Trace(steps, states) && AllInternal(steps) && Inv(states[0]) && k <= |steps|
    ensures k + Measure(states[k]) <= Measure(states[0])
  {
    if k > 0 {
      InternalRunsEnd(steps, states, k - 1);
      InvTrace(steps, states, k - 1);
      hide Inv, Measure, Enabled, Next;
      InternalDecreases(states[k - 1], steps[k - 1]);
    }
  }

  ghost predicate Halted(s: Pool) {
    forall step :: Internal(step) ==> !Enabled(s, step)
  }

  /** A run of internal steps from s as far as it goes. */
  ghost predicate HaltedRun(s: Pool, steps: seq<Step>, states: seq<Pool>) {
    Trace(steps, states) && AllInternal(steps) && states[0] == s && Halted(states[|steps|])
  }

  lemma HaltedRunCons(s: Pool, step: Step, steps: seq<Step>, states: seq<Pool>)
    requires Enabled(s, step) && Internal(step) && HaltedRun(Next(s, step), steps, states)
    ensures HaltedRun(s, [step] + steps, [s] + states)
  {
    hide Enabled, Next, Internal, Halted;
    var a, b := [step] + steps, [s] + states;
    forall i | 0 <= i < |a|
      ensures Internal(a[i]) && Enabled(b[i], a[i]) && b[i + 1] == Next(b[i], a[i])
    {
      if i > 0 { assert a[i] == steps[i - 1] && b[i] == states[i - 1] && b[i + 1] == states[i]; }
    }
  }

  /** From every state internal steps lead as far as they can. */
  lemma {:induction false} SomeHaltedRun(s: Pool) returns (steps: seq<Step>, states: seq<Pool>)
    ensures HaltedRun(s, steps, states)
    decreases Measure(s)
  {
    if Halted(s) {
      steps, states := [], [s];
    } else {
      hide Measure, Enabled, Next, HaltedRun, Internal;
      var step :| Internal(step) && Enabled(s, step);
      InternalDecreases(s, step);
      var rest, after := SomeHaltedRun(Next(s, step));
      HaltedRunCons(s, step, rest, after);
      steps, states := [step] + rest, [s] + after;
    }
  }

  /** Left to itself the pool always comes to rest. */
  lemma HaltedMeansRest(s: Pool, steps: seq<Step>, states: seq<Pool>)
    requires Inv(s) && HaltedRun(s, steps, states)
    ensures AtRest(states[|steps|])
  {
    hide Inv, Enabled, Next, AtRest;
    InvTrace(steps, states, |steps|);
    if !AtRest(states[|steps|]) { var step := NoDeadlock(states[|steps|]); }
  }

  // ---------------------------------------------------------------------------
  // Who may destroy the pool
  // ---------------------------------------------------------------------------

  lemma DoneMeansClient(s: Pool)
    requires Inv(s) && s.owner == Done
    ensures s.destroyer == None
  {
    hide MutexInv, GilInv, TaskInv, RefInv, WakeInv;
    hide FlagInv, ExitInv, NotifiedInv;
    var d := if s.destroyer.Some? then s.destroyer.value else 0;
    assert d < |s.workers| ==> !s.workers[d].Destroying?;
  }

  lemma DestroyerKept(s: Pool, step: Step)
    requires Enabled(s, step) && s.owner != Alive
    ensures Next(s, step).owner != Alive && Next(s, step).destroyer == s.destroyer
  {}

  /** Once the destructor runs, it is the same thread's for good, and if that is a worker it never ends. */
  lemma {:induction false} DestroyerStays(steps: seq<Step>, states: seq<Pool>, k: nat)
    requires Trace(steps, states) && Inv(states[0]) && states[0].owner != Alive && k <= |steps|
    ensures states[k].owner != Alive && states[k].destroyer == states[0].destroyer
    ensures states[k].destroyer.Some? ==> states[k].owner != Done
  {
    hide Inv, Enabled, Next;
    InvTrace(steps, states, k);
    if states[k].owner == Done { DoneMeansClient(states[k]); }
    if k > 0 {
      DestroyerStays(steps, states, k - 1);
      DestroyerKept(states[k - 1], steps[k - 1]);
    }
  }

  /** Every way in which the pool is left to itself in this state ends with the destructor done. */
  ghost predicate MustComplete(s: Pool) {
    forall steps: seq<Step>, states: seq<Pool> :: HaltedRun(s, steps, states) ==> states[|steps|].owner == Done
  }

  /** Some interleaving, with the environment at work, gets the destructor done. */
  ghost predicate MayComplete(s: Pool) {
    exists steps: seq<Step>, states: seq<Pool> ::
      Trace(steps, states) && states[0] == s && states[|steps|].owner == Done
  }

  /** A destruction that has begun completes, in each or in any interleaving, exactly when the thread that
      dropped the last reference is not one of the pool's own workers. */
  lemma DestructionCompletesIff(threads: nat, before: seq<Step>, between: seq<Pool>, s: Pool)
    requires Run(threads, before, between, s) && s.owner != Alive
    ensures MustComplete(s) <==> s.destroyer == None
    ensures MayComplete(s) <==> s.destroyer == None
  {
    InvRun(threads, before, between, s);
    hide Inv, Enabled, Next, Halted, AllInternal, Trace, Run;
    var steps, states := SomeHaltedRun(s);
    forall steps: seq<Step>, states: seq<Pool> | HaltedRun(s, steps, states)
      ensures states[|steps|].owner == Done <==> s.destroyer == None
    {
      HaltedMeansRest(s, steps, states);
      DestroyerStays(steps, states, |steps|);
    }
    forall steps: seq<Step>, states: seq<Pool> | Trace(steps, states) && states[0] == s && s.destroyer.Some?
      ensures states[|steps|].owner != Done
    {
      DestroyerStays(steps, states, |steps|);
    }
  }

  /** A pool of one worker runs callable 7. */
  lemma WorkerRuns() returns (s: Pool)
    ensures s == Pool([Running(Task(0, 7))], [], false, Unlocked, GilWorker(0), NoCall, Alive, None,
                      [7], [Task(0, 7)], [], multiset{7})
    ensures Reachable(1, s)
  {
    hide Reachable;
    s := FirstSubmission(1);
    s := Onward(1, s, ClientRelease);
    s := Onward(1, s, WorkerLock(0));
    s := Onward(1, s, WorkerTake(0));
    s := Onward(1, s, WorkerGil(0));
    assert s.workers == [Running(Task(0, 7))] && s.queue == [] && s.taken == [Task(0, 7)];
  }

  /** Callable 7 submits callable 8 and holds the last reference to the pool: the worker that releases it
      joins itself, and callable 8 is never run. */
  lemma WorkerJoinsItself() returns (s: Pool)
    ensures s == Pool([Destroying(None)], [Task(1, 8)], true, Unlocked, GilFree, NoCall, Joining(0), Some(0),
                      [7, 8], [Task(0, 7)], [Task(0, 7)], multiset{8})
    ensures Reachable(1, s) && Halted(s) && !MayComplete(s)
  {
    hide Reachable, MayComplete, MustComplete, Halted;
    s := WorkerRuns();
    s := Submission(1, s, 8);
    s := Onward(1, s, DropWithCallable(0));
    s := Destruction(1, s);
    assert s.workers == [Destroying(None)];
    SelfJoinHalts(s);
    NeverCompletes(1, s);
  }

  lemma SelfJoinHalts(s: Pool)
    requires |s.workers| == 1 && s.workers[0].Destroying? && s.mutex == Unlocked && s.gil == GilFree
    requires s.call == NoCall && s.owner == Joining(0)
    ensures Halted(s)
  {}

  lemma NeverCompletes(threads: nat, s: Pool)
    requires Reachable(threads, s) && s.owner != Alive && s.destroyer.Some?
    ensures !MayComplete(s)
  {
    hide MayComplete, MustComplete, Run;
    var steps, states :| Run(threads, steps, states, s);
    DestructionCompletesIff(threads, steps, states, s);
  }

  // ---------------------------------------------------------------------------
  // What is left in the end
  // ---------------------------------------------------------------------------

  lemma {:induction false} NothingHeld(workers: seq<Worker>)
    requires forall i :: 0 <= i < |workers| ==> workers[i] == Sleeping || workers[i] == Exited
    ensures Held(workers) == multiset{} && HeldObjects(workers) == multiset{}
  {
    if workers != [] { NothingHeld(workers[..|workers| - 1]); }
  }

  /** In a quiet state everything accepted has run once, and the pool holds no reference. */
  lemma QuietMeansDone(threads: nat, steps: seq<Step>, states: seq<Pool>, s: Pool)
    requires threads >= 1 && Run(threads, steps, states, s) && Quiet(s)
    ensures multiset(s.finished) == multiset(Numbered(s.accepted)) && s.refs == multiset{}
  {
    InvRun(threads, steps, states, s);
    NothingHeld(s.workers);
    assert s.taken + s.queue == s.taken;
  }

  /** Once the destructor is done, a pool with at least one worker has left nothing behind: every accepted
      submission ran once and every reference is released. */
  lemma DestroyedMeansDone(threads: nat, steps: seq<Step>, states: seq<Pool>, s: Pool)
    requires threads >= 1 && Run(threads, steps, states, s) && s.owner == Done
    ensures s.queue == [] && multiset(s.finished) == multiset(Numbered(s.accepted)) && s.refs == multiset{}
  {
    InvRun(threads, steps, states, s);
    hide MutexInv, GilInv, WakeInv;
    assert s.workers[0] == Exited;
    NothingHeld(s.workers);
    assert s.taken + s.queue == s.taken;
  }

  /** Destroying a pool of this size always drains its queue. */
  ghost predicate AlwaysDrains(threads: nat) {
    forall s :: Reachable(threads, s) && s.owner == Done ==> s.queue == []
  }

  /** With no worker at all, a submission is accepted and then abandoned with its reference. */
  lemma NoWorkersLeak() returns (s: Pool)
    ensures s == Pool([], [Task(0, 7)], true, Unlocked, GilClient, NoCall, Done, None, [7], [], [], multiset{7})
    ensures Reachable(0, s)
  {
    hide Reachable;
    s := FirstSubmission(0);
    s := Onward(0, s, OwnerStart);
    s := Destruction(0, s);
    s := Departure(0, s);
    assert s.workers == [];
  }

  /** The queue is drained on destruction exactly when the pool was given at least one thread. */
  lemma DrainsIffSomeWorker(threads: nat)
    ensures AlwaysDrains(threads) <==> threads >= 1
  {
    if threads == 0 {
      var s := NoWorkersLeak();
    } else {
      forall s | Reachable(threads, s) && s.owner == Done
        ensures s.queue == []
      {
        var steps, states :| Run(threads, steps, states, s);
        DestroyedMeansDone(threads, steps, states, s);
      }
    }
  }
}
