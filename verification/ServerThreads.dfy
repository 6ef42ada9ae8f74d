/**
 * The reactors on the pool: `Server::Start` submits every sub-reactor's loop once, connections are
 * bound to the loop `fd % n`, and a worker runs callbacks only from the loop that it is running.
 */
module ServerThreads {
  import opened Wrappers
  import opened Counting
  import opened Descriptor
  import opened PoolMachine
  import opened PoolProgress

  datatype Server = Server(
    pool: Pool,
    submitted: nat,              // loops that Start has passed to the pool
    registry: map<Fd, nat>,      // open connections, each with the loop that watches it
    handling: seq<Option<Fd>>,   // for each worker, the connection whose message callback it is running
    greets: bool,                // an on-connect callback is set
    greeting: Option<Fd>)        // the connection whose on-connect callback the main reactor is running

  datatype ServerAction =
    | Submit
    | PoolStep(step: Action)     // a loop never returns, so no task finishes; the pool is not stopped
    | NewConnection(fd: Fd)      // the connection is registered before its on-connect callback, if there is one, begins
    | EndGreeting
    | DeleteConnection(fd: Fd)
    | BeginCallback(worker: nat, fd: Fd)
    | EndCallback(worker: nat)

  /** As many sub-reactors as workers. */
  function Size(s: Server): nat {
    |s.pool.workers|
  }

  function Start(size: nat, greets: bool): Server {
    Server(Init(size), 0, map[], seq(size, _ => None), greets, None)
  }

  predicate Possible(s: Server, a: ServerAction) {
    match a
    case Submit => s.submitted < Size(s) && Enabled(s.pool, Add(s.submitted))
    case PoolStep(step) => (step.Notify? || step.Check? || step.Spurious?) && Enabled(s.pool, step)
    // The main reactor accepts only once Start has submitted every loop.
    case NewConnection(fd) => Size(s) > 0 && s.submitted == Size(s) && fd !in s.registry && s.greeting.None?
    case EndGreeting => s.greeting.Some?
    case DeleteConnection(fd) => fd in s.registry
    case BeginCallback(w, fd) =>
      && w < Size(s) == |s.handling| && s.handling[w].None? && fd in s.registry
      && s.pool.workers[w] == Running(s.registry[fd])
    case EndCallback(w) => w < |s.handling| && s.handling[w].Some?
  }

  function Next(s: Server, a: ServerAction): Server
    requires Possible(s, a)
  {
    match a
    case Submit => s.(pool := Apply(s.pool, Add(s.submitted)), submitted := s.submitted + 1)
    case PoolStep(step) => s.(pool := Apply(s.pool, step))
    case NewConnection(fd) =>
      s.(registry := s.registry[fd := fd % Size(s)], greeting := if s.greets then Some(fd) else None)
    case EndGreeting => s.(greeting := None)
    case DeleteConnection(fd) => s.(registry := s.registry - {fd})
    case BeginCallback(w, fd) => s.(handling := s.handling[w := Some(fd)])
    case EndCallback(w) => s.(handling := s.handling[w := None])
  }

  predicate IsServerRun(s: Server, run: seq<ServerAction>)
    decreases |run|
  {
    run == [] || (Possible(s, run[0]) && IsServerRun(Next(s, run[0]), run[1..]))
  }

  function ServerAfter(s: Server, run: seq<ServerAction>): Server
    requires IsServerRun(s, run)
    decreases |run|
  {
    if run == [] then s else ServerAfter(Next(s, run[0]), run[1..])
  }

  // ---- Invariant ---------------------------------------------------------------------------------

  /** Each loop is submitted once, in order, and never comes back. */
  predicate SubmittedOnce(s: Server) {
    && |s.pool.accepted| == s.submitted <= Size(s)
    && (forall i :: 0 <= i < s.submitted ==> s.pool.accepted[i] == i)
    && s.pool.finished == [] && !s.pool.stop && !s.pool.joined
  }

  /** A connection is watched, and its callback run, only by the loop of its descriptor. */
  predicate Bound(s: Server) {
    && |s.handling| == Size(s)
    && (forall fd :: fd in s.registry ==> Size(s) > 0 && s.registry[fd] == fd % Size(s))
    && (forall w :: 0 <= w < Size(s) && s.handling[w].Some? ==>
          s.pool.workers[w] == Running(s.handling[w].value % Size(s)))
  }

  predicate ServerInv(s: Server) {
    Inv(s.pool) && SubmittedOnce(s) && Bound(s)
  }

  lemma StepServerInv(s: Server, a: ServerAction)
    requires ServerInv(s) && Possible(s, a)
    ensures ServerInv(Next(s, a))
  {
    match a {
      case Submit =>
        StepInv(s.pool, Add(s.submitted));
        SubmitBound(s);
      case PoolStep(step) =>
        StepInv(s.pool, step);
        PoolStepBound(s, step);
      case _ => HandlingBound(s, a);
    }
  }

  lemma SubmitBound(s: Server)
    requires SubmittedOnce(s) && Bound(s) && Possible(s, Submit)
    ensures SubmittedOnce(Next(s, Submit)) && Bound(Next(s, Submit))
  {
  }

  /** Connections and callbacks come and go without the pool's notice. */
  lemma HandlingBound(s: Server, a: ServerAction)
    requires SubmittedOnce(s) && Bound(s) && Possible(s, a) && !a.Submit? && !a.PoolStep?
    ensures SubmittedOnce(Next(s, a)) && Bound(Next(s, a)) && Next(s, a).pool == s.pool
  {
  }

  lemma PoolStepBound(s: Server, a: Action)
    requires SubmittedOnce(s) && Bound(s) && Possible(s, PoolStep(a))
    ensures SubmittedOnce(Next(s, PoolStep(a))) && Bound(Next(s, PoolStep(a)))
  {
    KeepsRunning(s.pool, a);
  }

  /** Only finishing a task takes a worker off it. */
  lemma KeepsRunning(p: Pool, a: Action)
    requires Enabled(p, a) && (a.Notify? || a.Check? || a.Spurious?)
    ensures |Apply(p, a).workers| == |p.workers|
    ensures forall w :: 0 <= w < |p.workers| && p.workers[w].Running? ==> Apply(p, a).workers[w] == p.workers[w]
  {
  }

  lemma {:induction false} RunServerInv(s: Server, run: seq<ServerAction>)
    requires ServerInv(s) && IsServerRun(s, run)
    ensures ServerInv(ServerAfter(s, run))
    decreases |run|
  {
    if run != [] {
      StepServerInv(s, run[0]);
      RunServerInv(Next(s, run[0]), run[1..]);
    }
  }

  lemma StartInv(size: nat, greets: bool)
    ensures ServerInv(Start(size, greets))
  {
    InitInv(size);
  }

  // ---- One thread a connection -------------------------------------------------------------------

  lemma {:induction false} RunningTwice(workers: seq<Worker>, i: nat, j: nat)
    requires i < j < |workers| && workers[i] == workers[j] && workers[i].Running?
    ensures RunningBag(workers)[workers[i].task] >= 2
  {
    if j == |workers| - 1 {
      RunningOnce(workers[..j], i);
    } else {
      RunningTwice(workers[..|workers| - 1], i, j);
    }
  }

  lemma {:induction false} RunningOnce(workers: seq<Worker>, i: nat)
    requires i < |workers| && workers[i].Running?
    ensures RunningBag(workers)[workers[i].task] >= 1
  {
    if i < |workers| - 1 {
      RunningOnce(workers[..|workers| - 1], i);
    }
  }

  lemma {:induction false} CountedOnce(tasks: seq<Task>, task: Task)
    requires forall i :: 0 <= i < |tasks| ==> tasks[i] == i
    ensures multiset(tasks)[task] == if task < |tasks| then 1 else 0
  {
    if tasks != [] {
      var init := tasks[..|tasks| - 1];
      CountedOnce(init, task);
      AppendBag(init, |tasks| - 1);
      assert tasks == init + [|tasks| - 1];
    }
  }

  lemma StartedInOrder(s: Server)
    requires ServerInv(s)
    ensures forall i :: 0 <= i < |s.pool.started| ==> s.pool.started[i] == i
    ensures |s.pool.started| + |s.pool.queue| == s.submitted
  {
    assert |s.pool.started + s.pool.queue| == s.submitted;
    forall i | 0 <= i < |s.pool.started|
      ensures s.pool.started[i] == i
    {
      assert (s.pool.started + s.pool.queue)[i] == s.pool.accepted[i];
    }
  }

  /** No loop is on two workers. */
  lemma LoopOnOneWorker(s: Server, i: nat, j: nat)
    requires ServerInv(s) && i < j < Size(s) && s.pool.workers[i].Running?
    ensures s.pool.workers[i] != s.pool.workers[j]
  {
    if s.pool.workers[i] == s.pool.workers[j] {
      RunningTwice(s.pool.workers, i, j);
      StartedInOrder(s);
      CountedOnce(s.pool.started, s.pool.workers[i].task);
    }
  }

  datatype Thread = MainReactor | WorkerThread(index: nat)

  /** The thread is running a callback of the connection. */
  predicate Serves(s: Server, t: Thread, fd: Fd) {
    match t
    case MainReactor => s.greeting == Some(fd)
    case WorkerThread(w) => w < |s.handling| && s.handling[w] == Some(fd)
  }

  /**
   * No two workers ever run callbacks of the same connection at once: if two threads do, one of them
   * is the main reactor's, in the on-connect callback.
   */
  lemma SingleThreadedConnections(size: nat, greets: bool, run: seq<ServerAction>, fd: Fd, t: Thread, u: Thread)
    requires IsServerRun(Start(size, greets), run)
    requires Serves(ServerAfter(Start(size, greets), run), t, fd) && Serves(ServerAfter(Start(size, greets), run), u, fd) && t != u
    ensures ServerAfter(Start(size, greets), run).greeting == Some(fd) && (t.MainReactor? <==> !u.MainReactor?)
  {
    StartInv(size, greets);
    RunServerInv(Start(size, greets), run);
    var s := ServerAfter(Start(size, greets), run);
    if t.WorkerThread? && u.WorkerThread? {
      LoopOnOneWorker(s, if t.index < u.index then t.index else u.index, if t.index < u.index then u.index else t.index);
    }
  }

  // ---- And exactly when two ----------------------------------------------------------------------

  /** In some run two threads serve the connection at once. */
  ghost predicate MayOverlap(s: Server, fd: Fd) {
    exists run, t, u :: IsServerRun(s, run) && t != u && Serves(ServerAfter(s, run), t, fd) && Serves(ServerAfter(s, run), u, fd)
  }

  lemma {:induction false} NobodyGreeted(s: Server, run: seq<ServerAction>)
    requires IsServerRun(s, run) && !s.greets && s.greeting.None?
    ensures ServerAfter(s, run).greeting.None?
    decreases |run|
  {
    if run != [] {
      NobodyGreeted(Next(s, run[0]), run[1..]);
    }
  }

  lemma {:induction false} ServerSnoc(s: Server, run: seq<ServerAction>, a: ServerAction)
    requires IsServerRun(s, run) && Possible(ServerAfter(s, run), a)
    ensures IsServerRun(s, run + [a]) && ServerAfter(s, run + [a]) == Next(ServerAfter(s, run), a)
    decreases |run|
  {
    if run == [] {
      assert [a][1..] == [];
    } else {
      assert (run + [a])[1..] == run[1..] + [a];
      ServerSnoc(Next(s, run[0]), run[1..], a);
    }
  }

  /** Start has passed the first k loops to the pool, and the first j of them run on the workers of their index. */
  predicate Started(s: Server, size: nat, greets: bool, k: nat, j: nat) {
    && Size(s) == |s.handling| == size && s.greets == greets && s.greeting.None? && s.registry == map[]
    && s.submitted == k && !s.pool.stop && !s.pool.joined && |s.pool.queue| == k - j
    && (forall i :: 0 <= i < |s.pool.queue| ==> s.pool.queue[i] == j + i)
    && (forall w :: 0 <= w < size ==> s.handling[w].None? && s.pool.workers[w] == if w < j then Running(w) else Ready)
  }

  lemma {:induction false} SubmitLoops(size: nat, greets: bool, k: nat) returns (run: seq<ServerAction>)
    requires k <= size
    ensures IsServerRun(Start(size, greets), run) && Started(ServerAfter(Start(size, greets), run), size, greets, k, 0)
  {
    run := [];
    if k > 0 {
      run := SubmitLoops(size, greets, k - 1);
      ServerSnoc(Start(size, greets), run, Submit);
      run := run + [Submit];
    }
  }

  lemma {:induction false} RunLoops(size: nat, greets: bool, j: nat) returns (run: seq<ServerAction>)
    requires j <= size
    ensures IsServerRun(Start(size, greets), run) && Started(ServerAfter(Start(size, greets), run), size, greets, size, j)
  {
    if j == 0 {
      run := SubmitLoops(size, greets, size);
    } else {
      run := RunLoops(size, greets, j - 1);
      ServerSnoc(Start(size, greets), run, PoolStep(Check(j - 1)));
      run := run + [PoolStep(Check(j - 1))];
    }
  }

  /** A connection that is greeted may get its first message before the greeting is over. */
  lemma GreetingOverlaps(size: nat, fd: Fd) returns (run: seq<ServerAction>)
    requires size > 0
    ensures IsServerRun(Start(size, true), run)
    ensures Serves(ServerAfter(Start(size, true), run), MainReactor, fd)
    ensures Serves(ServerAfter(Start(size, true), run), WorkerThread(fd % size), fd)
  {
    run := RunLoops(size, true, size);
    ServerSnoc(Start(size, true), run, NewConnection(fd));
    run := run + [NewConnection(fd)];
    ServerSnoc(Start(size, true), run, BeginCallback(fd % size, fd));
    run := run + [BeginCallback(fd % size, fd)];
  }

  /** Two threads can serve a connection at once exactly when an on-connect callback is set and there is a reactor. */
  lemma OverlapIffGreeted(size: nat, greets: bool, fd: Fd)
    ensures MayOverlap(Start(size, greets), fd) <==> greets && size > 0
  {
    if greets && size > 0 {
      var run := GreetingOverlaps(size, fd);
    }
    if MayOverlap(Start(size, greets), fd) {
      var run, t, u :| IsServerRun(Start(size, greets), run) && t != u
                       && Serves(ServerAfter(Start(size, greets), run), t, fd)
                       && Serves(ServerAfter(Start(size, greets), run), u, fd);
      SingleThreadedConnections(size, greets, run, fd, t, u);
      if !greets {
        NobodyGreeted(Start(size, greets), run);
      } else if size == 0 {
        NobodyAccepted(Start(size, greets), run);
      }
    }
  }

  lemma {:induction false} NobodyAccepted(s: Server, run: seq<ServerAction>)
    requires ServerInv(s) && IsServerRun(s, run) && Size(s) == 0 && s.greeting.None?
    ensures ServerAfter(s, run).greeting.None?
    decreases |run|
  {
    if run != [] {
      StepServerInv(s, run[0]);
      NobodyAccepted(Next(s, run[0]), run[1..]);
    }
  }

  // ---- Who is there ------------------------------------------------------------------------------

  /** Whether a connection is open after a run, by the last word on it. */
  predicate LastOpened(run: seq<ServerAction>, fd: Fd, before: bool) {
    if run == [] then
      before
    else
      LastOpened(run[1..], fd, if run[0] == NewConnection(fd) then true
                               else if run[0] == DeleteConnection(fd) then false
                               else before)
  }

  /** What a worker is serving after a run, by the last callback that began or ended on it. */
  function LastServed(run: seq<ServerAction>, w: nat, before: Option<Fd>): Option<Fd> {
    if run == [] then
      before
    else
      LastServed(run[1..], w, if run[0].BeginCallback? && run[0].worker == w then Some(run[0].fd)
                              else if run[0] == EndCallback(w) then None
                              else before)
  }

  /** Which connection is being greeted after a run, by the last greeting that began or ended. */
  function LastGreeted(run: seq<ServerAction>, greets: bool, before: Option<Fd>): Option<Fd> {
    if run == [] then
      before
    else
      LastGreeted(run[1..], greets, if run[0].NewConnection? && greets then Some(run[0].fd)
                                    else if run[0].EndGreeting? then None
                                    else before)
  }

  lemma {:induction false} GreetingIsHistory(s: Server, run: seq<ServerAction>)
    requires IsServerRun(s, run)
    ensures ServerAfter(s, run).greeting == LastGreeted(run, s.greets, s.greeting)
    decreases |run|
  {
    if run != [] {
      GreetingIsHistory(Next(s, run[0]), run[1..]);
    }
  }

  /** The table holds the connections that were accepted and not deleted since; a worker serves what it began last. */
  lemma {:induction false} TableIsHistory(s: Server, run: seq<ServerAction>, fd: Fd, w: nat)
    requires IsServerRun(s, run) && w < |s.handling|
    ensures fd in ServerAfter(s, run).registry <==> LastOpened(run, fd, fd in s.registry)
    ensures |ServerAfter(s, run).handling| == |s.handling|
    ensures ServerAfter(s, run).handling[w] == LastServed(run, w, s.handling[w])
    decreases |run|
  {
    if run != [] {
      TableIsHistory(Next(s, run[0]), run[1..], fd, w);
    }
  }

  // ---- Every reactor gets a worker ---------------------------------------------------------------

  lemma {:induction false} BagSize(workers: seq<Worker>)
    requires forall i :: 0 <= i < |workers| ==> workers[i].Running?
    ensures |RunningBag(workers)| == |workers|
  {
    if workers != [] {
      BagSize(workers[..|workers| - 1]);
    }
  }

  lemma {:induction false} BagMember(workers: seq<Worker>, task: Task) returns (w: nat)
    requires RunningBag(workers)[task] > 0
    ensures w < |workers| && workers[w] == Running(task)
  {
    w := |workers| - 1;
    if workers[w] != Running(task) {
      w := BagMember(workers[..|workers| - 1], task);
    }
  }

  /** Once Start has submitted the loops and the pool is quiet, each loop runs on its own worker. */
  lemma EveryLoopRuns(s: Server, loop: nat)
    requires ServerInv(s) && s.submitted == Size(s) && Quiescent(s.pool) && loop < Size(s)
    ensures exists w :: 0 <= w < Size(s) && s.pool.workers[w] == Running(loop)
  {
    WorkConserving(s.pool);
    StartedInOrder(s);
    assert |multiset(s.pool.started)| == |s.pool.started|;
    if s.pool.queue != [] {
      BagSize(s.pool.workers);
    } else {
      CountedOnce(s.pool.started, loop);
      assert multiset(s.pool.started)[loop] == RunningBag(s.pool.workers)[loop];
      var w := BagMember(s.pool.workers, loop);
    }
  }

  /** The pool has nothing left to do, short of a spurious wakeup. */
  ghost predicate Settled(s: Server) {
    forall step :: Possible(s, PoolStep(step)) ==> step.Spurious?
  }

  lemma SettledIsQuiescent(s: Server)
    requires ServerInv(s) && Settled(s)
    ensures Quiescent(s.pool)
  {
    if s.pool.pending > 0 {
      var wake := SomeWake(s.pool.workers);
      assert Possible(s, PoolStep(Notify(wake)));
    }
    forall w | 0 <= w < Size(s)
      ensures !s.pool.workers[w].Ready? && !s.pool.workers[w].Woken?
    {
      assert !Possible(s, PoolStep(Check(w)));
    }
  }

  function PoolSteps(run: seq<ServerAction>): nat
    decreases |run|
  {
    if run == [] then 0 else (if run[0].PoolStep? then 1 else 0) + PoolSteps(run[1..])
  }

  /** Without spurious wakeups the pool settles after a bounded number of its own steps. */
  lemma {:induction false} PoolSettles(s: Server, run: seq<ServerAction>)
    requires IsServerRun(s, run) && s.submitted <= Size(s)
    requires forall a :: a in run ==> !(a.PoolStep? && a.step.Spurious?)
    ensures PoolSteps(run) <= Measure(s.pool) + 4 * (Size(s) - s.submitted)
    decreases |run|
  {
    if run != [] {
      var a := run[0];
      assert a in run;
      if a.Submit? {
        StepMeasure(s.pool, Add(s.submitted));
      } else if a.PoolStep? {
        StepMeasure(s.pool, a.step);
        StepSize(s.pool, a.step);
      }
      PoolSettles(Next(s, a), run[1..]);
    }
  }

  /** When Start has submitted the loops and the pool has settled, each loop runs on a worker. */
  lemma StartRunsEveryLoop(size: nat, greets: bool, run: seq<ServerAction>, loop: nat)
    requires IsServerRun(Start(size, greets), run)
    requires ServerAfter(Start(size, greets), run).submitted == Size(ServerAfter(Start(size, greets), run))
    requires Settled(ServerAfter(Start(size, greets), run)) && loop < Size(ServerAfter(Start(size, greets), run))
    ensures exists w :: 0 <= w < Size(ServerAfter(Start(size, greets), run))
                     && ServerAfter(Start(size, greets), run).pool.workers[w] == Running(loop)
  {
    StartInv(size, greets);
    RunServerInv(Start(size, greets), run);
    SettledIsQuiescent(ServerAfter(Start(size, greets), run));
    EveryLoopRuns(ServerAfter(Start(size, greets), run), loop);
  }
}
