/**
 * The thread pool as a transition system over any number of workers. A step is one critical
 * section, or one call made outside the lock. Waiting follows section 30.5.1 of the C++14
 * standard: a notification wakes one arbitrary sleeper, a sleeper may also wake for no reason,
 * and every thread that wakes tests its predicate again.
 */
module PoolMachine {
  import opened Wrappers
  import opened Counting

  type Task = nat

  datatype Worker =
    | Ready              // about to lock and test, on entry or after a task
    | Woken              // taken out of the wait set, about to test again
    | Asleep
    | Running(task: Task)
    | Exited

  datatype Pool = Pool(
    workers: seq<Worker>,
    queue: seq<Task>,
    stop: bool,
    released: bool,        // the destructor has issued notify_all
    joined: bool,          // the destructor has returned
    pending: nat,          // Add calls that have enqueued and not yet notified
    accepted: seq<Task>,   // history: tasks enqueued, in order
    rejected: seq<Task>,   // history: tasks refused because the pool had stopped
    started: seq<Task>,    // history: tasks handed to a worker, in order
    finished: seq<Task>)   // history: tasks whose call returned

  datatype Action =
    | Add(task: Task)
    | Notify(wake: Option<nat>)
    | Check(worker: nat)
    | Finish(worker: nat)
    | Spurious(worker: nat)
    | Stop
    | NotifyAll
    | Join

  function Init(size: nat): Pool {
    Pool(seq(size, _ => Ready), [], false, false, false, 0, [], [], [], [])
  }

  predicate CanWake(workers: seq<Worker>, wake: Option<nat>) {
    match wake
    case Some(w) => w < |workers| && workers[w].Asleep?
    case None => Asleep !in workers
  }

  predicate Enabled(s: Pool, a: Action) {
    && !s.joined
    && match a
       case Add(_) => true
       case Notify(wake) => s.pending > 0 && CanWake(s.workers, wake)
       case Check(w) => w < |s.workers| && (s.workers[w].Ready? || s.workers[w].Woken?)
       case Finish(w) => w < |s.workers| && s.workers[w].Running?
       case Spurious(w) => w < |s.workers| && s.workers[w].Asleep?
       case Stop => !s.stop
       case NotifyAll => s.stop && !s.released
       case Join => s.released && forall i :: 0 <= i < |s.workers| ==> s.workers[i].Exited?
  }

  function WakeOne(workers: seq<Worker>, wake: Option<nat>): seq<Worker>
    requires CanWake(workers, wake)
  {
    match wake
    case Some(w) => workers[w := Woken]
    case None => workers
  }

  function WakeAll(workers: seq<Worker>): seq<Worker> {
    if workers == [] then
      []
    else
      var last := workers[|workers| - 1];
      WakeAll(workers[..|workers| - 1]) + [if last.Asleep? then Woken else last]
  }

  function Apply(s: Pool, a: Action): Pool
    requires Enabled(s, a)
  {
    match a
    case Add(task) =>
      if s.stop then
        s.(rejected := s.rejected + [task])
      else
        s.(queue := s.queue + [task], pending := s.pending + 1, accepted := s.accepted + [task])
    case Notify(wake) =>
      s.(pending := s.pending - 1, workers := WakeOne(s.workers, wake))
    case Check(w) =>
      if s.queue != [] then
        s.(workers := s.workers[w := Running(s.queue[0])], queue := s.queue[1..], started := s.started + [s.queue[0]])
      else if s.stop then
        s.(workers := s.workers[w := Exited])
      else
        s.(workers := s.workers[w := Asleep])
    case Finish(w) =>
      s.(workers := s.workers[w := Ready], finished := s.finished + [s.workers[w].task])
    case Spurious(w) =>
      s.(workers := s.workers[w := Woken])
    case Stop =>
      s.(stop := true)
    case NotifyAll =>
      s.(released := true, workers := WakeAll(s.workers))
    case Join =>
      s.(joined := true)
  }

  predicate IsRun(s: Pool, run: seq<Action>)
    decreases |run|
  {
    run == [] || (Enabled(s, run[0]) && IsRun(Apply(s, run[0]), run[1..]))
  }

  function After(s: Pool, run: seq<Action>): Pool
    requires IsRun(s, run)
    decreases |run|
  {
    if run == [] then s else After(Apply(s, run[0]), run[1..])
  }

  lemma {:induction false} RunSnoc(s: Pool, run: seq<Action>, a: Action)
    requires IsRun(s, run) && Enabled(After(s, run), a)
    ensures IsRun(s, run + [a]) && After(s, run + [a]) == Apply(After(s, run), a)
    decreases |run|
  {
    if run == [] {
      assert ([] + [a])[1..] == [];
    } else {
      RunSnoc(Apply(s, run[0]), run[1..], a);
      assert (run + [a])[1..] == run[1..] + [a];
    }
  }

  // ---- Invariants --------------------------------------------------------------------------------

  function AsleepBit(w: Worker): nat { if w.Asleep? then 1 else 0 }

  function WokenBit(w: Worker): nat { if w.Woken? then 1 else 0 }

  function WorkerBag(w: Worker): multiset<Task> {
    if w.Running? then multiset{w.task} else multiset{}
  }

  function RunningBag(workers: seq<Worker>): multiset<Task> {
    if workers == [] then
      multiset{}
    else
      RunningBag(workers[..|workers| - 1]) + WorkerBag(workers[|workers| - 1])
  }

  /** Tasks leave the queue in the order in which they were accepted. */
  predicate Ordered(s: Pool) {
    && s.started + s.queue == s.accepted
    && (s.workers == [] ==> s.started == [])
  }

  /** A task that was handed out is being run by one worker or has been run once. */
  predicate Conserved(s: Pool) {
    multiset(s.started) == RunningBag(s.workers) + multiset(s.finished)
  }

  /** While someone sleeps, every queued task has a woken worker or a notification on its way. */
  predicate NoLostWakeup(s: Pool) {
    !s.stop && Sum(s.workers, AsleepBit) > 0 ==> |s.queue| <= Sum(s.workers, WokenBit) + s.pending
  }

  /** Workers exit only from a stopped pool with an empty queue; after notify_all nobody sleeps. */
  predicate Stopping(s: Pool) {
    && (s.released ==> s.stop && Asleep !in s.workers)
    && (Exited in s.workers ==> s.stop && s.queue == [])
    && (s.joined ==> s.released && forall i :: 0 <= i < |s.workers| ==> s.workers[i].Exited?)
  }

  predicate Inv(s: Pool) {
    Ordered(s) && Conserved(s) && NoLostWakeup(s) && Stopping(s)
  }

  // ---- Invariants: every step keeps them ---------------------------------------------------------

  lemma {:induction false} BagUpdate(workers: seq<Worker>, i: nat, x: Worker, task: Task)
    requires i < |workers|
    ensures RunningBag(workers[i := x])[task] + WorkerBag(workers[i])[task] == RunningBag(workers)[task] + WorkerBag(x)[task]
  {
    var init := workers[..|workers| - 1];
    if i == |workers| - 1 {
      assert workers[i := x][..|workers| - 1] == init;
    } else {
      BagUpdate(init, i, x, task);
      assert workers[i := x][..|workers| - 1] == init[i := x];
    }
  }

  lemma {:induction false} WakeAllKeeps(workers: seq<Worker>)
    ensures |WakeAll(workers)| == |workers|
    ensures forall i :: 0 <= i < |workers| ==>
              WakeAll(workers)[i] == if workers[i].Asleep? then Woken else workers[i]
    ensures RunningBag(WakeAll(workers)) == RunningBag(workers)
  {
    if workers != [] {
      WakeAllKeeps(workers[..|workers| - 1]);
      assert WakeAll(workers)[..|workers| - 1] == WakeAll(workers[..|workers| - 1]);
    }
  }

  lemma CountsAreMembership(workers: seq<Worker>)
    ensures Sum(workers, AsleepBit) == 0 <==> Asleep !in workers
    ensures Sum(workers, WokenBit) == 0 <==> Woken !in workers
  {
    if Sum(workers, WokenBit) > 0 {
      var i := SumWitness(workers, WokenBit);
      assert workers[i] == Woken;
    } else if Woken in workers {
      var i :| 0 <= i < |workers| && workers[i] == Woken;
      SumAtLeast(workers, i, WokenBit);
    }
    if Sum(workers, AsleepBit) > 0 {
      var i := SumWitness(workers, AsleepBit);
      assert workers[i] == Asleep;
    } else if Asleep in workers {
      var i :| 0 <= i < |workers| && workers[i] == Asleep;
      SumAtLeast(workers, i, AsleepBit);
    }
  }

  lemma InitInv(size: nat)
    ensures Inv(Init(size))
  {
    var workers := Init(size).workers;
    assert forall i :: 0 <= i < |workers| ==> workers[i] == Ready;
    CountsAreMembership(workers);
    NoneRunning(workers);
    var s := Init(size);
    assert Ordered(s);
    assert Conserved(s);
    assert NoLostWakeup(s);
    assert Stopping(s);
  }

  lemma {:induction false} NoneRunning(workers: seq<Worker>)
    requires forall i :: 0 <= i < |workers| ==> !workers[i].Running?
    ensures RunningBag(workers) == multiset{}
  {
    if workers != [] {
      NoneRunning(workers[..|workers| - 1]);
    }
  }

  lemma StepOrdered(s: Pool, a: Action)
    requires Ordered(s) && Enabled(s, a)
    ensures Ordered(Apply(s, a))
  {
  }

  lemma AppendBag(s: seq<Task>, x: Task)
    ensures multiset(s + [x]) == multiset(s) + multiset{x}
  {
  }

  lemma StepConserved(s: Pool, a: Action)
    requires Conserved(s) && Enabled(s, a)
    ensures Conserved(Apply(s, a))
  {
    if a.NotifyAll? {
      WakeAllKeeps(s.workers);
    } else if a.Check? || a.Finish? || a.Spurious? || (a.Notify? && a.wake.Some?) {
      WorkerConserved(s, a, if a.Notify? then a.wake.value else a.worker);
    }
  }

  lemma WorkerConserved(s: Pool, a: Action, w: nat)
    requires Conserved(s) && Enabled(s, a)
    requires if a.Notify? then a.wake == Some(w) else (a.Check? || a.Finish? || a.Spurious?) && a.worker == w
    ensures Conserved(Apply(s, a))
  {
    var t := Apply(s, a);
    var was, now := s.workers[w], t.workers[w];
    assert t.workers == s.workers[w := now];
    if now.Running? {
      AppendBag(s.started, now.task);
    } else if was.Running? {
      AppendBag(s.finished, was.task);
    }
    assert multiset(t.started) == multiset(s.started) + WorkerBag(now);
    assert multiset(t.finished) == multiset(s.finished) + WorkerBag(was);
    MovedTask(s, t, w);
  }

  lemma MovedTask(s: Pool, t: Pool, w: nat)
    requires Conserved(s) && w < |s.workers| == |t.workers| && t.workers == s.workers[w := t.workers[w]]
    requires multiset(t.started) == multiset(s.started) + WorkerBag(t.workers[w])
    requires multiset(t.finished) == multiset(s.finished) + WorkerBag(s.workers[w])
    ensures Conserved(t)
  {
    forall task
      ensures multiset(t.started)[task] == (RunningBag(t.workers) + multiset(t.finished))[task]
    {
      BagUpdate(s.workers, w, t.workers[w], task);
    }
  }

  lemma StepNoLostWakeup(s: Pool, a: Action)
    requires NoLostWakeup(s) && Enabled(s, a)
    ensures NoLostWakeup(Apply(s, a))
  {
    var t := Apply(s, a);
    if a.Stop? || a.NotifyAll? || a.Join? {
    } else {
      CountsAreMembership(s.workers);
      if t.workers != s.workers {
        var w := if a.Notify? then a.wake.value else a.worker;
        SumUpdate(s.workers, w, t.workers[w], AsleepBit);
        SumUpdate(s.workers, w, t.workers[w], WokenBit);
      }
    }
  }

  lemma StepStopping(s: Pool, a: Action)
    requires Stopping(s) && Enabled(s, a)
    ensures Stopping(Apply(s, a))
  {
    if a.NotifyAll? {
      WakeAllKeeps(s.workers);
    }
  }

  /** Every step keeps every invariant. */
  lemma StepInv(s: Pool, a: Action)
    requires Inv(s) && Enabled(s, a)
    ensures Inv(Apply(s, a))
  {
    StepOrdered(s, a);
    StepConserved(s, a);
    StepNoLostWakeup(s, a);
    StepStopping(s, a);
  }

  lemma StepSize(s: Pool, a: Action)
    requires Enabled(s, a)
    ensures |Apply(s, a).workers| == |s.workers|
  {
    if a.NotifyAll? {
      WakeAllKeeps(s.workers);
    }
  }

  /** So does every run. */
  lemma {:induction false} RunInv(s: Pool, run: seq<Action>)
    requires Inv(s) && IsRun(s, run)
    ensures Inv(After(s, run))
    decreases |run|
  {
    if run != [] {
      StepInv(s, run[0]);
      RunInv(Apply(s, run[0]), run[1..]);
    }
  }
}
