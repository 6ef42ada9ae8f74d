/** What the pool's invariants give: work conservation, draining on shutdown, and termination. */
module PoolProgress {
  import opened Wrappers
  import opened Counting
  import opened PoolMachine
  import opened Sequences

  /** No thread is about to act on its own: nobody is on the way to the lock or to a notification. */
  predicate Quiescent(s: Pool) {
    s.pending == 0 && Ready !in s.workers && Woken !in s.workers
  }

  /** Until the pool stops, a quiescent state never has both a queued task and a worker to spare. */
  lemma WorkConserving(s: Pool)
    requires Inv(s) && Quiescent(s) && !s.stop
    ensures s.queue == [] || forall i :: 0 <= i < |s.workers| ==> s.workers[i].Running?
  {
    if s.queue != [] {
      CountsAreMembership(s.workers);
      forall i | 0 <= i < |s.workers|
        ensures s.workers[i].Running?
      {
        assert s.workers[i] in s.workers;
      }
    }
  }

  // ---- The destructor drains the queue -----------------------------------------------------------

  /**
   * When the destructor has returned, every accepted task has run exactly once, provided the pool
   * ever had a worker; a pool of no workers returns at once and loses what it accepted.
   */
  lemma DrainedIffStaffed(s: Pool)
    requires Inv(s) && s.joined
    ensures multiset(s.finished) == multiset(s.accepted) <==> s.workers != [] || s.accepted == []
    ensures s.workers != [] ==> s.queue == [] && s.started == s.accepted
  {
    NoneRunning(s.workers);
    if s.workers != [] {
      assert s.workers[0] == Exited;
      assert s.started + [] == s.started;
    } else {
      assert |multiset(s.finished)| == 0;
      assert |multiset(s.accepted)| == |s.accepted|;
    }
  }

  /** Such a loss is reachable. */
  lemma UnstaffedPoolLosesTask(task: Task)
    ensures var run := [Add(task), Stop, NotifyAll, Join];
            && IsRun(Init(0), run)
            && After(Init(0), run).joined
            && After(Init(0), run).accepted == [task] && After(Init(0), run).finished == []
  {
    var s0 := Init(0);
    var s1 := Apply(s0, Add(task));
    var s2 := Apply(s1, Stop);
    var s3 := Apply(s2, NotifyAll);
    var s4 := Apply(s3, Join);
    assert After(s4, []) == s4 && IsRun(s4, []);
    assert IsRun(s3, [Join]) && After(s3, [Join]) == s4 by { assert [Join][1..] == []; }
    assert IsRun(s2, [NotifyAll, Join]) && After(s2, [NotifyAll, Join]) == s4 by { assert [NotifyAll, Join][1..] == [Join]; }
    assert IsRun(s1, [Stop, NotifyAll, Join]) && After(s1, [Stop, NotifyAll, Join]) == s4 by {
      assert [Stop, NotifyAll, Join][1..] == [NotifyAll, Join];
    }
    assert [Add(task), Stop, NotifyAll, Join][1..] == [Stop, NotifyAll, Join];
  }

  function Adds(run: seq<Action>): seq<Task>
    decreases |run|
  {
    if run == [] then [] else (if run[0].Add? then [run[0].task] else []) + Adds(run[1..])
  }

  /** From the moment the pool stops, the accepted tasks are fixed and every Add is refused. */
  lemma {:induction false} StopRefusesAdds(s: Pool, run: seq<Action>)
    requires s.stop && IsRun(s, run)
    ensures After(s, run).accepted == s.accepted
    ensures After(s, run).rejected == s.rejected + Adds(run)
    decreases |run|
  {
    if run == [] {
      assert s.rejected + [] == s.rejected;
    } else {
      var t := Apply(s, run[0]);
      var first := if run[0].Add? then [run[0].task] else [];
      assert t.stop && t.accepted == s.accepted && t.rejected == s.rejected + first;
      StopRefusesAdds(t, run[1..]);
      assert (s.rejected + first) + Adds(run[1..]) == s.rejected + (first + Adds(run[1..]));
    }
  }

  /** The tasks added before the pool stops. */
  function AddsBeforeStop(run: seq<Action>): seq<Task>
    decreases |run|
  {
    if run == [] || run[0] == Stop then
      []
    else
      (if run[0].Add? then [run[0].task] else []) + AddsBeforeStop(run[1..])
  }

  function AddsAfterStop(run: seq<Action>): seq<Task>
    decreases |run|
  {
    if run == [] then [] else if run[0] == Stop then Adds(run[1..]) else AddsAfterStop(run[1..])
  }

  lemma StepAccepts(s: Pool, a: Action)
    requires Enabled(s, a) && !s.stop && a != Stop
    ensures !Apply(s, a).stop && Apply(s, a).rejected == s.rejected
    ensures Apply(s, a).accepted == s.accepted + (if a.Add? then [a.task] else [])
  {
  }

  /** What is accepted is what is added before the pool stops, in order; the rest is refused, in order. */
  lemma {:induction false} AcceptedIffBeforeStop(s: Pool, run: seq<Action>)
    requires IsRun(s, run) && !s.stop
    ensures After(s, run).accepted == s.accepted + AddsBeforeStop(run)
    ensures After(s, run).rejected == s.rejected + AddsAfterStop(run)
    ensures After(s, run).stop <==> Stop in run
    decreases |run|
  {
    if run == [] {
      Unit(s.accepted);
      Unit(s.rejected);
    } else if run[0] == Stop {
      Unit(s.accepted);
      StopRefusesAdds(Apply(s, Stop), run[1..]);
      StaysStopped(Apply(s, Stop), run[1..]);
    } else {
      StepAccepts(s, run[0]);
      AcceptedIffBeforeStop(Apply(s, run[0]), run[1..]);
      Assoc(s.accepted, if run[0].Add? then [run[0].task] else [], AddsBeforeStop(run[1..]));
    }
  }

  lemma {:induction false} StaysStopped(s: Pool, run: seq<Action>)
    requires IsRun(s, run) && s.stop
    ensures After(s, run).stop
    decreases |run|
  {
    if run != [] {
      StaysStopped(Apply(s, run[0]), run[1..]);
    }
  }

  // ---- Termination -------------------------------------------------------------------------------

  function Effort(w: Worker): nat {
    match w
    case Exited => 0
    case Asleep => 1
    case Ready => 2
    case Woken => 2
    case Running(_) => 3
  }

  function Measure(s: Pool): nat {
    2 * |s.queue| + Sum(s.workers, Effort) + 2 * s.pending
    + (if s.released then 0 else |s.workers| + 1) + (if s.stop then 0 else 1) + (if s.joined then 0 else 1)
  }

  lemma {:induction false} WakeAllEffort(workers: seq<Worker>)
    ensures Sum(WakeAll(workers), Effort) <= Sum(workers, Effort) + |workers|
  {
    if workers != [] {
      var init := workers[..|workers| - 1];
      WakeAllEffort(init);
      assert WakeAll(workers)[..|WakeAll(workers)| - 1] == WakeAll(init);
    }
  }

  /** Every step but a spurious wakeup or an Add brings the pool closer to the end. */
  lemma StepMeasure(s: Pool, a: Action)
    requires Enabled(s, a) && !a.Spurious?
    ensures !a.Add? ==> Measure(Apply(s, a)) < Measure(s)
    ensures a.Add? ==> Measure(Apply(s, a)) <= Measure(s) + 4
  {
    var t := Apply(s, a);
    if a.NotifyAll? {
      WakeAllEffort(s.workers);
      WakeAllKeeps(s.workers);
    } else if t.workers != s.workers {
      var w := if a.Notify? then a.wake.value else a.worker;
      SumUpdate(s.workers, w, t.workers[w], Effort);
    }
  }

  /** So a run without spurious wakeups is no longer than its start and its Adds allow. */
  lemma {:induction false} RunsEnd(s: Pool, run: seq<Action>)
    requires IsRun(s, run) && forall a :: a in run ==> !a.Spurious?
    ensures |run| <= Measure(s) + 5 * |Adds(run)|
    decreases |run|
  {
    if run != [] {
      assert run[0] in run;
      StepMeasure(s, run[0]);
      RunsEnd(Apply(s, run[0]), run[1..]);
    }
  }

  /** Nothing that the pool or its tasks do by themselves is left to do. */
  ghost predicate Halted(s: Pool) {
    forall a :: Enabled(s, a) ==> a.Add? || a.Spurious? || a.Stop?
  }

  /** There is always a way to notify. */
  lemma SomeWake(workers: seq<Worker>) returns (wake: Option<nat>)
    ensures CanWake(workers, wake)
  {
    wake := None;
    if w: nat :| w < |workers| && workers[w] == Asleep {
      wake := Some(w);
    }
  }

  /** A stopped pool halts only by returning from its destructor. */
  lemma StoppedPoolHaltsJoined(s: Pool)
    requires Inv(s) && s.stop && Halted(s)
    ensures s.joined
  {
    if !s.joined {
      assert Enabled(s, NotifyAll) <==> !s.released;
      forall i | 0 <= i < |s.workers|
        ensures s.workers[i].Exited?
      {
        assert s.workers[i] in s.workers;
        assert !Enabled(s, Check(i)) && !Enabled(s, Finish(i));
      }
      assert Enabled(s, Join);
    }
  }

  /** Before it stops, a pool whose tasks all return halts only with nothing left to run. */
  lemma LivePoolHaltsIdle(s: Pool)
    requires Inv(s) && !s.stop && !s.joined && s.workers != [] && Halted(s)
    ensures s.queue == [] && multiset(s.finished) == multiset(s.accepted)
    ensures forall i :: 0 <= i < |s.workers| ==> s.workers[i].Asleep?
  {
    if s.pending > 0 {
      var wake := SomeWake(s.workers);
      assert Enabled(s, Notify(wake));
    }
    forall i | 0 <= i < |s.workers|
      ensures s.workers[i].Asleep?
    {
      assert s.workers[i] in s.workers;
      assert !Enabled(s, Check(i)) && !Enabled(s, Finish(i));
    }
    WorkConserving(s);
    assert s.workers[0].Asleep?;
    NoneRunning(s.workers);
    assert s.started + [] == s.started;
  }

  /** Shutting down a staffed pool always ends, with every accepted task run exactly once. */
  lemma ShutdownCompletes(size: nat, run: seq<Action>)
    requires size > 0 && IsRun(Init(size), run)
    requires After(Init(size), run).stop && Halted(After(Init(size), run))
    ensures After(Init(size), run).joined && After(Init(size), run).queue == []
    ensures multiset(After(Init(size), run).finished) == multiset(After(Init(size), run).accepted)
  {
    InitInv(size);
    RunInv(Init(size), run);
    RunSize(Init(size), run);
    StoppedPoolHaltsJoined(After(Init(size), run));
    DrainedIffStaffed(After(Init(size), run));
  }

  lemma {:induction false} RunSize(s: Pool, run: seq<Action>)
    requires IsRun(s, run)
    ensures |After(s, run).workers| == |s.workers|
    decreases |run|
  {
    if run != [] {
      StepSize(s, run[0]);
      RunSize(Apply(s, run[0]), run[1..]);
    }
  }
}
