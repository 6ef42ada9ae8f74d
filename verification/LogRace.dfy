/** What a destructor that races with Log can lose, and exactly when. */
module LogRace {
  import opened Wrappers
  import opened Counting
  import opened Sequences
  import opened LogTypes
  import opened LogPipeline
  import opened LogProgress

  // ---- The destructor may return first -----------------------------------------------------------

  /** Once the writer is done, no run consumes anything more, and a call that meets a full queue never returns. */
  lemma {:induction false} AfterTheWriter(s: Pipeline, run: seq<Action>, p: nat)
    requires s.shared.consumer.Done? && IsRun(s, run)
    requires s.shared.stopping && p < |s.shared.producers|
    ensures After(s, run).shared.consumed == s.shared.consumed
    ensures p < |After(s, run).shared.producers|
    ensures |s.shared.queue| >= s.shared.capacity ==>
              After(s, run).shared.producers[p].todo == s.shared.producers[p].todo
    decreases |run|
  {
    if run != [] {
      WriterStaysDone(s.shared, run[0], p);
      AfterTheWriter(Apply(s, run[0]), run[1..], p);
    }
  }

  lemma WriterStaysDone(s: Shared, a: Action, p: nat)
    requires s.consumer.Done? && s.stopping && Enabled(s, a) && p < |s.producers|
    ensures var t := ApplyShared(s, a);
            && t.consumer.Done? && t.stopping && t.consumed == s.consumed && |t.producers| == |s.producers|
            && (|s.queue| >= s.capacity ==>
                  |t.queue| >= t.capacity && t.producers[p].todo == s.producers[p].todo)
  {
  }

  /** The destructor is about to push its stop entry, and no other thread has made a call since `before`. */
  predicate Stopping(s: Shared, before: Shared) {
    && SharedInv(s) && s.stopping && !s.joined && STOP_ENTRY !in Entries(s.history)
    && s.producers[0].phase.Awake? && SameCalls(s, before)
  }

  /** The writer is gone, having taken the stop entry, and no other thread has made a call since `before`. */
  predicate Stopped(s: Shared, before: Shared) {
    && s.stopping && !s.joined && s.consumer.Done? && s.queue == []
    && SameCalls(s, before) && s.producers != [] && s.producers[0].todo == []
  }

  predicate SameCalls(s: Shared, before: Shared) {
    && s.capacity == before.capacity && |s.producers| == |before.producers|
    && forall p :: 0 < p < |s.producers| ==> s.producers[p].todo == before.producers[p].todo
  }

  function Backlog(s: Shared): nat {
    4 * |s.queue| + WriterEffort(s.consumer)
  }

  /** While the stop entry is not pushed, the writer is not done and what it holds is an event. */
  lemma WriterIsBusy(s: Shared)
    requires InOrder(s) && StopProtocol(s) && STOP_ENTRY !in Entries(s.history)
    ensures !s.consumer.Done?
    ensures s.consumer.Holding? ==> Loggable(s.consumer.entry)
  {
    DoneHasStop(s);
    HandIsPushed(s);
    if s.consumer.Holding? {
      assert s.consumer.entry in InHand(s.consumer);
    }
  }

  lemma WriterTurn(s: Shared) returns (a: Action)
    requires !s.joined && !s.consumer.Done? && (s.consumer.Holding? ==> Loggable(s.consumer.entry))
    requires s.consumer.AtLock? ==> s.queue != [] && !s.consumer.phase.Asleep?
    ensures a.ConsumerStart? || a.ConsumerLock? || a.Write?
    ensures Enabled(s, a) && Backlog(ApplyShared(s, a)) < Backlog(s)
  {
    if s.consumer.Starting? {
      a := ConsumerStart(false);
    } else if s.consumer.AtLock? {
      var wake := SomeWake(s.producers);
      a := ConsumerLock(wake);
    } else {
      a := Write;
    }
  }

  lemma StaysAwake(s: Shared, a: Action)
    requires Enabled(s, a) && (a.ConsumerStart? || a.ConsumerLock? || a.Write?)
    requires s.producers != [] && s.producers[0].phase.Awake?
    ensures var t := ApplyShared(s, a);
            && t.producers != [] && t.producers[0].phase.Awake?
            && t.capacity == s.capacity && t.joined == s.joined
  {
  }

  /** Left to itself, the writer works off the queue. */
  lemma DrainStep(s: Shared, before: Shared) returns (a: Action)
    requires Stopping(s, before) && !(s.queue == [] && s.consumer.AtLock?)
    ensures Enabled(s, a) && Stopping(ApplyShared(s, a), before) && Backlog(ApplyShared(s, a)) < Backlog(s)
  {
    WriterIsBusy(s);
    a := WriterTurn(s);
    StepSharedInv(s, a);
    KeepsTodo(s, a);
    StaysAwake(s, a);
  }

  lemma {:induction false} DrainQueue(s: Pipeline, run: seq<Action>, before: Shared) returns (more: seq<Action>)
    requires IsRun(s, run) && Stopping(After(s, run).shared, before)
    ensures IsRun(s, more) && Stopping(After(s, more).shared, before)
    ensures After(s, more).shared.queue == [] && After(s, more).shared.consumer.AtLock?
    decreases Backlog(After(s, run).shared)
  {
    more := run;
    var t := After(s, run).shared;
    if t.queue != [] || !t.consumer.AtLock? {
      var a := DrainStep(t, before);
      RunSnoc(s, run, a);
      more := DrainQueue(s, run + [a], before);
    }
  }

  /** The stop entry is pushed on an empty queue, which a writer that sleeps is told of. */
  lemma StopIsPushed(s: Shared, before: Shared)
    requires Stopping(s, before) && s.queue == [] && s.consumer.AtLock? && before.capacity > 0
    ensures Enabled(s, LogStep(0))
    ensures var t := LogEffect(s, 0);
            && t.stopping && !t.joined && t.queue == [STOP_ENTRY]
            && t.consumer.AtLock? && !t.consumer.phase.Asleep?
            && SameCalls(t, before) && t.producers != [] && t.producers[0].todo == []
  {
    assert s.producers[0].todo == [STOP_ENTRY];
    Unit([STOP_ENTRY]);
    assert [STOP_ENTRY][1..] == [];
  }

  /** And taken, and the writer is done. */
  lemma StopIsTaken(s: Shared, before: Shared, wake: Option<nat>)
    requires s.stopping && !s.joined && s.queue == [STOP_ENTRY] && s.consumer.AtLock? && !s.consumer.phase.Asleep?
    requires SameCalls(s, before) && s.producers != [] && s.producers[0].todo == [] && CanWake(s.producers, wake)
    ensures Enabled(s, ConsumerLock(wake)) && Enabled(LockEffect(s, wake), End)
    ensures Stopped(ApplyShared(LockEffect(s, wake), End), before)
  {
    assert [STOP_ENTRY][1..] == [];
  }

  lemma StopGoesThrough(s: Pipeline, run: seq<Action>, before: Shared) returns (more: seq<Action>)
    requires IsRun(s, run) && Stopping(After(s, run).shared, before)
    requires After(s, run).shared.queue == [] && After(s, run).shared.consumer.AtLock? && before.capacity > 0
    ensures IsRun(s, more) && Stopped(After(s, more).shared, before)
  {
    StopIsPushed(After(s, run).shared, before);
    RunSnoc(s, run, LogStep(0));
    more := run + [LogStep(0)];
    var wake := SomeWake(After(s, more).shared.producers);
    StopIsTaken(After(s, more).shared, before, wake);
    RunSnoc(s, more, ConsumerLock(wake));
    more := more + [ConsumerLock(wake)];
    RunSnoc(s, more, End);
    more := more + [End];
  }

  lemma WriterStops(s: Pipeline) returns (run: seq<Action>)
    requires SharedInv(s.shared) && !s.shared.stopping && !s.shared.joined && s.shared.capacity > 0
    ensures Enabled(s.shared, Destroy) && IsRun(Apply(s, Destroy), run)
    ensures Stopped(After(Apply(s, Destroy), run).shared, s.shared)
  {
    var t := Apply(s, Destroy);
    StepSharedInv(s.shared, Destroy);
    assert After(t, []) == t;
    run := DrainQueue(t, [], s.shared);
    run := StopGoesThrough(t, run, s.shared);
  }

  /** Whenever the destructor begins, it may return before any other thread gets to make another call. */
  lemma DestructorOvertakes(s: Pipeline) returns (run: seq<Action>)
    requires SharedInv(s.shared) && !s.shared.stopping && !s.shared.joined && s.shared.capacity > 0
    ensures Enabled(s.shared, Destroy) && IsRun(Apply(s, Destroy), run)
    ensures After(Apply(s, Destroy), run).shared.joined && SameCalls(After(Apply(s, Destroy), run).shared, s.shared)
  {
    run := WriterStops(s);
    RunSnoc(Apply(s, Destroy), run, Join);
    run := run + [Join];
  }

  /** The destructor has returned, every Log call with it, and every event is consumed. */
  predicate Complete(s: Shared) {
    s.joined && s.queue == [] && forall p :: 0 <= p < |s.producers| ==> s.producers[p].todo == []
  }

  ghost predicate AlwaysCompletes(s: Pipeline) {
    forall run :: IsRun(s, run) && Halted(After(s, run).shared) ==> Complete(After(s, run).shared)
  }

  /**
   * A destructor that begins now completes every call in every run that goes on as long as it can,
   * exactly when no call is left for it to race with.
   */
  lemma ShutdownIffCalm(s: Pipeline)
    requires Inv(s) && !s.shared.stopping && !s.shared.joined && s.shared.capacity > 0
    ensures Enabled(s.shared, Destroy)
    ensures AlwaysCompletes(Apply(s, Destroy)) <==>
            forall p :: 0 <= p < |s.shared.producers| ==> s.shared.producers[p].todo == []
  {
    var t := Apply(s, Destroy);
    StepInv(s, Destroy);
    if t.shared.calm {
      forall run | IsRun(t, run) && Halted(After(t, run).shared)
        ensures Complete(After(t, run).shared)
      {
        RunInv(t, run);
        StaysCalm(t, run);
        HaltedIsFinished(After(t, run).shared);
      }
    } else {
      var run := DestructorOvertakes(s);
      assert Halted(After(t, run).shared);
    }
  }

  lemma {:induction false} StaysCalm(s: Pipeline, run: seq<Action>)
    requires IsRun(s, run) && s.shared.stopping
    ensures var t := After(s, run).shared;
            t.stopping && t.calm == s.shared.calm && t.capacity == s.shared.capacity
    decreases |run|
  {
    if run != [] {
      StaysCalm(Apply(s, run[0]), run[1..]);
    }
  }

  // ---- Who may be left asleep --------------------------------------------------------------------

  function Calls(t: Producer): nat { |t.todo| }

  /** The Log calls that are left to make, over all threads. */
  function CallsLeft(s: Shared): nat {
    Sum(s.producers, Calls)
  }

  /** The destructor has returned, and the thread sleeps in Log: nobody will ever wake it. */
  predicate Stranded(s: Shared, p: nat) {
    s.joined && p < |s.producers| && s.producers[p].phase.Asleep?
  }

  ghost predicate MayStrand(s: Pipeline, p: nat) {
    exists run :: IsRun(s, run) && Stranded(After(s, run).shared, p)
  }

  lemma {:induction false} SameSum(a: seq<Producer>, b: seq<Producer>)
    requires |a| == |b| && forall p :: 0 <= p < |a| ==> a[p].todo == b[p].todo
    ensures Sum(a, Calls) == Sum(b, Calls)
  {
    if a != [] {
      SameSum(a[..|a| - 1], b[..|b| - 1]);
    }
  }

  /** If a thread's calls are not all the calls left, some other thread has one. */
  lemma OtherCaller(producers: seq<Producer>, p: nat) returns (q: nat)
    requires p < |producers| && Sum(producers, Calls) > Calls(producers[p])
    ensures q < |producers| && q != p && producers[q].todo != []
  {
    var idle := Producer([], Awake);
    SumUpdate(producers, p, idle, Calls);
    q := SumWitness(producers[p := idle], Calls);
  }

  /** One more push by a thread that has a call left, woken for no reason if it sleeps. */
  lemma OnePush(s: Pipeline, run: seq<Action>, q: nat) returns (more: seq<Action>)
    requires IsRun(s, run)
    requires var t := After(s, run).shared;
             Enabled(t, Join) && q < |t.producers| && t.producers[q].todo != [] && |t.queue| < t.capacity
    ensures IsRun(s, more)
    ensures var t, u := After(s, run).shared, After(s, more).shared;
            && Enabled(u, Join) && |u.queue| == |t.queue| + 1 && u.capacity == t.capacity
            && CallsLeft(u) == CallsLeft(t) - 1 && |u.producers| == |t.producers|
            && |u.producers[q].todo| == |t.producers[q].todo| - 1
            && forall p :: 0 <= p < |t.producers| && p != q ==> u.producers[p].todo == t.producers[p].todo
  {
    more := run;
    var t := After(s, run).shared;
    if t.producers[q].phase.Asleep? {
      RunSnoc(s, run, SpuriousProducer(q));
      more := run + [SpuriousProducer(q)];
      SumUpdate(t.producers, q, t.producers[q].(phase := Woken), Calls);
    }
    var u := After(s, more).shared;
    PushCounts(u, q);
    RunSnoc(s, more, LogStep(q));
    more := more + [LogStep(q)];
  }

  lemma PushCounts(s: Shared, q: nat)
    requires Enabled(s, LogStep(q)) && Enabled(s, Join) && |s.queue| < s.capacity
    ensures var t := LogEffect(s, q);
            && Enabled(t, Join) && |t.queue| == |s.queue| + 1 && t.capacity == s.capacity
            && CallsLeft(t) == CallsLeft(s) - 1 && |t.producers| == |s.producers|
            && |t.producers[q].todo| == |s.producers[q].todo| - 1
            && forall p :: 0 <= p < |s.producers| && p != q ==> t.producers[p].todo == s.producers[p].todo
  {
    SumUpdate(s.producers, q, LogEffect(s, q).producers[q], Calls);
  }

  /** Nobody takes anything out of the queue any more: the others fill it, and the last push is never made. */
  lemma {:induction false} FillQueue(s: Pipeline, run: seq<Action>, p: nat) returns (more: seq<Action>)
    requires IsRun(s, run)
    requires var t := After(s, run).shared;
             && Enabled(t, Join) && p < |t.producers| && t.producers[p].todo != []
             && |t.queue| <= t.capacity && CallsLeft(t) > t.capacity - |t.queue|
    ensures IsRun(s, more) && Enabled(After(s, more).shared, Join)
    ensures p < |After(s, more).shared.producers| && After(s, more).shared.producers[p].phase.Asleep?
    decreases CallsLeft(After(s, run).shared)
  {
    more := run;
    var t := After(s, run).shared;
    if t.producers[p].phase.Asleep? {
    } else if |t.queue| >= t.capacity {
      RunSnoc(s, run, LogStep(p));
      more := run + [LogStep(p)];
    } else {
      var q := p;
      if CallsLeft(t) > Calls(t.producers[p]) {
        q := OtherCaller(t.producers, p);
      }
      more := OnePush(s, run, q);
      more := FillQueue(s, more, p);
    }
  }

  lemma StrandsIfOverfull(s: Pipeline, p: nat)
    requires Inv(s) && !s.shared.stopping && !s.shared.joined && s.shared.capacity > 0
    requires p < |s.shared.producers| && s.shared.producers[p].todo != [] && CallsLeft(s.shared) > s.shared.capacity
    ensures Enabled(s.shared, Destroy) && MayStrand(Apply(s, Destroy), p)
  {
    var t := Apply(s, Destroy);
    var run := WriterStops(s);
    SameSum(s.shared.producers, After(t, run).shared.producers);
    run := FillQueue(t, run, p);
    RunSnoc(t, run, Join);
    assert Stranded(After(t, run + [Join]).shared, p);
  }

  // ---- Nobody else -------------------------------------------------------------------------------

  /** Every push is a call made. */
  lemma StepCalls(s: Shared, a: Action)
    requires Enabled(s, a) && !a.Destroy?
    ensures var t := ApplyShared(s, a);
            && CallsLeft(t) + |t.history| == CallsLeft(s) + |s.history| && s.history <= t.history
            && |t.producers| == |s.producers|
            && forall p :: 0 <= p < |s.producers| && s.producers[p].todo == [] ==> t.producers[p].todo == []
  {
    if a.LogStep? {
      SumUpdate(s.producers, a.producer, LogEffect(s, a.producer).producers[a.producer], Calls);
    } else {
      KeepsTodo(s, a);
      SameSum(ApplyShared(s, a).producers, s.producers);
    }
  }

  lemma {:induction false} RunCalls(s: Pipeline, run: seq<Action>)
    requires IsRun(s, run) && s.shared.stopping
    ensures var t := After(s, run).shared;
            && CallsLeft(t) + |t.history| == CallsLeft(s.shared) + |s.shared.history| && s.shared.history <= t.history
            && |t.producers| == |s.shared.producers|
            && forall p :: 0 <= p < |t.producers| && s.shared.producers[p].todo == [] ==> t.producers[p].todo == []
    decreases |run|
  {
    if run != [] {
      StepCalls(s.shared, run[0]);
      RunCalls(Apply(s, run[0]), run[1..]);
    }
  }

  /** Every thread that waits has the call left in which it waits. */
  lemma {:induction false} WaitersCall(producers: seq<Producer>)
    requires forall p :: 0 <= p < |producers| && !producers[p].phase.Awake? ==> producers[p].todo != []
    ensures Sum(producers, AsleepBit) + Sum(producers, WokenBit) <= Sum(producers, Calls)
  {
    if producers != [] {
      WaitersCall(producers[..|producers| - 1]);
    }
  }

  /** When the writer is done, what is queued was pushed after the stop entry, and so after the destructor began. */
  lemma QueuedSince(s: Shared, before: seq<Push>)
    requires InOrder(s) && StopProtocol(s) && s.consumer.Done? && before <= s.history
    requires STOP_ENTRY !in Entries(before)
    ensures |before| + 1 + |s.queue| <= |s.history|
  {
    StopSplitsHistory(s);
    EntriesLength(s.history);
    forall i | 0 <= i < |before|
      ensures Entries(s.history)[i] != STOP_ENTRY
    {
      EntryAt(s.history, i);
      EntryAt(before, i);
    }
  }

  lemma StrandedIsOverfull(s: Shared, p: nat)
    requires NoLostWakeup(s) && Stranded(s, p)
    ensures CallsLeft(s) + |s.queue| > s.capacity
  {
    SumAtLeast(s.producers, p, AsleepBit);
    WaitersCall(s.producers);
  }

  /** The destructor's own call is the one that it adds. */
  lemma DestroyCalls(s: Shared)
    requires StopProtocol(s) && Enabled(s, Destroy)
    ensures var t := DestroyEffect(s);
            && CallsLeft(t) == CallsLeft(s) + 1 && t.history == s.history && STOP_ENTRY !in Entries(s.history)
            && |t.producers| == |s.producers| && t.capacity == s.capacity
            && forall p :: 0 < p < |s.producers| ==> t.producers[p].todo == s.producers[p].todo
  {
    assert s.producers[0].todo == [];
    SumUpdate(s.producers, 0, Producer([STOP_ENTRY], Awake), Calls);
  }

  /** What is left at the end is what was left at the beginning, less what was pushed since. */
  lemma OverfullSince(s: Pipeline, run: seq<Action>, p: nat)
    requires Inv(s) && s.shared.stopping && STOP_ENTRY !in Entries(s.shared.history)
    requires IsRun(s, run) && Stranded(After(s, run).shared, p)
    ensures CallsLeft(s.shared) > s.shared.capacity + 1
    ensures 0 < p < |s.shared.producers| && s.shared.producers[p].todo != []
  {
    RunInv(s, run);
    StaysCalm(s, run);
    RunCalls(s, run);
    var t := After(s, run).shared;
    StrandedIsOverfull(t, p);
    QueuedSince(t, s.shared.history);
    SleeperIsNotZero(t, p);
  }

  lemma SleeperIsNotZero(s: Shared, p: nat)
    requires SharedInv(s) && Stranded(s, p)
    ensures p > 0 && s.producers[p].todo != []
  {
    DoneHasStop(s);
  }

  lemma OverfullIfStrands(s: Pipeline, p: nat, run: seq<Action>)
    requires Inv(s) && Enabled(s.shared, Destroy)
    requires IsRun(Apply(s, Destroy), run) && Stranded(After(Apply(s, Destroy), run).shared, p)
    ensures CallsLeft(s.shared) > s.shared.capacity
    ensures p < |s.shared.producers| && s.shared.producers[p].todo != []
  {
    StepInv(s, Destroy);
    DestroyCalls(s.shared);
    OverfullSince(Apply(s, Destroy), run, p);
  }

  /**
   * If the destructor begins now, a thread may be left asleep in Log for ever exactly when it has a
   * call left and the calls left over all threads are more than the queue has room for.
   */
  lemma StrandsIffOverfull(s: Pipeline, p: nat)
    requires Inv(s) && !s.shared.stopping && !s.shared.joined && s.shared.capacity > 0
    ensures Enabled(s.shared, Destroy)
    ensures MayStrand(Apply(s, Destroy), p) <==>
            && p < |s.shared.producers| && s.shared.producers[p].todo != []
            && CallsLeft(s.shared) > s.shared.capacity
  {
    if p < |s.shared.producers| && s.shared.producers[p].todo != [] && CallsLeft(s.shared) > s.shared.capacity {
      StrandsIfOverfull(s, p);
    }
    if MayStrand(Apply(s, Destroy), p) {
      var run :| IsRun(Apply(s, Destroy), run) && Stranded(After(Apply(s, Destroy), run).shared, p);
      OverfullIfStrands(s, p, run);
    }
  }

  /** So somebody may be left asleep exactly when the calls left are more than the queue has room for. */
  lemma RacingCallIsStranded(s: Pipeline)
    requires Inv(s) && !s.shared.stopping && !s.shared.joined && s.shared.capacity > 0
    ensures Enabled(s.shared, Destroy)
    ensures (exists p :: MayStrand(Apply(s, Destroy), p)) <==> CallsLeft(s.shared) > s.shared.capacity
  {
    if CallsLeft(s.shared) > s.shared.capacity {
      var p := SumWitness(s.shared.producers, Calls);
      StrandsIffOverfull(s, p);
    }
    if p :| MayStrand(Apply(s, Destroy), p) {
      StrandsIffOverfull(s, p);
    }
  }
}
