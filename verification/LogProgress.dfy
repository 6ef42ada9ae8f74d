/** Shutdown of the log pipeline: it drains, it terminates, and it never gets stuck. */
module LogProgress {
  import opened Wrappers
  import opened Counting
  import opened Sequences
  import opened LogTypes
  import opened LogPipeline

  // ---- What the writer has seen when it stops ----------------------------------------------------

  /** The stop entry splits the pushes: what came before was consumed, what came after stays in the queue. */
  lemma StopSplitsHistory(s: Shared)
    requires InOrder(s) && StopProtocol(s) && s.consumer.Done?
    ensures var pushed := Entries(s.history);
            && |s.consumed| < |pushed| && pushed[|s.consumed|] == STOP_ENTRY
            && s.consumed == pushed[..|s.consumed|] && s.queue == pushed[|s.consumed| + 1..]
    ensures STOP_ENTRY !in s.consumed && STOP_ENTRY !in s.queue
  {
  }

  /** If no Log call raced with the destructor, the writer has consumed everything when it stops. */
  lemma CalmDrains(s: Shared)
    requires SharedInv(s) && s.consumer.Done? && s.stopping && s.calm
    ensures s.queue == [] && Entries(s.history) == s.consumed + [STOP_ENTRY]
    ensures forall p :: 0 <= p < |s.producers| ==> s.producers[p].todo == []
    ensures forall p :: 0 < p < |s.producers| ==> ByProducer(s.history, p) == s.program[p]
  {
    StopSplitsHistory(s);
    var pushed := Entries(s.history);
    assert STOP_ENTRY in pushed;
    assert pushed[|pushed| - 1] == STOP_ENTRY;
    assert |s.consumed| == |pushed| - 1;
    forall p | 0 < p < |s.producers|
      ensures ByProducer(s.history, p) == s.program[p]
    {
      assert ByProducer(s.history, p) + s.producers[p].todo == Program(s, p);
      Unit(ByProducer(s.history, p));
    }
  }

  // ---- No stuck state ----------------------------------------------------------------------------

  /** No logging thread, writer or destructor has a step left; only the environment could act. */
  ghost predicate Halted(s: Shared) {
    forall a :: Enabled(s, a) ==> a.SpuriousProducer? || a.SpuriousConsumer? || a.Reopen? || a.Destroy?
  }

  lemma HaltedThreads(s: Shared)
    requires InOrder(s) && StopProtocol(s) && Halted(s) && !s.joined
    ensures forall p :: 0 <= p < |s.producers| ==> s.producers[p].phase.Asleep? || s.producers[p].todo == []
    ensures s.consumer == AtLock(Asleep) || s.consumer.Done?
  {
    forall p | 0 <= p < |s.producers|
      ensures s.producers[p].phase.Asleep? || s.producers[p].todo == []
    {
      assert !Enabled(s, LogStep(p));
    }
    HaltedWriter(s);
  }

  lemma HaltedWriter(s: Shared)
    requires InOrder(s) && StopProtocol(s) && Halted(s) && !s.joined
    ensures s.consumer == AtLock(Asleep) || s.consumer.Done?
  {
    assert !Enabled(s, ConsumerStart(true));
    match s.consumer {
      case Holding(e) =>
        HandIsPushed(s);
        assert e in InHand(s.consumer);
        assert Enabled(s, if e.level == OTHER then End else Write);
      case AtLock(phase) =>
        if !phase.Asleep? {
          var wake := SomeWake(s.producers);
          assert Enabled(s, ConsumerLock(if s.queue == [] then None else wake));
        }
      case _ =>
    }
  }

  lemma SomeWake(producers: seq<Producer>) returns (wake: Option<nat>)
    ensures CanWake(producers, wake)
  {
    wake := None;
    if p: nat :| p < |producers| && producers[p].phase.Asleep? {
      wake := Some(p);
    }
  }

  /** A writer asleep on a halted pipeline has nothing to wait for: no call is pending, no event queued. */
  lemma SleepingWriterIsIdle(s: Shared)
    requires InOrder(s) && NoLostWakeup(s) && StopProtocol(s)
    requires Halted(s) && !s.joined && s.capacity > 0 && s.consumer == AtLock(Asleep)
    ensures s.queue == [] && !s.stopping
    ensures forall p :: 0 <= p < |s.producers| ==> s.producers[p].todo == []
  {
    HaltedThreads(s);
    SleepersCounted(s.producers);
    assert forall p :: 0 <= p < |s.producers| ==> !s.producers[p].phase.Woken?;
    assert s.producers[0].todo == [];
    if s.stopping {
      StopStillPending(s);
    }
  }

  /** Until the writer is done, a stop entry that was pushed is in the queue or in the writer's hand. */
  lemma StopStillPending(s: Shared)
    requires InOrder(s) && StopProtocol(s) && STOP_ENTRY in Entries(s.history) && !s.consumer.Done?
    ensures s.queue != [] || InHand(s.consumer) != []
  {
  }

  /**
   * Deadlock freedom: if no Log call raced with the destructor, a halted pipeline has completed
   * every Log call and emptied the queue, and a destructor that had begun has returned.
   */
  lemma HaltedIsFinished(s: Shared)
    requires SharedInv(s) && Halted(s) && s.capacity > 0
    requires s.stopping ==> s.calm
    ensures s.queue == [] && forall p :: 0 <= p < |s.producers| ==> s.producers[p].todo == []
    ensures s.stopping ==> s.joined
  {
    if s.joined {
      DoneIsStopping(s);
      CalmDrains(s);
    } else {
      HaltedThreads(s);
      if s.consumer.Done? {
        DoneIsStopping(s);
        CalmDrains(s);
        assert Enabled(s, Join);
      } else {
        SleepingWriterIsIdle(s);
      }
    }
  }

  lemma DoneHasStop(s: Shared)
    requires InOrder(s)
    ensures s.consumer.Done? ==> STOP_ENTRY in Entries(s.history)
  {
    HandIsPushed(s);
    assert s.consumer.Done? ==> STOP_ENTRY in InHand(s.consumer);
  }

  lemma DoneIsStopping(s: Shared)
    requires InOrder(s) && StopProtocol(s) && s.consumer.Done?
    ensures s.stopping
  {
    DoneHasStop(s);
  }

  // ---- Termination -------------------------------------------------------------------------------

  /** Six for each call still to make, and one for a thread that has yet to look at the queue. */
  function CallEffort(t: Producer): nat {
    6 * |t.todo| + (if t.todo != [] && !t.phase.Asleep? then 1 else 0)
  }

  function WriterEffort(c: Consumer): nat {
    match c
    case Starting => 2
    case AtLock(phase) => if phase.Asleep? then 0 else 1
    case Holding(_) => 2
    case Done => 0
  }

  function Measure(s: Shared): nat {
    Sum(s.producers, CallEffort) + 4 * |s.queue| + WriterEffort(s.consumer)
    + (if s.stopping then 0 else 8) + (if s.joined then 0 else 1)
  }

  lemma LogMeasure(s: Shared, p: nat)
    requires NoLostWakeup(s) && Enabled(s, LogStep(p))
    ensures Measure(LogEffect(s, p)) < Measure(s)
  {
    SumUpdate(s.producers, p, LogEffect(s, p).producers[p], CallEffort);
  }

  /** Every step but a spurious wakeup brings the pipeline closer to the end; Reopen does not move it. */
  lemma StepMeasure(s: Shared, a: Action)
    requires NoLostWakeup(s) && StopProtocol(s) && Enabled(s, a) && !a.SpuriousProducer? && !a.SpuriousConsumer?
    ensures if a.Reopen? then ApplyShared(s, a) == s else Measure(ApplyShared(s, a)) < Measure(s)
  {
    match a {
      case LogStep(p) => LogMeasure(s, p);
      case Destroy =>
        assert s.producers[0].todo == [];
        SumUpdate(s.producers, 0, Producer([STOP_ENTRY], Awake), CallEffort);
      case ConsumerLock(wake) =>
        if s.queue != [] && wake.Some? {
          SumUpdate(s.producers, wake.value, s.producers[wake.value].(phase := Woken), CallEffort);
        }
      case _ =>
    }
  }

  function Reopens(run: seq<Action>): nat
    decreases |run|
  {
    if run == [] then 0 else (if run[0].Reopen? then 1 else 0) + Reopens(run[1..])
  }

  /** So a run without spurious wakeups is no longer than its start and its Reopens allow. */
  lemma {:induction false} RunsEnd(s: Pipeline, run: seq<Action>)
    requires Inv(s) && IsRun(s, run)
    requires forall a :: a in run ==> !a.SpuriousProducer? && !a.SpuriousConsumer?
    ensures |run| <= Measure(s.shared) + Reopens(run)
    decreases |run|
  {
    if run != [] {
      assert run[0] in run;
      StepMeasure(s.shared, run[0]);
      StepInv(s, run[0]);
      RunsEnd(Apply(s, run[0]), run[1..]);
    }
  }
}
