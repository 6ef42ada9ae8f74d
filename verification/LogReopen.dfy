/**
 * Which records the file holds: those written from the last successful opening to the first failed
 * one after it.
 */
module LogReopen {
  import opened LogPipeline

  /** How many steps of a run had been taken when Reopen last succeeded; 0 if it never did. */
  function LastOpen(run: seq<Action>): (k: nat)
    ensures k <= |run| && Reopen(true) !in run[k..]
    ensures k > 0 ==> run[k - 1] == Reopen(true)
  {
    if run == [] then
      0
    else
      var k := LastOpen(run[1..]);
      if k > 0 || run[0] == Reopen(true) then k + 1 else 0
  }

  /** How many steps of a run are taken before Reopen first fails; all if it never does. */
  function FirstFailure(run: seq<Action>): (k: nat)
    ensures k <= |run| && Reopen(false) !in run[..k]
    ensures k < |run| ==> run[k] == Reopen(false)
  {
    if run == [] || run[0] == Reopen(false) then 0 else 1 + FirstFailure(run[1..])
  }

  /** How many steps had been taken when the stream of the last opening turned bad; all if it is good. */
  function GoodUntil(isOpen: bool, run: seq<Action>): (k: nat)
    ensures LastOpen(run) <= k <= |run|
  {
    if LastOpen(run) == 0 && !isOpen then 0 else LastOpen(run) + FirstFailure(run[LastOpen(run)..])
  }

  /** The number of entries that have passed the level after so many steps of a run. */
  function WrittenBy(s: Pipeline, run: seq<Action>, k: nat): nat
    requires IsRun(s, run) && k <= |run|
    decreases k
  {
    if k == 0 then |Written(s.shared.consumed, s.disk.threshold)| else WrittenBy(Apply(s, run[0]), run[1..], k - 1)
  }

  lemma {:induction false} WrittenByEnd(s: Pipeline, run: seq<Action>)
    requires IsRun(s, run)
    ensures WrittenBy(s, run, |run|) == |Written(After(s, run).shared.consumed, After(s, run).disk.threshold)|
    decreases |run|
  {
    if run != [] {
      WrittenByEnd(Apply(s, run[0]), run[1..]);
    }
  }

  /** While the stream is good, the stretch ends with the last record written. */
  predicate UpToDate(s: Pipeline) {
    s.disk.file.good ==> s.disk.upto == |Written(s.shared.consumed, s.disk.threshold)|
  }

  lemma StepUpToDate(s: Pipeline, a: Action)
    requires UpToDate(s) && Enabled(s.shared, a)
    ensures UpToDate(Apply(s, a))
  {
    if a.Write? {
      WrittenAppend(s.shared.consumed, s.shared.consumer.entry, s.disk.threshold);
    }
  }

  lemma StepStretch(s: Pipeline, a: Action)
    requires Enabled(s.shared, a)
    ensures var t := Apply(s, a);
            if a == Reopen(true) then
              t.disk.file.good && t.disk.from == |Written(t.shared.consumed, t.disk.threshold)|
            else
              && t.disk.from == s.disk.from && t.disk.file.good == (s.disk.file.good && a != Reopen(false))
              && (!t.disk.file.good ==> t.disk.upto == s.disk.upto)
  {
  }

  /** From one successful opening on, the stretch begins where it began and ends when the stream turns bad. */
  lemma {:induction false} UntilFailure(s: Pipeline, run: seq<Action>)
    requires UpToDate(s) && IsRun(s, run) && Reopen(true) !in run
    ensures After(s, run).disk.from == s.disk.from
    ensures After(s, run).disk.upto == if s.disk.file.good then WrittenBy(s, run, FirstFailure(run)) else s.disk.upto
    decreases |run|
  {
    if run != [] {
      assert forall a :: a in run[1..] ==> a in run;
      StepUpToDate(s, run[0]);
      StepStretch(s, run[0]);
      UntilFailure(Apply(s, run[0]), run[1..]);
    }
  }

  lemma FromOpening(s: Pipeline, run: seq<Action>)
    requires UpToDate(s) && IsRun(s, run) && run != [] && run[0] == Reopen(true) && Reopen(true) !in run[1..]
    ensures After(s, run).disk.from == WrittenBy(s, run, 1)
    ensures After(s, run).disk.upto == WrittenBy(s, run, 1 + FirstFailure(run[1..]))
  {
    StepUpToDate(s, run[0]);
    StepStretch(s, run[0]);
    UntilFailure(Apply(s, run[0]), run[1..]);
  }

  /** Whatever came before a successful opening, the stretch begins there. */
  lemma {:induction false} SinceOpen(s: Pipeline, run: seq<Action>, k: nat, rest: seq<Action>)
    requires UpToDate(s) && IsRun(s, run)
    requires k < |run| && run[k] == Reopen(true) && run[k + 1..] == rest && Reopen(true) !in rest
    ensures After(s, run).disk.from == WrittenBy(s, run, k + 1)
    ensures After(s, run).disk.upto == WrittenBy(s, run, k + 1 + FirstFailure(rest))
    decreases k
  {
    if k == 0 {
      FromOpening(s, run);
    } else {
      StepUpToDate(s, run[0]);
      Later(s, run, k, FirstFailure(rest));
      assert run[1..][k..] == rest;
      SinceOpen(Apply(s, run[0]), run[1..], k - 1, rest);
    }
  }

  lemma Later(s: Pipeline, run: seq<Action>, k: nat, n: nat)
    requires IsRun(s, run) && k + 1 + n <= |run|
    ensures WrittenBy(s, run, k + 1 + n) == WrittenBy(Apply(s, run[0]), run[1..], k + n)
    ensures WrittenBy(s, run, k + 1) == WrittenBy(Apply(s, run[0]), run[1..], k)
    ensures After(s, run) == After(Apply(s, run[0]), run[1..])
  {
  }

  /** The stretch that the file holds after any run of an appender. */
  lemma StretchOfRun(s: Pipeline, run: seq<Action>, from: nat, upto: nat)
    requires UpToDate(s) && IsRun(s, run) && s.disk.from == s.disk.upto == WrittenBy(s, run, 0)
    requires from == LastOpen(run) && upto == GoodUntil(s.disk.file.good, run)
    ensures After(s, run).disk.from == WrittenBy(s, run, from)
    ensures After(s, run).disk.upto == WrittenBy(s, run, upto)
  {
    if from == 0 {
      assert run[0..] == run;
      UntilFailure(s, run);
    } else {
      SinceOpen(s, run, from - 1, run[from..]);
    }
  }
}
