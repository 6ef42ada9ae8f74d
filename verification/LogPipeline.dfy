/**
 * The asynchronous file appender as a transition system over any number of logging threads, one
 * writer thread and the thread that runs the destructor. A step is one critical section; waiting
 * follows section 30.5.1 of the C++14 standard.
 */
module LogPipeline {
  import opened Wrappers
  import opened Counting
  import opened Sequences
  import opened LogTypes
  import opened Formatter
  import opened LineCodec

  /** A queued (level, event) pair. The destructor's pair has no event. */
  datatype Entry = Entry(level: Level, event: Option<LogEvent>)

  const STOP_ENTRY := Entry(OTHER, None)

  predicate Loggable(e: Entry) {
    e.level != OTHER && e.event.Some?
  }

  datatype Phase = Awake | Woken | Asleep

  /** A thread that calls Log: the calls it has still to make, and where it stands in the current one. */
  datatype Producer = Producer(todo: seq<Entry>, phase: Phase)

  datatype Consumer =
    | Starting
    | AtLock(phase: Phase)
    | Holding(entry: Entry)
    | Done

  /** `good` is the stream state; text put into a bad stream is lost. */
  datatype LogFile = LogFile(good: bool, content: string)

  datatype Push = Push(producer: nat, entry: Entry)

  /** What the queue's mutex guards, and where each thread stands. */
  datatype Shared = Shared(
    capacity: nat,
    queue: seq<Entry>,
    producers: seq<Producer>,     // producer 0 is the thread that runs the destructor
    consumer: Consumer,
    stopping: bool,               // the destructor has begun
    calm: bool,                   // when it began, every Log call had returned
    joined: bool,                 // the destructor's join has returned
    program: seq<seq<Entry>>,     // history: what each producer set out to log
    history: seq<Push>,           // history: pushes, in order
    consumed: seq<Entry>)         // history: entries written or filtered out

  /** The appender's output side, which the file's mutex guards. */
  datatype Disk = Disk(
    threshold: Level,
    items: seq<Item>,
    file: LogFile,
    from: nat, upto: nat,         // history: the records now in the file, as a range of Written
    header: bool, footer: bool)   // history: whether the file has the opening and closing lines

  datatype Pipeline = Pipeline(shared: Shared, disk: Disk)

  datatype Action =
    | LogStep(producer: nat)
    | SpuriousProducer(producer: nat)
    | Destroy
    | ConsumerStart(landed: bool)
    | ConsumerLock(wake: Option<nat>)
    | SpuriousConsumer
    | Write
    | End
    | Reopen(ok: bool)
    | Join

  function InitShared(capacity: nat, program: seq<seq<Entry>>): Shared {
    Shared(capacity, [], seq(|program|, i requires 0 <= i < |program| => Producer(program[i], Awake)),
           Starting, false, false, false, program, [], [])
  }

  /** `isOpen` is whether the operating system opens the file for the constructor, which does not ask. */
  function Init(capacity: nat, threshold: Level, items: seq<Item>, program: seq<seq<Entry>>, isOpen: bool): Pipeline {
    Pipeline(InitShared(capacity, program), Disk(threshold, items, LogFile(isOpen, ""), 0, 0, false, false))
  }

  /** Thread 0 logs nothing of its own, and only the destructor uses the level OTHER. */
  predicate ProperProgram(program: seq<seq<Entry>>) {
    && program != [] && program[0] == []
    && forall p, i :: 0 <= p < |program| && 0 <= i < |program[p]| ==> Loggable(program[p][i])
  }

  predicate CanWake(producers: seq<Producer>, wake: Option<nat>) {
    match wake
    case Some(p) => p < |producers| && producers[p].phase.Asleep?
    case None => forall p :: 0 <= p < |producers| ==> !producers[p].phase.Asleep?
  }

  predicate Enabled(s: Shared, a: Action) {
    && !s.joined
    && match a
       case LogStep(p) => p < |s.producers| && s.producers[p].todo != [] && !s.producers[p].phase.Asleep?
       case SpuriousProducer(p) => p < |s.producers| && s.producers[p].phase.Asleep?
       case Destroy => !s.stopping && s.producers != []
       case ConsumerStart(_) => s.consumer.Starting?
       case ConsumerLock(wake) =>
         && s.consumer.AtLock? && !s.consumer.phase.Asleep?
         && if s.queue == [] then wake == None else CanWake(s.producers, wake)
       case SpuriousConsumer => s.consumer == AtLock(Asleep)
       case Write => s.consumer.Holding? && s.consumer.entry.level != OTHER && s.consumer.entry.event.Some?
       case End => s.consumer.Holding? && s.consumer.entry.level == OTHER
       case Reopen(_) => true
       case Join => s.stopping && s.producers != [] && s.producers[0].todo == [] && s.consumer.Done?
  }

  function Put(file: LogFile, text: string): LogFile {
    if file.good then file.(content := file.content + text) else file
  }

  /** Log, once the lock is held: wait while the queue is full, else push and notify the writer. */
  function LogEffect(s: Shared, p: nat): Shared
    requires p < |s.producers| && s.producers[p].todo != []
  {
    var t := s.producers[p];
    if |s.queue| >= s.capacity then
      s.(producers := s.producers[p := Producer(t.todo, Asleep)])
    else
      s.(queue := s.queue + [t.todo[0]],
         producers := s.producers[p := Producer(t.todo[1..], Awake)],
         consumer := if s.consumer == AtLock(Asleep) then AtLock(Woken) else s.consumer,
         history := s.history + [Push(p, t.todo[0])])
  }

  /** ConsumeLog, once the lock is held: wait while the queue is empty, else pop and notify a producer. */
  function LockEffect(s: Shared, wake: Option<nat>): Shared
    requires s.queue != [] ==> CanWake(s.producers, wake)
  {
    if s.queue == [] then
      s.(consumer := AtLock(Asleep))
    else
      s.(consumer := Holding(s.queue[0]), queue := s.queue[1..], producers := WakeOne(s.producers, wake))
  }

  function WakeOne(producers: seq<Producer>, wake: Option<nat>): seq<Producer>
    requires CanWake(producers, wake)
  {
    match wake
    case Some(p) => producers[p := producers[p].(phase := Woken)]
    case None => producers
  }

  function EntryText(items: seq<Item>, e: Entry): string {
    if e.event.Some? then FormatItems(items, e.level, e.event.value) else ""
  }

  function DestroyEffect(s: Shared): Shared
    requires s.producers != []
  {
    s.(stopping := true,
       calm := forall p :: 0 <= p < |s.producers| ==> s.producers[p].todo == [],
       producers := s.producers[0 := Producer([STOP_ENTRY], Awake)])
  }

  function ApplyShared(s: Shared, a: Action): Shared
    requires Enabled(s, a)
  {
    match a
    case LogStep(p) => LogEffect(s, p)
    case SpuriousProducer(p) => s.(producers := s.producers[p := s.producers[p].(phase := Woken)])
    case Destroy => DestroyEffect(s)
    case ConsumerStart(_) => s.(consumer := AtLock(Awake))
    case ConsumerLock(wake) => LockEffect(s, wake)
    case SpuriousConsumer => s.(consumer := AtLock(Woken))
    case Write => s.(consumer := AtLock(Awake), consumed := s.consumed + [s.consumer.entry])
    case End => s.(consumer := Done)
    case Reopen(_) => s
    case Join => s.(joined := true)
  }

  /** The level test and the write, under the file's own lock. */
  function WriteEffect(d: Disk, e: Entry): Disk {
    if e.level.AtLeast(d.threshold) then
      d.(file := Put(d.file, EntryText(d.items, e)), upto := if d.file.good then d.upto + 1 else d.upto)
    else
      d
  }

  /** Reopening truncates the file; if it cannot be opened the stream turns bad. */
  function ReopenEffect(d: Disk, consumed: seq<Entry>, ok: bool): Disk {
    if ok then
      var written := |Written(consumed, d.threshold)|;
      d.(file := LogFile(true, ""), from := written, upto := written, header := false, footer := false)
    else
      d.(file := d.file.(good := false))
  }

  /** The opening line may reach the file or be lost, since the writer starts before the file is opened. */
  function StartEffect(d: Disk, landed: bool): Disk {
    if landed && d.file.good then d.(file := Put(d.file, HEADER), header := true) else d
  }

  function EndEffect(d: Disk): Disk {
    d.(file := Put(d.file, FOOTER), footer := d.footer || d.file.good)
  }

  function ApplyDisk(d: Disk, s: Shared, a: Action): Disk
    requires Enabled(s, a)
  {
    match a
    case ConsumerStart(landed) => StartEffect(d, landed)
    case Write => WriteEffect(d, s.consumer.entry)
    case End => EndEffect(d)
    case Reopen(ok) => ReopenEffect(d, s.consumed, ok)
    case _ => d
  }

  function Apply(s: Pipeline, a: Action): Pipeline
    requires Enabled(s.shared, a)
  {
    Pipeline(ApplyShared(s.shared, a), ApplyDisk(s.disk, s.shared, a))
  }

  predicate IsRun(s: Pipeline, run: seq<Action>)
    decreases |run|
  {
    run == [] || (Enabled(s.shared, run[0]) && IsRun(Apply(s, run[0]), run[1..]))
  }

  function After(s: Pipeline, run: seq<Action>): Pipeline
    requires IsRun(s, run)
    decreases |run|
  {
    if run == [] then s else After(Apply(s, run[0]), run[1..])
  }

  lemma {:induction false} RunSnoc(s: Pipeline, run: seq<Action>, a: Action)
    requires IsRun(s, run) && Enabled(After(s, run).shared, a)
    ensures IsRun(s, run + [a]) && After(s, run + [a]) == Apply(After(s, run), a)
    decreases |run|
  {
    if run == [] {
      assert ([] + [a])[1..] == [];
    } else {
      RunSnoc(Apply(s, run[0]), run[1..], a);
      assert (run + [a])[1..] == run[1..] + [a];
    }
  }

  // ---- What the invariants speak of --------------------------------------------------------------

  function Entries(history: seq<Push>): seq<Entry> {
    if history == [] then [] else Entries(history[..|history| - 1]) + [history[|history| - 1].entry]
  }

  function ByProducer(history: seq<Push>, p: nat): seq<Entry> {
    if history == [] then
      []
    else
      var last := history[|history| - 1];
      ByProducer(history[..|history| - 1], p) + (if last.producer == p then [last.entry] else [])
  }

  /** The entries that pass the appender's level. */
  function Written(entries: seq<Entry>, threshold: Level): seq<Entry> {
    if entries == [] then
      []
    else
      var last := entries[|entries| - 1];
      Written(entries[..|entries| - 1], threshold) + (if Passes(last.level, threshold) then [last] else [])
  }

  function Rendered(items: seq<Item>, entries: seq<Entry>): string {
    if entries == [] then
      ""
    else
      Rendered(items, entries[..|entries| - 1]) + EntryText(items, entries[|entries| - 1])
  }

  /** The entry that has left the queue and is not yet accounted for. */
  function InHand(c: Consumer): seq<Entry> {
    match c
    case Holding(e) => [e]
    case Done => [STOP_ENTRY]
    case _ => []
  }

  function Program(s: Shared, p: nat): seq<Entry>
    requires p < |s.program|
  {
    if p == 0 && s.stopping then [STOP_ENTRY] else s.program[p]
  }

  function AsleepBit(t: Producer): nat { if t.phase.Asleep? then 1 else 0 }

  function WokenBit(t: Producer): nat { if t.phase.Woken? then 1 else 0 }

  // ---- Invariants --------------------------------------------------------------------------------

  /** Nothing is lost, duplicated or reordered on the way, and the queue never outgrows its bound. */
  predicate InOrder(s: Shared) {
    && s.consumed + (InHand(s.consumer) + s.queue) == Entries(s.history)
    && |s.queue| <= s.capacity
  }

  /** Each producer's pushes are the beginning of its own program. */
  predicate ProgramOrder(s: Shared) {
    && |s.producers| == |s.program| && s.program != [] && s.program[0] == []
    && (forall i :: 0 <= i < |s.history| ==> s.history[i].producer < |s.producers|)
    && forall p :: 0 <= p < |s.producers| ==> ByProducer(s.history, p) + s.producers[p].todo == Program(s, p)
  }

  /** While a producer sleeps, each free slot has a woken producer; the writer sleeps only on an empty queue. */
  predicate NoLostWakeup(s: Shared) {
    && (Sum(s.producers, AsleepBit) > 0 ==> s.capacity - |s.queue| <= Sum(s.producers, WokenBit))
    && (s.consumer == AtLock(Asleep) ==> s.queue == [])
    && (forall p :: 0 <= p < |s.producers| && !s.producers[p].phase.Awake? ==> s.producers[p].todo != [])
  }

  /** The stop entry is pushed once, by the destructor; if no Log call was left by then, it is the last push. */
  predicate StopProtocol(s: Shared) {
    var pushed := Entries(s.history);
    && s.producers != []
    && s.producers[0].todo == (if s.stopping && STOP_ENTRY !in pushed then [STOP_ENTRY] else [])
    && (forall p, e :: 0 < p < |s.producers| && e in s.producers[p].todo ==> Loggable(e))
    && (forall e :: e in pushed ==> Loggable(e) || (e == STOP_ENTRY && s.stopping))
    && (forall i, j :: 0 <= i < j < |pushed| ==> pushed[i] != STOP_ENTRY || pushed[j] != STOP_ENTRY)
    && (s.stopping && s.calm ==>
          && (forall p :: 0 < p < |s.producers| ==> s.producers[p].todo == [])
          && (STOP_ENTRY in pushed ==> pushed[|pushed| - 1] == STOP_ENTRY))
    && (forall e :: e in s.consumed ==> Loggable(e))
    && (s.joined ==> s.consumer.Done?)
  }

  function Opening(present: bool): string { if present then HEADER else "" }

  function Closing(present: bool): string { if present then FOOTER else "" }

  /** The file holds whole records: those of a stretch of what was written, to its end while the stream is good. */
  predicate Holds(d: Disk, written: seq<Entry>) {
    && d.from <= d.upto <= |written|
    && (d.file.good ==> d.upto == |written|)
    && d.file.content == Opening(d.header) + (Rendered(d.items, written[d.from..d.upto]) + Closing(d.footer))
  }

  predicate WholeRecords(d: Disk, s: Shared) {
    && Holds(d, Written(s.consumed, d.threshold))
    && (d.footer ==> s.consumer.Done?)
    && (s.consumer.Starting? ==> s.consumed == [] && !d.header)
  }

  predicate SharedInv(s: Shared) {
    && InOrder(s) && ProgramOrder(s) && NoLostWakeup(s) && StopProtocol(s)
  }

  predicate Inv(s: Pipeline) {
    SharedInv(s.shared) && WholeRecords(s.disk, s.shared)
  }

  // ---- Invariants: every step keeps them ---------------------------------------------------------

  lemma PushedEntries(history: seq<Push>, push: Push)
    ensures Entries(history + [push]) == Entries(history) + [push.entry]
  {
  }

  lemma {:induction false} EntriesLength(history: seq<Push>)
    ensures |Entries(history)| == |history|
  {
    if history != [] {
      EntriesLength(history[..|history| - 1]);
    }
  }

  lemma {:induction false} EntryAt(history: seq<Push>, i: nat)
    requires i < |history|
    ensures |Entries(history)| == |history| && Entries(history)[i] == history[i].entry
  {
    var init := history[..|history| - 1];
    if i < |init| {
      EntryAt(init, i);
    } else if init != [] {
      EntryAt(init, 0);
    }
  }

  lemma PushedBy(history: seq<Push>, push: Push, p: nat)
    ensures ByProducer(history + [push], p) == ByProducer(history, p) + (if push.producer == p then [push.entry] else [])
  {
  }

  lemma HandIsPushed(s: Shared)
    requires InOrder(s)
    ensures forall e :: e in InHand(s.consumer) || e in s.queue || e in s.consumed ==> e in Entries(s.history)
  {
  }

  lemma LogInOrder(s: Shared, p: nat)
    requires InOrder(s) && Enabled(s, LogStep(p))
    ensures InOrder(LogEffect(s, p))
  {
  }

  lemma PopInOrder(s: Shared, wake: Option<nat>)
    requires InOrder(s) && Enabled(s, ConsumerLock(wake))
    ensures InOrder(LockEffect(s, wake))
  {
  }

  lemma WriteInOrder(s: Shared)
    requires InOrder(s) && Enabled(s, Write)
    ensures InOrder(ApplyShared(s, Write))
  {
  }

  lemma StepInOrder(s: Shared, a: Action)
    requires InOrder(s) && StopProtocol(s) && Enabled(s, a)
    ensures InOrder(ApplyShared(s, a))
  {
    match a {
      case LogStep(p) => LogInOrder(s, p);
      case ConsumerLock(wake) => PopInOrder(s, wake);
      case Write => WriteInOrder(s);
      case End =>
        HandIsPushed(s);
        assert s.consumer.entry in InHand(s.consumer);
      case _ =>
    }
  }

  lemma LogProgramOrder(s: Shared, p: nat)
    requires ProgramOrder(s) && Enabled(s, LogStep(p))
    ensures ProgramOrder(LogEffect(s, p))
  {
    var t := LogEffect(s, p);
    var todo := s.producers[p].todo;
    forall q | 0 <= q < |t.producers|
      ensures ByProducer(t.history, q) + t.producers[q].todo == Program(t, q)
    {
      assert ByProducer(s.history, q) + s.producers[q].todo == Program(s, q);
      if |s.queue| < s.capacity {
        PushedBy(s.history, Push(p, todo[0]), q);
        if q == p {
          Assoc(ByProducer(s.history, p), [todo[0]], todo[1..]);
          assert [todo[0]] + todo[1..] == todo;
        } else {
          Unit(ByProducer(s.history, q));
        }
      }
    }
  }

  lemma DestroyProgramOrder(s: Shared)
    requires ProgramOrder(s) && StopProtocol(s) && Enabled(s, Destroy)
    ensures ProgramOrder(DestroyEffect(s))
  {
  }

  lemma StepProgramOrder(s: Shared, a: Action)
    requires ProgramOrder(s) && StopProtocol(s) && Enabled(s, a)
    ensures ProgramOrder(ApplyShared(s, a))
  {
    match a {
      case LogStep(p) => LogProgramOrder(s, p);
      case Destroy => DestroyProgramOrder(s);
      case _ =>
        KeepsTodo(s, a);
        FrameProgramOrder(s, ApplyShared(s, a));
    }
  }

  lemma FrameProgramOrder(s: Shared, t: Shared)
    requires ProgramOrder(s) && |t.producers| == |s.producers| && t.history == s.history && t.program == s.program
    requires forall p :: 0 <= p < |s.producers| ==> t.producers[p].todo == s.producers[p].todo
    requires t.stopping == s.stopping
    ensures ProgramOrder(t)
  {
  }

  /** Other steps leave every producer's remaining calls alone. */
  lemma KeepsTodo(s: Shared, a: Action)
    requires Enabled(s, a) && !a.LogStep? && !a.Destroy?
    ensures |ApplyShared(s, a).producers| == |s.producers|
    ensures forall p :: 0 <= p < |s.producers| ==> ApplyShared(s, a).producers[p].todo == s.producers[p].todo
    ensures var t := ApplyShared(s, a);
            && t.history == s.history && t.stopping == s.stopping && t.calm == s.calm && t.program == s.program
            && (t.joined ==> s.joined || t.consumer.Done?)
            && (forall e :: e in t.consumed ==> e in s.consumed || Loggable(e))
  {
  }

  lemma SleepersCounted(producers: seq<Producer>)
    ensures Sum(producers, AsleepBit) == 0 <==> forall p :: 0 <= p < |producers| ==> !producers[p].phase.Asleep?
    ensures Sum(producers, WokenBit) == 0 <==> forall p :: 0 <= p < |producers| ==> !producers[p].phase.Woken?
  {
  }

  lemma PhaseChange(producers: seq<Producer>, p: nat, x: Producer)
    requires p < |producers|
    ensures Sum(producers[p := x], AsleepBit) + AsleepBit(producers[p]) == Sum(producers, AsleepBit) + AsleepBit(x)
    ensures Sum(producers[p := x], WokenBit) + WokenBit(producers[p]) == Sum(producers, WokenBit) + WokenBit(x)
  {
    SumUpdate(producers, p, x, AsleepBit);
    SumUpdate(producers, p, x, WokenBit);
  }

  lemma LogNoLostWakeup(s: Shared, p: nat)
    requires NoLostWakeup(s) && InOrder(s) && Enabled(s, LogStep(p))
    ensures NoLostWakeup(LogEffect(s, p))
  {
    PhaseChange(s.producers, p, LogEffect(s, p).producers[p]);
  }

  lemma PopNoLostWakeup(s: Shared, wake: Option<nat>)
    requires NoLostWakeup(s) && Enabled(s, ConsumerLock(wake))
    ensures NoLostWakeup(LockEffect(s, wake))
  {
    if s.queue != [] {
      SleepersCounted(s.producers);
      if wake.Some? {
        PhaseChange(s.producers, wake.value, s.producers[wake.value].(phase := Woken));
      }
    }
  }

  lemma DestroyNoLostWakeup(s: Shared)
    requires NoLostWakeup(s) && StopProtocol(s) && Enabled(s, Destroy)
    ensures NoLostWakeup(DestroyEffect(s))
  {
    assert s.producers[0].todo == [];
    PhaseChange(s.producers, 0, Producer([STOP_ENTRY], Awake));
  }

  lemma WakeNoLostWakeup(s: Shared, p: nat)
    requires NoLostWakeup(s) && Enabled(s, SpuriousProducer(p))
    ensures NoLostWakeup(ApplyShared(s, SpuriousProducer(p)))
  {
    PhaseChange(s.producers, p, s.producers[p].(phase := Woken));
  }

  lemma StepNoLostWakeup(s: Shared, a: Action)
    requires NoLostWakeup(s) && InOrder(s) && StopProtocol(s) && Enabled(s, a)
    ensures NoLostWakeup(ApplyShared(s, a))
  {
    match a {
      case LogStep(p) => LogNoLostWakeup(s, p);
      case ConsumerLock(wake) => PopNoLostWakeup(s, wake);
      case Destroy => DestroyNoLostWakeup(s);
      case SpuriousProducer(p) => WakeNoLostWakeup(s, p);
      case _ => KeepsQueue(s, a, ApplyShared(s, a));
    }
  }

  /** Steps of the writer outside the queue's lock, and of Reopen and Join, leave the queue and the producers alone. */
  lemma KeepsQueue(s: Shared, a: Action, t: Shared)
    requires Enabled(s, a) && t == ApplyShared(s, a) && NoLostWakeup(s)
    requires !a.LogStep? && !a.Destroy? && !a.ConsumerLock? && !a.SpuriousProducer?
    ensures NoLostWakeup(t)
  {
  }

  lemma LogStopProtocol(s: Shared, p: nat)
    requires StopProtocol(s) && Enabled(s, LogStep(p))
    ensures StopProtocol(LogEffect(s, p))
  {
    if |s.queue| < s.capacity {
      PushedEntries(s.history, Push(p, s.producers[p].todo[0]));
      PushStopProtocol(s, p, LogEffect(s, p));
    }
  }

  lemma PushStopProtocol(s: Shared, p: nat, t: Shared)
    requires StopProtocol(s) && p < |s.producers| && s.producers[p].todo != []
    requires Entries(t.history) == Entries(s.history) + [s.producers[p].todo[0]]
    requires t.producers == s.producers[p := Producer(s.producers[p].todo[1..], Awake)]
    requires t.stopping == s.stopping && t.calm == s.calm && t.consumed == s.consumed
    requires t.joined == s.joined && (s.joined ==> t.consumer.Done?)
    ensures StopProtocol(t)
  {
    var todo, pushed := s.producers[p].todo, Entries(s.history);
    assert todo[0] in todo;
    assert forall e :: e in todo[1..] ==> e in todo;
    if p == 0 {
      assert todo == [STOP_ENTRY] && STOP_ENTRY !in pushed;
      assert (pushed + [STOP_ENTRY])[|pushed|] == STOP_ENTRY;
      assert STOP_ENTRY in pushed + [STOP_ENTRY];
    } else {
      assert Loggable(todo[0]);
      assert STOP_ENTRY in pushed + [todo[0]] <==> STOP_ENTRY in pushed;
    }
  }

  lemma FrameStopProtocol(s: Shared, t: Shared)
    requires StopProtocol(s) && |t.producers| == |s.producers| && t.history == s.history
    requires forall p :: 0 <= p < |s.producers| ==> t.producers[p].todo == s.producers[p].todo
    requires t.stopping == s.stopping && t.calm == s.calm && (t.joined ==> t.consumer.Done?)
    requires forall e :: e in t.consumed ==> e in s.consumed || Loggable(e)
    ensures StopProtocol(t)
  {
  }

  lemma StepStopProtocol(s: Shared, a: Action)
    requires StopProtocol(s) && Enabled(s, a)
    ensures StopProtocol(ApplyShared(s, a))
  {
    match a {
      case LogStep(p) => LogStopProtocol(s, p);
      case Destroy =>
      case _ =>
        KeepsTodo(s, a);
        FrameStopProtocol(s, ApplyShared(s, a));
    }
  }

  // ---- The file ----------------------------------------------------------------------------------

  lemma WrittenAppend(entries: seq<Entry>, e: Entry, threshold: Level)
    ensures Written(entries + [e], threshold)
         == Written(entries, threshold) + (if Passes(e.level, threshold) then [e] else [])
  {
  }

  lemma RenderedAppend(items: seq<Item>, entries: seq<Entry>, e: Entry)
    ensures Rendered(items, entries + [e]) == Rendered(items, entries) + EntryText(items, e)
  {
  }

  lemma KeptAppend(items: seq<Item>, written: seq<Entry>, from: nat, e: Entry)
    requires from <= |written|
    ensures Rendered(items, (written + [e])[from..|written| + 1])
         == Rendered(items, written[from..|written|]) + EntryText(items, e)
  {
    assert (written + [e])[from..|written| + 1] == written[from..|written|] + [e];
    RenderedAppend(items, written[from..|written|], e);
  }

  lemma HoldsOneMore(d: Disk, written: seq<Entry>, e: Entry)
    requires Holds(d, written) && !d.footer && Passes(e.level, d.threshold)
    ensures Holds(WriteEffect(d, e), written + [e])
  {
    AtLeastListed(e.level, d.threshold);
    if d.file.good {
      RecordReachesFile(d, written, e, EntryText(d.items, e));
    } else {
      SameStretch(written, e, d.from, d.upto);
    }
  }

  lemma SameStretch(written: seq<Entry>, e: Entry, from: nat, upto: nat)
    requires from <= upto <= |written|
    ensures (written + [e])[from..upto] == written[from..upto]
  {
  }

  lemma RecordReachesFile(d: Disk, written: seq<Entry>, e: Entry, text: string)
    requires Holds(d, written) && !d.footer && d.file.good && text == EntryText(d.items, e)
    ensures d.file.content + text
         == Opening(d.header) + (Rendered(d.items, (written + [e])[d.from..d.upto + 1]) + Closing(false))
  {
    var body := Rendered(d.items, written[d.from..d.upto]);
    KeptAppend(d.items, written, d.from, e);
    AppendRecord(Opening(d.header), body, text);
  }

  lemma WriteWholeRecords(d: Disk, s: Shared)
    requires WholeRecords(d, s) && Enabled(s, Write)
    ensures WholeRecords(WriteEffect(d, s.consumer.entry), ApplyShared(s, Write))
  {
    var e := s.consumer.entry;
    WrittenAppend(s.consumed, e, d.threshold);
    AtLeastListed(e.level, d.threshold);
    if Passes(e.level, d.threshold) {
      HoldsOneMore(d, Written(s.consumed, d.threshold), e);
    } else {
      Unit(Written(s.consumed, d.threshold));
    }
  }

  lemma AppendRecord(opening: string, body: string, text: string)
    ensures (opening + (body + "")) + text == opening + ((body + text) + "")
  {
  }

  lemma EndWholeRecords(d: Disk, s: Shared)
    requires WholeRecords(d, s) && Enabled(s, End)
    ensures WholeRecords(EndEffect(d), ApplyShared(s, End))
  {
    var body := Rendered(d.items, Written(s.consumed, d.threshold)[d.from..d.upto]);
    Unit(body);
    Assoc(Opening(d.header), body, FOOTER);
  }

  lemma ReopenWholeRecords(d: Disk, s: Shared, ok: bool)
    requires WholeRecords(d, s)
    ensures WholeRecords(ReopenEffect(d, s.consumed, ok), s)
  {
    var written := Written(s.consumed, d.threshold);
    assert written[|written|..|written|] == [];
  }

  lemma StartWholeRecords(d: Disk, s: Shared, landed: bool)
    requires WholeRecords(d, s) && s.consumer.Starting?
    ensures WholeRecords(StartEffect(d, landed), s.(consumer := AtLock(Awake)))
  {
    assert Written(s.consumed, d.threshold) == [];
  }

  lemma StepWholeRecords(d: Disk, s: Shared, a: Action)
    requires WholeRecords(d, s) && Enabled(s, a)
    ensures WholeRecords(ApplyDisk(d, s, a), ApplyShared(s, a))
  {
    match a {
      case Write => WriteWholeRecords(d, s);
      case End => EndWholeRecords(d, s);
      case Reopen(ok) => ReopenWholeRecords(d, s, ok);
      case ConsumerStart(landed) => StartWholeRecords(d, s, landed);
      case _ => FrameWholeRecords(d, s, ApplyShared(s, a));
    }
  }

  lemma FrameWholeRecords(d: Disk, s: Shared, t: Shared)
    requires WholeRecords(d, s) && t.consumed == s.consumed
    requires (s.consumer.Done? ==> t.consumer.Done?) && (t.consumer.Starting? ==> s.consumer.Starting?)
    ensures WholeRecords(d, t)
  {
  }

  lemma StepInv(s: Pipeline, a: Action)
    requires Inv(s) && Enabled(s.shared, a)
    ensures Inv(Apply(s, a))
  {
    StepSharedInv(s.shared, a);
    StepWholeRecords(s.disk, s.shared, a);
  }

  /** Every step keeps every invariant. */
  lemma StepSharedInv(s: Shared, a: Action)
    requires SharedInv(s) && Enabled(s, a)
    ensures SharedInv(ApplyShared(s, a))
  {
    StepInOrder(s, a);
    StepProgramOrder(s, a);
    StepNoLostWakeup(s, a);
    StepStopProtocol(s, a);
  }

  lemma {:induction false} RunInv(s: Pipeline, run: seq<Action>)
    requires Inv(s) && IsRun(s, run)
    ensures Inv(After(s, run))
    decreases |run|
  {
    if run != [] {
      StepInv(s, run[0]);
      RunInv(Apply(s, run[0]), run[1..]);
    }
  }

  lemma InitInv(capacity: nat, threshold: Level, items: seq<Item>, program: seq<seq<Entry>>, isOpen: bool)
    requires ProperProgram(program)
    ensures Inv(Init(capacity, threshold, items, program, isOpen))
  {
    InitSharedInv(capacity, program);
  }

  lemma InitSharedInv(capacity: nat, program: seq<seq<Entry>>)
    requires ProperProgram(program)
    ensures SharedInv(InitShared(capacity, program))
  {
    var s := InitShared(capacity, program);
    assert InOrder(s);
    InitOrder(capacity, program);
    SleepersCounted(s.producers);
    assert NoLostWakeup(s);
    assert StopProtocol(s);
  }

  lemma InitOrder(capacity: nat, program: seq<seq<Entry>>)
    requires ProperProgram(program)
    ensures ProgramOrder(InitShared(capacity, program))
  {
  }
}
