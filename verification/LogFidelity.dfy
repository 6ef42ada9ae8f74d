/** From the events that threads log to the records that a reader finds in the file. */
module LogFidelity {
  import opened Wrappers
  import opened Sequences
  import opened LogTypes
  import opened Text
  import opened Formatter
  import opened LineCodec
  import opened LogPipeline
  import opened LogProgress
  import opened LogReopen

  /** Every entry that is written has an event; the other case is there to make the function total. */
  function RecordOfEntry(e: Entry): Record {
    if e.event.Some? then RecordOf(e.level, e.event.value) else Record(0, e.level, "", 0, "")
  }

  function RecordsOf(entries: seq<Entry>): seq<Record> {
    if entries == [] then
      []
    else
      RecordsOf(entries[..|entries| - 1]) + [RecordOfEntry(entries[|entries| - 1])]
  }

  predicate CleanEntry(e: Entry) {
    e.event.Some? && Clean(e.event.value)
  }

  lemma {:induction false} LinesAppend(records: seq<Record>, r: Record)
    ensures Lines(records + [r]) == Lines(records) + (LineText(r) + "\n")
  {
    if records == [] {
      OneLine(r);
      Unit(LineText(r) + "\n");
    } else {
      var line, rest := LineText(records[0]), Lines(records[1..]);
      LinesAppend(records[1..], r);
      assert (records + [r])[1..] == records[1..] + [r];
      Assoc("\n", rest, LineText(r) + "\n");
      Assoc(line, "\n" + rest, LineText(r) + "\n");
    }
  }

  lemma {:induction false} RenderedIsLines(entries: seq<Entry>)
    requires forall e :: e in entries ==> e.event.Some?
    ensures Rendered(DefaultItems(), entries) == Lines(RecordsOf(entries))
  {
    if entries != [] {
      var init, last := entries[..|entries| - 1], entries[|entries| - 1];
      assert forall e :: e in init ==> e in entries;
      assert last in entries;
      RenderedIsLines(init);
      DefaultLine(last.level, last.event.value);
      LinesAppend(RecordsOf(init), RecordOfEntry(last));
    }
  }

  lemma {:induction false} RecordAt(entries: seq<Entry>, i: nat)
    requires i < |entries|
    ensures |RecordsOf(entries)| == |entries| && RecordsOf(entries)[i] == RecordOfEntry(entries[i])
  {
    var init := entries[..|entries| - 1];
    if i < |init| {
      RecordAt(init, i);
    } else if init != [] {
      RecordAt(init, 0);
    }
  }

  lemma RecordsAreClean(entries: seq<Entry>)
    requires forall e :: e in entries ==> e.event.Some?
    ensures |RecordsOf(entries)| == |entries|
    ensures (forall r :: r in RecordsOf(entries) ==> CleanRecord(r)) <==> forall e :: e in entries ==> CleanEntry(e)
  {
    forall i | 0 <= i < |entries|
      ensures |RecordsOf(entries)| == |entries| && RecordsOf(entries)[i] == RecordOfEntry(entries[i])
      ensures CleanRecord(RecordOfEntry(entries[i])) <==> CleanEntry(entries[i])
    {
      RecordAt(entries, i);
      assert entries[i] in entries;
    }
  }

  lemma {:induction false} WrittenFrom(entries: seq<Entry>, threshold: Level, e: Entry)
    ensures e in Written(entries, threshold) <==> e in entries && Passes(e.level, threshold)
  {
    if entries != [] {
      WrittenFrom(entries[..|entries| - 1], threshold, e);
      assert entries == entries[..|entries| - 1] + [entries[|entries| - 1]];
    }
  }

  /** In every state the file reads as the records of the stretch that it holds, exactly when these are clean. */
  lemma FileIsReadable(s: Pipeline)
    requires WholeRecords(s.disk, s.shared) && s.disk.items == DefaultItems()
    requires forall e :: e in s.shared.consumed ==> e.event.Some?
    ensures var kept := Written(s.shared.consumed, s.disk.threshold)[s.disk.from..s.disk.upto];
            DecodeLog(s.disk.file.content) == Some(RecordsOf(kept)) <==> forall e :: e in kept ==> CleanEntry(e)
  {
    var written := Written(s.shared.consumed, s.disk.threshold);
    var kept := written[s.disk.from..s.disk.upto];
    forall e | e in kept
      ensures e.event.Some?
    {
      assert e in written;
      WrittenFrom(s.shared.consumed, s.disk.threshold, e);
    }
    RenderedIsLines(kept);
    RecordsAreClean(kept);
    DecodesLog(s.disk.header, s.disk.footer, RecordsOf(kept));
  }

  // ---- Over whole runs ---------------------------------------------------------------------------

  lemma {:induction false} RunKeeps(s: Pipeline, run: seq<Action>)
    requires IsRun(s, run)
    ensures var t := After(s, run);
            && t.disk.threshold == s.disk.threshold && t.disk.items == s.disk.items
            && t.shared.program == s.shared.program && t.shared.capacity == s.shared.capacity
    decreases |run|
  {
    if run != [] {
      StepKeeps(s, run[0]);
      RunKeeps(Apply(s, run[0]), run[1..]);
    }
  }

  lemma StepKeeps(s: Pipeline, a: Action)
    requires Enabled(s.shared, a)
    ensures var t := Apply(s, a);
            && t.disk.threshold == s.disk.threshold && t.disk.items == s.disk.items
            && t.shared.program == s.shared.program && t.shared.capacity == s.shared.capacity
  {
  }

  /** Whatever was pushed comes from somebody's program, or is the stop entry. */
  lemma {:induction false} PushedByItsProducer(history: seq<Push>, i: nat)
    requires i < |history|
    ensures history[i].entry in ByProducer(history, history[i].producer)
  {
    if i < |history| - 1 {
      PushedByItsProducer(history[..|history| - 1], i);
    }
  }

  lemma {:induction false} PushedByProducer(history: seq<Push>, p: nat, e: Entry)
    requires e in ByProducer(history, p)
    ensures e in Entries(history)
  {
    var init := history[..|history| - 1];
    if e in ByProducer(init, p) {
      PushedByProducer(init, p, e);
    }
  }

  predicate Logs(program: seq<seq<Entry>>, e: Entry) {
    exists p, i :: 0 <= p < |program| && 0 <= i < |program[p]| && program[p][i] == e
  }

  lemma ConsumedIsLogged(s: Shared, e: Entry)
    requires InOrder(s) && ProgramOrder(s) && StopProtocol(s) && e in s.consumed
    ensures Logs(s.program, e)
  {
    HandIsPushed(s);
    var p := ProgramOfPush(s, e);
    var i :| 0 <= i < |Program(s, p)| && Program(s, p)[i] == e;
    assert Program(s, p) == s.program[p];
  }

  lemma LoggedIsConsumed(s: Shared, e: Entry)
    requires ProperProgram(s.program) && Entries(s.history) == s.consumed + [STOP_ENTRY] && Logs(s.program, e)
    requires forall p :: 0 < p < |s.program| ==> ByProducer(s.history, p) == s.program[p]
    ensures e in s.consumed
  {
    var p, i :| 0 <= p < |s.program| && 0 <= i < |s.program[p]| && s.program[p][i] == e;
    assert e in ByProducer(s.history, p);
    PushedByProducer(s.history, p, e);
  }

  lemma ProgramOfPush(s: Shared, e: Entry) returns (p: nat)
    requires ProgramOrder(s) && e in Entries(s.history)
    ensures p < |s.program| && e in Program(s, p)
  {
    var pushed := Entries(s.history);
    var i :| 0 <= i < |pushed| && pushed[i] == e;
    EntriesLength(s.history);
    EntryAt(s.history, i);
    PushedByItsProducer(s.history, i);
    p := s.history[i].producer;
    assert ByProducer(s.history, p) + s.producers[p].todo == Program(s, p);
  }

  /** An appender under the default pattern; `isOpen` is whether its file could be opened. */
  function Start(capacity: nat, threshold: Level, program: seq<seq<Entry>>, isOpen: bool): Pipeline {
    Init(capacity, threshold, Compile(DEFAULT_PATTERN, "").items, program, isOpen)
  }

  lemma FinalInv(capacity: nat, threshold: Level, program: seq<seq<Entry>>, isOpen: bool, run: seq<Action>)
    requires ProperProgram(program) && IsRun(Start(capacity, threshold, program, isOpen), run)
    ensures var s := After(Start(capacity, threshold, program, isOpen), run);
            && Inv(s) && s.disk.items == DefaultItems() && s.disk.threshold == threshold
            && s.shared.program == program && s.shared.capacity == capacity
            && forall e :: e in s.shared.consumed ==> e.event.Some?
  {
    DefaultPatternRenders(INFO, LogEvent("", 0, 0, 0, 0, ""));
    InitInv(capacity, threshold, DefaultItems(), program, isOpen);
    RunInv(Start(capacity, threshold, program, isOpen), run);
    RunKeeps(Start(capacity, threshold, program, isOpen), run);
  }

  /**
   * Reopen never tears a record: at every moment of every run the file holds whole records, those
   * written from its last successful opening until its stream next turned bad, and it reads back as
   * these exactly when they are clean.
   */
  lemma ReopenKeepsRecordsWhole(capacity: nat, threshold: Level, program: seq<seq<Entry>>, isOpen: bool, run: seq<Action>)
    requires ProperProgram(program) && IsRun(Start(capacity, threshold, program, isOpen), run)
    ensures var s0 := Start(capacity, threshold, program, isOpen);
            var from, upto := WrittenBy(s0, run, LastOpen(run)), WrittenBy(s0, run, GoodUntil(isOpen, run));
            var written := Written(After(s0, run).shared.consumed, threshold);
            && from <= upto <= |written| && (GoodUntil(isOpen, run) == |run| ==> upto == |written|)
            && (DecodeLog(After(s0, run).disk.file.content) == Some(RecordsOf(written[from..upto]))
                <==> forall e :: e in written[from..upto] ==> CleanEntry(e))
  {
    FinalInv(capacity, threshold, program, isOpen, run);
    var s0 := Start(capacity, threshold, program, isOpen);
    InitInv(capacity, threshold, Compile(DEFAULT_PATTERN, "").items, program, isOpen);
    StretchOfRun(s0, run, LastOpen(run), GoodUntil(isOpen, run));
    WrittenByEnd(s0, run);
    FileIsReadable(After(s0, run));
  }

  lemma {:induction false} NeverReopened(run: seq<Action>)
    requires Reopens(run) == 0
    ensures Reopen(true) !in run && Reopen(false) !in run
    decreases |run|
  {
    if run != [] {
      NeverReopened(run[1..]);
    }
  }

  /** Every event that passes the level is clean, and the file that it goes to is open. */
  ghost predicate Recoverable(program: seq<seq<Entry>>, threshold: Level, isOpen: bool) {
    forall e :: Logs(program, e) && Passes(e.level, threshold) ==> isOpen && CleanEntry(e)
  }

  /**
   * End-to-end fidelity. When the destructor has returned, no Log call having raced with it and
   * nobody having reopened the file, the file reads as the records of the pushed events that pass
   * the level, in push order, each once, exactly when these are clean and the file could be opened;
   * and each thread's pushes are all the events it logged, in its own order.
   */
  lemma LogFidelity(capacity: nat, threshold: Level, program: seq<seq<Entry>>, isOpen: bool, run: seq<Action>)
    requires ProperProgram(program) && IsRun(Start(capacity, threshold, program, isOpen), run)
    requires var s := After(Start(capacity, threshold, program, isOpen), run).shared; s.joined && s.calm
    requires Reopens(run) == 0
    ensures var s := After(Start(capacity, threshold, program, isOpen), run);
            && Entries(s.shared.history) == s.shared.consumed + [STOP_ENTRY]
            && (forall p :: 0 < p < |program| ==> ByProducer(s.shared.history, p) == program[p])
            && (DecodeLog(s.disk.file.content) == Some(RecordsOf(Written(s.shared.consumed, threshold)))
                <==> Recoverable(program, threshold, isOpen))
  {
    FinalInv(capacity, threshold, program, isOpen, run);
    var s := After(Start(capacity, threshold, program, isOpen), run);
    DoneIsStopping(s.shared);
    CalmDrains(s.shared);
    NeverReopened(run);
    ReopenKeepsRecordsWhole(capacity, threshold, program, isOpen, run);
    assert run[0..] == run;
    var written := Written(s.shared.consumed, threshold);
    forall e
      ensures e in written <==> Logs(program, e) && Passes(e.level, threshold)
    {
      WrittenIsPassing(s.shared, threshold, e);
    }
    RecoverableMeans(program, threshold, isOpen, written);
    OpenOrEmpty(written, isOpen, s.disk.file.content);
  }

  /** A file that was never opened reads as no records. */
  lemma OpenOrEmpty(written: seq<Entry>, isOpen: bool, content: string)
    requires var upto := if isOpen then |written| else 0;
             DecodeLog(content) == Some(RecordsOf(written[0..upto])) <==> forall e :: e in written[0..upto] ==> CleanEntry(e)
    ensures DecodeLog(content) == Some(RecordsOf(written)) <==> forall e :: e in written ==> isOpen && CleanEntry(e)
  {
    if isOpen {
      assert written[0..|written|] == written;
    } else {
      assert written[0..0] == [];
      if written != [] {
        RecordAt(written, 0);
        assert written[0] in written;
      }
    }
  }

  lemma WrittenIsPassing(s: Shared, threshold: Level, e: Entry)
    requires InOrder(s) && ProgramOrder(s) && StopProtocol(s) && ProperProgram(s.program)
    requires Entries(s.history) == s.consumed + [STOP_ENTRY]
    requires forall p :: 0 < p < |s.program| ==> ByProducer(s.history, p) == s.program[p]
    ensures e in Written(s.consumed, threshold) <==> Logs(s.program, e) && Passes(e.level, threshold)
  {
    WrittenFrom(s.consumed, threshold, e);
    if e in s.consumed {
      ConsumedIsLogged(s, e);
    } else if Logs(s.program, e) {
      LoggedIsConsumed(s, e);
    }
  }

  /** At the lowest level, everything that was consumed is written. */
  lemma {:induction false} InfoPassesAll(entries: seq<Entry>)
    ensures Written(entries, INFO) == entries
  {
    if entries != [] {
      InfoPassesAll(entries[..|entries| - 1]);
      assert entries == entries[..|entries| - 1] + [entries[|entries| - 1]];
    }
  }

  lemma RecoverableMeans(program: seq<seq<Entry>>, threshold: Level, isOpen: bool, written: seq<Entry>)
    requires forall e :: e in written <==> Logs(program, e) && Passes(e.level, threshold)
    ensures Recoverable(program, threshold, isOpen) <==> forall e :: e in written ==> isOpen && CleanEntry(e)
  {
  }

  /** So an appender at the lowest level logs everything. */
  lemma InfoLogsEverything(capacity: nat, program: seq<seq<Entry>>, isOpen: bool, run: seq<Action>)
    requires ProperProgram(program) && IsRun(Start(capacity, INFO, program, isOpen), run)
    requires var s := After(Start(capacity, INFO, program, isOpen), run).shared; s.joined && s.calm
    requires Reopens(run) == 0
    ensures var s := After(Start(capacity, INFO, program, isOpen), run);
            DecodeLog(s.disk.file.content) == Some(RecordsOf(s.shared.consumed)) <==>
            forall e :: Logs(program, e) ==> isOpen && CleanEntry(e)
  {
    LogFidelity(capacity, INFO, program, isOpen, run);
    InfoPassesAll(After(Start(capacity, INFO, program, isOpen), run).shared.consumed);
  }

  // ---- The file, character by character ----------------------------------------------------------

  /** As long as the stream stays good, the opening line is in the file if it landed, and the closing line if the writer is done. */
  lemma {:induction false} FirstAndLast(s: Pipeline, run: seq<Action>)
    requires IsRun(s, run) && Reopens(run) == 0 && s.disk.file.good
    requires s.shared.consumer.Done? <==> s.disk.footer
    ensures var d := After(s, run).disk;
            && d.file.good && d.from == s.disk.from
            && (d.header <==> s.disk.header || ConsumerStart(true) in run)
            && (After(s, run).shared.consumer.Done? <==> d.footer)
    decreases |run|
  {
    if run != [] {
      var t := Apply(s, run[0]);
      assert ConsumerStart(true) in run <==> run[0] == ConsumerStart(true) || ConsumerStart(true) in run[1..];
      assert t.shared.consumer.Done? <==> t.disk.footer;
      FirstAndLast(t, run[1..]);
    }
  }

  lemma {:induction false} NothingLands(s: Pipeline, run: seq<Action>)
    requires IsRun(s, run) && Reopens(run) == 0 && !s.disk.file.good
    ensures After(s, run).disk.file == s.disk.file
    decreases |run|
  {
    if run != [] {
      NothingLands(Apply(s, run[0]), run[1..]);
    }
  }

  /**
   * The whole file of an appender whose destructor has returned, if it was not reopened: the opening
   * line if it landed, the text of everything written, and the closing line; nothing at all if it
   * could not be opened.
   */
  lemma ClosedFile(capacity: nat, threshold: Level, items: seq<Item>, program: seq<seq<Entry>>, isOpen: bool,
                   run: seq<Action>)
    requires ProperProgram(program) && IsRun(Init(capacity, threshold, items, program, isOpen), run) && Reopens(run) == 0
    requires After(Init(capacity, threshold, items, program, isOpen), run).shared.joined
    ensures var s := After(Init(capacity, threshold, items, program, isOpen), run);
            s.disk.file.content == if isOpen then
                                     (if ConsumerStart(true) in run then "log start\n" else "")
                                     + (Rendered(items, Written(s.shared.consumed, threshold)) + "log end\n")
                                   else
                                     ""
  {
    var s0 := Init(capacity, threshold, items, program, isOpen);
    InitInv(capacity, threshold, items, program, isOpen);
    RunInv(s0, run);
    RunKeeps(s0, run);
    if isOpen {
      FirstAndLast(s0, run);
      ClosedContent(After(s0, run).disk, Written(After(s0, run).shared.consumed, threshold));
    } else {
      NothingLands(s0, run);
    }
  }

  lemma ClosedContent(d: Disk, written: seq<Entry>)
    requires Holds(d, written) && d.from == 0 && d.file.good && d.footer
    ensures d.file.content == (if d.header then "log start\n" else "") + (Rendered(d.items, written) + "log end\n")
  {
    assert written[0..|written|] == written;
  }

  /** A destructor that no Log call raced with returns in every run that goes on as long as it can. */
  lemma ShutdownReturns(capacity: nat, threshold: Level, program: seq<seq<Entry>>, isOpen: bool, run: seq<Action>)
    requires ProperProgram(program) && capacity > 0 && IsRun(Start(capacity, threshold, program, isOpen), run)
    requires var s := After(Start(capacity, threshold, program, isOpen), run).shared; Halted(s) && s.stopping && s.calm
    ensures After(Start(capacity, threshold, program, isOpen), run).shared.joined
  {
    FinalInv(capacity, threshold, program, isOpen, run);
    HaltedIsFinished(After(Start(capacity, threshold, program, isOpen), run).shared);
  }
}
