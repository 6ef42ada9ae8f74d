/** The asynchronous file appender object. Each method is one critical section or one step between two of them. */
module FileAppender {
  import opened Wrappers
  import opened LogTypes
  import Formatter
  import LineCodec
  import LogFidelity
  import LogProgress
  import M = LogPipeline

  /** Some sleeping producer, whichever the condition variable picks, if there is one. */
  method PickSleeper(producers: seq<M.Producer>) returns (wake: Option<nat>)
    ensures M.CanWake(producers, wake)
  {
    wake := None;
    if p :| 0 <= p < |producers| && producers[p].phase.Asleep? {
      wake := Some(p);
    }
  }

  class FileAppender {
    const maxQueueSize: nat
    const level: Level
    const formatter: Formatter.Formatter
    var queue: seq<M.Entry>
    var file: M.LogFile
    var producers: seq<M.Producer>
    var consumer: M.Consumer
    ghost const initial: M.Pipeline
    ghost var trace: seq<M.Action>

    /** The protocol state that the object's steps have led to, with its history. */
    ghost function View(): M.Pipeline
      requires M.IsRun(initial, trace)
      reads this
    {
      M.After(initial, trace)
    }

    /** The fields are where a run of the protocol leads, so what holds after every run holds of them. */
    ghost predicate Valid()
      reads this, formatter
    {
      && M.IsRun(initial, trace)
      && View().shared.capacity == maxQueueSize && View().shared.queue == queue
      && View().shared.producers == producers && View().shared.consumer == consumer
      && View().disk.threshold == level && View().disk.items == formatter.formatItems && View().disk.file == file
    }

    /** A queue of size zero is refused with an exception, see Create; a file that cannot be opened is not. */
    constructor (maxQueueSize: nat, level: Level, formatter: Formatter.Formatter,
                 callers: seq<M.Producer>, ghost program: seq<seq<M.Entry>>, isOpen: bool)
      requires maxQueueSize > 0
      requires callers == M.InitShared(maxQueueSize, program).producers
      ensures Valid() && trace == [] && this.formatter == formatter
      ensures View() == M.Init(maxQueueSize, level, formatter.formatItems, program, isOpen)
    {
      this.maxQueueSize, this.level, this.formatter := maxQueueSize, level, formatter;
      queue, producers, consumer, file := [], callers, M.Starting, M.LogFile(isOpen, "");
      initial, trace := M.Init(maxQueueSize, level, formatter.formatItems, program, isOpen), [];
    }

    static method Create(maxQueueSize: nat, level: Level, formatter: Formatter.Formatter,
                         callers: seq<M.Producer>, ghost program: seq<seq<M.Entry>>, isOpen: bool)
      returns (appender: FileAppender?)
      requires callers == M.InitShared(maxQueueSize, program).producers
      ensures appender == null <==> maxQueueSize == 0
      ensures appender != null ==> fresh(appender) && appender.Valid() && appender.trace == []
      ensures appender != null ==> appender.formatter == formatter
      ensures appender != null ==> appender.View() == M.Init(maxQueueSize, level, formatter.formatItems, program, isOpen)
    {
      if maxQueueSize == 0 {
        return null;
      }
      appender := new FileAppender(maxQueueSize, level, formatter, callers, program, isOpen);
    }

    /** Record in the trace a step that the fields are about to take. */
    ghost method Take(a: M.Action)
      requires M.IsRun(initial, trace) && M.Enabled(View().shared, a)
      modifies this`trace
      ensures trace == old(trace) + [a] && M.IsRun(initial, trace) && View() == M.Apply(old(View()), a)
    {
      M.RunSnoc(initial, trace, a);
      trace := trace + [a];
    }

    /** Log, with the lock held: go to sleep on a full queue, else push and notify the writer. */
    method Log(p: nat)
      requires Valid() && M.Enabled(View().shared, M.LogStep(p))
      modifies this
      ensures Valid() && trace == old(trace) + [M.LogStep(p)]
      ensures file == old(file)
      ensures |old(queue)| >= maxQueueSize ==>
                && queue == old(queue) && consumer == old(consumer)
                && producers == old(producers)[p := M.Producer(old(producers)[p].todo, M.Asleep)]
      ensures |old(queue)| < maxQueueSize ==>
                && queue == old(queue) + [old(producers)[p].todo[0]]
                && producers == old(producers)[p := M.Producer(old(producers)[p].todo[1..], M.Awake)]
                && consumer == if old(consumer) == M.AtLock(M.Asleep) then M.AtLock(M.Woken) else old(consumer)
    {
      Take(M.LogStep(p));
      var todo := producers[p].todo;
      if |queue| >= maxQueueSize {
        producers := producers[p := M.Producer(todo, M.Asleep)];
        return;
      }
      queue := queue + [todo[0]];
      producers := producers[p := M.Producer(todo[1..], M.Awake)];
      if consumer == M.AtLock(M.Asleep) {
        consumer := M.AtLock(M.Woken);
      }
    }

    method SpuriousWakeup(p: nat)
      requires Valid() && M.Enabled(View().shared, M.SpuriousProducer(p))
      modifies this
      ensures Valid() && trace == old(trace) + [M.SpuriousProducer(p)]
      ensures producers == old(producers)[p := old(producers)[p].(phase := M.Woken)]
      ensures queue == old(queue) && consumer == old(consumer) && file == old(file)
    {
      Take(M.SpuriousProducer(p));
      producers := producers[p := producers[p].(phase := M.Woken)];
    }

    method SpuriousWriterWakeup()
      requires Valid() && M.Enabled(View().shared, M.SpuriousConsumer)
      modifies this
      ensures Valid() && trace == old(trace) + [M.SpuriousConsumer]
      ensures consumer == M.AtLock(M.Woken) && queue == old(queue) && producers == old(producers) && file == old(file)
    {
      Take(M.SpuriousConsumer);
      consumer := M.AtLock(M.Woken);
    }

    /** The destructor begins: its thread is about to log the stop entry. */
    method BeginDestroy()
      requires Valid() && M.Enabled(View().shared, M.Destroy)
      modifies this
      ensures Valid() && trace == old(trace) + [M.Destroy]
      ensures producers == old(producers)[0 := M.Producer([M.STOP_ENTRY], M.Awake)]
      ensures queue == old(queue) && consumer == old(consumer) && file == old(file)
    {
      Take(M.Destroy);
      producers := producers[0 := M.Producer([M.STOP_ENTRY], M.Awake)];
    }

    /** The writer's opening line, which may come before the file is open. */
    method WriteHeader(landed: bool)
      requires Valid() && M.Enabled(View().shared, M.ConsumerStart(landed))
      modifies this
      ensures Valid() && trace == old(trace) + [M.ConsumerStart(landed)]
      ensures file == if landed && old(file.good) then M.LogFile(true, old(file.content) + "log start\n") else old(file)
      ensures queue == old(queue) && producers == old(producers) && consumer == M.AtLock(M.Awake)
    {
      Take(M.ConsumerStart(landed));
      if landed {
        file := M.Put(file, LineCodec.HEADER);
      }
      consumer := M.AtLock(M.Awake);
    }

    /** ConsumeLog, with the lock held: go to sleep on an empty queue, else pop and notify one producer. */
    method ConsumeLocked() returns (wake: Option<nat>)
      requires Valid() && consumer.AtLock? && !consumer.phase.Asleep? && !View().shared.joined
      modifies this
      ensures Valid() && trace == old(trace) + [M.ConsumerLock(wake)]
      ensures file == old(file)
      ensures old(queue) == [] ==> consumer == M.AtLock(M.Asleep) && queue == [] && producers == old(producers)
      ensures old(queue) != [] ==>
                && consumer == M.Holding(old(queue)[0]) && queue == old(queue)[1..]
                && (if wake.Some? then wake.value < |old(producers)| && old(producers)[wake.value].phase.Asleep?
                    else forall p :: 0 <= p < |old(producers)| ==> !old(producers)[p].phase.Asleep?)
                && producers == if wake.Some? then
                                  old(producers)[wake.value := old(producers)[wake.value].(phase := M.Woken)]
                                else
                                  old(producers)
    {
      wake := None;
      if queue != [] {
        wake := PickSleeper(producers);
      }
      Take(M.ConsumerLock(wake));
      if queue == [] {
        consumer := M.AtLock(M.Asleep);
        return;
      }
      consumer := M.Holding(queue[0]);
      queue := queue[1..];
      if wake.Some? {
        producers := producers[wake.value := producers[wake.value].(phase := M.Woken)];
      }
    }

    /** The level test and the write, under the file's lock. */
    method WriteEvent()
      requires Valid() && M.Enabled(View().shared, M.Write)
      modifies this
      ensures Valid() && trace == old(trace) + [M.Write]
      ensures var e := old(consumer).entry;
              file == if old(file.good) && Passes(e.level, level) then
                        M.LogFile(true, old(file.content)
                                        + Formatter.FormatItems(formatter.formatItems, e.level, e.event.value))
                      else
                        old(file)
      ensures queue == old(queue) && producers == old(producers) && consumer == M.AtLock(M.Awake)
    {
      Take(M.Write);
      var e := consumer.entry;
      AtLeastListed(e.level, level);
      if e.level.AtLeast(level) {
        var text := formatter.Format(e.level, e.event.value);
        file := M.Put(file, text);
      }
      consumer := M.AtLock(M.Awake);
    }

    /** The writer has popped the stop entry: it writes the closing line and exits. */
    method FinishWriting()
      requires Valid() && M.Enabled(View().shared, M.End)
      modifies this
      ensures Valid() && trace == old(trace) + [M.End]
      ensures file == if old(file.good) then M.LogFile(true, old(file.content) + "log end\n") else old(file)
      ensures queue == old(queue) && producers == old(producers) && consumer == M.Done
    {
      Take(M.End);
      file := M.Put(file, LineCodec.FOOTER);
      consumer := M.Done;
    }

    /** `ok` is whether the operating system opens the file again. */
    method Reopen(ok: bool) returns (good: bool)
      requires Valid() && !View().shared.joined
      modifies this
      ensures good == ok && Valid() && trace == old(trace) + [M.Reopen(ok)]
      ensures file == if ok then M.LogFile(true, "") else M.LogFile(false, old(file.content))
      ensures queue == old(queue) && producers == old(producers) && consumer == old(consumer)
    {
      Take(M.Reopen(ok));
      if ok {
        file := M.LogFile(true, "");
      } else {
        file := file.(good := false);
      }
      good := file.good;
    }

    /** The destructor's join returns once the writer has exited. */
    method Join()
      requires Valid() && M.Enabled(View().shared, M.Join)
      modifies this
      ensures Valid() && trace == old(trace) + [M.Join]
      ensures consumer == M.Done && file == old(file) && queue == old(queue)
    {
      Take(M.Join);
    }
  }

  /** The fidelity theorem, on the object: what its file says once its destructor has returned. */
  lemma ClosedFileReadsBack(appender: FileAppender, program: seq<seq<M.Entry>>, isOpen: bool)
    requires appender.Valid() && M.ProperProgram(program)
    requires appender.initial == LogFidelity.Start(appender.maxQueueSize, appender.level, program, isOpen)
    requires appender.View().shared.joined && appender.View().shared.calm && LogProgress.Reopens(appender.trace) == 0
    ensures LineCodec.DecodeLog(appender.file.content)
         == Some(LogFidelity.RecordsOf(M.Written(appender.View().shared.consumed, appender.level)))
       <==> LogFidelity.Recoverable(program, appender.level, isOpen)
    ensures M.Entries(appender.View().shared.history) == appender.View().shared.consumed + [M.STOP_ENTRY]
    ensures appender.queue == []
  {
    LogFidelity.LogFidelity(appender.maxQueueSize, appender.level, program, isOpen, appender.trace);
    LogFidelity.FinalInv(appender.maxQueueSize, appender.level, program, isOpen, appender.trace);
    LogProgress.DoneIsStopping(appender.View().shared);
    LogProgress.CalmDrains(appender.View().shared);
  }
}
