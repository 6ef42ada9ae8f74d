# CppServer in Dafny

This project models the concurrent core of CppServer, a multi-reactor TCP server in C++, and proves
what it is meant to guarantee. Four parts are modelled and composed.

* **The asynchronous log.** `LogPipeline` is the bounded multi-producer, single-consumer queue of
  `FileAppender` with its two condition variables, the writer thread, `Reopen`, and the stop entry
  that the destructor pushes, for any number of producers and any capacity. `LogProgress` proves
  draining, deadlock freedom and termination, and `LogRace` what a destructor that races with `Log`
  can lose; `LogReopen` says which records the file holds after any openings and failures to open, and
  `LogFidelity` follows events to the records that a reader finds there. `FileAppender` is the object
  whose methods are the protocol's steps.
* **The log pattern compiler.** `Formatter` holds the scan loop and the formatter object,
  `PatternLaws` the meaning of a pattern and the laws between compiling, printing and concatenating,
  `LineCodec` the default line and a reader that inverts it.
* **The thread pool.** `PoolMachine` and `PoolProgress` are the pool as a transition system in which
  `Add` notifies after it has released the lock; `ThreadPool` is the object. `ServerThreads` puts the
  sub-reactors on the pool.
* **Connections under edge-triggered polling.** `Buffer`, `SocketIO` and `Connection` are the partial
  read and write loops against an adversarial kernel and the echo handler on top; `EdgeTriggered` is a
  reactor with arrivals between any two system calls, which `EdgeProgress` proves to drain its input,
  and `EdgeEcho` puts the echo handler on it; `Reactor` is the registration of channels, epoll
  instances and the server's table of connections, as objects.

A step of a transition system is one critical section or one call made outside a lock. Threads that
wait are in explicit wait sets: a notification takes out one arbitrary sleeper, a sleeper may also
wake for no reason, and every thread that wakes tests its condition again (section 30.5.1 of the
C++14 standard). Spurious wakeups are allowed in every safety theorem and excluded only where a run is
said to end. The objects `FileAppender` and `ThreadPool` carry a ghost trace of steps, and `Valid`
says that their fields are what that trace leads to, so a theorem about all runs holds of them.

What the proofs found out about the code:

* A pool of no workers (`std::thread::hardware_concurrency` may return 0) returns from its destructor
  and loses what it accepted; a pool drains exactly when it has a worker or nothing was accepted. A
  server on such a machine divides by zero on its first connection: it accepts a descriptor exactly
  when it has a reactor and the descriptor is not -1.
* An appender's destructor completes every `Log` call in every run exactly when no call is left when
  it begins. Otherwise it may return before any of the calls left is made; and a thread may be left
  asleep in `Log` for ever exactly when it has a call left and the calls left over all threads are
  more than the queue has room for. The state field `calm` records, when the destructor begins,
  whether every `Log` call has returned.
* The constructor does not notice that its file could not be opened. The reader `DecodeLog` gets back
  what was logged exactly when every event that passes the level is clean (no newline in the message,
  no space or newline in the file name) and the file was opened.
* A read delivers what the kernel handed over exactly when that holds no NUL byte. A write completes
  exactly when the kernel offers room for all of it before it first refuses; the rest is dropped. An
  echo delivers what arrived exactly when both hold throughout.
* Rendering a concatenation of patterns is the concatenation of the renderings, whatever follows,
  exactly when the first pattern does not end in an odd run of `%`.
* No two workers serve a connection at once. Two threads can, the main reactor's in the on-connect
  callback and a worker's in the first message callback, exactly when an on-connect callback is set
  and there is a reactor.
* `DEBUG` ranks above `INFO` (`logger.h` lines 37 to 44); the model keeps the order of the code.

Modelling choices. Threads are given as sequences indexed by thread; producer 0 is the one that runs
the destructor. A task is an identifier whose call either returns (`Finish`) or, for a reactor's
loop, never does. The clock, the scheduler and the kernel appear as parameters: which step comes next,
which sleeper is woken, what `read` and `write` return, whether a file opens. The appender's level is
an arbitrary fixed threshold, as the source never sets it. `WriteNonBlocking` keeps the buffer size in
an `int`; its contract asks that the size fit one. Strings in the log are sequences of characters,
socket data sequences of bytes.

## Model

| member | source | states |
|---|---|---|
| Formatter.Formatter.constructor | cppserver/logger.cpp:141-143 | the constructed formatter holds the items and the error flag of its pattern |
| Formatter.Formatter.Parse | cppserver/logger.cpp:166-202 | the scan loop, with its index, pending literal and early exit, builds exactly the specified items and error flag |
| Formatter.Formatter.Format | cppserver/logger.cpp:145-151 | formatting appends each item's text in order |
| PatternLaws.CompilePreservesMeaning | cppserver/logger.cpp:145-202 | for every pattern, pending literal, level and event, formatting the compiled items is the direct reading of the pattern |
| PatternLaws.DirectiveTexts | cppserver/logger.cpp:153-196 | the text of each directive for every event, and of any other letter |
| PatternLaws.LevelTexts | cppserver/logger.cpp:231-251 | the name that `%p` renders for each level |
| PatternLaws.ErrorIffUnknownDirective | cppserver/logger.cpp:188-195 | the error flag is set exactly when some character outside the table follows an odd run of `%` |
| PatternLaws.DanglingIffOddTail | cppserver/logger.cpp:175-177 | a final `%` is dropped exactly when the pattern ends in an odd run of `%` |
| PatternLaws.ConcatIffNotDangling | cppserver/logger.cpp:166-202 | rendering distributes over concatenation with every continuation exactly when the first pattern does not dangle |
| PatternLaws.ConcatCompiles | cppserver/logger.cpp:166-202 | the same on compiled items, with the error flag the disjunction of the two |
| PatternLaws.PrintInvertsTable | cppserver/logger.cpp:153-164 | the table knows nine letters, and printing a directive gives back its letter, except that `c` is a second name for the file name |
| PatternLaws.ParseUndoesPrint | cppserver/logger.cpp:166-202 | parsing the printed form of any item list in normal form gives back the list, without error |
| PatternLaws.PrintUndoesParse | cppserver/logger.cpp:166-202 | on a pattern without error, printing the parsed items and parsing again changes nothing |
| PatternLaws.ReparseKeepsMeaning | cppserver/logger.cpp:145-202 | for every pattern, even one in error, printing and parsing again keeps what it renders |
| LineCodec.DefaultPatternRenders | cppserver/logger.cpp:36 | the default pattern compiles without error and renders time, level, file, line and message with their delimiters |
| LineCodec.DecodesLines | cppserver/logger.cpp:226-289 | a reader recovers any sequence of clean records from their lines |
| LineCodec.DecodesLog | cppserver/logger.cpp:103-131 | a whole file, with or without the opening and closing lines, reads back as its records exactly when all of them are clean |
| LineCodec.DecodedIsClean | cppserver/logger.cpp:226-289 | whatever a file says, the records read from it are clean |
| LineCodec.SpaceCollides | cppserver/logger.cpp:274-277 | a space in a file name lets two different events render the same |
| LineCodec.NewlineCollides | cppserver/logger.cpp:226-229 | a newline in a message lets one event render as two |
| LogTypes.AtLeastListed | cppserver/include/logger.h:37-44 | the comparison of levels lets pass exactly the listed ones, DEBUG ranking above INFO |
| LogPipeline.StepInOrder | cppserver/logger.cpp:83-90 | every step keeps: consumed, in hand and queue, in this order, are the push history, and the queue never exceeds its bound |
| LogPipeline.StepProgramOrder | cppserver/logger.cpp:83-90 | every step keeps: each producer's pushes followed by its remaining calls are its program |
| LogPipeline.StepNoLostWakeup | cppserver/logger.cpp:83-114 | every step keeps: while a producer sleeps the free slots number at most the woken producers, and a sleeping writer means an empty queue |
| LogPipeline.StepStopProtocol | cppserver/logger.cpp:74-81 | every step keeps: the stop entry is pushed once, by the destructor, and last if no call raced with it |
| LogPipeline.StepWholeRecords | cppserver/logger.cpp:92-131 | every step keeps: the file holds whole records of a stretch of the filtered history, to its end while the stream is good |
| LogPipeline.RunInv | cppserver/logger.cpp:64-131 | all of these hold after every run |
| LogProgress.StopSplitsHistory | cppserver/logger.cpp:110-119 | when the writer is done, the pushes before the stop entry are consumed and those after it are still queued |
| LogProgress.CalmDrains | cppserver/logger.cpp:74-119 | if no call raced with the destructor, the writer ends with an empty queue and every producer's whole program pushed |
| LogProgress.SleepingWriterIsIdle | cppserver/logger.cpp:85-109 | a halted pipeline whose writer sleeps has no pending call and no queued event |
| LogProgress.HaltedIsFinished | cppserver/logger.cpp:74-131 | without a race, a state with no step left has completed every call and, if the destructor began, has returned from it |
| LogProgress.StepMeasure | cppserver/logger.cpp:74-131 | every step but a spurious wakeup lowers the measure, also when the stop entry meets a full queue; Reopen leaves it |
| LogProgress.RunsEnd | cppserver/logger.cpp:74-131 | a run without spurious wakeups is no longer than its first measure and its Reopens |
| LogRace.AfterTheWriter | cppserver/logger.cpp:83-119 | once the writer is done nothing more is ever consumed, and a call that meets a full queue never returns |
| LogRace.DestructorOvertakes | cppserver/logger.cpp:74-119 | from any state, the destructor may return before any other thread makes another call |
| LogRace.ShutdownIffCalm | cppserver/logger.cpp:74-119 | a destructor that begins completes every call and consumes every event in every run that goes on as long as it can, exactly when no call is left when it begins |
| LogRace.StrandsIffOverfull | cppserver/logger.cpp:74-90 | if the destructor begins, a thread may be left asleep in Log for ever exactly when it has a call left and all threads together have more calls left than the queue has room for |
| LogRace.RacingCallIsStranded | cppserver/logger.cpp:74-90 | so some thread may be left asleep exactly when the calls left are more than the queue has room for |
| LogReopen.StretchOfRun | cppserver/logger.cpp:64-101 | after any run the file holds the records written from the last successful opening to the first failed one after it |
| LogFidelity.FileIsReadable | cppserver/logger.cpp:92-131 | under the default pattern the file reads as the records that it holds exactly when these are clean |
| LogFidelity.LogFidelity | cppserver/logger.cpp:36-131 | after the destructor, without race or Reopen, every thread's pushes are its whole program, and the file reads as the pushed events that pass the level, in push order and once, exactly when these are clean and the file could be opened |
| LogFidelity.InfoLogsEverything | cppserver/logger.cpp:125-127 | at threshold INFO the file reads as everything that was consumed, under the same condition |
| LogFidelity.ClosedFile | cppserver/logger.cpp:103-131 | under any pattern, the file of a joined appender that was not reopened is, character by character, the opening line if it landed, the text of what was written, and `log end`; empty if it could not be opened |
| LogFidelity.ReopenKeepsRecordsWhole | cppserver/logger.cpp:92-128 | at every moment of every run the file reads as whole records, those written since the last successful opening until the stream next turned bad, exactly when these are clean |
| LogFidelity.ShutdownReturns | cppserver/logger.cpp:74-81 | a destructor without race returns in every run that goes on as long as it can |
| FileAppender.FileAppender.Create | cppserver/logger.cpp:64-72 | a queue size of zero is refused, any other starts the protocol, whether or not the file could be opened |
| FileAppender.FileAppender.Log | cppserver/logger.cpp:83-90 | one pass of Log through its lock goes to sleep on a full queue, else appends its entry and wakes a sleeping writer; it is the step of the protocol |
| FileAppender.FileAppender.WriteHeader | cppserver/logger.cpp:104 | the opening line is appended if it lands on a good stream |
| FileAppender.FileAppender.ConsumeLocked | cppserver/logger.cpp:106-114 | one pass of the writer through the queue's lock goes to sleep on an empty queue, else takes the oldest entry and wakes one sleeper if there is one; it is the step of the protocol |
| FileAppender.FileAppender.WriteEvent | cppserver/logger.cpp:122-128 | on a good stream the event's text is appended exactly when its level passes the threshold, by the listing of levels |
| FileAppender.FileAppender.FinishWriting | cppserver/logger.cpp:116-130 | leaving the loop at the stop entry appends `log end` to a good stream |
| FileAppender.FileAppender.Reopen | cppserver/logger.cpp:92-101 | Reopen truncates on success, leaves a bad stream on failure, and returns which |
| FileAppender.FileAppender.BeginDestroy | cppserver/logger.cpp:74-76 | the destructor sets out to log the stop entry, and nothing else changes |
| FileAppender.FileAppender.Join | cppserver/logger.cpp:77-79 | the join returns only when the writer is done |
| FileAppender.ClosedFileReadsBack | cppserver/logger.cpp:74-131 | the fidelity theorem, both ways, on the object's own file and queue |
| PoolMachine.StepOrdered | cppserver/thread_pool.cpp:20-21 | every step keeps: started tasks followed by the queue are the accepted tasks in order |
| PoolMachine.StepConserved | cppserver/thread_pool.cpp:20-23 | every step keeps: started tasks are, as multisets, those running and those finished |
| PoolMachine.StepNoLostWakeup | cppserver/include/thread_pool.h:46-55 | every step keeps: while a worker sleeps and the pool is live, queued tasks number at most the woken workers and the notifications still to come |
| PoolMachine.StepStopping | cppserver/thread_pool.cpp:13-19 | every step keeps: nobody exits while work is queued, and nobody sleeps after notify_all |
| PoolMachine.RunInv | cppserver/thread_pool.cpp:5-40 | all of these hold after every run |
| PoolProgress.WorkConserving | cppserver/thread_pool.cpp:12-22 | a quiescent live pool never has both a queued task and a worker that is not running one |
| PoolProgress.DrainedIffStaffed | cppserver/thread_pool.cpp:29-40 | when the destructor has returned, every accepted task has run exactly once if and only if there was a worker or nothing was accepted |
| PoolProgress.UnstaffedPoolLosesTask | cppserver/thread_pool.cpp:5-6 | a run in which a pool of no workers loses a task |
| PoolProgress.AcceptedIffBeforeStop | cppserver/include/thread_pool.h:46-53 | over any run, what is accepted is what is added before the stop, in order, and the rest is refused, in order |
| PoolProgress.StopRefusesAdds | cppserver/include/thread_pool.h:48-50 | from the stop on, over any run, the accepted tasks are fixed and every Add is rejected |
| PoolProgress.StepMeasure | cppserver/thread_pool.cpp:9-40 | every step but a spurious wakeup or an Add lowers the measure |
| PoolProgress.RunsEnd | cppserver/thread_pool.cpp:9-40 | a run without spurious wakeups is no longer than its first measure and its Adds allow |
| PoolProgress.StoppedPoolHaltsJoined | cppserver/thread_pool.cpp:29-39 | a stopped pool with no step left has returned from its destructor |
| PoolProgress.LivePoolHaltsIdle | cppserver/thread_pool.cpp:9-24 | a live staffed pool with no step left has run everything and sleeps |
| PoolProgress.ShutdownCompletes | cppserver/thread_pool.cpp:29-40 | every maximal run of a staffed pool that stops ends with every accepted task run exactly once |
| ThreadPool.ThreadPool.constructor | cppserver/thread_pool.cpp:5-6 | a non-positive count starts no worker |
| ThreadPool.ThreadPool.Add | cppserver/include/thread_pool.h:46-53 | the locked part of Add appends the task to the queue and to what is accepted exactly when the pool has not stopped, and refuses it otherwise |
| ThreadPool.ThreadPool.NotifyOne | cppserver/include/thread_pool.h:54 | the notification after the unlock takes some sleeper out of the wait set |
| ThreadPool.ThreadPool.WorkerCheck | cppserver/thread_pool.cpp:11-22 | one pass of a worker through the lock sleeps, exits or takes the oldest task |
| ThreadPool.ThreadPool.NotifyAll | cppserver/thread_pool.cpp:34 | notify_all wakes every sleeper and changes no other worker |
| ThreadPool.JoinedPoolIsDrained | cppserver/thread_pool.cpp:29-40 | the drain theorem on the object's own queue |
| ServerThreads.StepServerInv | cppserver/tcp_server.cpp:44-72 | every step keeps: loops are submitted once in order, connections are bound to loop fd % n, callbacks run on the worker of that loop |
| ServerThreads.SingleThreadedConnections | cppserver/tcp_server.cpp:44-72 | in no run do two workers execute callbacks of the same connection at once; if two threads do, one is the main reactor's, in the on-connect callback |
| ServerThreads.OverlapIffGreeted | cppserver/tcp_server.cpp:54-72 | for every connection, some run from the start lets two threads serve it at once exactly when an on-connect callback is set and there is a reactor |
| ServerThreads.TableIsHistory | cppserver/tcp_server.cpp:54-82 | after every run the table holds the connections accepted and not deleted since, and each worker serves what it began last |
| ServerThreads.EveryLoopRuns | cppserver/tcp_server.cpp:44-49 | when the pool is quiet after Start's submissions, every loop runs on a worker |
| ServerThreads.PoolSettles | cppserver/tcp_server.cpp:44-49 | without spurious wakeups the pool settles within a bounded number of its steps |
| ServerThreads.StartRunsEveryLoop | cppserver/tcp_server.cpp:29-49 | in every run, once Start is done and the pool has settled, each loop has a worker |
| Buffer.Buffer.Append | cppserver/buffer.cpp:31-38 | appending stops before the first NUL |
| SocketIO.ReadsAllIffNoNul | cppserver/connection.cpp:89-114 | a read yields what the kernel handed over, whatever the chunks, exactly when that has no NUL |
| SocketIO.ReadEnds | cppserver/connection.cpp:93-112 | a read loop ends at the first result that is neither data nor an interruption, open exactly if that says it would block, and hands over the data before it |
| SocketIO.SentIsPrefix | cppserver/connection.cpp:116-145 | what a write sends is a prefix of the data, and all of it exactly when the loop completed |
| SocketIO.WritableIff | cppserver/connection.cpp:125-144 | the write loop ends exactly on results that refuse at some point or have room for everything |
| SocketIO.CompletesIffRoom | cppserver/connection.cpp:125-144 | a write completes exactly when the kernel offers room for all of it before the first result that refuses |
| SocketIO.WriteEnds | cppserver/connection.cpp:125-144 | a write that lacks room ends at the first refusal, broken exactly by a failure and blocked exactly by a full socket |
| SocketIO.BrokenIff | cppserver/connection.cpp:138-142 | a write breaks the connection exactly when it lacks room and the first refusal is a failure |
| Connection.Connection.ReadNonBlocking | cppserver/connection.cpp:89-114 | the read loop appends exactly the specified bytes, consumes the results up to the one that ends it, and leaves the connection open exactly if that says it would block |
| Connection.Connection.WriteNonBlocking | cppserver/connection.cpp:116-145 | the write loop, by its offsets into the buffer, sends exactly the specified bytes and closes exactly when a failure comes before it has room for all |
| Connection.Connection.Read | cppserver/connection.cpp:34-45 | a closed connection is left alone; an open one gets a cleared buffer and what is read, and stays open exactly if neither an end nor a failure comes before the socket is drained |
| Connection.Connection.Write | cppserver/connection.cpp:47-58 | a closed connection is left alone; an open one sends and drops the rest, and closes exactly when a failure comes before it has room for all |
| Connection.Connection.EchoEvent | test/echo_server.cpp:27-35 | one readable event of the echo server is the specified step |
| Connection.EchoCloses | cppserver/connection.cpp:93-142 | an echo event closes the connection exactly when its read meets an end or a failure, or its write a failure before it is done |
| Connection.EchoIffRoom | cppserver/connection.cpp:34-145 | over any number of events, the output is the bytes of the reads that ended connected, in order and once, exactly when each of them found room enough before a refusal |
| Connection.ReceivedIsRaw | cppserver/connection.cpp:89-114 | those bytes are what the kernel handed over exactly when it has no NUL |
| Connection.EchoConserves | test/echo_server.cpp:27-35 | for NUL-free input and no refused write, the echo's output is, in order, the bytes of exactly the reads that ended connected |
| EdgeTriggered.StepNeverStranded | cppserver/connection.cpp:89-114 | every step keeps: an open connection with input has its edge pending, awaits dispatch or is in its read loop |
| EdgeTriggered.StepConnInv | cppserver/connection.cpp:93-112 | every step keeps: arrived bytes are those taken followed by those queued, and the buffer is what the loop's results put there |
| EdgeTriggered.InputIsNeverStranded | cppserver/epoll_class.cpp:42-52 | the first of these after every run |
| EdgeTriggered.QuietReactorHasReadAll | cppserver/event_loop.cpp:15-22 | a reactor with nothing to do has read everything that arrived on its open connections |
| EdgeTriggered.OpenIffNeverClosed | cppserver/connection.cpp:104-112 | after every run a connection is open exactly when, since it was registered, no read met an end or a failure and no write failed |
| EdgeTriggered.DispatchReads | cppserver/channel.cpp:45-53 | a polled channel starts a read loop exactly when it was reported with input and its connection is open |
| EdgeTriggered.InputIsHistory | cppserver/connection.cpp:93-99 | after every run the input of a connection is what it was registered with and what arrived since, and it is hung up exactly if that happened since |
| EdgeTriggered.BufferIsLastRead | cppserver/connection.cpp:34-45 | after every run a connection's buffer is what the read loop yields on the results it was given |
| EdgeProgress.InputKeepsTheReactorGoing | cppserver/event_loop.cpp:15-22 | while input waits on an open connection the reactor has a step of its own to take |
| EdgeProgress.StepMeasure | cppserver/event_loop.cpp:15-22 | each of the reactor's own polls, dispatches and reads lowers the measure |
| EdgeProgress.ReactorDrains | cppserver/connection.cpp:89-114 | from any reachable state, once input stops, the reactor's own steps are bounded, and where they end every open connection has been read to the last byte, in order and once |
| EdgeEcho.StepGetsBack | test/echo_server.cpp:27-35 | every step keeps: an open connection has been sent, or is about to be, all that was read on it, or strictly less if that has a NUL or some write lacked room |
| EdgeEcho.StepSends | test/echo_server.cpp:27-35 | only an answer sends, and only an end, a failure, or an answer that meets a failure before it is done closes |
| EdgeEcho.EchoComesBack | test/echo_server.cpp:27-35 | in every run of the reactor with the echo handler that has come to rest, an open connection has been sent exactly what arrived on it if and only if that has no NUL and every write since it was registered had room |
| Reactor.Epoll.UpdateChannel | cppserver/epoll_class.cpp:54-66 | ADD or MOD succeeds exactly when the channel's flag agrees with the kernel, and then records its mask |
| Reactor.Epoll.Poll | cppserver/epoll_class.cpp:42-52 | the polled channels are those registered for the reported descriptors, with their ready events |
| Reactor.Channel.EnableRead | cppserver/channel.cpp:55-58 | the read bits are added to the mask and the registration follows |
| Reactor.Channel.UseET | cppserver/channel.cpp:34-37 | the edge-triggered bit is added to the mask and the registration follows |
| Reactor.Connection.constructor | cppserver/connection.cpp:18-30 | construction registers the descriptor once, for edge-triggered reading, without a failing call |
| Reactor.Server.NewConnection | cppserver/tcp_server.cpp:54-72 | a descriptor is accepted exactly when it is not -1 and there is a reactor; then the table and the interest list of loop fd % n, and no other, gain the connection, and agreement is kept |
| Reactor.Server.DeleteConnection | cppserver/tcp_server.cpp:74-82 | deleting leaves table and interest lists in agreement, and ignores -1 and unknown descriptors |
| Reactor.Server.EnableRead | cppserver/channel.cpp:55-58 | updating a live registration never fails and keeps agreement |
| Reactor.Server.UseET | cppserver/channel.cpp:34-37 | likewise for edge triggering |
| Reactor.Server.WatchedIff | cppserver/tcp_server.cpp:58-61 | loop i watches exactly the connections of the table whose descriptor is i modulo the number of loops, under their masks |
| Reactor.Server.Poll | cppserver/epoll_class.cpp:42-52 | what a poll of loop i hands over are the channels of its own connections, with their events |
| Reactor.Server.HandleReady | cppserver/channel.cpp:45-53 | a ready channel calls back the connection that the table has for it, which may delete itself; table and interest lists stay in agreement |
| Reactor.Server.RunLoop | cppserver/event_loop.cpp:15-22 | a pass of loop i calls back, in order and once, exactly the connections that the table has for the descriptors with input, and those that close are gone from table and interest lists |

## Left out

- HTTP: its URI and header parsing is declared and never defined, so there is no parser to specify.
- Timer: expiry is empty and the queue does not use the comparison.
- SafeQueue: unused and unfinished.
- The Logger front and the stdout appender: a call of the front compares a level and goes to each appender in turn, and the stdout appender has no queue and no thread.
- Blocking reads and writes, sockets, addresses and the acceptor: replaced by the abstract kernel.
- Races while a connection is constructed or destroyed: creation and deletion are single steps, and a connection is deleted only when it is neither in the batch being dispatched nor in its read loop.
- The second close of a descriptor, by the socket after the channel, counts as nothing; the descriptor that the unused socket constructor opens is not counted.
- The server's teardown: the loops are never stopped.
- The unlocked uses of the file: the opening line, written while the file is being opened, may reach it or be lost, and the closing line is written in one step.
- Write errors of the log file other than a failed opening, and buffering inside the stream.
- Connection.Connection.Write: does not deliver what the kernel refused; the source drops it.
- Reactor.Server.DeleteConnection: closes the descriptor at once; in the source a message handler holds a `shared_ptr` to its connection, so the descriptor stays open and registered until the handler lets go of it, and if the handler keeps it, table and interest list disagree meanwhile.
- Futures and argument binding of tasks.
- Reactor.Server.RunLoop: a handler closes no connection but its own, and connections accepted by the main reactor during a pass count as accepted before or after it.
- EdgeEcho.EchoComesBack: the handler's write is one step with the read that drained the connection.
