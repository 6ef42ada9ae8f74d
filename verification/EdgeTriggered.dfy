/**
 * One reactor under edge-triggered polling: input arrives between any two system calls, a poll
 * reports and clears edges, and a handler reads until the kernel says that it would block.
 */
module EdgeTriggered {
  import opened Wrappers
  import opened Sequences
  import opened Buffer
  import opened Descriptor
  import opened SocketIO

  const MAX_EVENTS := 1000

  datatype Conn = Conn(
    queue: seq<Byte>,          // the kernel's receive queue
    hangup: bool,              // the peer has closed its side
    edge: bool,                // an edge that no poll has reported yet
    state: State,
    buffer: seq<Byte>,         // the connection's read buffer
    script: seq<ReadResult>,   // history: what read returned since the handler last began
    arrived: seq<Byte>,        // history: all input
    taken: seq<Byte>)          // history: all bytes handed over by read

  /** A polled channel; `input` is whether its ready events ask for the read callback. */
  datatype Ready = Ready(fd: Fd, input: bool)

  datatype Reactor = Reactor(
    conns: map<Fd, Conn>,
    batch: seq<Ready>,         // polled channels still to be dispatched, in order
    reading: Option<Fd>)       // the connection whose read loop is running

  datatype Action =
    | Register(fd: Fd, queue: seq<Byte>, hangup: bool)
    | Unregister(fd: Fd)
    | Arrive(fd: Fd, bytes: seq<Byte>)   // no bytes: an edge for some other condition
    | Hangup(fd: Fd)
    | Poll(ready: seq<Ready>)
    | Dispatch
    | Read(result: ReadResult)
    | WriteFails(fd: Fd)                 // a handler's write closes the connection

  predicate HasInput(c: Conn) {
    c.queue != [] || c.hangup
  }

  /** What read may return: some of the queue, an interruption or a failure at any time, the rest when it is true. */
  predicate MayReturn(c: Conn, r: ReadResult) {
    match r
    case Data(bytes) => 0 < |bytes| <= BUFFER_SIZE && bytes <= c.queue
    case Interrupted => true
    case WouldBlock => !HasInput(c)
    case Eof => c.queue == [] && c.hangup
    case Failed => true
  }

  predicate InBatch(batch: seq<Ready>, fd: Fd) {
    exists i :: 0 <= i < |batch| && batch[i].fd == fd
  }

  predicate Enabled(s: Reactor, a: Action) {
    match a
    case Register(fd, _, _) => fd !in s.conns
    case Unregister(fd) => fd in s.conns && s.reading != Some(fd) && !InBatch(s.batch, fd)
    case Arrive(fd, _) => fd in s.conns && !s.conns[fd].hangup
    case Hangup(fd) => fd in s.conns
    case Poll(ready) =>
      && s.batch == [] && s.reading.None? && |ready| <= MAX_EVENTS
      && (forall i :: 0 <= i < |ready| ==>
            ready[i].fd in s.conns && s.conns[ready[i].fd].edge && ready[i].input == HasInput(s.conns[ready[i].fd]))
      && (forall i, j :: 0 <= i < j < |ready| ==> ready[i].fd != ready[j].fd)
    case Dispatch => s.batch != [] && s.reading.None?
    case Read(r) => s.reading.Some? && s.reading.value in s.conns && MayReturn(s.conns[s.reading.value], r)
    case WriteFails(fd) => fd in s.conns && s.reading != Some(fd)
  }

  function TakeIn(c: Conn, r: ReadResult): Conn
    requires MayReturn(c, r)
  {
    var d := c.(script := c.script + [r]);
    match r
    case Data(bytes) =>
      d.(queue := c.queue[|bytes|..], buffer := c.buffer + UpToNul(bytes), taken := c.taken + bytes)
    case Eof => d.(state := Closed)
    case Failed => d.(state := Closed)
    case _ => d
  }

  /** Reporting a descriptor clears its edge. */
  function Reported(conns: map<Fd, Conn>, ready: seq<Ready>): map<Fd, Conn> {
    map fd | fd in conns :: conns[fd].(edge := conns[fd].edge && !InBatch(ready, fd))
  }

  function Apply(s: Reactor, a: Action): Reactor
    requires Enabled(s, a)
  {
    match a
    case Register(fd, queue, hangup) =>
      // Adding a descriptor that is already readable raises its edge.
      s.(conns := s.conns[fd := Conn(queue, hangup, queue != [] || hangup, Connected, [], [], queue, [])])
    case Unregister(fd) => s.(conns := s.conns - {fd})
    case Arrive(fd, bytes) =>
      var c := s.conns[fd];
      s.(conns := s.conns[fd := c.(queue := c.queue + bytes, edge := true, arrived := c.arrived + bytes)])
    case Hangup(fd) => s.(conns := s.conns[fd := s.conns[fd].(hangup := true, edge := true)])
    case Poll(ready) =>
      s.(batch := ready, conns := Reported(s.conns, ready))
    case Dispatch =>
      // HandleEvent calls back only for input events; Read returns at once on a closed connection.
      var r := s.batch[0];
      if r.input && r.fd in s.conns && s.conns[r.fd].state == Connected then
        Reactor(s.conns[r.fd := s.conns[r.fd].(buffer := [], script := [])], s.batch[1..], Some(r.fd))
      else
        s.(batch := s.batch[1..])
    case Read(r) =>
      s.(conns := s.conns[s.reading.value := TakeIn(s.conns[s.reading.value], r)],
         reading := if r.EndsLoop() then None else s.reading)
    case WriteFails(fd) => s.(conns := s.conns[fd := s.conns[fd].(state := Closed)])
  }

  predicate IsRun(s: Reactor, run: seq<Action>)
    decreases |run|
  {
    run == [] || (Enabled(s, run[0]) && IsRun(Apply(s, run[0]), run[1..]))
  }

  function After(s: Reactor, run: seq<Action>): Reactor
    requires IsRun(s, run)
    decreases |run|
  {
    if run == [] then s else After(Apply(s, run[0]), run[1..])
  }

  const EMPTY := Reactor(map[], [], None)

  // ---- Invariants --------------------------------------------------------------------------------

  /** The connection will be read: its edge is pending, it awaits dispatch, or its handler is in the read loop. */
  predicate Attended(s: Reactor, fd: Fd)
    requires fd in s.conns
  {
    s.conns[fd].edge || Ready(fd, true) in s.batch || s.reading == Some(fd)
  }

  predicate NeverStranded(s: Reactor) {
    forall fd :: fd in s.conns && s.conns[fd].state == Connected && HasInput(s.conns[fd]) ==> Attended(s, fd)
  }

  predicate Consistent(s: Reactor) {
    && (forall i :: 0 <= i < |s.batch| ==> s.batch[i].fd in s.conns)
    && (s.reading.Some? ==> s.reading.value in s.conns && s.conns[s.reading.value].state == Connected)
  }

  /** No byte is lost or reordered between the wire and read. */
  predicate InOrder(c: Conn) {
    c.arrived == c.taken + c.queue
  }

  /** The read buffer is what the results since the handler began have put there. */
  predicate BufferOf(c: Conn) {
    c.buffer == ReadSoFar(c.script)
  }

  function ReadSoFar(script: seq<ReadResult>): seq<Byte> {
    if script == [] then
      []
    else
      var last := script[|script| - 1];
      ReadSoFar(script[..|script| - 1]) + (if last.Data? then UpToNul(last.bytes) else [])
  }

  /** A read loop that is running has not met a result that ends it, and one that is not has met it last. */
  predicate LoopOf(c: Conn, running: bool) {
    && (forall i :: 0 <= i < |c.script| - 1 ==> !c.script[i].EndsLoop())
    && (c.script != [] ==> c.script[|c.script| - 1].EndsLoop() == !running)
    && (c.script == [] && !running ==> c.buffer == [])
  }

  predicate Intact(c: Conn, running: bool) {
    InOrder(c) && BufferOf(c) && LoopOf(c, running)
  }

  predicate ConnInv(s: Reactor) {
    forall fd :: fd in s.conns ==> Intact(s.conns[fd], s.reading == Some(fd))
  }

  predicate Inv(s: Reactor) {
    NeverStranded(s) && Consistent(s) && ConnInv(s)
  }

  lemma StepNeverStranded(s: Reactor, a: Action)
    requires NeverStranded(s) && Enabled(s, a)
    ensures NeverStranded(Apply(s, a))
  {
  }

  lemma StepConsistent(s: Reactor, a: Action)
    requires Consistent(s) && Enabled(s, a)
    ensures Consistent(Apply(s, a))
  {
  }

  lemma TakeInInv(c: Conn, r: ReadResult)
    requires Intact(c, true) && MayReturn(c, r)
    ensures Intact(TakeIn(c, r), !r.EndsLoop())
  {
    var d := TakeIn(c, r);
    assert (c.script + [r])[..|c.script|] == c.script;
    if r.Data? {
      Assoc(c.taken, r.bytes, c.queue[|r.bytes|..]);
      assert r.bytes + c.queue[|r.bytes|..] == c.queue;
    } else {
      Unit(c.buffer);
    }
  }

  lemma StepConnInv(s: Reactor, a: Action)
    requires ConnInv(s) && Enabled(s, a)
    ensures ConnInv(Apply(s, a))
  {
    var t := Apply(s, a);
    forall fd | fd in t.conns
      ensures Intact(t.conns[fd], t.reading == Some(fd))
    {
      if fd in s.conns {
        assert Intact(s.conns[fd], s.reading == Some(fd));
        if a.Arrive? {
          Assoc(s.conns[fd].taken, s.conns[fd].queue, a.bytes);
        } else if a.Read? && s.reading == Some(fd) {
          TakeInInv(s.conns[fd], a.result);
        }
      } else {
        Unit(a.queue);
      }
    }
  }

  lemma StepInv(s: Reactor, a: Action)
    requires Inv(s) && Enabled(s, a)
    ensures Inv(Apply(s, a))
  {
    StepNeverStranded(s, a);
    StepConsistent(s, a);
    StepConnInv(s, a);
  }

  lemma {:induction false} RunInv(s: Reactor, run: seq<Action>)
    requires Inv(s) && IsRun(s, run)
    ensures Inv(After(s, run))
    decreases |run|
  {
    if run != [] {
      StepInv(s, run[0]);
      RunInv(Apply(s, run[0]), run[1..]);
    }
  }

  /** Input on an open connection is never stranded, in any run. */
  lemma InputIsNeverStranded(run: seq<Action>, fd: Fd)
    requires IsRun(EMPTY, run) && fd in After(EMPTY, run).conns
    requires After(EMPTY, run).conns[fd].state == Connected && HasInput(After(EMPTY, run).conns[fd])
    ensures Attended(After(EMPTY, run), fd)
  {
    RunInv(EMPTY, run);
  }

  /** So a reactor with nothing to do has read, in order and once, everything that arrived on its open connections. */
  lemma QuietReactorHasReadAll(run: seq<Action>, fd: Fd)
    requires IsRun(EMPTY, run) && fd in After(EMPTY, run).conns
    requires After(EMPTY, run).batch == [] && After(EMPTY, run).reading.None?
    requires After(EMPTY, run).conns[fd].state == Connected && !After(EMPTY, run).conns[fd].edge
    ensures After(EMPTY, run).conns[fd].taken == After(EMPTY, run).conns[fd].arrived
    ensures !After(EMPTY, run).conns[fd].hangup
  {
    RunInv(EMPTY, run);
    var c := After(EMPTY, run).conns[fd];
    assert !HasInput(c);
    assert Intact(c, false);
    Unit(c.taken);
  }

  // ---- Which connections are open ----------------------------------------------------------------

  /** A read meets the end of the input or a failure, or a write fails. */
  predicate Closes(s: Reactor, a: Action, fd: Fd) {
    a == WriteFails(fd) || (s.reading == Some(fd) && (a == Read(Eof) || a == Read(Failed)))
  }

  predicate Registers(run: seq<Action>, fd: Fd) {
    exists i :: 0 <= i < |run| && run[i].Register? && run[i].fd == fd
  }

  /** Nothing has closed the connection since it was last registered. */
  predicate NeverClosed(s: Reactor, run: seq<Action>, fd: Fd)
    requires IsRun(s, run)
    decreases |run|
  {
    run == [] || ((Registers(run[1..], fd) || !Closes(s, run[0], fd)) && NeverClosed(Apply(s, run[0]), run[1..], fd))
  }

  lemma StepOpen(s: Reactor, a: Action, fd: Fd)
    requires Enabled(s, a) && fd in Apply(s, a).conns
    ensures fd in s.conns || Registers([a], fd)
    ensures Apply(s, a).conns[fd].state == Connected <==>
            Registers([a], fd) || (s.conns[fd].state == Connected && !Closes(s, a, fd))
  {
    assert [a][0] == a;
  }

  lemma RegistersOne(run: seq<Action>, fd: Fd)
    requires run != []
    ensures Registers(run, fd) <==> Registers([run[0]], fd) || Registers(run[1..], fd)
  {
    assert [run[0]][0] == run[0];
    if Registers(run, fd) {
      var i :| 0 <= i < |run| && run[i].Register? && run[i].fd == fd;
      if i > 0 {
        assert run[1..][i - 1] == run[i];
      }
    }
    if Registers(run[1..], fd) {
      var i :| 0 <= i < |run[1..]| && run[1..][i].Register? && run[1..][i].fd == fd;
      assert run[i + 1] == run[1..][i];
    }
  }

  lemma {:induction false} RunOpen(s: Reactor, run: seq<Action>, fd: Fd)
    requires IsRun(s, run) && fd in After(s, run).conns
    ensures fd in s.conns || Registers(run, fd)
    ensures After(s, run).conns[fd].state == Connected <==>
            NeverClosed(s, run, fd) && (Registers(run, fd) || s.conns[fd].state == Connected)
    decreases |run|
  {
    if run != [] {
      RunOpen(Apply(s, run[0]), run[1..], fd);
      RegistersOne(run, fd);
      if !Registers(run[1..], fd) {
        StepOpen(s, run[0], fd);
      }
    }
  }

  /** A connection is open exactly when, since it was registered, no read met an end or a failure and no write failed. */
  lemma OpenIffNeverClosed(run: seq<Action>, fd: Fd)
    requires IsRun(EMPTY, run) && fd in After(EMPTY, run).conns
    ensures After(EMPTY, run).conns[fd].state == Connected <==> NeverClosed(EMPTY, run, fd)
  {
    RunOpen(EMPTY, run, fd);
  }

  /** Whether the descriptor is registered after a run, by the last word on it. */
  predicate LastRegistered(run: seq<Action>, fd: Fd, before: bool) {
    if run == [] then
      before
    else
      LastRegistered(run[1..], fd, if run[0].Register? && run[0].fd == fd then true
                                   else if run[0] == Unregister(fd) then false
                                   else before)
  }

  /** All input on a connection: what it was registered with, and what arrived since. */
  function Input(run: seq<Action>, fd: Fd, before: seq<Byte>): seq<Byte> {
    if run == [] then
      before
    else
      Input(run[1..], fd, if run[0].Register? && run[0].fd == fd then run[0].queue
                          else if run[0].Arrive? && run[0].fd == fd then before + run[0].bytes
                          else before)
  }

  /** Whether the peer has closed its side, before or since the connection was registered. */
  predicate HungUp(run: seq<Action>, fd: Fd, before: bool) {
    if run == [] then
      before
    else
      HungUp(run[1..], fd, if run[0].Register? && run[0].fd == fd then run[0].hangup
                           else if run[0] == Hangup(fd) then true
                           else before)
  }

  lemma {:induction false} TableIsHistory(s: Reactor, run: seq<Action>, fd: Fd)
    requires IsRun(s, run)
    ensures fd in After(s, run).conns <==> LastRegistered(run, fd, fd in s.conns)
    decreases |run|
  {
    if run != [] {
      TableIsHistory(Apply(s, run[0]), run[1..], fd);
    }
  }

  /** What a connection's invariants call its input is what came for it, and nothing else. */
  lemma {:induction false} InputIsHistory(s: Reactor, run: seq<Action>, fd: Fd, arrived: seq<Byte>, hangup: bool)
    requires IsRun(s, run) && fd in After(s, run).conns
    requires fd in s.conns ==> arrived == s.conns[fd].arrived && hangup == s.conns[fd].hangup
    ensures After(s, run).conns[fd].arrived == Input(run, fd, arrived)
    ensures After(s, run).conns[fd].hangup == HungUp(run, fd, hangup)
    decreases |run|
  {
    if run != [] {
      var a, t := run[0], Apply(s, run[0]);
      var now := if a.Register? && a.fd == fd then a.queue
                 else if a.Arrive? && a.fd == fd then arrived + a.bytes
                 else arrived;
      var hung := if a.Register? && a.fd == fd then a.hangup else a == Hangup(fd) || hangup;
      if fd in t.conns {
        StepInput(s, a, fd, arrived, hangup);
      }
      InputIsHistory(t, run[1..], fd, now, hung);
    }
  }

  lemma StepInput(s: Reactor, a: Action, fd: Fd, arrived: seq<Byte>, hangup: bool)
    requires Enabled(s, a) && fd in Apply(s, a).conns
    requires fd in s.conns ==> arrived == s.conns[fd].arrived && hangup == s.conns[fd].hangup
    ensures Apply(s, a).conns[fd].arrived == if a.Register? && a.fd == fd then a.queue
                                             else if a.Arrive? && a.fd == fd then arrived + a.bytes
                                             else arrived
    ensures Apply(s, a).conns[fd].hangup == if a.Register? && a.fd == fd then a.hangup else a == Hangup(fd) || hangup
  {
  }

  /** A polled channel starts a read loop exactly when it was reported with input and its connection is open. */
  lemma DispatchReads(s: Reactor, fd: Fd)
    requires Enabled(s, Dispatch)
    ensures Apply(s, Dispatch).batch == s.batch[1..]
    ensures Apply(s, Dispatch).reading == Some(fd) <==>
            s.batch[0] == Ready(fd, true) && fd in s.conns && s.conns[fd].state == Connected
  {
  }

  // ---- The read loop of the machine is the read loop of the connection ---------------------------

  lemma {:induction false} ReadSoFarFrom(first: ReadResult, script: seq<ReadResult>)
    ensures ReadSoFar([first] + script) == (if first.Data? then UpToNul(first.bytes) else []) + ReadSoFar(script)
  {
    var whole := [first] + script;
    var head := if first.Data? then UpToNul(first.bytes) else [];
    if script == [] {
      assert whole[..|whole| - 1] == [];
      Unit(head);
    } else {
      var init, last := script[..|script| - 1], script[|script| - 1];
      ReadSoFarFrom(first, init);
      assert whole[..|whole| - 1] == [first] + init;
      Assoc(head, ReadSoFar(init), if last.Data? then UpToNul(last.bytes) else []);
    }
  }

  lemma {:induction false} ReadSoFarIsReadAll(script: seq<ReadResult>)
    requires forall i :: 0 <= i < |script| - 1 ==> !script[i].EndsLoop()
    ensures ReadSoFar(script) == ReadAll(script).data
  {
    if script != [] {
      ReadSoFarIsReadAll(script[1..]);
      assert script == [script[0]] + script[1..];
      ReadSoFarFrom(script[0], script[1..]);
      if script[0].EndsLoop() {
        assert script[1..] == [];
      }
    }
  }

  /** In every state between two read loops, a connection's buffer is what a read of its last script yields. */
  lemma BufferIsLastRead(run: seq<Action>, fd: Fd)
    requires IsRun(EMPTY, run) && fd in After(EMPTY, run).conns
    ensures After(EMPTY, run).conns[fd].buffer == ReadAll(After(EMPTY, run).conns[fd].script).data
  {
    RunInv(EMPTY, run);
    var c := After(EMPTY, run).conns[fd];
    assert Intact(c, After(EMPTY, run).reading == Some(fd));
    ReadSoFarIsReadAll(c.script);
  }
}
