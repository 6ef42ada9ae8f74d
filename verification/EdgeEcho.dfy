/** The echo server on the edge-triggered reactor: what a client sends comes back to it. */
module EdgeEcho {
  import opened Wrappers
  import opened Descriptor
  import opened Sequences
  import opened Buffer
  import opened SocketIO
  import opened EdgeTriggered
  import opened EdgeProgress

  datatype Echo = Echo(
    reactor: Reactor,
    sent: map<Fd, seq<Byte>>)   // what each connection has been sent since it was registered

  /** A step of the reactor, and what write returns to the handler if the step ends a read loop. */
  datatype EchoAction = EchoAction(step: Action, writes: seq<WriteResult>)

  /** The message callback finds its connection open only after a read that drained it. */
  predicate Answers(a: Action) {
    a == Read(WouldBlock)
  }

  /** A connection is written to by its handler only. */
  predicate CanDo(s: Echo, a: EchoAction) {
    && Enabled(s.reactor, a.step) && !a.step.WriteFails?
    && (Answers(a.step) ==> Writable(s.reactor.conns[s.reactor.reading.value].buffer, a.writes))
  }

  function Sent(s: Echo, fd: Fd): seq<Byte> {
    if fd in s.sent then s.sent[fd] else []
  }

  function Do(s: Echo, a: EchoAction): Echo
    requires CanDo(s, a)
  {
    var t := Apply(s.reactor, a.step);
    if Answers(a.step) then
      var fd := s.reactor.reading.value;
      var data := s.reactor.conns[fd].buffer;
      var w := WriteAll(data, a.writes);
      Echo(if w.ending.Broken? then Apply(t, WriteFails(fd)) else t, s.sent[fd := Sent(s, fd) + w.sent])
    else if a.step.Register? then
      Echo(t, s.sent[a.step.fd := []])
    else
      s.(reactor := t)
  }

  predicate IsEchoRun(s: Echo, run: seq<EchoAction>)
    decreases |run|
  {
    run == [] || (CanDo(s, run[0]) && IsEchoRun(Do(s, run[0]), run[1..]))
  }

  function EchoAfter(s: Echo, run: seq<EchoAction>): Echo
    requires IsEchoRun(s, run)
    decreases |run|
  {
    if run == [] then s else EchoAfter(Do(s, run[0]), run[1..])
  }

  const START := Echo(EMPTY, map[])

  // ---- Room for the answers ----------------------------------------------------------------------

  predicate Registered(run: seq<EchoAction>, fd: Fd) {
    exists i :: 0 <= i < |run| && run[i].step.Register? && run[i].step.fd == fd
  }

  /** If the step answers on this connection, the kernel has room for the whole answer before it first refuses. */
  predicate HasRoom(s: Echo, a: EchoAction, fd: Fd)
    requires CanDo(s, a)
  {
    Answers(a.step) && s.reactor.reading == Some(fd) ==> RoomBeforeRefusal(a.writes) >= |s.reactor.conns[fd].buffer|
  }

  /** Every step of the run that answers on this connection, since it was last registered, had room. */
  predicate AlwaysRoom(s: Echo, run: seq<EchoAction>, fd: Fd)
    requires IsEchoRun(s, run)
    decreases |run|
  {
    run == [] || ((Registered(run[1..], fd) || HasRoom(s, run[0], fd)) && AlwaysRoom(Do(s, run[0]), run[1..], fd))
  }

  // ---- What has come back ------------------------------------------------------------------------

  /** All of the input or, if it has a NUL or some write had too little room, strictly less. */
  predicate Faithful(back: seq<Byte>, input: seq<Byte>, short: bool) {
    && |back| <= |input| && (|back| == |input| ==> back == input)
    && (|back| == |input| <==> NUL !in input && !short)
  }

  /** What a connection has been sent, and what its running read loop is about to send. */
  function Back(s: Echo, fd: Fd): seq<Byte>
    requires fd in s.reactor.conns
  {
    Sent(s, fd) + (if s.reactor.reading == Some(fd) then s.reactor.conns[fd].buffer else [])
  }

  /** An open connection gets back what was read on it; `short` is whether some write has lacked room. */
  predicate GetsBack(s: Echo, fd: Fd, short: bool) {
    fd in s.reactor.conns && s.reactor.conns[fd].state == Connected ==>
      Faithful(Back(s, fd), s.reactor.conns[fd].taken, short)
  }

  lemma FaithfulRead(back: seq<Byte>, input: seq<Byte>, short: bool, bytes: seq<Byte>)
    requires Faithful(back, input, short)
    ensures Faithful(back + UpToNul(bytes), input + bytes, short)
  {
    UpToNulKeepsAll(bytes);
  }

  lemma FaithfulWrite(back: seq<Byte>, data: seq<Byte>, input: seq<Byte>, short: bool, writes: seq<WriteResult>)
    requires Faithful(back + data, input, short)
    ensures Faithful(back + WriteAll(data, writes).sent, input, short || RoomBeforeRefusal(writes) < |data|)
  {
    SentIsPrefix(data, writes);
    CompletesIffRoom(data, writes);
  }

  lemma StepReactorInv(s: Echo, a: EchoAction)
    requires Inv(s.reactor) && CanDo(s, a)
    ensures Inv(Do(s, a).reactor)
  {
    StepInv(s.reactor, a.step);
    var t := Apply(s.reactor, a.step);
    if Answers(a.step) && WriteAll(s.reactor.conns[s.reactor.reading.value].buffer, a.writes).ending.Broken? {
      StepInv(t, WriteFails(s.reactor.reading.value));
    }
  }

  lemma TakesIn(s: Echo, a: EchoAction, fd: Fd, short: bool)
    requires CanDo(s, a) && a.step.Read? && a.step.result.Data? && s.reactor.reading == Some(fd)
    requires Faithful(Back(s, fd), s.reactor.conns[fd].taken, short)
    ensures GetsBack(Do(s, a), fd, short)
  {
    FaithfulRead(Back(s, fd), s.reactor.conns[fd].taken, short, a.step.result.bytes);
    Assoc(Sent(s, fd), s.reactor.conns[fd].buffer, UpToNul(a.step.result.bytes));
  }

  lemma Answered(s: Echo, a: EchoAction, fd: Fd, short: bool)
    requires CanDo(s, a) && Answers(a.step) && s.reactor.reading == Some(fd)
    requires Faithful(Back(s, fd), s.reactor.conns[fd].taken, short)
    ensures GetsBack(Do(s, a), fd, short || !HasRoom(s, a, fd))
  {
    var c := s.reactor.conns[fd];
    FaithfulWrite(Sent(s, fd), c.buffer, c.taken, short, a.writes);
    Unit(Sent(s, fd) + WriteAll(c.buffer, a.writes).sent);
  }

  /** A step of the connection's own read loop. */
  lemma ReadGetsBack(s: Echo, a: EchoAction, fd: Fd, short: bool)
    requires CanDo(s, a) && a.step.Read? && s.reactor.reading == Some(fd)
    requires Faithful(Back(s, fd), s.reactor.conns[fd].taken, short)
    ensures GetsBack(Do(s, a), fd, short || !HasRoom(s, a, fd))
  {
    if a.step.result.Data? {
      TakesIn(s, a, fd, short);
    } else if Answers(a.step) {
      Answered(s, a, fd, short);
    }
  }

  /** Any other step; the read loop begins with an empty buffer. */
  lemma OtherKeepsBack(s: Echo, a: EchoAction, fd: Fd)
    requires CanDo(s, a) && !(a.step.Read? && s.reactor.reading == Some(fd))
    requires fd in s.reactor.conns && fd in Do(s, a).reactor.conns
    ensures Back(Do(s, a), fd) == Back(s, fd)
    ensures Do(s, a).reactor.conns[fd].taken == s.reactor.conns[fd].taken
    ensures Do(s, a).reactor.conns[fd].state == Connected ==> s.reactor.conns[fd].state == Connected
  {
    Unit(Sent(s, fd));
  }

  /** Every step keeps what an open connection gets back; registering it starts afresh. */
  lemma StepGetsBack(s: Echo, a: EchoAction, fd: Fd, short: bool)
    requires Inv(s.reactor) && CanDo(s, a) && GetsBack(s, fd, short)
    ensures GetsBack(Do(s, a), fd, !Registered([a], fd) && (short || !HasRoom(s, a, fd)))
  {
    assert [a][0] == a;
    if a.step.Read? && s.reactor.reading == Some(fd) {
      ReadGetsBack(s, a, fd, short);
    } else if fd in s.reactor.conns && fd in Do(s, a).reactor.conns {
      OtherKeepsBack(s, a, fd);
    }
  }

  lemma {:induction false} RunGetsBack(s: Echo, run: seq<EchoAction>, fd: Fd, short: bool)
    requires Inv(s.reactor) && GetsBack(s, fd, short) && IsEchoRun(s, run)
    ensures Inv(EchoAfter(s, run).reactor)
    ensures GetsBack(EchoAfter(s, run), fd, !AlwaysRoom(s, run, fd) || (short && !Registered(run, fd)))
    decreases |run|
  {
    if run != [] {
      var a, rest := run[0], run[1..];
      StepReactorInv(s, a);
      StepGetsBack(s, a, fd, short);
      RunGetsBack(Do(s, a), rest, fd, !Registered([a], fd) && (short || !HasRoom(s, a, fd)));
      RegisteredOne(run, fd);
    }
  }

  lemma RegisteredOne(run: seq<EchoAction>, fd: Fd)
    requires run != []
    ensures Registered(run, fd) <==> Registered([run[0]], fd) || Registered(run[1..], fd)
    ensures Registered([run[0]], fd) <==> run[0].step.Register? && run[0].step.fd == fd
  {
    assert [run[0]][0] == run[0];
    assert forall i :: 0 <= i < |run| - 1 ==> run[1..][i] == run[i + 1];
    if Registered(run, fd) {
      var i :| 0 <= i < |run| && run[i].step.Register? && run[i].step.fd == fd;
      if i > 0 {
        assert run[1..][i - 1] == run[i];
      }
    }
  }

  /** Only an answer sends, and only an end, a failure or an answer that meets a failure before it is done closes. */
  lemma StepSends(s: Echo, a: EchoAction, fd: Fd)
    requires CanDo(s, a) && fd in s.reactor.conns && fd in Do(s, a).reactor.conns && !a.step.Register?
    ensures Sent(Do(s, a), fd)
         == Sent(s, fd)
            + (if a.step == Read(WouldBlock) && s.reactor.reading == Some(fd) then
                 WriteAll(s.reactor.conns[fd].buffer, a.writes).sent
               else
                 [])
    ensures Do(s, a).reactor.conns[fd].state == Closed <==>
            || s.reactor.conns[fd].state == Closed
            || (s.reactor.reading == Some(fd) && (a.step == Read(Eof) || a.step == Read(Failed)))
            || (s.reactor.reading == Some(fd) && a.step == Read(WouldBlock)
                && RoomBeforeRefusal(a.writes) < |s.reactor.conns[fd].buffer| && FailsFirst(a.writes))
  {
    Unit(Sent(s, fd));
    if Answers(a.step) {
      BrokenIff(s.reactor.conns[s.reactor.reading.value].buffer, a.writes);
    }
  }

  /**
   * The echo, end to end: in every run of the server that has come to rest, an open connection has
   * been sent exactly what arrived on it, in order and once, if and only if that has no NUL and the
   * kernel had room for every answer since the connection was registered.
   */
  lemma EchoComesBack(run: seq<EchoAction>, fd: Fd)
    requires IsEchoRun(START, run) && Settled(EchoAfter(START, run).reactor)
    requires fd in EchoAfter(START, run).reactor.conns
    requires EchoAfter(START, run).reactor.conns[fd].state == Connected
    ensures var t := EchoAfter(START, run);
            Sent(t, fd) == t.reactor.conns[fd].arrived <==>
            NUL !in t.reactor.conns[fd].arrived && AlwaysRoom(START, run, fd)
  {
    RunGetsBack(START, run, fd, false);
    var t := EchoAfter(START, run);
    SettledHasReadAll(t.reactor, fd);
    Unit(Sent(t, fd));
    assert GetsBack(t, fd, !AlwaysRoom(START, run, fd));
  }

  lemma SettledHasReadAll(s: Reactor, fd: Fd)
    requires Inv(s) && Settled(s) && fd in s.conns && s.conns[fd].state == Connected
    ensures s.conns[fd].taken == s.conns[fd].arrived && s.reading != Some(fd)
  {
    assert Intact(s.conns[fd], s.reading == Some(fd));
    Unit(s.conns[fd].taken);
    if HasInput(s.conns[fd]) {
      InputKeepsTheReactorGoing(s, fd);
    } else if s.reading == Some(fd) {
      assert Enabled(s, Read(WouldBlock));
    }
  }
}
