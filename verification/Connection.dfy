/** A connection's reads and writes, and the echo handler that runs on them. */
module Connection {
  import opened Buffer
  import opened Sequences
  import opened SocketIO

  /** The kernel's end of a non-blocking socket: what its next calls return, and what it has taken. */
  class Socket {
    var inbound: seq<ReadResult>
    var outbound: seq<WriteResult>
    ghost var sent: seq<Byte>

    constructor (inbound: seq<ReadResult>, outbound: seq<WriteResult>)
      ensures this.inbound == inbound && this.outbound == outbound && sent == []
    {
      this.inbound, this.outbound, sent := inbound, outbound, [];
    }

    method Read(limit: nat) returns (r: ReadResult)
      requires inbound != [] && (inbound[0].Data? ==> |inbound[0].bytes| <= limit)
      modifies this`inbound
      ensures r == old(inbound[0]) && inbound == old(inbound)[1..]
    {
      r := inbound[0];
      inbound := inbound[1..];
    }

    /** Offered some bytes, the kernel takes a prefix or refuses. */
    method Write(bytes: seq<Byte>) returns (r: WriteResult)
      requires outbound != []
      modifies this`outbound, this`sent
      ensures outbound == old(outbound)[1..]
      ensures if old(outbound[0]).Accepted?
              then r == Accepted(Min(old(outbound[0]).room, |bytes|)) && sent == old(sent) + bytes[..r.room]
              else r == old(outbound[0]) && sent == old(sent)
    {
      r := outbound[0];
      outbound := outbound[1..];
      if r.Accepted? {
        r := Accepted(Min(r.room, |bytes|));
        sent := sent + bytes[..r.room];
      }
    }
  }

  const INT_MAX: nat := 0x7FFF_FFFF

  /** Everything about a connection that its events change. */
  datatype Traffic = Traffic(state: State, inbound: seq<ReadResult>, outbound: seq<WriteResult>, sent: seq<Byte>)

  /** The half of a connection that reads and writes: its buffers and its state. Its channel is in module Reactor. */
  class Connection {
    const sock: Socket
    const readBuffer: Buffer
    const writeBuffer: Buffer
    var state: State

    ghost predicate Valid()
      reads this
    {
      readBuffer != writeBuffer
    }

    ghost function View(): Traffic
      reads this, sock
    {
      Traffic(state, sock.inbound, sock.outbound, sock.sent)
    }

    constructor (sock: Socket)
      ensures Valid() && fresh(readBuffer) && fresh(writeBuffer) && this.sock == sock
      ensures state == Connected && readBuffer.buf == [] && writeBuffer.buf == []
    {
      this.sock := sock;
      readBuffer := new Buffer();
      writeBuffer := new Buffer();
      state := Connected;
    }

    method ReadNonBlocking()
      requires Valid() && Readable(sock.inbound)
      modifies this`state, sock`inbound, readBuffer
      ensures readBuffer.buf == old(readBuffer.buf) + ReadAll(old(sock.inbound)).data
      ensures sock.inbound == ReadAll(old(sock.inbound)).rest
      ensures state == if ReadAll(old(sock.inbound)).state == Closed then Closed else old(state)
      ensures forall i: nat :: EndsAt(old(sock.inbound), i) ==>
                && sock.inbound == old(sock.inbound)[i + 1..]
                && state == if old(sock.inbound)[i].WouldBlock? then old(state) else Closed
    {
      forall i: nat | EndsAt(sock.inbound, i)
        ensures ReadAll(sock.inbound).rest == sock.inbound[i + 1..]
        ensures ReadAll(sock.inbound).state == Connected <==> sock.inbound[i].WouldBlock?
      {
        ReadEnds(sock.inbound, i);
      }
      ghost var script := sock.inbound;
      while true
        invariant Readable(sock.inbound) && state == old(state)
        invariant ReadAll(script).rest == ReadAll(sock.inbound).rest && ReadAll(script).state == ReadAll(sock.inbound).state
        invariant readBuffer.buf + ReadAll(sock.inbound).data == old(readBuffer.buf) + ReadAll(script).data
        decreases |sock.inbound|
      {
        ReadableTail(sock.inbound);
        var r := sock.Read(BUFFER_SIZE);
        match r {
          case Data(bytes) =>
            Assoc(readBuffer.buf, UpToNul(bytes), ReadAll(sock.inbound).data);
            assert bytes[..|bytes|] == bytes;
            readBuffer.Append(bytes, |bytes|);
          case Interrupted =>
          case WouldBlock =>
            break;
          case Eof =>
            state := Closed;
            break;
          case Failed =>
            state := Closed;
            break;
        }
      }
    }

    /** The source keeps the size in an int; a buffer must fit one. */
    method WriteNonBlocking()
      requires Valid() && |writeBuffer.buf| <= INT_MAX && Writable(writeBuffer.buf, sock.outbound)
      modifies this`state, sock`outbound, sock`sent
      ensures sock.sent == old(sock.sent) + WriteAll(writeBuffer.buf, old(sock.outbound)).sent
      ensures sock.outbound == WriteAll(writeBuffer.buf, old(sock.outbound)).rest
      ensures state == if WriteAll(writeBuffer.buf, old(sock.outbound)).ending.Broken? then Closed else old(state)
      ensures RoomBeforeRefusal(old(sock.outbound)) < |writeBuffer.buf| && FailsFirst(old(sock.outbound)) ==> state == Closed
      ensures !(RoomBeforeRefusal(old(sock.outbound)) < |writeBuffer.buf| && FailsFirst(old(sock.outbound))) ==> state == old(state)
    {
      BrokenIff(writeBuffer.buf, sock.outbound);
      ghost var script := sock.outbound;
      var bytesToWrite := |writeBuffer.buf|;
      var buf := writeBuffer.buf;
      var bytesLeft := bytesToWrite;
      assert buf[0..] == buf;
      while bytesLeft > 0
        invariant 0 <= bytesLeft <= bytesToWrite && state == old(state)
        invariant Writable(buf[bytesToWrite - bytesLeft..], sock.outbound)
        invariant ghost var later := WriteAll(buf[bytesToWrite - bytesLeft..], sock.outbound);
                  && later.rest == WriteAll(buf, script).rest && later.ending == WriteAll(buf, script).ending
                  && sock.sent + later.sent == old(sock.sent) + WriteAll(buf, script).sent
        decreases |sock.outbound|
      {
        ghost var left := buf[bytesToWrite - bytesLeft..];
        ghost var sent, outbound := sock.sent, sock.outbound;
        var r := sock.Write(buf[bytesToWrite - bytesLeft..]);
        if r.Accepted? {
          ghost var n := r.room;
          bytesLeft := bytesLeft - r.room;
          assert left[n..] == buf[bytesToWrite - bytesLeft..];
          Assoc(sent, left[..n], WriteAll(left[n..], sock.outbound).sent);
          continue;
        } else if r.WriteInterrupted? {
          continue;
        } else if r.WriteWouldBlock? {
          break;
        } else {
          state := Closed;
          break;
        }
      }
    }

    method Read()
      requires Valid() && (state == Connected ==> Readable(sock.inbound))
      modifies this`state, sock`inbound, readBuffer
      ensures old(state) == Closed ==> state == Closed && sock.inbound == old(sock.inbound) && readBuffer.buf == old(readBuffer.buf)
      ensures old(state) == Connected ==>
                var r := ReadAll(old(sock.inbound));
                state == r.state && sock.inbound == r.rest && readBuffer.buf == r.data
      ensures old(state) == Connected ==> (state == Connected <==> StaysOpen(old(sock.inbound)))
    {
      ConnectedIffStaysOpen(sock.inbound);
      if state != Connected {
        return;
      }
      readBuffer.ClearBuffer();
      Unit(ReadAll(sock.inbound).data);
      ReadNonBlocking();
    }

    /** Whatever the kernel did not take is dropped. */
    method Write()
      requires Valid() && (state == Connected ==> |writeBuffer.buf| <= INT_MAX && Writable(writeBuffer.buf, sock.outbound))
      modifies this`state, sock`outbound, sock`sent, writeBuffer
      ensures old(state) == Closed ==>
                state == Closed && sock.outbound == old(sock.outbound) && sock.sent == old(sock.sent)
                && writeBuffer.buf == old(writeBuffer.buf)
      ensures old(state) == Connected ==>
                var w := WriteAll(old(writeBuffer.buf), old(sock.outbound));
                && sock.sent == old(sock.sent) + w.sent && sock.outbound == w.rest && writeBuffer.buf == []
                && state == (if w.ending.Broken? then Closed else Connected)
      ensures old(state) == Connected ==>
                (state == Closed <==>
                 RoomBeforeRefusal(old(sock.outbound)) < |old(writeBuffer.buf)| && FailsFirst(old(sock.outbound)))
    {
      BrokenIff(writeBuffer.buf, sock.outbound);
      if state != Connected {
        return;
      }
      WriteNonBlocking();
      writeBuffer.ClearBuffer();
    }

    /** A readable event on an echo server: BusinessLogic, with the server's message handler. */
    method EchoEvent()
      requires Valid() && Serviceable(View())
      modifies this`state, sock, readBuffer, writeBuffer
      ensures View() == EchoStep(old(View()))
    {
      NoNulRead(sock.inbound);
      Read();
      if state == Connected {
        writeBuffer.SetBuf(readBuffer.buf);
        assert writeBuffer.buf == readBuffer.buf;
        Write();
      }
    }
  }

  lemma ReadableTail(script: seq<ReadResult>)
    requires Readable(script)
    ensures script != [] && (script[0].Data? ==> |script[0].bytes| <= BUFFER_SIZE)
    ensures !script[0].EndsLoop() ==> Readable(script[1..])
  {
  }

  // ---- The echo handler over many events ---------------------------------------------------------

  /** The kernel's results let one event be handled, and its bytes fit the buffer. */
  ghost predicate Serviceable(t: Traffic) {
    t.state == Connected ==>
      && Readable(t.inbound)
      && |ReadAll(t.inbound).data| <= INT_MAX
      && (ReadAll(t.inbound).state == Connected ==> Writable(ReadAll(t.inbound).data, t.outbound))
  }

  /** Read until the socket is drained or gone; if it is still connected, write back what was read. */
  function EchoStep(t: Traffic): Traffic {
    if t.state == Closed then
      t
    else
      var r := ReadAll(t.inbound);
      if r.state == Closed then
        t.(state := Closed, inbound := r.rest)
      else
        var w := WriteAll(r.data, t.outbound);
        Traffic(if w.ending.Broken? then Closed else Connected, r.rest, w.rest, t.sent + w.sent)
  }

  function EchoEvents(n: nat, t: Traffic): Traffic {
    if n == 0 then t else EchoEvents(n - 1, EchoStep(t))
  }

  /** The event's read found the connection open and left it open. */
  predicate ReadStaysOpen(t: Traffic) {
    t.state == Connected && StaysOpen(t.inbound)
  }

  /** An event closes the connection exactly when it reads an end or a failure, or its write meets a failure before it is done. */
  lemma EchoCloses(t: Traffic)
    requires t.state == Connected
    ensures EchoStep(t).state == Closed <==>
            || !StaysOpen(t.inbound)
            || (RoomBeforeRefusal(t.outbound) < |ReadAll(t.inbound).data| && FailsFirst(t.outbound))
  {
    ConnectedIffStaysOpen(t.inbound);
    BrokenIff(ReadAll(t.inbound).data, t.outbound);
  }

  /** What was read by the events whose read left the connection open. */
  function Received(n: nat, t: Traffic): seq<Byte> {
    if n == 0 then [] else (if ReadStaysOpen(t) then ReadAll(t.inbound).data else []) + Received(n - 1, EchoStep(t))
  }

  /** The same, as the kernel handed it over. */
  function ReceivedRaw(n: nat, t: Traffic): seq<Byte> {
    if n == 0 then [] else (if ReadStaysOpen(t) then RawBytes(t.inbound) else []) + ReceivedRaw(n - 1, EchoStep(t))
  }

  /** Whenever a read leaves the connection open, the kernel has room for what was read before it refuses. */
  predicate RoomForEach(n: nat, t: Traffic) {
    n == 0 ||
    (&& (ReadStaysOpen(t) ==> |ReadAll(t.inbound).data| <= RoomBeforeRefusal(t.outbound))
     && RoomForEach(n - 1, EchoStep(t)))
  }

  /** What an event writes is all of what it read or less. */
  lemma StepSends(t: Traffic) returns (out: seq<Byte>)
    ensures EchoStep(t).sent == t.sent + out
    ensures ReadStaysOpen(t) ==>
              var data := ReadAll(t.inbound).data;
              out <= data && (out == data <==> |data| <= RoomBeforeRefusal(t.outbound))
    ensures !ReadStaysOpen(t) ==> out == []
  {
    out := [];
    ConnectedIffStaysOpen(t.inbound);
    if ReadStaysOpen(t) {
      out := WriteAll(ReadAll(t.inbound).data, t.outbound).sent;
      SentIsPrefix(ReadAll(t.inbound).data, t.outbound);
      CompletesIffRoom(ReadAll(t.inbound).data, t.outbound);
    } else {
      Unit(t.sent);
    }
  }

  lemma {:induction false} SentAtMost(n: nat, t: Traffic)
    ensures |EchoEvents(n, t).sent| <= |t.sent| + |Received(n, t)|
    ensures t.sent <= EchoEvents(n, t).sent
    ensures |EchoEvents(n, t).sent| == |t.sent| + |Received(n, t)| ==> RoomForEach(n, t)
    ensures RoomForEach(n, t) ==> EchoEvents(n, t).sent == t.sent + Received(n, t)
  {
    if n > 0 {
      var out := StepSends(t);
      SentAtMost(n - 1, EchoStep(t));
      var data := if ReadStaysOpen(t) then ReadAll(t.inbound).data else [];
      Assoc(t.sent, data, Received(n - 1, EchoStep(t)));
    }
  }

  /**
   * Echo conservation, over any number of events under any chunking, interruption and partial-write
   * schedule: the output is what was received, in order and once, exactly when the kernel had room each time.
   */
  lemma EchoIffRoom(n: nat, t: Traffic)
    ensures EchoEvents(n, t).sent == t.sent + Received(n, t) <==> RoomForEach(n, t)
  {
    SentAtMost(n, t);
  }

  lemma {:induction false} ReceivedIsRaw(n: nat, t: Traffic)
    ensures |Received(n, t)| <= |ReceivedRaw(n, t)|
    ensures Received(n, t) == ReceivedRaw(n, t) <==> NUL !in ReceivedRaw(n, t)
  {
    if n > 0 {
      ReceivedIsRaw(n - 1, EchoStep(t));
      if ReadStaysOpen(t) {
        NoNulRead(t.inbound);
        ReadsAllIffNoNul(t.inbound);
        SplitEqual(ReadAll(t.inbound).data, Received(n - 1, EchoStep(t)), RawBytes(t.inbound), ReceivedRaw(n - 1, EchoStep(t)));
      } else {
        Unit(Received(n - 1, EchoStep(t)));
        Unit(ReceivedRaw(n - 1, EchoStep(t)));
      }
    }
  }

  /** Each of the events can be handled to its end. */
  ghost predicate ServiceableFor(n: nat, t: Traffic) {
    n == 0 || (Serviceable(t) && ServiceableFor(n - 1, EchoStep(t)))
  }

  lemma {:induction false} UnrefusedHasRoom(n: nat, t: Traffic)
    requires ServiceableFor(n, t) && forall r :: r in t.outbound ==> !r.EndsLoop()
    ensures RoomForEach(n, t)
  {
    if n > 0 {
      ConnectedIffStaysOpen(t.inbound);
      if ReadStaysOpen(t) {
        WritableIff(ReadAll(t.inbound).data, t.outbound);
        RoomUnlessRefused(t.outbound);
        RestIsFromScript(ReadAll(t.inbound).data, t.outbound);
      }
      UnrefusedHasRoom(n - 1, EchoStep(t));
    }
  }

  /**
   * For input without NUL and a kernel that never refuses a write, the echo's output is the bytes
   * that the kernel handed over in exactly those events whose read ended connected.
   */
  lemma EchoConserves(n: nat, t: Traffic)
    requires ServiceableFor(n, t) && forall r :: r in t.outbound ==> !r.EndsLoop()
    requires NUL !in ReceivedRaw(n, t)
    ensures EchoEvents(n, t).sent == t.sent + ReceivedRaw(n, t)
  {
    UnrefusedHasRoom(n, t);
    EchoIffRoom(n, t);
    ReceivedIsRaw(n, t);
  }

  lemma SplitEqual(a: seq<Byte>, b: seq<Byte>, c: seq<Byte>, d: seq<Byte>)
    requires |a| <= |c| && |b| <= |d|
    ensures a + b == c + d <==> a == c && b == d
    ensures NUL in c + d <==> NUL in c || NUL in d
  {
    if a + b == c + d {
      assert |a| == |c|;
      assert a == (a + b)[..|a|] && c == (c + d)[..|c|];
      assert b == (a + b)[|a|..] && d == (c + d)[|c|..];
    }
  }
}
