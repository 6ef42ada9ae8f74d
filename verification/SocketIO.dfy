/**
 * Non-blocking socket input and output against an adversarial kernel. The kernel is a script of
 * results; a script is arbitrary as long as it lets the loop that consumes it come to an end.
 */
module SocketIO {
  import opened Buffer
  import opened Sequences

  const BUFFER_SIZE := 1024

  datatype ReadResult = Data(bytes: seq<Byte>) | Interrupted | WouldBlock | Eof | Failed {
    predicate EndsLoop() {
      WouldBlock? || Eof? || Failed?
    }
  }

  /** `room` is what the socket takes at most; a call never takes more than it was offered. */
  datatype WriteResult = Accepted(room: nat) | WriteInterrupted | WriteWouldBlock | WriteFailed {
    predicate EndsLoop() {
      WriteWouldBlock? || WriteFailed?
    }
  }

  datatype State = Connected | Closed

  // ---- Reading -----------------------------------------------------------------------------------

  datatype ReadOutcome = ReadOutcome(data: seq<Byte>, state: State, rest: seq<ReadResult>)

  /** A read returns between one byte and a full local buffer, and the results reach one that ends the loop. */
  ghost predicate Readable(script: seq<ReadResult>) {
    && (forall r :: r in script && r.Data? ==> 0 < |r.bytes| <= BUFFER_SIZE)
    && exists i :: 0 <= i < |script| && script[i].EndsLoop()
  }

  function ReadAll(script: seq<ReadResult>): ReadOutcome {
    if script == [] then
      ReadOutcome([], Connected, [])
    else
      var rest := script[1..];
      match script[0]
      case Data(bytes) =>
        var later := ReadAll(rest);
        later.(data := UpToNul(bytes) + later.data)
      case Interrupted => ReadAll(rest)
      case WouldBlock => ReadOutcome([], Connected, rest)
      case Eof => ReadOutcome([], Closed, rest)
      case Failed => ReadOutcome([], Closed, rest)
  }

  /** The first result that is neither data nor an interruption. */
  predicate EndsAt(script: seq<ReadResult>, i: nat) {
    && i < |script| && !script[i].Data? && !script[i].Interrupted?
    && forall j :: 0 <= j < i ==> script[j].Data? || script[j].Interrupted?
  }

  /** Neither end of file nor a failure comes before the socket is drained. */
  predicate StaysOpen(script: seq<ReadResult>) {
    script == [] || script[0].WouldBlock?
    || ((script[0].Data? || script[0].Interrupted?) && StaysOpen(script[1..]))
  }

  lemma {:induction false} ConnectedIffStaysOpen(script: seq<ReadResult>)
    ensures ReadAll(script).state == Connected <==> StaysOpen(script)
  {
    if script != [] {
      ConnectedIffStaysOpen(script[1..]);
    }
  }

  function BytesOf(script: seq<ReadResult>): seq<Byte> {
    if script == [] then [] else (if script[0].Data? then script[0].bytes else []) + BytesOf(script[1..])
  }

  /** A read loop ends at the first such result: open if it would block, closed otherwise, with the later results left. */
  lemma {:induction false} ReadEnds(script: seq<ReadResult>, i: nat)
    requires EndsAt(script, i)
    ensures ReadAll(script).state == Connected <==> script[i].WouldBlock?
    ensures ReadAll(script).rest == script[i + 1..]
    ensures RawBytes(script) == BytesOf(script[..i])
  {
    if i > 0 {
      ReadEnds(script[1..], i - 1);
      assert script[..i][1..] == script[1..][..i - 1];
    }
  }

  /** The bytes that the kernel handed over before the result that ended the loop. */
  function RawBytes(script: seq<ReadResult>): seq<Byte> {
    if script == [] || script[0].EndsLoop() then
      []
    else
      (if script[0].Data? then script[0].bytes else []) + RawBytes(script[1..])
  }

  lemma {:induction false} NoNulRead(script: seq<ReadResult>)
    ensures NUL !in ReadAll(script).data
    ensures |ReadAll(script).data| <= |RawBytes(script)|
  {
    if script != [] && !script[0].EndsLoop() {
      NoNulRead(script[1..]);
    }
  }

  /** A read yields what the kernel handed over, whatever the chunks, exactly when that has no NUL. */
  lemma ReadsAllIffNoNul(script: seq<ReadResult>)
    ensures ReadAll(script).data == RawBytes(script) <==> NUL !in RawBytes(script)
  {
    NoNulRead(script);
    if NUL !in RawBytes(script) {
      NulFreeRead(script);
    }
  }

  lemma {:induction false} NulFreeRead(script: seq<ReadResult>)
    requires NUL !in RawBytes(script)
    ensures ReadAll(script).data == RawBytes(script)
  {
    if script != [] && !script[0].EndsLoop() {
      var first := if script[0].Data? then script[0].bytes else [];
      assert forall b :: b in first || b in RawBytes(script[1..]) ==> b in first + RawBytes(script[1..]);
      NulFreeRead(script[1..]);
      UpToNulKeepsAll(first);
    }
  }

  // ---- Writing -----------------------------------------------------------------------------------

  datatype Ending = Completed | Blocked | Broken

  datatype WriteOutcome = WriteOutcome(sent: seq<Byte>, ending: Ending, rest: seq<WriteResult>)

  function Min(a: nat, b: nat): nat {
    if a <= b then a else b
  }

  /** Sends what it can; a script that runs out early leaves the loop waiting and counts as blocked. */
  function WriteAll(data: seq<Byte>, script: seq<WriteResult>): WriteOutcome
    decreases |script|
  {
    if data == [] then
      WriteOutcome([], Completed, script)
    else if script == [] then
      WriteOutcome([], Blocked, [])
    else
      var rest := script[1..];
      match script[0]
      case Accepted(room) =>
        var n := Min(room, |data|);
        var later := WriteAll(data[n..], rest);
        later.(sent := data[..n] + later.sent)
      case WriteInterrupted => WriteAll(data, rest)
      case WriteWouldBlock => WriteOutcome([], Blocked, rest)
      case WriteFailed => WriteOutcome([], Broken, rest)
  }

  /** The script takes the write loop to its end. */
  predicate Writable(data: seq<Byte>, script: seq<WriteResult>)
    decreases |script|
  {
    data == [] ||
    (&& script != []
     && match script[0]
        case Accepted(room) => Writable(data[Min(room, |data|)..], script[1..])
        case WriteInterrupted => Writable(data, script[1..])
        case _ => true)
  }

  function Room(script: seq<WriteResult>): nat {
    if script == [] then 0 else (if script[0].Accepted? then script[0].room else 0) + Room(script[1..])
  }

  /** The loop ends exactly when the script refuses at some point or has room for everything. */
  lemma {:induction false} WritableIff(data: seq<Byte>, script: seq<WriteResult>)
    ensures Writable(data, script) <==> (exists r :: r in script && r.EndsLoop()) || Room(script) >= |data|
    decreases |script|
  {
    if script != [] {
      var rest := script[1..];
      assert forall r :: r in script <==> r == script[0] || r in rest;
      if script[0].Accepted? {
        WritableIff(data[Min(script[0].room, |data|)..], rest);
      } else if script[0].WriteInterrupted? {
        WritableIff(data, rest);
      } else {
        assert script[0] in script && script[0].EndsLoop();
      }
    }
  }

  /** What was sent is a prefix of the data: no gap, no repetition; all of it exactly when the loop completed. */
  lemma {:induction false} SentIsPrefix(data: seq<Byte>, script: seq<WriteResult>)
    ensures WriteAll(data, script).sent <= data
    ensures WriteAll(data, script).sent == data <==> WriteAll(data, script).ending.Completed?
    decreases |script|
  {
    if data != [] && script != [] {
      match script[0] {
        case Accepted(room) =>
          var n := Min(room, |data|);
          SentIsPrefix(data[n..], script[1..]);
          assert data == data[..n] + data[n..];
        case WriteInterrupted => SentIsPrefix(data, script[1..]);
        case _ =>
      }
    }
  }

  /** The room that the kernel offers before the first result that refuses. */
  function RoomBeforeRefusal(script: seq<WriteResult>): nat {
    if script == [] || script[0].EndsLoop() then
      0
    else
      (if script[0].Accepted? then script[0].room else 0) + RoomBeforeRefusal(script[1..])
  }

  /** A write completes exactly when the kernel has room for all of it before it first refuses. */
  lemma {:induction false} CompletesIffRoom(data: seq<Byte>, script: seq<WriteResult>)
    ensures WriteAll(data, script).ending.Completed? <==> RoomBeforeRefusal(script) >= |data|
    decreases |script|
  {
    if data != [] && script != [] {
      match script[0] {
        case Accepted(room) => CompletesIffRoom(data[Min(room, |data|)..], script[1..]);
        case WriteInterrupted => CompletesIffRoom(data, script[1..]);
        case _ =>
      }
    }
  }

  /** The first result that refuses. */
  predicate RefusesAt(script: seq<WriteResult>, i: nat) {
    && i < |script| && !script[i].Accepted? && !script[i].WriteInterrupted?
    && forall j :: 0 <= j < i ==> script[j].Accepted? || script[j].WriteInterrupted?
  }

  /** A write that meets the first refusal ends there: broken by a failure, blocked by a full socket. */
  lemma {:induction false} WriteEnds(data: seq<Byte>, script: seq<WriteResult>, i: nat)
    requires RefusesAt(script, i)
    ensures RoomBeforeRefusal(script) == Room(script[..i])
    ensures Room(script[..i]) < |data| ==>
              && WriteAll(data, script).rest == script[i + 1..]
              && (WriteAll(data, script).ending.Broken? <==> script[i].WriteFailed?)
              && (WriteAll(data, script).ending.Blocked? <==> script[i].WriteWouldBlock?)
    decreases i
  {
    if i > 0 {
      assert script[..i][1..] == script[1..][..i - 1];
      var n := if script[0].Accepted? then Min(script[0].room, |data|) else 0;
      assert data[0..] == data;
      WriteEnds(data[n..], script[1..], i - 1);
    }
  }

  /** The first refusal is a failure. */
  predicate FailsFirst(script: seq<WriteResult>) {
    exists i: nat :: i < |script| && RefusesAt(script, i) && script[i].WriteFailed?
  }

  lemma {:induction false} NeverRefused(data: seq<Byte>, script: seq<WriteResult>)
    requires forall i: nat :: !RefusesAt(script, i)
    ensures forall i :: 0 <= i < |script| ==> script[i].Accepted? || script[i].WriteInterrupted?
    ensures !WriteAll(data, script).ending.Broken?
    decreases |script|
  {
    if script != [] {
      assert !RefusesAt(script, 0);
      forall i: nat | RefusesAt(script[1..], i)
        ensures false
      {
        assert RefusesAt(script, i + 1);
      }
      NeverRefused(data[if script[0].Accepted? then Min(script[0].room, |data|) else 0..], script[1..]);
      assert data[0..] == data;
    }
  }

  /** A write breaks the connection exactly when it lacks room and the first refusal is a failure. */
  lemma BrokenIff(data: seq<Byte>, script: seq<WriteResult>)
    ensures WriteAll(data, script).ending.Broken? <==> RoomBeforeRefusal(script) < |data| && FailsFirst(script)
  {
    CompletesIffRoom(data, script);
    if i: nat :| RefusesAt(script, i) {
      WriteEnds(data, script, i);
      assert forall j: nat :: RefusesAt(script, j) ==> j == i;
    } else {
      NeverRefused(data, script);
    }
  }

  lemma {:induction false} RoomUnlessRefused(script: seq<WriteResult>)
    requires forall r :: r in script ==> !r.EndsLoop()
    ensures RoomBeforeRefusal(script) == Room(script)
  {
    if script != [] {
      assert script[0] in script;
      RoomUnlessRefused(script[1..]);
    }
  }

  lemma {:induction false} RestIsFromScript(data: seq<Byte>, script: seq<WriteResult>)
    ensures forall r :: r in WriteAll(data, script).rest ==> r in script
    decreases |script|
  {
    if data != [] && script != [] {
      match script[0] {
        case Accepted(room) => RestIsFromScript(data[Min(room, |data|)..], script[1..]);
        case WriteInterrupted => RestIsFromScript(data, script[1..]);
        case _ =>
      }
    }
  }
}
