/** A reactor that is left alone reads everything: its own steps come to an end, and only when nothing is left. */
module EdgeProgress {
  import opened Wrappers
  import opened Descriptor
  import opened Sequences
  import opened SocketIO
  import opened EdgeTriggered

  /** What the reactor does by itself when the kernel has something to report and read is neither interrupted nor failing. */
  predicate Own(a: Action) {
    match a
    case Poll(ready) => ready != []
    case Dispatch => true
    case Read(r) => !r.Interrupted?
    case _ => false
  }

  ghost predicate Settled(s: Reactor) {
    forall a :: Enabled(s, a) ==> !Own(a)
  }

  // ---- Only when nothing is left -----------------------------------------------------------------

  /** While input waits on an open connection, the reactor itself has a step to take. */
  lemma InputKeepsTheReactorGoing(s: Reactor, fd: Fd)
    requires Inv(s) && fd in s.conns && s.conns[fd].state == Connected && HasInput(s.conns[fd])
    ensures exists a :: Enabled(s, a) && Own(a) && (a.Read? ==> !a.result.Failed?)
  {
    if s.reading.Some? {
      var c := s.conns[s.reading.value];
      assert c.queue != [] ==> [c.queue[0]] <= c.queue;
      assert Enabled(s, Read(if c.queue != [] then Data([c.queue[0]]) else if c.hangup then Eof else WouldBlock));
    } else if s.batch != [] {
      assert Enabled(s, Dispatch);
    } else {
      assert Attended(s, fd);
      assert Enabled(s, Poll([Ready(fd, true)]));
    }
  }

  // ---- Its steps come to an end ------------------------------------------------------------------

  function Weight(c: Conn): nat {
    |c.queue| + (if c.edge then 3 else 0)
  }

  /** The weight of the connections whose descriptors lie below a bound. */
  function Total(conns: map<Fd, Conn>, bound: nat): nat {
    if bound == 0 then
      0
    else
      Total(conns, bound - 1) + (if bound - 1 in conns then Weight(conns[bound - 1]) else 0)
  }

  lemma {:induction false} TotalUpdate(conns: map<Fd, Conn>, fd: Fd, c: Conn, bound: nat)
    requires fd in conns
    ensures fd < bound ==> Total(conns[fd := c], bound) + Weight(conns[fd]) == Total(conns, bound) + Weight(c)
    ensures fd >= bound ==> Total(conns[fd := c], bound) == Total(conns, bound)
  {
    if bound > 0 {
      TotalUpdate(conns, fd, c, bound - 1);
    }
  }

  lemma {:induction false} ReportingPays(conns: map<Fd, Conn>, ready: seq<Ready>, bound: nat)
    requires forall i :: 0 <= i < |ready| ==> ready[i].fd in conns && ready[i].fd < bound && conns[ready[i].fd].edge
    requires forall i, j :: 0 <= i < j < |ready| ==> ready[i].fd != ready[j].fd
    ensures Total(Reported(conns, ready), bound) + 3 * |ready| == Total(conns, bound)
  {
    if ready == [] {
      assert Reported(conns, ready) == conns;
    } else {
      var init, fd := ready[..|ready| - 1], ready[|ready| - 1].fd;
      var before := Reported(conns, init);
      ReportingPays(conns, init, bound);
      assert !InBatch(init, fd);
      ReportedLast(conns, ready);
      TotalUpdate(before, fd, before[fd].(edge := false), bound);
    }
  }

  lemma ReportedLast(conns: map<Fd, Conn>, ready: seq<Ready>)
    requires ready != [] && ready[|ready| - 1].fd in conns
    ensures var before, fd := Reported(conns, ready[..|ready| - 1]), ready[|ready| - 1].fd;
            Reported(conns, ready) == before[fd := before[fd].(edge := false)]
  {
    var init, last := ready[..|ready| - 1], ready[|ready| - 1].fd;
    forall fd
      ensures InBatch(ready, fd) <==> InBatch(init, fd) || fd == last
    {
      if InBatch(init, fd) {
        var i :| 0 <= i < |init| && init[i].fd == fd;
        assert ready[i].fd == fd;
      }
      if fd == last {
        assert ready[|ready| - 1].fd == fd;
      }
      if InBatch(ready, fd) && fd != last {
        var i :| 0 <= i < |ready| && ready[i].fd == fd;
        assert init[i].fd == fd;
      }
    }
  }

  predicate Below(s: Reactor, bound: nat) {
    forall fd :: fd in s.conns ==> fd < bound
  }

  function Measure(s: Reactor, bound: nat): nat {
    Total(s.conns, bound) + 2 * |s.batch| + (if s.reading.Some? then 1 else 0)
  }

  /** Each of the reactor's own steps takes it closer to rest. */
  lemma StepMeasure(s: Reactor, a: Action, bound: nat)
    requires Enabled(s, a) && Own(a) && Below(s, bound)
    ensures Below(Apply(s, a), bound) && Measure(Apply(s, a), bound) < Measure(s, bound)
  {
    match a {
      case Poll(ready) => ReportingPays(s.conns, ready, bound);
      case Dispatch =>
        var fd := s.batch[0].fd;
        if fd in s.conns {
          TotalUpdate(s.conns, fd, s.conns[fd].(buffer := [], script := []), bound);
        }
      case Read(r) =>
        TotalUpdate(s.conns, s.reading.value, TakeIn(s.conns[s.reading.value], r), bound);
      case _ =>
    }
  }

  lemma {:induction false} RunsEnd(s: Reactor, run: seq<Action>, bound: nat)
    requires IsRun(s, run) && (forall a :: a in run ==> Own(a)) && Below(s, bound)
    ensures |run| <= Measure(s, bound)
    decreases |run|
  {
    if run != [] {
      assert run[0] in run;
      StepMeasure(s, run[0], bound);
      RunsEnd(Apply(s, run[0]), run[1..], bound);
    }
  }

  /**
   * However a reactor came to its state, once input stops its own steps are bounded, and where they
   * end every open connection has been read to the last byte that arrived, in order and once.
   */
  lemma ReactorDrains(past: seq<Action>, run: seq<Action>, bound: nat)
    requires IsRun(EMPTY, past) && IsRun(After(EMPTY, past), run) && Below(After(EMPTY, past), bound)
    requires (forall a :: a in run ==> Own(a)) && Settled(After(After(EMPTY, past), run))
    ensures |run| <= Measure(After(EMPTY, past), bound)
    ensures var t := After(After(EMPTY, past), run);
            forall fd :: fd in t.conns && t.conns[fd].state == Connected ==>
              t.conns[fd].taken == t.conns[fd].arrived && !t.conns[fd].hangup
  {
    RunInv(EMPTY, past);
    RunInv(After(EMPTY, past), run);
    RunsEnd(After(EMPTY, past), run, bound);
    var t := After(After(EMPTY, past), run);
    forall fd | fd in t.conns && t.conns[fd].state == Connected
      ensures t.conns[fd].taken == t.conns[fd].arrived && !t.conns[fd].hangup
    {
      assert Intact(t.conns[fd], t.reading == Some(fd));
      if HasInput(t.conns[fd]) {
        InputKeepsTheReactorGoing(t, fd);
      } else {
        Unit(t.conns[fd].taken);
      }
    }
  }
}
