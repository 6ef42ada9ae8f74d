/**
 * Registration: channels, their loops' epoll instances and the server's table of connections.
 * The kernel is the interest list of each epoll instance; closing a descriptor leaves it.
 */
module Reactor {
  import opened Descriptor

  const EPOLLIN: bv32 := 0x001
  const EPOLLPRI: bv32 := 0x002
  const EPOLLOUT: bv32 := 0x004
  const EPOLLERR: bv32 := 0x008
  const EPOLLHUP: bv32 := 0x010
  const EPOLLET: bv32 := 0x8000_0000

  datatype Interest = Interest(mask: bv32, channel: Channel)

  /** A descriptor that the kernel reports as ready, with its events. */
  datatype Event = Event(fd: Fd, mask: bv32)

  predicate Distinct(events: seq<Event>) {
    forall i, j :: 0 <= i < j < |events| ==> events[i].fd != events[j].fd
  }

  class Epoll {
    var interest: map<Fd, Interest>

    constructor ()
      ensures interest == map[]
    {
      interest := map[];
    }

    ghost function Watched(): set<Channel>
      reads this
    {
      set fd | fd in interest :: interest[fd].channel
    }

    /** ADD or MOD, by the channel's own flag. The kernel refuses ADD of a present descriptor and MOD of an absent one. */
    method UpdateChannel(channel: Channel) returns (ok: bool)
      modifies this, channel`inEpoll
      ensures ok == (old(channel.inEpoll) == (channel.fd in old(interest)))
      ensures ok ==> channel.inEpoll && interest == old(interest)[channel.fd := Interest(channel.listenEvents, channel)]
      ensures !ok ==> channel.inEpoll == old(channel.inEpoll) && interest == old(interest)
    {
      var fd := channel.fd;
      if !channel.inEpoll {
        if fd in interest {
          return false;
        }
        interest := interest[fd := Interest(channel.listenEvents, channel)];
        channel.inEpoll := true;
      } else {
        if fd !in interest {
          return false;
        }
        interest := interest[fd := Interest(channel.listenEvents, channel)];
      }
      ok := true;
    }

    /** What the kernel may report: watched descriptors, each once, with watched events or error conditions. */
    ghost predicate MayReport(events: seq<Event>)
      reads this
    {
      && (forall i :: 0 <= i < |events| ==>
            events[i].fd in interest && events[i].mask & !(interest[events[i].fd].mask | EPOLLERR | EPOLLHUP) == 0)
      && Distinct(events)
    }

    method Poll(events: seq<Event>) returns (active: seq<Channel>)
      requires MayReport(events)
      requires forall fd :: fd in interest ==> interest[fd].channel.fd == fd
      modifies Watched()`readyEvents
      ensures |active| == |events|
      ensures forall i :: 0 <= i < |events| ==>
                active[i] == interest[events[i].fd].channel && active[i].readyEvents == events[i].mask
    {
      active := [];
      for i := 0 to |events|
        invariant |active| == i
        invariant forall k :: 0 <= k < i ==>
                    active[k] == interest[events[k].fd].channel && active[k].readyEvents == events[k].mask
      {
        var channel := interest[events[i].fd].channel;
        channel.readyEvents := events[i].mask;
        active := active + [channel];
      }
    }
  }

  class EventLoop {
    const ep: Epoll

    constructor ()
      ensures fresh(ep) && ep.interest == map[]
    {
      ep := new Epoll();
    }
  }

  class Channel {
    const loop: EventLoop
    const fd: Fd
    var listenEvents: bv32
    var readyEvents: bv32
    var inEpoll: bool
    var readCallBack: Connection?

    constructor (loop: EventLoop, fd: Fd)
      ensures this.loop == loop && this.fd == fd
      ensures listenEvents == 0 && readyEvents == 0 && !inEpoll && readCallBack == null
    {
      this.loop, this.fd := loop, fd;
      listenEvents, readyEvents, inEpoll, readCallBack := 0, 0, false, null;
    }

    method EnableRead() returns (ok: bool)
      modifies this`listenEvents, this`inEpoll, loop.ep
      ensures listenEvents == old(listenEvents) | EPOLLIN | EPOLLPRI
      ensures ok == (old(inEpoll) == (fd in old(loop.ep.interest)))
      ensures ok ==> inEpoll && loop.ep.interest == old(loop.ep.interest)[fd := Interest(listenEvents, this)]
    {
      listenEvents := listenEvents | EPOLLIN | EPOLLPRI;
      ok := loop.ep.UpdateChannel(this);
    }

    method UseET() returns (ok: bool)
      modifies this`listenEvents, this`inEpoll, loop.ep
      ensures listenEvents == old(listenEvents) | EPOLLET
      ensures ok == (old(inEpoll) == (fd in old(loop.ep.interest)))
      ensures ok ==> inEpoll && loop.ep.interest == old(loop.ep.interest)[fd := Interest(listenEvents, this)]
    {
      listenEvents := listenEvents | EPOLLET;
      ok := loop.ep.UpdateChannel(this);
    }

    /** Which callbacks run: the read one, as it is bound at that moment, and the write one. */
    method HandleEvent() returns (read: bool, callback: Connection?, write: bool)
      ensures read == (readyEvents & (EPOLLIN | EPOLLPRI) != 0) && callback == readCallBack
      ensures write == (readyEvents & EPOLLOUT != 0)
    {
      read := readyEvents & (EPOLLIN | EPOLLPRI) != 0;
      callback := readCallBack;
      write := readyEvents & EPOLLOUT != 0;
    }
  }

  /** The half of a connection that is registered: its descriptor and its channel. Its buffers are in module Connection. */
  class Connection {
    const fd: Fd
    const channel: Channel

    /** The constructor already registers the descriptor: first for reading, then edge-triggered. */
    constructor (loop: EventLoop, fd: Fd)
      requires fd !in loop.ep.interest
      modifies loop.ep
      ensures this.fd == fd && fresh(channel) && channel.fd == fd && channel.loop == loop
      ensures channel.inEpoll && channel.listenEvents == EPOLLIN | EPOLLPRI | EPOLLET && channel.readCallBack == null
      ensures loop.ep.interest == old(loop.ep.interest)[fd := Interest(channel.listenEvents, channel)]
    {
      this.fd := fd;
      channel := new Channel(loop, fd);
      new;
      var added := channel.EnableRead();
      var modified := channel.UseET();
      assert added && modified;
    }

    method SetOnMessageCallBack()
      modifies channel`readCallBack
      ensures channel.readCallBack == this
    {
      channel.readCallBack := this;
    }
  }

  lemma OrKeepsOutClear(mask: bv32)
    requires mask & EPOLLOUT == 0
    ensures (mask | EPOLLIN | EPOLLPRI) & EPOLLOUT == 0 && (mask | EPOLLET) & EPOLLOUT == 0
  {
  }

  lemma ReportedOutIsClear(reported: bv32, mask: bv32)
    requires mask & EPOLLOUT == 0 && reported & !(mask | EPOLLERR | EPOLLHUP) == 0
    ensures reported & EPOLLOUT == 0
  {
  }

  class Server {
    const subReactors: seq<EventLoop>
    var connections: map<Fd, Connection>

    ghost function Epolls(): set<Epoll> {
      set i | 0 <= i < |subReactors| :: subReactors[i].ep
    }

    ghost function Channels(): set<Channel>
      reads this
    {
      set fd | fd in connections :: connections[fd].channel
    }

    function LoopOf(fd: Fd): EventLoop
      requires |subReactors| > 0
    {
      subReactors[fd % |subReactors|]
    }

    /** A connection owns its descriptor, which its own loop watches, under its channel's mask, for it. */
    ghost predicate Registered(fd: Fd)
      requires |subReactors| > 0 && fd in connections
      reads this, LoopOf(fd).ep
      reads connections[fd].channel`listenEvents, connections[fd].channel`inEpoll, connections[fd].channel`readCallBack
    {
      var c := connections[fd];
      && c.fd == fd && c.channel.fd == fd && c.channel.loop == LoopOf(fd)
      && c.channel.inEpoll && c.channel.readCallBack == c && c.channel.listenEvents & EPOLLOUT == 0
      && fd in LoopOf(fd).ep.interest
      && LoopOf(fd).ep.interest[fd] == Interest(c.channel.listenEvents, c.channel)
    }

    ghost predicate Valid()
      reads this, Epolls(), Channels()`listenEvents, Channels()`inEpoll, Channels()`readCallBack
    {
      && (forall i, j :: 0 <= i < j < |subReactors| ==> subReactors[i].ep != subReactors[j].ep)
      && (forall fd :: fd in connections ==> |subReactors| > 0 && Registered(fd))
      && (forall i, fd :: 0 <= i < |subReactors| && fd in subReactors[i].ep.interest ==>
            fd in connections && subReactors[i] == LoopOf(fd))
    }

    /** One loop for each worker. */
    constructor (loops: seq<EventLoop>)
      requires forall i, j :: 0 <= i < j < |loops| ==> loops[i].ep != loops[j].ep
      requires forall i :: 0 <= i < |loops| ==> loops[i].ep.interest == map[]
      ensures Valid() && subReactors == loops && connections == map[]
    {
      subReactors, connections := loops, map[];
    }

    /** Only the registration of one descriptor, in its own loop, differs from before. */
    twostate predicate Touches(fd: Fd)
      requires |subReactors| > 0
      reads this, Epolls(), Channels()`listenEvents, Channels()`inEpoll, Channels()`readCallBack
    {
      var ep := LoopOf(fd).ep;
      && ep in Epolls()
      && (forall other :: other != fd ==> (other in connections <==> other in old(connections)))
      && (forall other :: other != fd ==> (other in ep.interest <==> other in old(ep.interest)))
      && (forall other :: other in ep.interest && other != fd ==> ep.interest[other] == old(ep.interest)[other])
      && (forall e :: e in Epolls() && e != ep ==> e.interest == old(e.interest))
      && (forall other :: other in connections && other != fd ==>
            && connections[other] == old(connections)[other]
            && var c := connections[other].channel;
               c.listenEvents == old(c.listenEvents) && c.inEpoll == old(c.inEpoll) && c.readCallBack == old(c.readCallBack))
    }

    /** Such a step keeps registry and kernel in agreement if they agree on that descriptor. */
    twostate lemma TouchesOne(fd: Fd)
      requires |subReactors| > 0 && old(Valid()) && Touches(fd)
      requires if fd in connections then Registered(fd) else fd !in LoopOf(fd).ep.interest
      ensures Valid()
    {
      forall other | other in connections && other != fd
        ensures Registered(other)
      {
        assert old(Registered(other));
        assert LoopOf(other).ep in Epolls();
      }
      forall i, other | 0 <= i < |subReactors| && other in subReactors[i].ep.interest
        ensures other in connections && subReactors[i] == LoopOf(other)
      {
        assert subReactors[i].ep in Epolls();
        if other in old(subReactors[i].ep.interest) {
          assert subReactors[i] == LoopOf(other);
        } else {
          assert subReactors[i].ep == LoopOf(fd).ep && other == fd;
        }
      }
    }

    /**
     * Accept a descriptor that the kernel has just opened. -1 is refused with an exception, and a
     * server without reactors divides by zero: it takes no connection at all.
     */
    method NewConnection(fd: int) returns (ok: bool)
      requires Valid() && -1 <= fd && (fd >= 0 ==> fd !in connections)
      modifies this, Epolls()
      ensures Valid() && (ok <==> fd != -1 && |subReactors| > 0)
      ensures !ok ==> connections == old(connections)
      ensures ok ==> fd in connections && fresh(connections[fd]) && connections == old(connections)[fd := connections[fd]]
      ensures ok ==> connections[fd].channel.listenEvents == EPOLLIN | EPOLLPRI | EPOLLET
      ensures ok ==>
                var ep := subReactors[fd % |subReactors|].ep;
                ep.interest == old(ep.interest)[fd := Interest(0x8000_0003, connections[fd].channel)]
      ensures forall i :: 0 <= i < |subReactors| && (!ok || i != fd % |subReactors|) ==>
                subReactors[i].ep.interest == old(subReactors[i].ep.interest)
    {
      if fd == -1 {
        return false;
      }
      if |subReactors| == 0 {
        return false;
      }
      var loop := LoopOf(fd);
      assert loop.ep in Epolls();
      var conn := new Connection(loop, fd);
      conn.SetOnMessageCallBack();
      connections := connections[fd := conn];
      TouchesOne(fd);
      ok := true;
    }

    /** Destroying a connection closes its descriptor, which leaves the interest list. */
    method DeleteConnection(fd: int)
      requires Valid()
      modifies this`connections, Epolls()`interest
      ensures Valid()
      ensures connections == if fd >= 0 then old(connections) - {fd} else old(connections)
    {
      if fd >= 0 && fd in connections {
        var ep := LoopOf(fd).ep;
        assert ep in Epolls();
        ep.interest := ep.interest - {fd};
        connections := connections - {fd};
        TouchesOne(fd);
      }
    }

    /** Enabling reads again on a live connection modifies its registration in place. */
    method EnableRead(fd: Fd) returns (ok: bool)
      requires Valid() && fd in connections
      modifies Epolls(), connections[fd].channel
      ensures Valid() && ok
      ensures connections[fd].channel.listenEvents == old(connections[fd].channel.listenEvents) | EPOLLIN | EPOLLPRI
    {
      var channel := connections[fd].channel;
      assert channel.loop.ep in Epolls();
      OrKeepsOutClear(channel.listenEvents);
      ok := channel.EnableRead();
      TouchesOne(fd);
    }

    method UseET(fd: Fd) returns (ok: bool)
      requires Valid() && fd in connections
      modifies Epolls(), connections[fd].channel
      ensures Valid() && ok
      ensures connections[fd].channel.listenEvents == old(connections[fd].channel.listenEvents) | EPOLLET
    {
      var channel := connections[fd].channel;
      assert channel.loop.ep in Epolls();
      OrKeepsOutClear(channel.listenEvents);
      ok := channel.UseET();
      TouchesOne(fd);
    }

    lemma WatchedBy(i: nat)
      requires Valid() && i < |subReactors|
      ensures forall fd :: fd in subReactors[i].ep.interest ==>
                && fd in connections && i == fd % |subReactors|
                && subReactors[i].ep.interest[fd].channel == connections[fd].channel
                && connections[fd].fd == fd && connections[fd].channel.fd == fd
                && connections[fd].channel.readCallBack == connections[fd]
                && subReactors[i].ep.interest[fd].mask & EPOLLOUT == 0
    {
      forall fd | fd in subReactors[i].ep.interest
        ensures fd in connections && i == fd % |subReactors| && Registered(fd)
      {
      }
    }

    /** Loop i watches exactly the connections whose descriptors are i modulo the number of loops. */
    lemma WatchedIff(i: nat, fd: Fd)
      requires Valid() && i < |subReactors|
      ensures fd in subReactors[i].ep.interest <==> fd in connections && i == fd % |subReactors|
      ensures fd in subReactors[i].ep.interest ==>
                && subReactors[i].ep.interest[fd].channel == connections[fd].channel
                && subReactors[i].ep.interest[fd].mask == connections[fd].channel.listenEvents
    {
      if fd in connections {
        assert Registered(fd);
      }
    }

    lemma WatchedAreChannels(i: nat)
      requires Valid() && i < |subReactors|
      ensures subReactors[i].ep.Watched() <= Channels()
    {
      WatchedBy(i);
    }

    /** Ready events play no part in registration. */
    twostate lemma ReadyEventsDoNotMatter()
      requires old(Valid()) && connections == old(connections)
      requires forall fd :: fd in connections ==>
                 var c := connections[fd].channel;
                 c.listenEvents == old(c.listenEvents) && c.inEpoll == old(c.inEpoll) && c.readCallBack == old(c.readCallBack)
      requires forall i :: 0 <= i < |subReactors| ==> subReactors[i].ep.interest == old(subReactors[i].ep.interest)
      ensures Valid()
    {
      forall fd | fd in connections
        ensures Registered(fd)
      {
        assert old(Registered(fd));
      }
    }

    /** The channel is that of the connection, watched by loop i, that the table has for the event's descriptor. */
    ghost predicate Ready(table: map<Fd, Connection>, i: nat, event: Event, channel: Channel)
      requires i < |subReactors|
    {
      && event.fd in table && channel == table[event.fd].channel && i == event.fd % |subReactors|
      && event.mask & EPOLLOUT == 0
    }

    method Poll(i: nat, events: seq<Event>) returns (active: seq<Channel>)
      requires Valid() && i < |subReactors| && subReactors[i].ep.MayReport(events)
      modifies Channels()`readyEvents
      ensures Valid() && |active| == |events|
      ensures forall k :: 0 <= k < |events| ==>
                Ready(connections, i, events[k], active[k]) && active[k].readyEvents == events[k].mask
    {
      WatchedBy(i);
      WatchedAreChannels(i);
      forall k | 0 <= k < |events|
        ensures events[k].mask & EPOLLOUT == 0
      {
        ReportedOutIsClear(events[k].mask, subReactors[i].ep.interest[events[k].fd].mask);
      }
      active := subReactors[i].ep.Poll(events);
      ReadyEventsDoNotMatter();
    }

    /** The callback is that of the connection that the table had for the event's descriptor. */
    ghost predicate Calls(table: map<Fd, Connection>, i: nat, event: Event, callback: Connection?)
      requires i < |subReactors|
    {
      && event.fd in table && i == event.fd % |subReactors|
      && callback == table[event.fd] && table[event.fd].fd == event.fd
    }

    ghost predicate CallsAll(table: map<Fd, Connection>, i: nat, inputs: seq<Event>, callbacks: seq<Connection?>)
      requires i < |subReactors|
    {
      |callbacks| == |inputs| && forall k :: 0 <= k < |inputs| ==> Calls(table, i, inputs[k], callbacks[k])
    }

    lemma CallsOneMore(table: map<Fd, Connection>, i: nat, events: seq<Event>, j: nat,
                       callbacks: seq<Connection?>, callback: Connection?)
      requires i < |subReactors| && j < |events| && CallsAll(table, i, InputEvents(events[..j]), callbacks)
      requires Calls(table, i, events[j], callback)
      ensures CallsAll(table, i, InputEvents(events[..j + 1]), callbacks + (if AsksToRead(events[j]) then [callback] else []))
    {
      assert events[..j + 1][..j] == events[..j];
    }

    lemma CallsBackItself(fd: Fd)
      requires Valid() && fd in connections
      ensures connections[fd].channel.readCallBack == connections[fd] && connections[fd].fd == fd
    {
      assert Registered(fd);
    }

    /** A ready channel runs its connection's read callback, whose handler may close that connection. */
    method HandleReady(i: nat, event: Event, channel: Channel, closes: bool) returns (read: bool, callback: Connection?)
      requires Valid() && i < |subReactors| && Ready(connections, i, event, channel) && channel.readyEvents == event.mask
      modifies this`connections, Epolls()`interest
      ensures Valid() && connections == if read && closes then old(connections) - {event.fd} else old(connections)
      ensures read == AsksToRead(event)
      ensures Calls(old(connections), i, event, callback)
    {
      CallsBackItself(event.fd);
      var write;
      read, callback, write := channel.HandleEvent();
      assert !write;
      if read && closes {
        DeleteConnection(callback.fd);
      }
    }

    /** The j-th polled channel handles its event. */
    method DispatchOne(ghost table: map<Fd, Connection>, i: nat, events: seq<Event>, j: nat, channel: Channel,
                       closing: set<Fd>, handled: seq<Connection?>) returns (more: seq<Connection?>)
      requires Valid() && i < |subReactors| && j < |events|
      requires connections == Remaining(table, events[..j], closing) && events[j].fd in connections
      requires Ready(table, i, events[j], channel) && channel.readyEvents == events[j].mask
      requires CallsAll(table, i, InputEvents(events[..j]), handled)
      modifies this`connections, Epolls()`interest
      ensures Valid() && connections == Remaining(table, events[..j + 1], closing)
      ensures CallsAll(table, i, InputEvents(events[..j + 1]), more)
    {
      RemainingIsSame(table, events[..j], closing, events[j].fd);
      assert events[..j + 1][..j] == events[..j];
      var read, callback := HandleReady(i, events[j], channel, events[j].fd in closing);
      CallsOneMore(table, i, events, j, handled, callback);
      more := handled + (if read then [callback] else []);
    }

    /** Each polled channel handles its event, in order. */
    method Dispatch(i: nat, events: seq<Event>, active: seq<Channel>, closing: set<Fd>) returns (handled: seq<Connection?>)
      requires Valid() && i < |subReactors| && |active| == |events|
      requires Distinct(events) && forall k :: 0 <= k < |events| ==>
                 Ready(connections, i, events[k], active[k]) && active[k].readyEvents == events[k].mask
      modifies this`connections, Epolls()`interest
      ensures Valid() && connections == Remaining(old(connections), events, closing)
      ensures CallsAll(old(connections), i, InputEvents(events), handled)
    {
      ghost var table := connections;
      handled := [];
      for j := 0 to |active|
        invariant Valid() && connections == Remaining(table, events[..j], closing)
        invariant CallsAll(table, i, InputEvents(events[..j]), handled)
      {
        RemainingHas(table, events, j, closing, j);
        handled := DispatchOne(table, i, events, j, active[j], closing, handled);
      }
      assert events[..|active|] == events;
    }

    /**
     * One pass of loop i: poll, then dispatch. `handled` lists the read callbacks that run, in order;
     * the write callback, which nobody ever sets, never does. A handler closes its own connection if
     * that is among `closing`, and so deletes it within the pass.
     */
    method RunLoop(i: nat, events: seq<Event>, closing: set<Fd>) returns (handled: seq<Connection?>)
      requires Valid() && i < |subReactors| && subReactors[i].ep.MayReport(events)
      modifies this`connections, Epolls()`interest, Channels()`readyEvents
      ensures Valid() && connections == old(connections) - Closed(events, closing)
      ensures CallsAll(old(connections), i, InputEvents(events), handled)
    {
      RemainingIsMinus(connections, events, closing);
      var active := Poll(i, events);
      handled := Dispatch(i, events, active, closing);
    }
  }

  predicate AsksToRead(event: Event) {
    event.mask & (EPOLLIN | EPOLLPRI) != 0
  }

  /** Input and urgent data are the two lowest bits. */
  lemma AsksToReadBits(event: Event)
    ensures AsksToRead(event) <==> event.mask & 0x1 != 0 || event.mask & 0x2 != 0
  {
  }

  function InputEvents(events: seq<Event>): seq<Event> {
    if events == [] then
      []
    else
      var last := events[|events| - 1];
      InputEvents(events[..|events| - 1]) + (if AsksToRead(last) then [last] else [])
  }

  /** The connections that their own handlers close. */
  function Closed(events: seq<Event>, closing: set<Fd>): set<Fd> {
    set e | e in InputEvents(events) && e.fd in closing :: e.fd
  }

  /** The table after a pass, one event at a time. */
  function Remaining<V>(table: map<Fd, V>, events: seq<Event>, closing: set<Fd>): map<Fd, V> {
    if events == [] then
      table
    else
      var last, rest := events[|events| - 1], Remaining(table, events[..|events| - 1], closing);
      if AsksToRead(last) && last.fd in closing then rest - {last.fd} else rest
  }

  /** A descriptor whose event is still to come stays in the table. */
  lemma {:induction false} RemainingHas<V>(table: map<Fd, V>, events: seq<Event>, j: nat, closing: set<Fd>, done: nat)
    requires done <= j < |events| && events[j].fd in table && Distinct(events)
    ensures events[j].fd in Remaining(table, events[..done], closing)
  {
    if done > 0 {
      RemainingHas(table, events, j, closing, done - 1);
      assert events[..done][..done - 1] == events[..done - 1];
    }
  }

  lemma {:induction false} RemainingIsSame<V>(table: map<Fd, V>, events: seq<Event>, closing: set<Fd>, fd: Fd)
    requires fd in Remaining(table, events, closing)
    ensures fd in table && Remaining(table, events, closing)[fd] == table[fd]
  {
    if events != [] {
      RemainingIsSame(table, events[..|events| - 1], closing, fd);
    }
  }

  lemma {:induction false} RemainingIsMinus<V>(table: map<Fd, V>, events: seq<Event>, closing: set<Fd>)
    ensures Remaining(table, events, closing) == table - Closed(events, closing)
  {
    if events != [] {
      var init, last := events[..|events| - 1], events[|events| - 1];
      RemainingIsMinus(table, init, closing);
      assert Closed(events, closing) == Closed(init, closing) + (if AsksToRead(last) && last.fd in closing then {last.fd} else {});
    }
  }
}
