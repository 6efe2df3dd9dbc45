/** The classes EventLoop and TcpServer: the timers of the loop, the map of connections, and the dispatch of
    one connection's events. */
module Servers {
  import opened Buffers
  import opened Registry
  import opened Polling
  import opened Streams
  import opened TcpConnections
  import opened Naming
  import opened Timers
  import opened TimerMachine
  import opened TimerQueues

  class EventLoop {
    const poller: Epoller
    const timerQueue: TimerQueue
    /** The timer queue's `timerfdChannel_`. */
    const timerChannel: Channel
    var activeChannels: seq<Channel>

    constructor (timerfd: int, now: Time)
      ensures fresh(poller) && fresh(timerQueue) && fresh(timerChannel)
      ensures timerQueue.Valid() && timerQueue.s == Init(now)
      ensures poller.Valid() && poller.channels == {timerChannel} && timerChannel.poller == poller
      ensures timerChannel.fd == timerfd && timerChannel.status == Added && timerChannel.events == READABLE
    {
      var p := new Epoller();
      var ch := new Channel(p, timerfd);
      ch.EnableReadable();
      poller, timerChannel := p, ch;
      timerQueue := new TimerQueue(now);
      activeChannels := [];
    }

    /** The first half of an iteration of `loop`: afterwards the list holds this poll's channels only, in
        the kernel's order, none twice, each with what it is ready for. */
    method CollectActive(answer: PollAnswer)
      requires poller.Valid() && (answer.Reported? ==> poller.KernelReports(answer.events))
      modifies this`activeChannels, poller`activeEvents, poller`polls, poller.channels`revents
      ensures poller.Valid() && poller.View() == old(poller.View())
      ensures answer.PollFailed? ==> activeChannels == []
      ensures answer.Reported? ==>
                && |activeChannels| == |answer.events|
                && (forall i :: 0 <= i < |activeChannels| ==>
                      Epoller.Activated(answer.events[i], activeChannels[i]))
                && (forall i, j :: 0 <= i < j < |activeChannels| ==> activeChannels[i] != activeChannels[j])
    {
      activeChannels := [];
      activeChannels := poller.Poll(answer, activeChannels);
    }

    /** `ptr` is the address `new` will return, `now` the clock. */
    method RunAt(when: Time, ptr: Ptr, now: Time)
      requires timerQueue.Valid() && Possible(timerQueue.s, Add(ptr, when, 0, now))
      modifies timerQueue
      ensures timerQueue.Valid() && timerQueue.s == TimerMachine.Apply(old(timerQueue.s), Add(ptr, when, 0, now))
      ensures timerQueue.steps == old(timerQueue.steps) + [Add(ptr, when, 0, now)]
    {
      timerQueue.AddTimer(ptr, when, 0, now);
    }

    /** The delay is in microseconds. The deadline uses one clock reading, arming the fd another. */
    method RunAfter(delay: int, ptr: Ptr, asked: Time, now: Time)
      requires timerQueue.Valid() && !timerQueue.s.phase.Handling?
      requires ptr !in timerQueue.s.store && ptr < UINTPTR_MAX && timerQueue.s.clock <= asked <= now
      modifies timerQueue
      ensures timerQueue.Valid() && ptr in timerQueue.s.store
      ensures timerQueue.steps == old(timerQueue.steps) + [Add(ptr, asked + delay * NANOS_PER_MICRO, 0, now)]
      ensures timerQueue.s.store[ptr].timing == asked + delay * NANOS_PER_MICRO && !timerQueue.s.store[ptr].repeated
    {
      RunAt(delay * NANOS_PER_MICRO + asked, ptr, now);
    }

    method RunEvery(interval: int, ptr: Ptr, asked: Time, now: Time)
      requires timerQueue.Valid() && !timerQueue.s.phase.Handling?
      requires ptr !in timerQueue.s.store && ptr < UINTPTR_MAX && timerQueue.s.clock <= asked <= now
      modifies timerQueue
      ensures timerQueue.Valid() && ptr in timerQueue.s.store
      ensures timerQueue.steps == old(timerQueue.steps) + [Add(ptr, asked + interval * NANOS_PER_MICRO, interval, now)]
      ensures timerQueue.s.store[ptr].timing == asked + interval * NANOS_PER_MICRO
      ensures timerQueue.s.store[ptr].interval == interval && (timerQueue.s.store[ptr].repeated <==> interval > 0)
    {
      timerQueue.AddTimer(ptr, asked + interval * NANOS_PER_MICRO, interval, now);
    }
  }

  /** Each connection stands under its own name, one of those given so far. */
  ghost predicate Named(ipPort: string, next: nat, table: map<string, TcpConnection>) {
    forall n :: n in table ==> table[n].name == n && Issued(ipPort, next, n)
  }

  lemma NamedGrows(ipPort: string, next: nat, table: map<string, TcpConnection>, conn: TcpConnection)
    requires Named(ipPort, next, table) && conn.name == ConnectionName(ipPort, next)
    ensures Named(ipPort, next + 1, table[conn.name := conn])
  {
    forall n | n in table
      ensures Issued(ipPort, next + 1, n)
    {
      IssuedStays(ipPort, next, n);
    }
  }

  lemma RemovedTwice<T>(table: map<string, T>, name: string)
    ensures (table - {name}) - {name} == table - {name}
  {
  }

  class TcpServer {
    const poller: Epoller
    const ipPort: string
    const messageCallback: MessageCallback
    var nextConnIdx: nat
    var tcpConnections: map<string, TcpConnection>

    ghost predicate Valid()
      reads this
    {
      Named(ipPort, nextConnIdx, tcpConnections)
    }

    /** The connection stands in the map under its name. */
    ghost predicate Mapped(conn: TcpConnection)
      reads this
    {
      conn.name in tcpConnections && tcpConnections[conn.name] == conn
    }

    constructor (poller: Epoller, ipPort: string, cb: MessageCallback)
      ensures Valid() && tcpConnections == map[] && nextConnIdx == 1
      ensures this.poller == poller && this.ipPort == ipPort && messageCallback == cb
    {
      this.poller, this.ipPort, messageCallback := poller, ipPort, cb;
      nextConnIdx, tcpConnections := 1, map[];
    }

    /** `sockfd` is what `accept` returned: no descriptor in use. The new entry replaces none. */
    method NewConnection(sockfd: int) returns (connection: TcpConnection)
      requires Valid() && poller.Valid() && forall ch :: ch in poller.channels ==> ch.fd != sockfd
      modifies this, poller`channels, poller`interest
      ensures Valid() && nextConnIdx == old(nextConnIdx) + 1
      ensures fresh(connection) && connection.Valid() && connection.Served() && connection.Settled()
      ensures connection.c == Streams.Apply(FRESH, Establish) && connection.steps == [Establish]
      ensures connection.channel.fd == sockfd && connection.channel.poller == poller
      ensures connection.messageCallback == messageCallback
      ensures connection.name == ConnectionName(ipPort, old(nextConnIdx)) && connection.name !in old(tcpConnections)
      ensures tcpConnections == old(tcpConnections)[connection.name := connection]
    {
      var name := ConnectionName(ipPort, nextConnIdx);
      NextNameIsNew(ipPort, nextConnIdx, tcpConnections.Keys);
      nextConnIdx := nextConnIdx + 1;
      connection := Connect(name, sockfd);
      NamedGrows(ipPort, nextConnIdx - 1, tcpConnections, connection);
      tcpConnections := tcpConnections[name := connection];
    }

    /** The connection object, established. */
    method Connect(name: string, sockfd: int) returns (connection: TcpConnection)
      requires poller.Valid() && forall ch :: ch in poller.channels ==> ch.fd != sockfd
      modifies poller`channels, poller`interest
      ensures fresh(connection) && connection.Valid() && connection.Served() && connection.Settled()
      ensures connection.c == Streams.Apply(FRESH, Establish) && connection.steps == [Establish]
      ensures connection.channel.fd == sockfd && connection.channel.poller == poller
      ensures connection.messageCallback == messageCallback && connection.name == name
    {
      connection := new TcpConnection(name, poller, sockfd, messageCallback);
      connection.ConnectionEstablished();
    }

    /** The close callback: the name leaves the map and the channel leaves the interest list. */
    method RemoveConnection(conn: TcpConnection)
      requires Valid() && conn.Valid() && conn.Served()
      requires conn.connectState == Connected || conn.channel.IsNoneEvent()
      modifies this`tcpConnections, conn, conn.channel`events, conn.channel`status, conn.channel.poller`interest
      ensures Valid() && tcpConnections == old(tcpConnections) - {conn.name}
      ensures conn.Valid() && conn.Served() && conn.c == Streams.Apply(old(conn.c), Destroy)
      ensures conn.steps == old(conn.steps) + [Destroy]
      ensures conn.shown == old(conn.shown) && conn.channel.IsNoneEvent()
      ensures conn.channel.status == New && conn.channel.fd !in conn.channel.poller.interest
      ensures old(conn.Settled()) ==> conn.Settled()
    {
      tcpConnections := tcpConnections - {conn.name};
      conn.ConnectionDestroy();
      conn.channel.poller.RegisteredIffAdded(conn.channel);
    }

    /** Up and in the map as before; or closed, out of the map, and its channel removed. */
    ghost predicate Kept(conn: TcpConnection, before: map<string, TcpConnection>)
      reads this`tcpConnections, conn, conn.channel
    {
      && conn.Settled()
      && if conn.connectState == Connected then
           tcpConnections == before
         else
           conn.connectState == Disconnected && conn.channel.status == New && tcpConnections == before - {conn.name}
    }

    method OnHangup(conn: TcpConnection)
      requires Valid() && conn.Valid() && conn.Served()
      modifies this`tcpConnections, conn, conn.channel`events, conn.channel`status, conn.channel.poller`interest
      ensures Valid() && conn.Valid() && conn.Served() && conn.steps == old(conn.steps) + CLOSING
      ensures tcpConnections == old(tcpConnections) - {conn.name}
      ensures conn.c.input == old(conn.c).input && !conn.channel.IsWriting() && conn.shown == old(conn.shown)
      ensures old(conn.Settled()) && old(conn.connectState) == Connected ==>
                conn.connectState == Disconnected && Kept(conn, old(tcpConnections))
    {
      conn.HandleClose();
      RemoveConnection(conn);
      assert (old(conn.steps) + [Close]) + [Destroy] == old(conn.steps) + CLOSING;
    }

    /** `r` is what `readv` answered, `user` what the message callback did. */
    method OnReadable(conn: TcpConnection) returns (ghost r: ReadResult, ghost user: seq<Streams.Step>)
      requires Valid() && conn.Valid() && conn.Served()
      modifies this`tcpConnections, conn, conn.inputBuffer, conn.outputBuffer
      modifies conn.channel`events, conn.channel`status, conn.channel.poller`interest
      ensures Valid() && conn.Valid() && conn.Served()
      ensures conn.steps == old(conn.steps) + ReadableSteps(r, user)
      ensures tcpConnections == if r == ReadBytes([]) then old(tcpConnections) - {conn.name} else old(tcpConnections)
      ensures Delivered(conn.messageCallback, old(conn.c).input, r, user, old(conn.shown), conn.shown)
      ensures old(conn.Settled()) && old(conn.connectState) == Connected ==> Kept(conn, old(tcpConnections))
    {
      var answer := KernelReads(conn.inputBuffer.WritableSize() + EXTRA_SIZE);
      r := answer;
      var closed;
      closed, user := conn.HandleRead(answer);
      if closed {
        RemoveConnection(conn);
        assert (old(conn.steps) + [Close]) + [Destroy] == old(conn.steps) + CLOSING;
      }
    }

    /** `wrote` is the kernel's answer, if it is asked. */
    method OnWritable(conn: TcpConnection) returns (aborted: bool, ghost wrote: int)
      requires conn.Valid() && conn.Served()
      modifies conn`steps, conn`c, conn`wire, conn.outputBuffer
      modifies conn.channel`events, conn.channel`status, conn.channel.poller`interest
      ensures conn.Valid() && conn.Served()
      ensures aborted <==> old(conn.channel.IsWriting()) && wrote <= 0
      ensures aborted ==> conn.channel.IsWriting()
      ensures conn.steps == old(conn.steps) + WritableSteps(aborted, wrote)
      ensures old(conn.Settled()) ==> conn.Settled() && conn.channel.status == old(conn.channel.status)
    {
      var w := KernelWrites(conn.outputBuffer.ReadableSize());
      wrote := w;
      aborted := conn.HandleWrite(w);
    }

    /** `Channel::handleEvents` with the callbacks of a connection, in the order hang-up, read, write, each
        iff its bit is set. The results say what the kernel answered and what the message callback did.
        After a dispatch without both hang-up and read, a connection that was up is up, mapped and registered
        for what it needs, or closed and neither. */
    method HandleEvents(conn: TcpConnection)
      returns (aborted: bool, ghost r: ReadResult, ghost user: seq<Streams.Step>, ghost wrote: int)
      requires Valid() && conn.Valid() && conn.Served()
      modifies this`tcpConnections, conn, conn.inputBuffer, conn.outputBuffer
      modifies conn.channel`events, conn.channel`status, conn.channel.poller`interest
      ensures Valid() && conn.Valid() && conn.Served()
      ensures
        var revents := old(conn.channel.revents);
        && conn.steps ==
           old(conn.steps)
           + (if revents.hup then CLOSING else [])
           + (if revents.readable then ReadableSteps(r, user) else [])
           + (if revents.writable then WritableSteps(aborted, wrote) else [])
        && (aborted ==> revents.writable && conn.channel.IsWriting() && wrote <= 0)
        && (revents.writable && !revents.readable ==>
              (aborted <==> !revents.hup && old(conn.channel.IsWriting()) && wrote <= 0))
        && tcpConnections ==
           (if revents.hup || (revents.readable && r == ReadBytes([])) then old(tcpConnections) - {conn.name}
            else old(tcpConnections))
        && (if revents.readable then
              Delivered(conn.messageCallback, old(conn.c).input, r, user, old(conn.shown), conn.shown)
            else
              user == [] && conn.shown == old(conn.shown))
      ensures
        old(conn.Settled()) && old(conn.connectState) == Connected && old(Mapped(conn)) &&
        !(conn.channel.revents.hup && conn.channel.revents.readable) ==>
          && Kept(conn, old(tcpConnections)) && RightlyRegistered(conn)
          && (if conn.connectState == Connected then Mapped(conn) else conn.name !in tcpConnections)
    {
      RemovedTwice(tcpConnections, conn.name);
      if conn.channel.revents.hup {
        OnHangup(conn);
      }
      assert conn.steps == old(conn.steps) + if conn.channel.revents.hup then CLOSING else [];
      aborted, r, user, wrote := HandleReadWrite(conn);
      conn.channel.poller.RegisteredIffAdded(conn.channel);
    }

    /** The rest of the dispatch, after a hang-up or without. */
    method HandleReadWrite(conn: TcpConnection)
      returns (aborted: bool, ghost r: ReadResult, ghost user: seq<Streams.Step>, ghost wrote: int)
      requires Valid() && conn.Valid() && conn.Served()
      modifies this`tcpConnections, conn, conn.inputBuffer, conn.outputBuffer
      modifies conn.channel`events, conn.channel`status, conn.channel.poller`interest
      ensures Valid() && conn.Valid() && conn.Served()
      ensures
        var revents := conn.channel.revents;
        && conn.steps ==
           old(conn.steps)
           + (if revents.readable then ReadableSteps(r, user) else [])
           + (if revents.writable then WritableSteps(aborted, wrote) else [])
        && (aborted ==> revents.writable && conn.channel.IsWriting() && wrote <= 0)
        && (revents.writable && !revents.readable ==> (aborted <==> old(conn.channel.IsWriting()) && wrote <= 0))
        && tcpConnections ==
           (if revents.readable && r == ReadBytes([]) then old(tcpConnections) - {conn.name} else old(tcpConnections))
        && (if revents.readable then
              Delivered(conn.messageCallback, old(conn.c).input, r, user, old(conn.shown), conn.shown)
            else
              user == [] && conn.shown == old(conn.shown))
      ensures old(conn.Settled()) && !conn.channel.revents.readable ==>
                && conn.Settled() && conn.connectState == old(conn.connectState)
                && conn.channel.status == old(conn.channel.status)
      ensures old(conn.Settled()) && old(conn.connectState) == Connected ==> Kept(conn, old(tcpConnections))
    {
      aborted, r, user, wrote := false, ReadError, [], 0;
      if conn.channel.revents.readable {
        r, user := OnReadable(conn);
      }
      if conn.channel.revents.writable {
        aborted, wrote := OnWritable(conn);
      }
    }

    ghost predicate RightlyRegistered(conn: TcpConnection)
      requires conn.outputBuffer.Valid()
      reads conn, conn.channel, conn.channel.poller, conn.outputBuffer
    {
      var fd, interest := conn.channel.fd, conn.channel.poller.interest;
      if conn.connectState == Connected then
        fd in interest && interest[fd] == Reg(Mask(true, conn.outputBuffer.Contents() != []), conn.channel)
      else
        fd !in interest
    }
  }

  /** `readv` returns -1 or what it stored in its two segments. */
  method KernelReads(limit: nat) returns (r: ReadResult)
    ensures r.ReadBytes? ==> |r.bytes| <= limit
  {
    r := *;
    if r.ReadBytes? && |r.bytes| > limit {
      r := ReadError;
    }
  }
}
