/** The whole server on one poller: the registration machine, every connection's machine and the server's
    map, moved together exactly as the handlers of TcpServer.cpp and TcpConnection.cpp move them. Channels
    are known by their descriptors; the library never closes a client's, so `accept` never repeats one. */
module Reactor {
  import opened Registry
  import opened Streams
  import opened Buffers
  import opened Naming

  datatype Peer = Peer(name: string, conn: Conn)

  /** `peers` has every connection ever made, `table` is `tcpConnections_`, `issued` the names given. */
  datatype System = System(
    listenFd: int,
    timerFd: int,
    ipPort: string,
    listening: bool,
    nextConnIdx: nat,
    world: World<int>,
    peers: map<int, Peer>,
    table: map<string, int>,
    issued: set<string>)

  datatype Event =
    | Start
    | Accept(fd: int)
    | OnPeer(fd: int, step: Step)

  function NewChannel(w: World<int>, fd: int): World<int> {
    w.(chans := w.chans[fd := Chan(fd, NO_EVENT, New)])
  }

  /** The timer channel is registered when the event loop is built, the acceptor's when it listens. */
  ghost function Boot(listenFd: int, timerFd: int, ipPort: string): System {
    var w := NewChannel(NewChannel(World(map[], map[]), timerFd), listenFd);
    System(listenFd, timerFd, ipPort, false, 1, Did(w, timerFd, EnableReadable), map[], map[], {})
  }

  /** The world after a call that returns. */
  ghost function Did(w: World<int>, c: int, call: Call): World<int>
    requires c in w.chans
  {
    match Perform(w, c, call)
    case Done(w') => w'
    case _ => w
  }

  /** The channel calls a connection's step makes, in program order. */
  function Calls(c: Conn, step: Step): seq<Call> {
    match step
    case Establish => [EnableReadable]
    case Send(msg, wrote) => if TakenNow(c, wrote) < |msg| && !c.events.writable then [EnableWritable] else []
    case Writable(wrote) => if c.events.writable && wrote == |c.output| then [DisableWritable] else []
    case Close => [DisableAll, Remove]
    case _ => []
  }

  /** Consecutive calls on one channel, up to the first that does not return. */
  ghost function PerformAll(w: World<int>, c: int, calls: seq<Call>): Outcome<World<int>>
    requires c in w.chans
    decreases calls
  {
    if calls == [] then Done(w)
    else
      match Perform(w, c, calls[0])
      case Done(w') => if c in w'.chans then PerformAll(w', c, calls[1..]) else CtlFailed
      case CtlFailed => CtlFailed
      case AssertFailed => AssertFailed
  }

  /** What the program and its environment allow between two dispatches. Steps of connections are orderly:
      closing happens once, and a send after it leaves nothing over. */
  ghost predicate Possible(s: System, e: Event) {
    match e
    case Start => !s.listening && s.listenFd in s.world.chans
    case Accept(fd) => s.listening && fd !in s.world.chans
    case OnPeer(fd, step) =>
      && fd in s.peers && fd in s.world.chans && !step.Destroy?
      && Streams.Legal(s.peers[fd].conn, step) && Orderly(s.peers[fd].conn, step)
  }

  ghost function Next(s: System, e: Event): Outcome<System>
    requires Possible(s, e)
  {
    match e
    case Start =>
      With(PerformAll(s.world, s.listenFd, [EnableReadable]), s.(listening := true))
    case Accept(fd) =>
      var name := ConnectionName(s.ipPort, s.nextConnIdx);
      With(PerformAll(NewChannel(s.world, fd), fd, Calls(FRESH, Establish)),
           s.(nextConnIdx := s.nextConnIdx + 1,
              peers := s.peers[fd := Peer(name, Apply(FRESH, Establish))],
              table := s.table[name := fd],
              issued := s.issued + {name}))
    case OnPeer(fd, step) =>
      var peer := s.peers[fd];
      With(PerformAll(s.world, fd, Calls(peer.conn, step)),
           s.(peers := s.peers[fd := peer.(conn := Apply(peer.conn, step))],
              table := if step.Close? then s.table - {peer.name} else s.table))
  }

  ghost function With(o: Outcome<World<int>>, s: System): Outcome<System> {
    match o
    case Done(w) => Done(s.(world := w))
    case CtlFailed => CtlFailed
    case AssertFailed => AssertFailed
  }

  // The invariant.

  /** The kernel and the channels agree, and channels are known by their descriptors. */
  ghost predicate WorldSound(s: System) {
    && Good(s.world)
    && (forall fd :: fd in s.world.chans ==> s.world.chans[fd].fd == fd)
    && (forall fd :: fd in s.world.chans <==> fd == s.listenFd || fd == s.timerFd || fd in s.peers)
  }

  ghost predicate Fixed(s: System) {
    && s.listenFd != s.timerFd && s.listenFd !in s.peers && s.timerFd !in s.peers
    && s.listenFd in s.world.chans && s.timerFd in s.world.chans
    && s.world.chans[s.timerFd] == Chan(s.timerFd, READABLE, Added)
    && s.world.chans[s.listenFd] ==
       if s.listening then Chan(s.listenFd, READABLE, Added) else Chan(s.listenFd, NO_EVENT, New)
  }

  /** A connection is up, registered and in the map under its name, or it is down and neither. */
  ghost predicate PeerSound(s: System, fd: int)
    requires fd in s.peers
  {
    var peer := s.peers[fd];
    && fd in s.world.chans
    && Tracked(peer.conn) && Conserved(peer.conn)
    && s.world.chans[fd].events == peer.conn.events
    && peer.name in s.issued
    && (if peer.conn.state == Connected then
          s.world.chans[fd].status == Added && peer.name in s.table && s.table[peer.name] == fd
        else
          peer.conn.state == Disconnected && s.world.chans[fd].status == New && peer.name !in s.table)
  }

  ghost predicate TableSound(s: System) {
    forall n :: n in s.table ==>
      n in s.issued && s.table[n] in s.peers && s.peers[s.table[n]].name == n
  }

  /** No name is given twice. */
  ghost predicate NamesSound(s: System) {
    && (forall n :: n in s.issued ==> Issued(s.ipPort, s.nextConnIdx, n))
    && (forall a, b :: a in s.peers && b in s.peers && a != b ==> s.peers[a].name != s.peers[b].name)
  }

  ghost predicate Inv(s: System) {
    && WorldSound(s) && Fixed(s) && TableSound(s) && NamesSound(s)
    && forall fd :: fd in s.peers ==> PeerSound(s, fd)
  }

  // Calls on one channel.

  /** The lists of calls that handlers make. */
  ghost predicate Usual(calls: seq<Call>) {
    calls == [] || (|calls| == 1 && calls[0] != Remove) || calls == [DisableAll, Remove]
  }

  lemma OneCall(w: World<int>, c: int, call: Call)
    requires Good(w) && c in w.chans && call != Remove
    ensures Perform(w, c, call).Done? && PerformAll(w, c, [call]) == Perform(w, c, call)
  {
    PerformAgrees(w, c, call);
    assert [call][1..] == [];
  }

  lemma ClosingCalls(w: World<int>, c: int)
    requires Good(w) && c in w.chans
    ensures
      var disabled := Perform(w, c, DisableAll);
      && disabled.Done? && Good(disabled.value) && c in disabled.value.chans
      && disabled.value.chans[c].events == NO_EVENT
      && Perform(disabled.value, c, Remove).Done?
      && PerformAll(w, c, [DisableAll, Remove]) == Perform(disabled.value, c, Remove)
  {
    PerformAgrees(w, c, DisableAll);
    var w1 := Perform(w, c, DisableAll).value;
    PerformAgrees(w1, c, Remove);
    assert [DisableAll, Remove][1..] == [Remove] && [Remove][1..] == [];
    assert PerformAll(w1, c, [Remove]) == Perform(w1, c, Remove);
  }

  ghost predicate OnlyThis(w: World<int>, w': World<int>, c: int) {
    && w'.chans.Keys == w.chans.Keys
    && forall d :: d in w.chans && d != c ==> w'.chans[d] == w.chans[d]
  }

  /** Such calls always return, keep the agreement, and touch no other channel. */
  lemma {:induction false} PerformAllSound(w: World<int>, c: int, calls: seq<Call>)
    requires Good(w) && c in w.chans && Usual(calls)
    ensures PerformAll(w, c, calls).Done?
    ensures Good(PerformAll(w, c, calls).value) && OnlyThis(w, PerformAll(w, c, calls).value, c)
    ensures PerformAll(w, c, calls).value.chans[c].fd == w.chans[c].fd
    ensures
      var before, after := w.chans[c], PerformAll(w, c, calls).value.chans[c];
      && (calls == [] ==> after == before)
      && (|calls| == 1 ==>
            after.events == Events(calls[0], before.events) && after.status == StatusAfter(calls[0], before))
      && (|calls| == 2 ==> after.events == NO_EVENT && after.status == New)
  {
    if |calls| == 1 {
      assert calls == [calls[0]];
      OneCall(w, c, calls[0]);
      PerformAgrees(w, c, calls[0]);
      PerformStatus(w, c, calls[0]);
    } else if |calls| == 2 {
      ClosingCalls(w, c);
      PerformAgrees(w, c, DisableAll);
      var w1 := Perform(w, c, DisableAll).value;
      PerformAgrees(w1, c, Remove);
      PerformStatus(w1, c, Remove);
    }
  }

  // Names.

  lemma AcceptNames(s: System, e: Event)
    requires NamesSound(s) && e.Accept? && Possible(s, e) && Next(s, e).Done?
    requires forall fd :: fd in s.peers ==> s.peers[fd].name in s.issued
    ensures NamesSound(Next(s, e).value)
    ensures ConnectionName(s.ipPort, s.nextConnIdx) !in s.issued
  {
    NextNameIsNew(s.ipPort, s.nextConnIdx, s.issued);
    var s' := Next(s, e).value;
    forall n | n in s'.issued
      ensures Issued(s'.ipPort, s'.nextConnIdx, n)
    {
      if n in s.issued {
        IssuedStays(s.ipPort, s.nextConnIdx, n);
      }
    }
  }

  // Steps keep the invariant.

  lemma StartKeepsInv(s: System)
    requires Inv(s) && Possible(s, Start)
    ensures Next(s, Start).Done? && Inv(Next(s, Start).value)
  {
    PerformAllSound(s.world, s.listenFd, [EnableReadable]);
    var s' := Next(s, Start).value;
    forall fd | fd in s'.peers
      ensures PeerSound(s', fd)
    {
      assert PeerSound(s, fd);
    }
  }

  lemma NewChannelGood(s: System, fd: int)
    requires WorldSound(s) && fd !in s.world.chans
    ensures Good(NewChannel(s.world, fd))
  {
  }

  /** The peer a step is about. */
  lemma OwnPeerSound(s: System, s': System, fd: int, step: Step)
    requires WorldSound(s) && PeerSoundIn(s, fd) && Possible(s, OnPeer(fd, step))
    requires Next(s, OnPeer(fd, step)) == Done(s')
    ensures PeerSoundIn(s', fd)
  {
    var c := s.peers[fd].conn;
    KeepsTrackedIff(c, step);
    KeepsConserved(c, step);
    PerformAllSound(s.world, fd, Calls(c, step));
  }

  ghost predicate PeerSoundIn(s: System, fd: int) {
    fd in s.peers && PeerSound(s, fd)
  }

  /** Every other peer. */
  lemma OtherPeerSound(s: System, s': System, fd: int)
    requires PeerSoundIn(s, fd)
    requires fd in s'.peers && s'.peers[fd] == s.peers[fd]
    requires fd in s'.world.chans && s'.world.chans[fd] == s.world.chans[fd]
    requires s.issued <= s'.issued
    requires s.peers[fd].name in s.table <==> s.peers[fd].name in s'.table
    requires s.peers[fd].name in s.table ==> s'.table[s.peers[fd].name] == s.table[s.peers[fd].name]
    ensures PeerSoundIn(s', fd)
  {
  }

  lemma OnPeerKeepsWorld(s: System, fd: int, step: Step)
    requires WorldSound(s) && Fixed(s) && Possible(s, OnPeer(fd, step))
    ensures Next(s, OnPeer(fd, step)).Done?
    ensures
      var s' := Next(s, OnPeer(fd, step)).value;
      WorldSound(s') && Fixed(s') && OnlyThis(s.world, s'.world, fd)
  {
    PerformAllSound(s.world, fd, Calls(s.peers[fd].conn, step));
  }

  lemma OnPeerKeepsNames(s: System, s': System, fd: int, step: Step)
    requires NamesSound(s) && TableSound(s) && Possible(s, OnPeer(fd, step))
    requires Next(s, OnPeer(fd, step)) == Done(s')
    ensures NamesSound(s') && TableSound(s')
  {
  }

  lemma OnPeerKeepsInv(s: System, fd: int, step: Step)
    requires Inv(s) && Possible(s, OnPeer(fd, step))
    ensures Next(s, OnPeer(fd, step)).Done? && Inv(Next(s, OnPeer(fd, step)).value)
  {
    OnPeerKeepsWorld(s, fd, step);
    var s' := Next(s, OnPeer(fd, step)).value;
    OnPeerKeepsNames(s, s', fd, step);
    forall g | g in s'.peers
      ensures PeerSound(s', g)
    {
      assert PeerSoundIn(s, g);
      if g == fd {
        OwnPeerSound(s, s', fd, step);
      } else {
        assert s.peers[g].name != s.peers[fd].name;
        OtherPeerSound(s, s', g);
      }
    }
  }

  lemma AcceptKeepsWorld(s: System, fd: int)
    requires WorldSound(s) && Fixed(s) && Possible(s, Accept(fd))
    ensures Next(s, Accept(fd)).Done?
    ensures
      var s' := Next(s, Accept(fd)).value;
      && WorldSound(s') && Fixed(s')
      && s'.world.chans[fd] == Chan(fd, READABLE, Added)
      && forall g :: g in s.world.chans ==> g in s'.world.chans && s'.world.chans[g] == s.world.chans[g]
  {
    NewChannelGood(s, fd);
    PerformAllSound(NewChannel(s.world, fd), fd, [EnableReadable]);
  }

  /** The accepted peer. */
  lemma NewPeerSound(s: System, fd: int)
    requires WorldSound(s) && Fixed(s) && Possible(s, Accept(fd)) && Next(s, Accept(fd)).Done?
    ensures PeerSoundIn(Next(s, Accept(fd)).value, fd)
  {
    AcceptKeepsWorld(s, fd);
  }

  lemma AcceptKeepsTable(s: System, fd: int)
    requires TableSound(s) && NamesSound(s) && Possible(s, Accept(fd)) && Next(s, Accept(fd)).Done?
    requires fd !in s.peers && forall g :: g in s.peers ==> s.peers[g].name in s.issued
    ensures TableSound(Next(s, Accept(fd)).value) && NamesSound(Next(s, Accept(fd)).value)
  {
    AcceptNames(s, Accept(fd));
  }

  /** A peer there before. */
  lemma AcceptKeepsPeer(s: System, fd: int, g: int)
    requires WorldSound(s) && Fixed(s) && PeerSoundIn(s, g)
    requires Possible(s, Accept(fd)) && Next(s, Accept(fd)).Done?
    requires s.peers[g].name != ConnectionName(s.ipPort, s.nextConnIdx)
    ensures PeerSoundIn(Next(s, Accept(fd)).value, g)
  {
    AcceptKeepsWorld(s, fd);
    OtherPeerSound(s, Next(s, Accept(fd)).value, g);
  }

  lemma AcceptKeepsInv(s: System, fd: int)
    requires Inv(s) && Possible(s, Accept(fd))
    ensures Next(s, Accept(fd)).Done? && Inv(Next(s, Accept(fd)).value)
  {
    AcceptKeepsWorld(s, fd);
    forall g | g in s.peers
      ensures PeerSoundIn(s, g) && s.peers[g].name in s.issued
    {
      assert PeerSound(s, g);
    }
    AcceptKeepsTable(s, fd);
    AcceptNames(s, Accept(fd));
    NewPeerSound(s, fd);
    forall g | g in s.peers
      ensures PeerSoundIn(Next(s, Accept(fd)).value, g)
    {
      AcceptKeepsPeer(s, fd, g);
    }
  }

  lemma {:induction false} KeepsInv(s: System, e: Event)
    requires Inv(s) && Possible(s, e)
    ensures Next(s, e).Done? && Inv(Next(s, e).value)
  {
    match e
    case Start => StartKeepsInv(s);
    case Accept(fd) => AcceptKeepsInv(s, fd);
    case OnPeer(fd, step) => OnPeerKeepsInv(s, fd, step);
  }

  lemma BootInv(listenFd: int, timerFd: int, ipPort: string)
    requires listenFd != timerFd
    ensures Inv(Boot(listenFd, timerFd, ipPort))
  {
    var w := NewChannel(NewChannel(World(map[], map[]), timerFd), listenFd);
    PerformAgrees(w, timerFd, EnableReadable);
    PerformStatus(w, timerFd, EnableReadable);
  }

  // Runs.

  /** The run goes on as long as calls return. */
  ghost predicate LegalRun(s: System, events: seq<Event>)
    decreases events
  {
    events == [] ||
    (Possible(s, events[0]) && (Next(s, events[0]).Done? ==> LegalRun(Next(s, events[0]).value, events[1..])))
  }

  ghost function Run(s: System, events: seq<Event>): Outcome<System>
    requires LegalRun(s, events)
    decreases events
  {
    if events == [] then Done(s)
    else
      match Next(s, events[0])
      case Done(s') => Run(s', events[1..])
      case CtlFailed => CtlFailed
      case AssertFailed => AssertFailed
  }

  lemma {:induction false} RunKeepsInv(s: System, events: seq<Event>)
    requires Inv(s) && LegalRun(s, events)
    ensures Run(s, events).Done? && Inv(Run(s, events).value)
    decreases events
  {
    if events != [] {
      KeepsInv(s, events[0]);
      RunKeepsInv(Next(s, events[0]).value, events[1..]);
    }
  }

  /** The mask a connection should be registered with. */
  function Interest(c: Conn): Mask {
    Mask(true, c.output != [])
  }

  /** The kernel's list holds the timer, the listening socket once it listens, and the connections of the
      map, and nothing else; each connection asks to read, and to write exactly while it has a backlog. */
  ghost predicate Exact(s: System) {
    && s.world.interest.Keys ==
       {s.timerFd} + (if s.listening then {s.listenFd} else {}) + s.table.Values
    && s.world.interest[s.timerFd] == Reg(READABLE, s.timerFd)
    && (s.listening ==> s.world.interest[s.listenFd] == Reg(READABLE, s.listenFd))
    && forall n :: n in s.table ==>
         && s.table[n] in s.peers
         && s.world.interest[s.table[n]] == Reg(Interest(s.peers[s.table[n]].conn), s.table[n])
  }

  lemma InvIsExact(s: System)
    requires Inv(s)
    ensures Exact(s)
  {
    forall n | n in s.table
      ensures s.table[n] in s.peers && s.table[n] in s.world.interest
      ensures s.world.interest[s.table[n]] == Reg(Interest(s.peers[s.table[n]].conn), s.table[n])
    {
      assert PeerSound(s, s.table[n]);
    }
    forall fd | fd in s.world.interest && fd != s.timerFd && fd != s.listenFd
      ensures fd in s.table.Values
    {
      var c := s.world.interest[fd].channel;
      assert c in s.world.chans && s.world.chans[c].fd == c == fd;
      assert PeerSound(s, fd);
      assert s.table[s.peers[fd].name] == fd;
    }
  }

  /** System-wide registration: over every run of the server no `epoll_ctl` fails, no assertion fails, and
      between dispatches the kernel's interest list is exactly what it should be. */
  lemma {:induction false} RegistrationIsExact(listenFd: int, timerFd: int, ipPort: string, events: seq<Event>)
    requires listenFd != timerFd && LegalRun(Boot(listenFd, timerFd, ipPort), events)
    ensures Run(Boot(listenFd, timerFd, ipPort), events).Done?
    ensures Exact(Run(Boot(listenFd, timerFd, ipPort), events).value)
  {
    BootInv(listenFd, timerFd, ipPort);
    RunKeepsInv(Boot(listenFd, timerFd, ipPort), events);
    InvIsExact(Run(Boot(listenFd, timerFd, ipPort), events).value);
  }

  /** And for every connection ever made: while it is up it is in the map under its own name and its
      callback ran for UP; once it is down its name is gone, its channel is new and unregistered, and the
      callback ran once for each. Its bytes are conserved throughout. */
  lemma {:induction false} ConnectionsSettle(listenFd: int, timerFd: int, ipPort: string, events: seq<Event>, fd: int)
    requires listenFd != timerFd && LegalRun(Boot(listenFd, timerFd, ipPort), events)
    requires Run(Boot(listenFd, timerFd, ipPort), events).Done?
    requires fd in Run(Boot(listenFd, timerFd, ipPort), events).value.peers
    ensures
      var s := Run(Boot(listenFd, timerFd, ipPort), events).value;
      var peer := s.peers[fd];
      && peer.conn.accepted + peer.conn.output == peer.conn.sent
      && (peer.conn.state == Connected ==>
            peer.name in s.table && s.table[peer.name] == fd && peer.conn.notices == [Up])
      && (peer.conn.state != Connected ==>
            && peer.conn.state == Disconnected && peer.conn.notices == [Up, Down]
            && peer.name !in s.table && fd !in s.table.Values
            && fd !in s.world.interest && fd in s.world.chans && s.world.chans[fd] == Chan(fd, NO_EVENT, New))
  {
    BootInv(listenFd, timerFd, ipPort);
    RunKeepsInv(Boot(listenFd, timerFd, ipPort), events);
    var s := Run(Boot(listenFd, timerFd, ipPort), events).value;
    assert PeerSound(s, fd);
  }

  /** The steps connection `fd` takes over a run of the server. */
  ghost function Own(events: seq<Event>, fd: int): seq<Step> {
    if events == [] then []
    else
      (match events[0]
       case Start => []
       case Accept(g) => if g == fd then [Establish] else []
       case OnPeer(g, step) => if g == fd then [step] else [])
      + Own(events[1..], fd)
  }

  /** Connection `fd` is where the steps `own` lead; it is not there at all before the first. */
  ghost predicate Follows(s: System, fd: int, own: seq<Step>) {
    && Streams.LegalRun(FRESH, own)
    && (fd in s.peers <==> own != [])
    && (fd in s.peers ==> s.peers[fd].conn == Streams.Run(FRESH, own))
  }

  lemma StepFollows(s: System, e: Event, fd: int, own: seq<Step>)
    requires Inv(s) && Possible(s, e) && Next(s, e).Done? && Follows(s, fd, own)
    ensures Follows(Next(s, e).value, fd, own + Own([e], fd))
  {
    assert [e][1..] == [];
    match e
    case Start => assert own + Own([e], fd) == own;
    case Accept(g) =>
      if g == fd {
        RunStep(FRESH, own, Establish);
        assert Own([e], fd) == [Establish];
      } else {
        assert own + Own([e], fd) == own;
      }
    case OnPeer(g, step) =>
      if g == fd {
        RunStep(FRESH, own, step);
        assert Own([e], fd) == [step];
      } else {
        assert own + Own([e], fd) == own;
      }
  }

  lemma OwnSplits(events: seq<Event>, fd: int, own: seq<Step>)
    requires events != []
    ensures (own + Own([events[0]], fd)) + Own(events[1..], fd) == own + Own(events, fd)
  {
    assert [events[0]][1..] == [];
    assert Own(events, fd) == Own([events[0]], fd) + Own(events[1..], fd);
  }

  lemma {:induction false} RunFollows(s: System, events: seq<Event>, fd: int, own: seq<Step>)
    requires Inv(s) && LegalRun(s, events) && Follows(s, fd, own)
    ensures Run(s, events).Done? && Follows(Run(s, events).value, fd, own + Own(events, fd))
    decreases events
  {
    if events == [] {
      assert own + Own(events, fd) == own;
    } else {
      KeepsInv(s, events[0]);
      StepFollows(s, events[0], fd, own);
      RunFollows(Next(s, events[0]).value, events[1..], fd, own + Own([events[0]], fd));
      OwnSplits(events, fd, own);
    }
  }

  /** A server of many connections is many servers of one: over every run each connection is exactly where
      its own steps lead, whatever the others do between them. So its bytes, both ways, are its own. */
  lemma {:induction false} ConnectionsAreApart(listenFd: int, timerFd: int, ipPort: string, events: seq<Event>, fd: int)
    requires listenFd != timerFd && LegalRun(Boot(listenFd, timerFd, ipPort), events)
    ensures Run(Boot(listenFd, timerFd, ipPort), events).Done?
    ensures
      var s, own := Run(Boot(listenFd, timerFd, ipPort), events).value, Own(events, fd);
      && Follows(s, fd, own)
      && (fd in s.peers ==>
            && Wire(FRESH, own) + s.peers[fd].conn.output == Messages(own)
            && TakenTotal(own) <= |Arrivals(own)|
            && s.peers[fd].conn.input == Arrivals(own)[TakenTotal(own)..])
  {
    var s0 := Boot(listenFd, timerFd, ipPort);
    BootInv(listenFd, timerFd, ipPort);
    RunFollows(s0, events, fd, []);
    assert [] + Own(events, fd) == Own(events, fd);
    StreamConserved(Own(events, fd));
  }

  /** Why a closed connection must not be used: a `send` on it puts its channel back into the interest
      list, outside the map, iff the kernel does not take the whole message at once. */
  lemma SendOnClosedRegisters(s: System, fd: int, msg: seq<byte>, wrote: int)
    requires Inv(s) && fd in s.peers && s.peers[fd].conn.state == Disconnected && -1 <= wrote <= |msg|
    ensures
      var c := s.peers[fd].conn;
      var after := PerformAll(s.world, fd, Calls(c, Send(msg, wrote)));
      after.Done? && (fd in after.value.interest <==> TakenNow(c, wrote) < |msg|)
  {
    assert PeerSound(s, fd);
    var calls := Calls(s.peers[fd].conn, Send(msg, wrote));
    PerformAllSound(s.world, fd, calls);
    var w := PerformAll(s.world, fd, calls).value;
    assert fd in w.interest ==> w.interest[fd].channel in w.chans;
  }

  /** Seen before the call: it does not, whatever the kernel answers, iff there is nothing to send. */
  lemma SendOnClosedIsHarmlessIff(s: System, fd: int, msg: seq<byte>)
    requires Inv(s) && fd in s.peers && s.peers[fd].conn.state == Disconnected
    ensures
      (forall wrote :: -1 <= wrote <= |msg| ==> !SendRegisters(s, fd, msg, wrote)) <==> msg == []
  {
    forall wrote | -1 <= wrote <= |msg|
      ensures SendRegisters(s, fd, msg, wrote) <==> TakenNow(s.peers[fd].conn, wrote) < |msg|
    {
      SendOnClosedRegisters(s, fd, msg, wrote);
    }
    assert msg != [] ==> SendRegisters(s, fd, msg, -1);
  }

  ghost predicate SendRegisters(s: System, fd: int, msg: seq<byte>, wrote: int)
    requires fd in s.peers && fd in s.world.chans && -1 <= wrote <= |msg|
  {
    var after := PerformAll(s.world, fd, Calls(s.peers[fd].conn, Send(msg, wrote)));
    after.Done? && fd in after.value.interest
  }

  lemma ClosedIsGone(s: System, fd: int)
    requires Inv(s) && fd in s.peers && s.peers[fd].conn.state == Disconnected
    ensures fd in s.world.chans && fd !in s.world.interest && fd !in s.table.Values
  {
    assert PeerSound(s, fd);
    RegisteredIffAdded(s, fd);
  }

  lemma {:induction false} RunOfTwo(s: System, a: Event, b: Event)
    requires Possible(s, a) && Next(s, a).Done? && Possible(Next(s, a).value, b)
    ensures LegalRun(s, [a, b]) && Run(s, [a, b]) == Next(Next(s, a).value, b)
  {
    assert [a, b][1..] == [b] && [b][1..] == [];
    var s1 := Next(s, a).value;
    assert LegalRun(s1, [b]) && Run(s1, [b]) == Next(s1, b);
  }

  lemma CanClose(s: System, fd: int)
    requires Inv(s) && Possible(s, Accept(fd)) && Next(s, Accept(fd)).Done?
    ensures Possible(Next(s, Accept(fd)).value, OnPeer(fd, Close))
  {
    AcceptKeepsWorld(s, fd);
  }

  /** A listening server accepts a connection, and it closes. */
  lemma {:induction false} OneConnection(s: System, fd: int)
    requires Inv(s) && s.listening && fd !in s.world.chans
    ensures
      var events := [Accept(fd), OnPeer(fd, Close)];
      && LegalRun(s, events) && Run(s, events).Done?
      && (var s' := Run(s, events).value;
          Inv(s') && fd in s'.peers && s'.peers[fd].conn.state == Disconnected)
  {
    KeepsInv(s, Accept(fd));
    CanClose(s, fd);
    KeepsInv(Next(s, Accept(fd)).value, OnPeer(fd, Close));
    RunOfTwo(s, Accept(fd), OnPeer(fd, Close));
  }

  /** A run that shows it: the server starts, accepts a connection, and the connection closes; a send on it
      that the kernel refuses then registers its descriptor again, outside the map. */
  lemma {:induction false} ClosedSendCanRegister(b: byte)
    ensures
      var events := [Start, Accept(5), OnPeer(5, Close)];
      && LegalRun(Boot(4, 3, ""), events) && Run(Boot(4, 3, ""), events).Done?
      && (var s := Run(Boot(4, 3, ""), events).value;
          && 5 in s.peers && 5 in s.world.chans && 5 !in s.table.Values && 5 !in s.world.interest
          && SendRegisters(s, 5, [b], -1))
  {
    var s0 := Boot(4, 3, "");
    BootInv(4, 3, "");
    KeepsInv(s0, Start);
    var s1 := Next(s0, Start).value;
    OneConnection(s1, 5);
    assert [Start, Accept(5), OnPeer(5, Close)][1..] == [Accept(5), OnPeer(5, Close)];
    var s := Run(s1, [Accept(5), OnPeer(5, Close)]).value;
    ClosedIsGone(s, 5);
    SendOnClosedRegisters(s, 5, [b], -1);
  }

  // One iteration of the event loop.

  lemma RegisteredIffAdded(s: System, fd: int)
    requires WorldSound(s)
    ensures fd in s.world.interest <==> fd in s.world.chans && s.world.chans[fd].status == Added
  {
    if fd in s.world.interest {
      var c := s.world.interest[fd].channel;
      assert c in s.world.chans && s.world.chans[c].fd == c;
    }
  }

  /** A connection's own step keeps it registered, unless it closes. */
  lemma OwnStaysRegistered(s: System, fd: int, step: Step)
    requires Inv(s) && Possible(s, OnPeer(fd, step)) && step != Close && s.peers[fd].conn.state == Connected
    ensures Next(s, OnPeer(fd, step)).Done? && fd in Next(s, OnPeer(fd, step)).value.world.interest
  {
    KeepsInv(s, OnPeer(fd, step));
    var s' := Next(s, OnPeer(fd, step)).value;
    assert PeerSound(s', fd);
  }

  lemma StaysRegistered(s: System, e: Event, fd: int)
    requires Inv(s) && Possible(s, e) && fd in s.world.interest
    requires e != OnPeer(fd, Close)
    ensures Next(s, e).Done? && fd in Next(s, e).value.world.interest
  {
    RegisteredIffAdded(s, fd);
    match e
    case Start => PerformAllSound(s.world, s.listenFd, [EnableReadable]);
    case Accept(g) => AcceptKeepsWorld(s, g);
    case OnPeer(g, step) =>
      if g == fd {
        assert PeerSound(s, fd);
        OwnStaysRegistered(s, fd, step);
      } else {
        OnPeerKeepsWorld(s, g, step);
      }
  }

  ghost predicate NeverCloses(events: seq<Event>, fd: int) {
    forall i :: 0 <= i < |events| ==> events[i] != OnPeer(fd, Close)
  }

  lemma {:induction false} StaysRegisteredOverRun(s: System, events: seq<Event>, fd: int)
    requires Inv(s) && LegalRun(s, events) && fd in s.world.interest && NeverCloses(events, fd)
    ensures Run(s, events).Done? && fd in Run(s, events).value.world.interest
    decreases events
  {
    if events != [] {
      var e, rest := events[0], events[1..];
      assert NeverCloses(rest, fd);
      KeepsInv(s, e);
      StaysRegistered(s, e, fd);
      StaysRegisteredOverRun(Next(s, e).value, rest, fd);
    }
  }

  /** What one callback of `handleEvents` comes to, by the kernel's answers. */
  datatype Handled =
    | HungUp
    | EndOfFile
    | ReadFailed
    | Got(bytes: seq<byte>)
    | Wrote(n: int)
    | Accepted(sockfd: int)
    | TimersRan

  /** A call of user code into the library, on any connection. */
  datatype UserCall =
    | UserSend(fd: int, msg: seq<byte>, wrote: int)
    | UserTake(fd: int, n: nat)

  /** One callback and the user code it runs; and the callbacks of one channel. */
  datatype Part = Part(handled: Handled, user: seq<UserCall>)
  datatype Dispatch = Dispatch(fd: int, parts: seq<Part>)

  function HandledEvents(fd: int, handled: Handled): seq<Event> {
    match handled
    case HungUp => [OnPeer(fd, Close)]
    case EndOfFile => [OnPeer(fd, Close)]
    case ReadFailed => []
    case Got(bytes) => [OnPeer(fd, Receive(bytes))]
    case Wrote(n) => [OnPeer(fd, Writable(n))]
    case Accepted(sockfd) => [Accept(sockfd)]
    case TimersRan => []
  }

  function UserEvent(call: UserCall): Event {
    match call
    case UserSend(fd, msg, wrote) => OnPeer(fd, Send(msg, wrote))
    case UserTake(fd, n) => OnPeer(fd, Take(n))
  }

  function UserEvents(user: seq<UserCall>): seq<Event> {
    seq(|user|, i requires 0 <= i < |user| => UserEvent(user[i]))
  }

  function PartsEvents(fd: int, parts: seq<Part>): seq<Event> {
    if parts == [] then []
    else HandledEvents(fd, parts[0].handled) + UserEvents(parts[0].user) + PartsEvents(fd, parts[1..])
  }

  /** The events of a batch of dispatches, one channel after the other. */
  function BatchEvents(batch: seq<Dispatch>): seq<Event> {
    if batch == [] then [] else PartsEvents(batch[0].fd, batch[0].parts) + BatchEvents(batch[1..])
  }

  lemma {:induction false} PartsCloseOwn(own: int, parts: seq<Part>, fd: int)
    requires own != fd
    ensures NeverCloses(PartsEvents(own, parts), fd)
  {
    if parts != [] {
      PartsCloseOwn(own, parts[1..], fd);
    }
  }

  lemma {:induction false} BatchClosesOwn(batch: seq<Dispatch>, fd: int)
    requires forall i :: 0 <= i < |batch| ==> batch[i].fd != fd
    ensures NeverCloses(BatchEvents(batch), fd)
  {
    if batch != [] {
      PartsCloseOwn(batch[0].fd, batch[0].parts, fd);
      BatchClosesOwn(batch[1..], fd);
    }
  }

  /** No handler of a batch finds its channel gone. The batch has the channels that one poll reported; when
      the first `k` of them have been handled, user code on any connection and accepted connections
      included, the next one is still registered. */
  lemma {:induction false} ActiveChannelsStayRegistered(s: System, batch: seq<Dispatch>, k: nat)
    requires Inv(s) && k < |batch| && LegalRun(s, BatchEvents(batch[..k]))
    requires forall i :: 0 <= i < |batch| ==> batch[i].fd in s.world.interest
    requires forall i, j :: 0 <= i < j < |batch| ==> batch[i].fd != batch[j].fd
    ensures Run(s, BatchEvents(batch[..k])).Done?
    ensures batch[k].fd in Run(s, BatchEvents(batch[..k])).value.world.interest
  {
    BatchClosesOwn(batch[..k], batch[k].fd);
    StaysRegisteredOverRun(s, BatchEvents(batch[..k]), batch[k].fd);
  }
}
