/** One TCP connection as a machine: what TcpConnection.cpp does to its two queues, its interest mask and
    its state, step by step, for every answer the kernel may give. */
module Streams {
  import opened Buffers
  import opened Registry

  datatype ConnectState = Connected | Connecting | Disconnected | Disconnecting

  /** What the connection callback was called for. */
  datatype Notice = Up | Down

  /** `input` and `output` are the readable bytes of the two buffers, `events` the channel's mask. The
      other fields are history: the bytes read from the peer, taken by the user, passed to `send`, and
      accepted by the kernel, and the calls of the connection callback. */
  datatype Conn = Conn(
    state: ConnectState,
    input: seq<byte>,
    output: seq<byte>,
    events: Mask,
    received: seq<byte>,
    taken: seq<byte>,
    sent: seq<byte>,
    accepted: seq<byte>,
    notices: seq<Notice>)

  const FRESH := Conn(Connecting, [], [], NO_EVENT, [], [], [], [], [])

  /** `wrote` is what `write` returned: -1, or the length of the prefix the kernel took. */
  datatype Step =
    | Establish
    | Send(msg: seq<byte>, wrote: int)
    | Take(n: nat)
    | Receive(bytes: seq<byte>)
    | Writable(wrote: int)
    | Close
    | Destroy

  /** Whether `send` writes at once. */
  predicate Direct(c: Conn) {
    !c.events.writable && c.output == []
  }

  /** How much of `msg` the kernel takes at once. */
  function TakenNow(c: Conn, wrote: int): int {
    if Direct(c) && wrote >= 0 then wrote else 0
  }

  /** The kernel's contract for `read` and `write`, and the assertions. `handleWrite` aborts unless `write`
      takes something; `connectionDestroy` removes the channel, which asserts that it asks for nothing. */
  ghost predicate Legal(c: Conn, step: Step) {
    match step
    case Establish => c.state == Connecting
    case Send(msg, wrote) => -1 <= wrote <= |msg|
    case Take(n) => n <= |c.input|
    case Receive(bytes) => bytes != []
    case Writable(wrote) => c.events.writable ==> 0 < wrote <= |c.output|
    case Close => true
    case Destroy => c.state == Connected || c.events == NO_EVENT
  }

  /** What the code does not check but relies on: nothing arrives or is sent before the connection is up, it
      closes once, and after that `send` leaves nothing over. */
  predicate Orderly(c: Conn, step: Step) {
    match step
    case Send(msg, wrote) =>
      c.state == Connected || msg == [] || (c.state == Disconnected && TakenNow(c, wrote) == |msg|)
    case Receive(bytes) => c.state != Connecting
    case Close => c.state == Connected
    case _ => true
  }

  function Sent(c: Conn, msg: seq<byte>, wrote: int): Conn
    requires -1 <= wrote <= |msg|
  {
    var n := TakenNow(c, wrote);
    c.(output := c.output + msg[n..],
       events := if n < |msg| then c.events.(writable := true) else c.events,
       sent := c.sent + msg,
       accepted := c.accepted + msg[..n])
  }

  function Written(c: Conn, wrote: int): Conn
    requires c.events.writable ==> 0 < wrote <= |c.output|
  {
    if !c.events.writable then c
    else
      c.(output := c.output[wrote..],
         events := if wrote == |c.output| then c.events.(writable := false) else c.events,
         accepted := c.accepted + c.output[..wrote])
  }

  function Closed(c: Conn): Conn {
    c.(state := Disconnected, events := NO_EVENT, notices := c.notices + [Down])
  }

  function Apply(c: Conn, step: Step): Conn
    requires Legal(c, step)
  {
    match step
    case Establish => c.(state := Connected, events := c.events.(readable := true), notices := c.notices + [Up])
    case Send(msg, wrote) => Sent(c, msg, wrote)
    case Take(n) => c.(input := c.input[n..], taken := c.taken + c.input[..n])
    case Receive(bytes) => c.(input := c.input + bytes, received := c.received + bytes)
    case Writable(wrote) => Written(c, wrote)
    case Close => Closed(c)
    case Destroy => if c.state == Connected then Closed(c) else c
  }

  // Runs.

  ghost predicate LegalRun(c: Conn, steps: seq<Step>)
    decreases steps, 0
  {
    steps == [] ||
    (LegalRun(c, steps[..|steps| - 1]) && Legal(Run(c, steps[..|steps| - 1]), steps[|steps| - 1]))
  }

  ghost function Run(c: Conn, steps: seq<Step>): Conn
    requires LegalRun(c, steps)
    decreases steps, 1
  {
    if steps == [] then c else Apply(Run(c, steps[..|steps| - 1]), steps[|steps| - 1])
  }

  lemma RunStep(c: Conn, steps: seq<Step>, step: Step)
    requires LegalRun(c, steps) && Legal(Run(c, steps), step)
    ensures LegalRun(c, steps + [step]) && Run(c, steps + [step]) == Apply(Run(c, steps), step)
  {
    assert (steps + [step])[..|steps|] == steps;
  }

  /** No byte is lost, duplicated or reordered, in either direction. */
  ghost predicate Conserved(c: Conn) {
    && c.accepted + c.output == c.sent
    && c.taken + c.input == c.received
  }

  /** The mask and the notices follow from the state and the backlog. */
  ghost predicate Tracked(c: Conn) {
    match c.state
    case Connecting => c == FRESH
    case Connected => c.events == Mask(true, c.output != []) && c.notices == [Up]
    case Disconnected => c.events == NO_EVENT && c.notices == [Up, Down]
    case Disconnecting => false
  }

  lemma {:induction false} SplitBytes(accepted: seq<byte>, output: seq<byte>, bytes: seq<byte>, n: int)
    requires 0 <= n <= |bytes| && (n > 0 ==> output == [])
    ensures (accepted + bytes[..n]) + (output + bytes[n..]) == (accepted + output) + bytes
  {
    assert bytes == bytes[..n] + bytes[n..];
  }

  lemma {:induction false} SendKeepsConserved(c: Conn, msg: seq<byte>, wrote: int)
    requires Conserved(c) && -1 <= wrote <= |msg|
    ensures Conserved(Sent(c, msg, wrote))
  {
    SplitBytes(c.accepted, c.output, msg, TakenNow(c, wrote));
  }

  lemma {:induction false} KeepsConserved(c: Conn, step: Step)
    requires Conserved(c) && Legal(c, step)
    ensures Conserved(Apply(c, step))
  {
    match step
    case Send(msg, wrote) => SendKeepsConserved(c, msg, wrote);
    case Take(n) =>
      assert c.input == c.input[..n] + c.input[n..];
      assert (c.taken + c.input[..n]) + c.input[n..] == c.taken + c.input;
    case Receive(bytes) =>
      assert c.taken + (c.input + bytes) == (c.taken + c.input) + bytes;
    case Writable(wrote) =>
      if c.events.writable {
        assert c.output == c.output[..wrote] + c.output[wrote..];
        assert (c.accepted + c.output[..wrote]) + c.output[wrote..] == c.accepted + c.output;
      }
    case _ =>
  }

  /** A step keeps the mask and the notices in line with the state iff it is an orderly one. */
  lemma KeepsTrackedIff(c: Conn, step: Step)
    requires Tracked(c) && Legal(c, step)
    ensures Tracked(Apply(c, step)) <==> Orderly(c, step)
  {
  }

  lemma {:induction false} RunKeepsConserved(c: Conn, steps: seq<Step>)
    requires Conserved(c) && LegalRun(c, steps)
    ensures Conserved(Run(c, steps))
  {
    if steps != [] {
      RunKeepsConserved(c, steps[..|steps| - 1]);
      KeepsConserved(Run(c, steps[..|steps| - 1]), steps[|steps| - 1]);
    }
  }

  ghost predicate OrderlyRun(c: Conn, steps: seq<Step>)
    requires LegalRun(c, steps)
  {
    steps == [] ||
    (OrderlyRun(c, steps[..|steps| - 1]) && Orderly(Run(c, steps[..|steps| - 1]), steps[|steps| - 1]))
  }

  ghost predicate TrackedThroughout(c: Conn, steps: seq<Step>)
    requires LegalRun(c, steps)
  {
    Tracked(Run(c, steps)) && (steps != [] ==> TrackedThroughout(c, steps[..|steps| - 1]))
  }

  /** Over a run they stay in line throughout iff the run is orderly. */
  lemma {:induction false} TrackedThroughoutIff(c: Conn, steps: seq<Step>)
    requires Tracked(c) && LegalRun(c, steps)
    ensures TrackedThroughout(c, steps) <==> OrderlyRun(c, steps)
  {
    if steps != [] {
      var before := steps[..|steps| - 1];
      TrackedThroughoutIff(c, before);
      if TrackedThroughout(c, before) {
        KeepsTrackedIff(Run(c, before), steps[|steps| - 1]);
      }
    }
  }

  /** All messages passed to `send`, in order. */
  ghost function Messages(steps: seq<Step>): seq<byte> {
    if steps == [] then []
    else
      var last := steps[|steps| - 1];
      Messages(steps[..|steps| - 1]) + if last.Send? then last.msg else []
  }

  ghost function Arrivals(steps: seq<Step>): seq<byte> {
    if steps == [] then []
    else
      var last := steps[|steps| - 1];
      Arrivals(steps[..|steps| - 1]) + if last.Receive? then last.bytes else []
  }

  /** What the kernel takes in a step: of the bytes offered to `write`, the prefix that its answer says.
      `send` offers the message if EPOLLOUT is not asked for and nothing is buffered, `handleWrite` the whole
      backlog if EPOLLOUT is asked for. */
  ghost function KernelTakes(c: Conn, step: Step): seq<byte>
    requires Legal(c, step)
  {
    match step
    case Send(msg, wrote) =>
      if !c.events.writable && |c.output| == 0 && wrote >= 0 then msg[..wrote] else []
    case Writable(wrote) =>
      if c.events.writable then c.output[..wrote] else []
    case _ => []
  }

  /** All the kernel has taken over a run, in order. */
  ghost function Wire(c: Conn, steps: seq<Step>): seq<byte>
    requires LegalRun(c, steps)
  {
    if steps == [] then []
    else
      var before := steps[..|steps| - 1];
      Wire(c, before) + KernelTakes(Run(c, before), steps[|steps| - 1])
  }

  /** How many bytes the user has taken out of the input buffer. */
  ghost function TakenTotal(steps: seq<Step>): nat {
    if steps == [] then 0
    else
      var last := steps[|steps| - 1];
      TakenTotal(steps[..|steps| - 1]) + if last.Take? then last.n else 0
  }

  /** `accepted` is what went to the kernel, and `taken` is as long as what the user asked for. */
  lemma {:induction false} AcceptedIsWire(c: Conn, steps: seq<Step>)
    requires LegalRun(c, steps)
    ensures Run(c, steps).accepted == c.accepted + Wire(c, steps)
    ensures |Run(c, steps).taken| == |c.taken| + TakenTotal(steps)
  {
    if steps != [] {
      var before, last := steps[..|steps| - 1], steps[|steps| - 1];
      AcceptedIsWire(c, before);
      StepAccepts(Run(c, before), last);
      assert (c.accepted + Wire(c, before)) + KernelTakes(Run(c, before), last) == c.accepted + Wire(c, steps);
    }
  }

  lemma StepAccepts(c: Conn, step: Step)
    requires Legal(c, step)
    ensures Apply(c, step).accepted == c.accepted + KernelTakes(c, step)
    ensures |Apply(c, step).taken| == |c.taken| + if step.Take? then step.n else 0
  {
  }

  lemma {:induction false} HistoryIsConcatenation(steps: seq<Step>)
    requires LegalRun(FRESH, steps)
    ensures Run(FRESH, steps).sent == Messages(steps) && Run(FRESH, steps).received == Arrivals(steps)
  {
    if steps != [] {
      HistoryIsConcatenation(steps[..|steps| - 1]);
    }
  }

  /** Over every interleaving of sends, reads and writable events, in any state of the connection and with
      any partial or failed writes: what the kernel took, followed by what is buffered, is the concatenation
      of all messages sent; and what arrived is what the user took, as much as it asked for, followed by the
      input buffer. */
  lemma {:induction false} StreamConserved(steps: seq<Step>)
    requires LegalRun(FRESH, steps)
    ensures
      var c := Run(FRESH, steps);
      && Wire(FRESH, steps) + c.output == Messages(steps)
      && TakenTotal(steps) <= |Arrivals(steps)|
      && c.taken == Arrivals(steps)[..TakenTotal(steps)]
      && c.input == Arrivals(steps)[TakenTotal(steps)..]
  {
    RunKeepsConserved(FRESH, steps);
    HistoryIsConcatenation(steps);
    AcceptedIsWire(FRESH, steps);
    assert Run(FRESH, steps).accepted == Wire(FRESH, steps);
  }

  /** While the connection is up it asks for EPOLLOUT exactly when it has a backlog. */
  lemma {:induction false} WriteInterestTracksBacklog(steps: seq<Step>)
    requires LegalRun(FRESH, steps) && OrderlyRun(FRESH, steps)
    ensures
      var c := Run(FRESH, steps);
      c.state == Connected ==> c.events.readable && (c.events.writable <==> c.output != [])
  {
    TrackedThroughoutIff(FRESH, steps);
  }

  // Draining.

  ghost function Writes(c: Conn, ws: seq<int>): Conn
    requires CanWrite(c, ws)
    decreases ws
  {
    if ws == [] then c else Writes(Written(c, ws[0]), ws[1..])
  }

  /** Each of the writes takes at least one byte. */
  ghost predicate CanWrite(c: Conn, ws: seq<int>)
    decreases ws
  {
    ws == [] || (Legal(c, Writable(ws[0])) && CanWrite(Written(c, ws[0]), ws[1..]))
  }

  /** With no further sends, as many writable events as there are buffered bytes empty the buffer and
      drop EPOLLOUT, however little each write takes. */
  lemma {:induction false} BacklogDrains(c: Conn, ws: seq<int>)
    requires c.state == Connected && Tracked(c) && CanWrite(c, ws) && |ws| >= |c.output|
    ensures Writes(c, ws).output == [] && Writes(c, ws).events == READABLE
    ensures Writes(c, ws).accepted == c.accepted + c.output
    decreases ws
  {
    if ws != [] {
      var next := Written(c, ws[0]);
      KeepsTrackedIff(c, Writable(ws[0]));
      BacklogDrains(next, ws[1..]);
      if c.events.writable {
        assert c.output == c.output[..ws[0]] + c.output[ws[0]..];
        assert (c.accepted + c.output[..ws[0]]) + c.output[ws[0]..] == c.accepted + c.output;
      }
    }
  }

  // Lifecycle.

  function Rank(st: ConnectState): nat {
    match st
    case Connecting => 0
    case Connected => 1
    case Disconnecting => 2
    case Disconnected => 3
  }

  lemma {:induction false} StateOnlyAdvances(c: Conn, steps: seq<Step>, k: nat)
    requires LegalRun(c, steps) && k <= |steps|
    ensures LegalRun(c, steps[..k]) && Rank(Run(c, steps[..k]).state) <= Rank(Run(c, steps).state)
    ensures Run(c, steps[..k]).notices <= Run(c, steps).notices
  {
    if k == |steps| {
      assert steps[..k] == steps;
    } else {
      var before := steps[..|steps| - 1];
      assert before[..k] == steps[..k];
      StateOnlyAdvances(c, before, k);
    }
  }

  /** A connection goes CONNECTING, CONNECTED, DISCONNECTED and never back; its callback runs once for UP,
      and once for DOWN if it closes. */
  lemma {:induction false} Lifecycle(steps: seq<Step>)
    requires LegalRun(FRESH, steps) && OrderlyRun(FRESH, steps)
    ensures
      var c := Run(FRESH, steps);
      match c.state
      case Connecting => c.notices == []
      case Connected => c.notices == [Up]
      case Disconnected => c.notices == [Up, Down] && c.events == NO_EVENT
      case Disconnecting => false
    ensures forall k :: 0 <= k <= |steps| ==>
              LegalRun(FRESH, steps[..k]) && Rank(Run(FRESH, steps[..k]).state) <= Rank(Run(FRESH, steps).state)
  {
    TrackedThroughoutIff(FRESH, steps);
    forall k | 0 <= k <= |steps|
      ensures LegalRun(FRESH, steps[..k]) && Rank(Run(FRESH, steps[..k]).state) <= Rank(Run(FRESH, steps).state)
    {
      StateOnlyAdvances(FRESH, steps, k);
    }
  }

  /** `send` on a closed connection, which nothing in `send` forbids: its channel stays without events, and
      so out of the interest list, iff the kernel takes the whole message at once. */
  lemma SendOnClosed(c: Conn, msg: seq<byte>, wrote: int)
    requires Tracked(c) && c.state == Disconnected && -1 <= wrote <= |msg|
    ensures Sent(c, msg, wrote).events == NO_EVENT <==> TakenNow(c, wrote) == |msg|
  {
  }

  /** Seen before the call: that is so for every answer of the kernel iff there is nothing to send. */
  lemma SendOnClosedIsSafeIff(c: Conn, msg: seq<byte>)
    requires Tracked(c) && c.state == Disconnected
    ensures (forall wrote :: -1 <= wrote <= |msg| ==> Sent(c, msg, wrote).events == NO_EVENT) <==> msg == []
  {
    assert msg != [] ==> Sent(c, msg, -1).events.writable;
  }

  // The echo server's message callback: send(buf->retrieveAsString()).

  datatype Echo = Echoed(bytes: seq<byte>, wrote: int) | Flushed(wrote: int) | HungUp

  ghost function EchoSteps(c: Conn, e: Echo): seq<Step> {
    match e
    case Echoed(bytes, wrote) =>
      [Receive(bytes), Take(|c.input + bytes|), Send(c.input + bytes, wrote)]
    case Flushed(wrote) => [Writable(wrote)]
    case HungUp => [Close]
  }

  ghost predicate EchoLegal(c: Conn, es: seq<Echo>)
    decreases es
  {
    es == [] ||
    (LegalRun(c, EchoSteps(c, es[0])) && EchoLegal(Run(c, EchoSteps(c, es[0])), es[1..]))
  }

  ghost function EchoRun(c: Conn, es: seq<Echo>): Conn
    requires EchoLegal(c, es)
    decreases es
  {
    if es == [] then c else EchoRun(Run(c, EchoSteps(c, es[0])), es[1..])
  }

  ghost predicate Echoes(c: Conn) {
    c.input == [] && c.accepted + c.output == c.received
  }

  lemma RunLast(c: Conn, steps: seq<Step>, step: Step)
    requires LegalRun(c, steps + [step])
    ensures LegalRun(c, steps) && Legal(Run(c, steps), step)
    ensures Run(c, steps + [step]) == Apply(Run(c, steps), step)
  {
    assert (steps + [step])[..|steps|] == steps;
  }

  lemma RunOfOne(c: Conn, a: Step)
    requires LegalRun(c, [a])
    ensures Legal(c, a) && Run(c, [a]) == Apply(c, a)
  {
    assert [] + [a] == [a];
    RunLast(c, [], a);
  }

  lemma RunOfThree(c: Conn, a: Step, b: Step, d: Step)
    requires LegalRun(c, [a, b, d])
    ensures Legal(c, a) && Legal(Apply(c, a), b) && Legal(Apply(Apply(c, a), b), d)
    ensures Run(c, [a, b, d]) == Apply(Apply(Apply(c, a), b), d)
  {
    assert [a, b] + [d] == [a, b, d] && [a] + [b] == [a, b];
    RunLast(c, [a, b], d);
    RunLast(c, [a], b);
    RunOfOne(c, a);
  }

  lemma RunOfThreeIs(c: Conn, a: Step, b: Step, d: Step)
    requires Legal(c, a) && Legal(Apply(c, a), b) && Legal(Apply(Apply(c, a), b), d)
    ensures LegalRun(c, [a, b, d]) && Run(c, [a, b, d]) == Apply(Apply(Apply(c, a), b), d)
  {
    RunStep(c, [], a);
    RunStep(c, [a], b);
    RunStep(c, [a, b], d);
    assert [] + [a] == [a] && [a] + [b] == [a, b] && [a, b] + [d] == [a, b, d];
  }

  /** The callback's two calls, on an empty input buffer: all that arrived goes to `send`. */
  lemma EchoedKeeps(c: Conn, bytes: seq<byte>, wrote: int)
    requires Echoes(c) && LegalRun(c, [Receive(bytes), Take(|bytes|), Send(bytes, wrote)])
    ensures Echoes(Run(c, [Receive(bytes), Take(|bytes|), Send(bytes, wrote)]))
  {
    RunOfThree(c, Receive(bytes), Take(|bytes|), Send(bytes, wrote));
    var n := TakenNow(c, wrote);
    SplitBytes(c.accepted, c.output, bytes, n);
    if Direct(c) {
      assert c.accepted + c.output == c.accepted;
    }
  }

  lemma EchoKeeps(c: Conn, e: Echo)
    requires Echoes(c) && LegalRun(c, EchoSteps(c, e))
    ensures Echoes(Run(c, EchoSteps(c, e)))
  {
    match e
    case Echoed(bytes, wrote) =>
      assert c.input + bytes == bytes;
      EchoedKeeps(c, bytes, wrote);
    case Flushed(wrote) =>
      RunOfOne(c, Writable(wrote));
      if c.events.writable {
        assert c.output == c.output[..wrote] + c.output[wrote..];
        assert (c.accepted + c.output[..wrote]) + c.output[wrote..] == c.accepted + c.output;
      }
    case HungUp => RunOfOne(c, Close);
  }

  lemma {:induction false} EchoRunKeeps(c: Conn, es: seq<Echo>)
    requires Echoes(c) && EchoLegal(c, es)
    ensures Echoes(EchoRun(c, es))
    decreases es
  {
    if es != [] {
      EchoKeeps(c, es[0]);
      EchoRunKeeps(Run(c, EchoSteps(c, es[0])), es[1..]);
    }
  }

  lemma RunAppendStep(c: Conn, a: seq<Step>, init: seq<Step>, last: Step)
    requires LegalRun(c, a) && LegalRun(Run(c, a), init) && Legal(Run(Run(c, a), init), last)
    requires LegalRun(c, a + init) && Run(c, a + init) == Run(Run(c, a), init)
    ensures LegalRun(c, (a + init) + [last])
    ensures Run(c, (a + init) + [last]) == Apply(Run(Run(c, a), init), last)
  {
    RunStep(c, a + init, last);
  }

  lemma {:induction false} RunAppend(c: Conn, a: seq<Step>, b: seq<Step>)
    requires LegalRun(c, a) && LegalRun(Run(c, a), b)
    ensures LegalRun(c, a + b) && Run(c, a + b) == Run(Run(c, a), b)
  {
    if b == [] {
      assert a + b == a;
    } else {
      var init, last := b[..|b| - 1], b[|b| - 1];
      assert (a + init) + [last] == a + b;
      RunAppend(c, a, init);
      RunAppendStep(c, a, init, last);
    }
  }

  /** The steps of an echo server's connection, one after the other. */
  ghost function EchoTrace(c: Conn, es: seq<Echo>): seq<Step>
    requires EchoLegal(c, es)
    decreases es
  {
    if es == [] then [] else EchoSteps(c, es[0]) + EchoTrace(Run(c, EchoSteps(c, es[0])), es[1..])
  }

  lemma {:induction false} EchoRunIsRun(c: Conn, es: seq<Echo>)
    requires EchoLegal(c, es)
    ensures LegalRun(c, EchoTrace(c, es)) && Run(c, EchoTrace(c, es)) == EchoRun(c, es)
    decreases es
  {
    if es != [] {
      var first := EchoSteps(c, es[0]);
      EchoRunIsRun(Run(c, first), es[1..]);
      RunAppend(c, first, EchoTrace(Run(c, first), es[1..]));
    }
  }

  /** The echo server: what the kernel has taken for the peer is always a prefix of what the peer sent, the
      rest is exactly the output buffer, and nothing stays in the input buffer. */
  lemma {:induction false} EchoIsFaithful(es: seq<Echo>)
    requires EchoLegal(Apply(FRESH, Establish), es)
    ensures
      var steps := [Establish] + EchoTrace(Apply(FRESH, Establish), es);
      && LegalRun(FRESH, steps)
      && Arrivals(steps) == Wire(FRESH, steps) + Run(FRESH, steps).output
      && Run(FRESH, steps).input == []
  {
    var up := Apply(FRESH, Establish);
    var trace := EchoTrace(up, es);
    EchoRunKeeps(up, es);
    EchoRunIsRun(up, es);
    RunStep(FRESH, [], Establish);
    assert [] + [Establish] == [Establish];
    RunAppend(FRESH, [Establish], trace);
    HistoryIsConcatenation([Establish] + trace);
    AcceptedIsWire(FRESH, [Establish] + trace);
    assert Run(FRESH, [Establish] + trace).accepted == Wire(FRESH, [Establish] + trace);
  }
}
