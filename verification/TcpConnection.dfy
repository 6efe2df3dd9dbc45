/** The class TcpConnection, over its two buffers and its channel, proved to take the machine's steps. */
module TcpConnections {
  import opened Buffers
  import opened Registry
  import opened Polling
  import opened Streams

  /** `messageCallback_`: what the test servers install, or any other code. */
  datatype MessageCallback = Default | Discard | EchoBack | AnyCode

  class TcpConnection {
    const name: string
    const channel: Channel
    const inputBuffer: Buffer
    const outputBuffer: Buffer
    const messageCallback: MessageCallback
    var connectState: ConnectState

    /** What the kernel has taken for the peer. */
    ghost var wire: seq<byte>
    /** What the connection callback was called for, and the input buffer at each call of the message callback. */
    ghost var notified: seq<Notice>
    ghost var shown: seq<seq<byte>>

    ghost var steps: seq<Step>
    ghost var c: Conn

    ghost predicate Traced()
      reads this`steps, this`c
    {
      LegalRun(FRESH, steps) && c == Run(FRESH, steps)
    }

    /** The fields are those of the state the steps lead to. */
    ghost predicate Valid()
      reads this, channel, inputBuffer, outputBuffer
    {
      && Traced() && c.state != Disconnecting
      && inputBuffer != outputBuffer && inputBuffer.Valid() && outputBuffer.Valid()
      && c.state == connectState && c.events == channel.events
      && c.input == inputBuffer.Contents() && c.output == outputBuffer.Contents()
      && c.accepted == wire && c.notices == notified
    }

    /** As long as only orderly steps are taken: mask and notices are in line with the state, and the channel
        is registered exactly while the connection is up. */
    ghost predicate Settled()
      reads this, channel
    {
      && Tracked(c) && c.state == connectState
      && (connectState == Connecting ==> channel.status == New)
      && (connectState == Connected <==> channel.status == Added)
    }

    /** The poller that serves the channel is sound and knows it. */
    ghost predicate Served()
      reads this, channel, channel.poller, channel.poller.channels
    {
      channel.poller.Valid() && channel in channel.poller.channels
    }

    constructor (name: string, poller: Epoller, clientfd: int, cb: MessageCallback)
      requires poller.Valid() && forall c :: c in poller.channels ==> c.fd != clientfd
      modifies poller`channels
      ensures Valid() && Served() && Settled() && c == FRESH
      ensures this.name == name && channel.poller == poller && channel.fd == clientfd && messageCallback == cb
      ensures steps == [] && shown == []
      ensures poller.channels == old(poller.channels) + {channel}
      ensures fresh(channel) && fresh(inputBuffer) && fresh(outputBuffer)
    {
      this.name := name;
      channel := new Channel(poller, clientfd);
      inputBuffer := new Buffer();
      outputBuffer := new Buffer();
      messageCallback := cb;
      connectState := Connecting;
      wire, notified, shown := [], [], [];
      steps, c := [], FRESH;
    }

    ghost method Record(step: Step)
      requires Traced() && Legal(c, step)
      modifies this`steps, this`c
      ensures Traced() && steps == old(steps) + [step] && c == Apply(old(c), step)
      ensures old(Tracked(c)) && Orderly(old(c), step) ==> Tracked(c)
    {
      RunStep(FRESH, steps, step);
      if Tracked(c) && Orderly(c, step) {
        KeepsTrackedIff(c, step);
      }
      steps, c := steps + [step], Apply(c, step);
    }

    /** The system call `write`: the kernel's answer is -1 or the length of the prefix it takes. */
    method Write(offered: seq<byte>, answer: int) returns (n: int)
      requires -1 <= answer <= |offered|
      modifies this`wire
      ensures n == answer && wire == if n > 0 then old(wire) + offered[..n] else old(wire)
    {
      n := answer;
      if n > 0 {
        wire := wire + offered[..n];
      }
    }

    /** `connectionCallback_`, which finds the connection up or down. Calls it makes are steps of their own. */
    method RunConnectionCallback()
      modifies this`notified
      ensures notified == old(notified) + [if connectState == Connected then Up else Down]
    {
      notified := notified + [if connectState == Connected then Up else Down];
    }

    method ConnectionEstablished()
      requires Valid() && Served() && connectState == Connecting
      modifies this, channel`events, channel`status, channel.poller`interest
      ensures Valid() && Served() && c == Apply(old(c), Establish) && steps == old(steps) + [Establish]
      ensures old(Settled()) ==> Settled()
    {
      GoUp();
      Record(Establish);
    }

    method GoUp()
      requires Served()
      modifies this`connectState, this`notified, channel`events, channel`status, channel.poller`interest
      ensures Served() && connectState == Connected && notified == old(notified) + [Up]
      ensures channel.events == old(channel.events).(readable := true)
      ensures channel.status == StatusAfter(EnableReadable, old(channel.Value()))
    {
      connectState := Connected;
      channel.EnableReadable();
      RunConnectionCallback();
    }

    /** `wrote` is the kernel's answer, if it is asked. */
    method Send(message: seq<byte>, wrote: int)
      requires Valid() && Served() && -1 <= wrote <= |message|
      modifies this`steps, this`c, this`wire, outputBuffer
      modifies channel`events, channel`status, channel.poller`interest
      ensures Valid() && Served()
      ensures
        var n := if !old(channel.IsWriting()) && old(outputBuffer.Contents()) == [] && wrote > 0 then wrote else 0;
        && wire == old(wire) + message[..n]
        && outputBuffer.Contents() == old(outputBuffer.Contents()) + message[n..]
        && (channel.IsWriting() <==> old(channel.IsWriting()) || n < |message|)
      ensures c == Apply(old(c), Step.Send(message, wrote)) && steps == old(steps) + [Step.Send(message, wrote)]
      ensures old(Settled()) && Orderly(old(c), Step.Send(message, wrote)) ==> Settled()
    {
      var nwrote := Offer(message, wrote);
      Keep(message, nwrote);
      assert nwrote == TakenNow(c, wrote);
      Record(Step.Send(message, wrote));
    }

    /** The first half of `send`: the direct write, if there is one. */
    method Offer(message: seq<byte>, wrote: int) returns (nwrote: nat)
      requires outputBuffer.Valid() && -1 <= wrote <= |message|
      modifies this`wire
      ensures nwrote == if !channel.IsWriting() && outputBuffer.Contents() == [] && wrote > 0 then wrote else 0
      ensures wire == old(wire) + message[..nwrote]
    {
      var n := 0;
      if !channel.IsWriting() && outputBuffer.ReadableSize() == 0 {
        n := Write(message, wrote);
        if n >= 0 {
        } else {
          n := 0;
        }
      }
      nwrote := n;
    }

    /** The second half: what is left over waits in the output buffer. */
    method Keep(message: seq<byte>, nwrote: nat)
      requires outputBuffer.Valid() && Served() && nwrote <= |message|
      modifies outputBuffer, channel`events, channel`status, channel.poller`interest
      ensures outputBuffer.Valid() && Served()
      ensures outputBuffer.Contents() == old(outputBuffer.Contents()) + message[nwrote..]
      ensures channel.events ==
              if nwrote < |message| then old(channel.events).(writable := true) else old(channel.events)
      ensures channel.status ==
              if nwrote == |message| || old(channel.IsWriting()) then old(channel.status)
              else StatusAfter(EnableWritable, old(channel.Value()))
    {
      if nwrote < |message| {
        outputBuffer.Append(message[nwrote..]);
        if !channel.IsWriting() {
          channel.EnableWritable();
        }
      }
    }

    /** `wrote` is the kernel's answer, if it is asked; the source aborts unless it is positive. */
    method HandleWrite(wrote: int) returns (aborted: bool)
      requires Valid() && Served() && -1 <= wrote <= outputBuffer.ReadableSize()
      modifies this`steps, this`c, this`wire, outputBuffer
      modifies channel`events, channel`status, channel.poller`interest
      ensures Valid() && Served()
      ensures aborted <==> old(channel.IsWriting()) && wrote <= 0
      ensures aborted ==> unchanged(this) && unchanged(outputBuffer) && unchanged(channel)
      ensures !old(channel.IsWriting()) ==> unchanged(channel) && unchanged(outputBuffer) && wire == old(wire)
      ensures !aborted && old(channel.IsWriting()) ==>
                && wire == old(wire) + old(outputBuffer.Contents())[..wrote]
                && outputBuffer.Contents() == old(outputBuffer.Contents())[wrote..]
                && (channel.IsWriting() <==> outputBuffer.Contents() != [])
      ensures !aborted ==> c == Apply(old(c), Writable(wrote)) && steps == old(steps) + [Writable(wrote)]
      ensures old(Settled()) ==> Settled()
    {
      aborted := false;
      if channel.IsWriting() {
        var n := Write(outputBuffer.Contents(), wrote);
        if n > 0 {
          Wrote(n);
        } else {
          return true;
        }
      }
      Record(Writable(wrote));
    }

    /** The kernel took `n` bytes of the backlog. */
    method Wrote(n: nat)
      requires outputBuffer.Valid() && Served() && 0 < n <= outputBuffer.ReadableSize() && channel.IsWriting()
      requires connectState != Disconnecting
      modifies outputBuffer, channel`events, channel`status, channel.poller`interest
      ensures outputBuffer.Valid() && Served()
      ensures outputBuffer.Contents() == old(outputBuffer.Contents())[n..]
      ensures channel.events == old(channel.events).(writable := outputBuffer.Contents() != [])
      ensures channel.status ==
              if outputBuffer.Contents() != [] then old(channel.status)
              else StatusAfter(DisableWritable, old(channel.Value()))
    {
      outputBuffer.Retrieve(n);
      if outputBuffer.ReadableSize() == 0 {
        channel.DisableWritable();
        if connectState == Disconnecting {
          assert false;  // only `shutdown` enters this state
        }
      }
    }

    /** What `handleClose` and `connectionDestroy` have in common. */
    method GoDown()
      requires Served()
      modifies this`connectState, this`notified, channel`events, channel`status, channel.poller`interest
      ensures Served() && connectState == Disconnected && notified == old(notified) + [Down]
      ensures channel.events == NO_EVENT && channel.status == StatusAfter(DisableAll, old(channel.Value()))
    {
      connectState := Disconnected;
      channel.DisableAllEvents();
      RunConnectionCallback();
    }

    /** Up to the call of `closeCallback_`, which is the caller's next action. */
    method HandleClose()
      requires Valid() && Served()
      modifies this, channel`events, channel`status, channel.poller`interest
      ensures Valid() && Served() && c == Apply(old(c), Close) && steps == old(steps) + [Close]
      ensures shown == old(shown)
      ensures old(Settled()) && old(connectState) == Connected ==> Settled()
    {
      GoDown();
      Record(Close);
    }

    /** From any state; the precondition is the assertion in `Channel::remove`. */
    method ConnectionDestroy()
      requires Valid() && Served() && (connectState == Connected || channel.IsNoneEvent())
      modifies this, channel`events, channel`status, channel.poller`interest
      ensures Valid() && Served() && c == Apply(old(c), Destroy) && steps == old(steps) + [Destroy]
      ensures connectState != Connected && channel.status == New && channel.IsNoneEvent() && shown == old(shown)
      ensures old(Settled()) ==> Settled()
    {
      if connectState == Connected {
        GoDown();
      }
      channel.Remove();
      Record(Destroy);
    }

    /** `buf->retrieveAsString(n)`, as user code calls it. */
    method Retrieve(n: nat) returns (s: seq<byte>)
      requires Valid() && Served() && n <= inputBuffer.ReadableSize()
      modifies this`steps, this`c, inputBuffer
      ensures Valid() && Served() && c == Apply(old(c), Take(n)) && steps == old(steps) + [Take(n)]
      ensures old(Settled()) ==> Settled()
      ensures s == old(c).input[..n]
    {
      s := inputBuffer.RetrieveAsString(n);
      assert s == c.input[..n] && inputBuffer.Contents() == c.input[n..];
      Record(Take(n));
    }

    /** The echo server's callback; `wrote` is the kernel's answer to its write. */
    method Echo() returns (ghost wrote: int)
      requires Valid() && Served()
      modifies this`steps, this`c, this`wire, inputBuffer, outputBuffer
      modifies channel`events, channel`status, channel.poller`interest
      ensures Valid() && Served() && (old(Settled()) && connectState == Connected ==> Settled())
      ensures -1 <= wrote <= |old(c).input|
      ensures steps == old(steps) + [Take(|old(c).input|), Step.Send(old(c).input, wrote)]
      ensures c == Apply(Apply(old(c), Take(|old(c).input|)), Step.Send(old(c).input, wrote))
    {
      var msg := Retrieve(inputBuffer.ReadableSize());
      assert msg == old(c).input;
      var w := KernelWrites(|msg|);
      wrote := w;
      Send(msg, w);
    }

    /** Any other code of the user's: sends and retrievals on this connection. */
    method UserCode() returns (ghost user: seq<Step>)
      requires Valid() && Served()
      modifies this`steps, this`c, this`wire, inputBuffer, outputBuffer
      modifies channel`events, channel`status, channel.poller`interest
      ensures Valid() && Served() && steps == old(steps) + user && OnlyUser(user)
      ensures old(Settled()) && connectState == Connected ==> Settled()
    {
      user := [];
      var n: nat := *;
      var i := 0;
      while i < n
        invariant Valid() && Served() && steps == old(steps) + user && OnlyUser(user)
        invariant old(Settled()) && connectState == Connected ==> Settled()
      {
        if * {
          var msg: seq<byte> := *;
          var w := KernelWrites(|msg|);
          Send(msg, w);
          user := user + [Step.Send(msg, w)];
        } else {
          var len: nat := *;
          if len <= inputBuffer.ReadableSize() {
            var s := Retrieve(len);
            user := user + [Take(len)];
          }
        }
        i := i + 1;
      }
    }

    /** `messageCallback_(shared_from_this(), &inputBuffer_)`. */
    method RunMessageCallback() returns (ghost user: seq<Step>)
      requires Valid() && Served()
      modifies this`steps, this`c, this`wire, this`shown, inputBuffer, outputBuffer
      modifies channel`events, channel`status, channel.poller`interest
      ensures Valid() && Served() && shown == old(shown) + [old(c).input]
      ensures steps == old(steps) + user && CallbackSteps(messageCallback, old(c).input, user)
      ensures old(Settled()) && connectState == Connected ==> Settled()
      ensures messageCallback == Discard ==> c == Apply(old(c), Take(|old(c).input|)) && c.input == []
      ensures messageCallback == EchoBack ==>
                && -1 <= user[1].wrote <= |old(c).input|
                && c == Apply(Apply(old(c), Take(|old(c).input|)), Step.Send(old(c).input, user[1].wrote))
    {
      shown := shown + [inputBuffer.Contents()];
      user := [];
      match messageCallback
      case Default =>
      case Discard =>
        var msg := Retrieve(inputBuffer.ReadableSize());
        user := [Take(|msg|)];
      case EchoBack =>
        ghost var wrote := Echo();
        user := [Take(|old(c).input|), Step.Send(old(c).input, wrote)];
      case AnyCode =>
        user := UserCode();
    }

    /** The first line of `handleRead`; `r` is the kernel's answer to `readv`. */
    method Fill(r: ReadResult) returns (n: int)
      requires Valid() && Served()
      requires r.ReadBytes? ==> |r.bytes| <= inputBuffer.WritableSize() + EXTRA_SIZE
      modifies this`steps, this`c, inputBuffer
      ensures Valid() && Served() && n == if r.ReadError? then -1 else |r.bytes|
      ensures n <= 0 ==> c == old(c) && steps == old(steps)
      ensures n > 0 ==> c == Apply(old(c), Receive(r.bytes)) && steps == old(steps) + [Receive(r.bytes)]
      ensures old(Settled()) && connectState != Connecting ==> Settled()
    {
      n := inputBuffer.ReadFd(r);
      if n > 0 {
        Record(Receive(r.bytes));
      }
    }

    /** The message callback, after `bytes` have arrived in state `before`. */
    method Deliver(ghost before: Conn, ghost bytes: seq<byte>) returns (ghost user: seq<Step>)
      requires Valid() && Served() && bytes != [] && c == Apply(before, Receive(bytes))
      modifies this`steps, this`c, this`wire, this`shown, inputBuffer, outputBuffer
      modifies channel`events, channel`status, channel.poller`interest
      ensures Valid() && Served() && steps == old(steps) + user
      ensures Delivered(messageCallback, before.input, ReadBytes(bytes), user, old(shown), shown)
      ensures old(Settled()) && connectState == Connected ==> Settled()
      ensures messageCallback == Discard ==> c.input == []
      ensures messageCallback == EchoBack ==>
                LegalRun(before, EchoSteps(before, Echoed(bytes, user[1].wrote))) &&
                c == Run(before, EchoSteps(before, Echoed(bytes, user[1].wrote)))
    {
      user := RunMessageCallback();
      EchoIsThree(messageCallback, before, bytes, user);
    }

    /** When the peer has closed, the last action is the call of `closeCallback_`, left to the caller. `user`
        is what the message callback did. */
    method HandleRead(r: ReadResult) returns (closed: bool, ghost user: seq<Step>)
      requires Valid() && Served()
      requires r.ReadBytes? ==> |r.bytes| <= inputBuffer.WritableSize() + EXTRA_SIZE
      modifies this, inputBuffer, outputBuffer, channel`events, channel`status, channel.poller`interest
      ensures Valid() && Served()
      ensures old(Settled()) && old(connectState) == Connected ==> Settled()
      ensures closed <==> r == ReadBytes([])
      ensures closed ==> c == Apply(old(c), Close) && channel.IsNoneEvent()
      ensures !closed ==> connectState == old(connectState)
      ensures steps == old(steps) + ReadSteps(r, user)
      ensures Delivered(messageCallback, old(c).input, r, user, old(shown), shown)
      ensures Arrived(r) && messageCallback == Discard ==> c.input == []
      ensures Arrived(r) && messageCallback == EchoBack ==>
                LegalRun(old(c), EchoSteps(old(c), Echoed(r.bytes, user[1].wrote))) &&
                c == Run(old(c), EchoSteps(old(c), Echoed(r.bytes, user[1].wrote)))
    {
      closed, user := false, [];
      ghost var c0 := c;
      var n := Fill(r);
      if n > 0 {
        user := Deliver(c0, r.bytes);
        assert (old(steps) + [Receive(r.bytes)]) + user == old(steps) + ReadSteps(r, user);
      } else if n == 0 {
        HandleClose();
        closed := true;
      }
    }
  }

  predicate Arrived(r: ReadResult) {
    r.ReadBytes? && r.bytes != []
  }

  /** The steps of `handleRead`, in which the message callback takes the steps `user`. */
  function ReadSteps(r: ReadResult, user: seq<Step>): seq<Step> {
    if r.ReadError? then [] else if r.bytes == [] then [Close] else [Receive(r.bytes)] + user
  }

  /** Whatever arrived, and only that, is shown to the message callback, which then takes its steps. */
  ghost predicate Delivered(cb: MessageCallback, input: seq<byte>, r: ReadResult, user: seq<Step>,
                            before: seq<seq<byte>>, after: seq<seq<byte>>)
  {
    if Arrived(r) then
      CallbackSteps(cb, input + r.bytes, user) && after == before + [input + r.bytes]
    else
      user == [] && after == before
  }

  /** `handleClose` and the close callback. */
  const CLOSING: seq<Step> := [Close, Destroy]

  /** The steps of a read callback, with the close callback if the peer has closed. */
  function ReadableSteps(r: ReadResult, user: seq<Step>): seq<Step> {
    if r == ReadBytes([]) then CLOSING else ReadSteps(r, user)
  }

  function WritableSteps(aborted: bool, wrote: int): seq<Step> {
    if aborted then [] else [Writable(wrote)]
  }

  /** With the echo callback the read is three steps. */
  lemma EchoIsThree(cb: MessageCallback, c: Conn, bytes: seq<byte>, user: seq<Step>)
    requires Legal(c, Receive(bytes))
    requires CallbackSteps(cb, c.input + bytes, user)
    requires cb == EchoBack ==> -1 <= user[1].wrote <= |c.input + bytes|
    ensures cb == EchoBack ==>
              && LegalRun(c, EchoSteps(c, Echoed(bytes, user[1].wrote)))
              && Run(c, EchoSteps(c, Echoed(bytes, user[1].wrote))) ==
                 Apply(Apply(Apply(c, Receive(bytes)), user[0]), user[1])
  {
    if cb == EchoBack {
      RunOfThreeIs(c, Receive(bytes), user[0], user[1]);
    }
  }

  ghost predicate OnlyUser(user: seq<Step>) {
    forall i :: 0 <= i < |user| ==> user[i].Send? || user[i].Take?
  }

  /** What each message callback does with the input buffer. */
  ghost predicate CallbackSteps(cb: MessageCallback, input: seq<byte>, user: seq<Step>) {
    match cb
    case Default => user == []
    case Discard => user == [Take(|input|)]
    case EchoBack => |user| == 2 && user[1].Send? && user == [Take(|input|), Step.Send(input, user[1].wrote)]
    case AnyCode => OnlyUser(user)
  }

  /** `write` returns -1 or the length of a prefix. */
  method KernelWrites(len: nat) returns (wrote: int)
    ensures -1 <= wrote <= len
  {
    wrote := *;
    if wrote < -1 || len < wrote {
      wrote := -1;
    }
  }
}
