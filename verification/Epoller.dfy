/** Channel and Epoller: the objects, proved against the registration machine. */
module Polling {
  import opened Registry
  import PollGrowth

  /** The bits of `revents_` that `handleEvents` looks at. */
  datatype Ready = Ready(hup: bool, readable: bool, writable: bool)

  const NOTHING_READY := Ready(false, false, false)

  datatype EpollEvent = EpollEvent(events: Ready, channel: Channel?)

  /** -1 from `epoll_wait`, or the events it stored. */
  datatype PollAnswer = PollFailed | Reported(events: seq<EpollEvent>) {
    function Returned(): int {
      if PollFailed? then -1 else |events|
    }
  }

  /** The calls below say what becomes of the channel's own mask and status. That, with the agreement in
      `poller.Valid()`, fixes the interest list. */
  class Channel {
    const fd: int
    const poller: Epoller
    var events: Mask
    var revents: Ready
    var status: Status

    /** A channel belongs to a poller from birth; `ghost channels` is the set of all of them. */
    constructor (poller: Epoller, fd: int)
      requires poller.Valid()
      requires forall c :: c in poller.channels ==> c.fd != fd
      modifies poller`channels
      ensures this.poller == poller && this.fd == fd
      ensures Value() == Chan(fd, NO_EVENT, New)
      ensures poller.Valid() && poller.channels == old(poller.channels) + {this}
    {
      this.poller, this.fd := poller, fd;
      events, revents, status := NO_EVENT, NOTHING_READY, New;
      new;
      ghost var w := poller.View();
      NewKeepsGood(w, this, Value());
      poller.channels := poller.channels + {this};
      assert poller.View().chans == w.chans[this := Value()];
    }

    function Value(): Chan
      reads this
    {
      Chan(fd, events, status)
    }

    predicate IsNoneEvent()
      reads this
    {
      events == NO_EVENT
    }

    predicate IsWriting()
      reads this
    {
      events.writable
    }

    method EnableReadable()
      requires poller.Valid() && this in poller.channels
      modifies this`events, this`status, poller`interest
      ensures poller.Valid() && events == Registry.Events(Call.EnableReadable, old(events))
      ensures status == StatusAfter(Call.EnableReadable, old(Value()))
    {
      ghost var w := poller.View();
      events := events.(readable := true);
      Update(w, Call.EnableReadable);
    }

    method EnableWritable()
      requires poller.Valid() && this in poller.channels
      modifies this`events, this`status, poller`interest
      ensures poller.Valid() && events == Registry.Events(Call.EnableWritable, old(events))
      ensures status == StatusAfter(Call.EnableWritable, old(Value()))
    {
      ghost var w := poller.View();
      events := events.(writable := true);
      Update(w, Call.EnableWritable);
    }

    method DisableAllEvents()
      requires poller.Valid() && this in poller.channels
      modifies this`events, this`status, poller`interest
      ensures poller.Valid() && events == Registry.Events(DisableAll, old(events))
      ensures status == StatusAfter(DisableAll, old(Value()))
    {
      ghost var w := poller.View();
      events := NO_EVENT;
      Update(w, DisableAll);
    }

    method DisableReadable()
      requires poller.Valid() && this in poller.channels
      modifies this`events, this`status, poller`interest
      ensures poller.Valid() && events == Registry.Events(Call.DisableReadable, old(events))
      ensures status == StatusAfter(Call.DisableReadable, old(Value()))
    {
      ghost var w := poller.View();
      events := events.(readable := false);
      Update(w, Call.DisableReadable);
    }

    method DisableWritable()
      requires poller.Valid() && this in poller.channels
      modifies this`events, this`status, poller`interest
      ensures poller.Valid() && events == Registry.Events(Call.DisableWritable, old(events))
      ensures status == StatusAfter(Call.DisableWritable, old(Value()))
    {
      ghost var w := poller.View();
      events := events.(writable := false);
      Update(w, Call.DisableWritable);
    }

    /** `w` is the world before `events` was assigned on behalf of `call`. */
    method Update(ghost w: World<Channel>, ghost call: Call)
      requires Good(w) && this in w.chans && call != Call.Remove
      requires poller.Shape() && this in poller.channels
      requires poller.View() == Asked(w, this, call)
      modifies this`status, poller`interest
      ensures poller.Valid() && Perform(w, this, call) == Done(poller.View())
      ensures status == StatusAfter(call, w.chans[this])
    {
      PerformAgrees(w, this, call);
      PerformStatus(w, this, call);
      poller.UpdateChannel(this);
    }

    method Remove()
      requires poller.Valid() && this in poller.channels && IsNoneEvent()
      modifies this`status, poller`interest
      ensures poller.Valid() && status == New
    {
      PerformAgrees(poller.View(), this, Call.Remove);
      poller.RemoveChannel(this);
    }
  }

  class Epoller {
    /** The kernel's interest list for `epollfd_`. */
    var interest: map<int, Reg<Channel>>
    ghost var channels: set<Channel>
    ghost var polls: seq<PollGrowth.Poll>
    var activeEvents: seq<EpollEvent>

    ghost function View(): World<Channel>
      reads this, channels
    {
      World(map c | c in channels :: c.Value(), interest)
    }

    /** Everything but the agreement with the kernel. */
    ghost predicate Shape()
      reads this, channels
    {
      && (forall c :: c in channels ==> c.poller == this)
      && PollGrowth.Legal(polls)
      && |activeEvents| == PollGrowth.SizeAfter(polls)
    }

    ghost predicate Valid()
      reads this, channels
    {
      Shape() && Good(View())
    }

    constructor ()
      ensures Valid() && channels == {} && interest == map[]
    {
      interest, channels, polls := map[], {}, [];
      activeEvents := seq(PollGrowth.DEFAULT_EVENT_NUMS, _ => EpollEvent(NOTHING_READY, null));
    }

    /** What agreement means for one channel. */
    lemma RegisteredIffAdded(c: Channel)
      requires Valid() && c in channels
      ensures c.fd in interest <==> c.status == Added
      ensures c.status == Added ==> interest[c.fd] == Reg(c.events, c)
    {
      assert View().chans[c] == c.Value();
    }

    /** The system call. */
    method EpollCtl(op: Ctl, channel: Channel) returns (ret: int)
      modifies this`interest
      ensures ret < 0 <==> !CtlSucceeds(old(interest), op, channel.fd)
      ensures ret < 0 ==> interest == old(interest)
      ensures ret >= 0 ==> interest == CtlEffect(old(interest), op, channel.fd, Reg(channel.events, channel))
    {
      if CtlSucceeds(interest, op, channel.fd) {
        interest := CtlEffect(interest, op, channel.fd, Reg(channel.events, channel));
        ret := 0;
      } else {
        ret := -1;
      }
    }

    method Ctl(channel: Channel, op: Ctl)
      requires CtlSucceeds(interest, op, channel.fd)
      modifies this`interest
      ensures interest == CtlEffect(old(interest), op, channel.fd, Reg(channel.events, channel))
    {
      var ret := EpollCtl(op, channel);
      if ret < 0 {
        assert false;  // the source aborts here
      }
    }

    method UpdateChannel(channel: Channel)
      requires Shape() && channel in channels
      requires Registry.UpdateChannel(View(), channel).Done?
      modifies this`interest, channel`status
      ensures Shape() && Registry.UpdateChannel(old(View()), channel) == Done(View())
    {
      ghost var w := View();
      var op: Ctl;
      var st := channel.status;
      if st == New || st == Del {
        op := CtlAdd;
        channel.status := Added;
      } else if !channel.IsNoneEvent() {
        op := CtlMod;
      } else {
        op := CtlDel;
        channel.status := Del;
      }
      Ctl(channel, op);
      assert View().chans == w.chans[channel := channel.Value()];
      assert st != Added ==> View().chans == WithStatus(w, channel, Added).chans;
      assert st == Added && op == CtlMod ==> View().chans == w.chans;
      assert op == CtlDel ==> View().chans == WithStatus(w, channel, Del).chans;
    }

    method RemoveChannel(channel: Channel)
      requires Shape() && channel in channels && channel.IsNoneEvent()
      requires Registry.RemoveChannel(View(), channel).Done?
      modifies this`interest, channel`status
      ensures Shape() && Registry.RemoveChannel(old(View()), channel) == Done(View())
    {
      var st := channel.status;
      if st == Added {
        Ctl(channel, CtlDel);
      }
      channel.status := New;
      assert View().chans == old(View()).chans[channel := channel.Value()];
    }

    /** The kernel reports channels of the interest list, each at most once, as many as the array holds. */
    ghost predicate KernelReports(reported: seq<EpollEvent>)
      reads this
    {
      && |reported| <= |activeEvents|
      && (forall i :: 0 <= i < |reported| ==> Registered(reported[i].channel))
      && (forall i, j :: 0 <= i < j < |reported| ==> reported[i].channel != reported[j].channel)
    }

    ghost predicate Registered(c: Channel?)
      reads this
    {
      exists fd :: fd in interest && interest[fd].channel == c
    }

    lemma ReportsAreFew(reported: seq<EpollEvent>)
      requires Valid() && KernelReports(reported)
      ensures |reported| <= |interest|
      ensures forall i :: 0 <= i < |reported| ==> reported[i].channel in channels
    {
      var fds := seq(|reported|, i requires 0 <= i < |reported| && reported[i].channel != null =>
                                 reported[i].channel.fd);
      assert forall i :: 0 <= i < |reported| ==> Registered(reported[i].channel);
      NoMoreThan(fds, interest.Keys);
    }

    /** `answer` is what `epoll_wait` returns. Returned channels follow those already active. */
    method Poll(answer: PollAnswer, activeChannels: seq<Channel>) returns (active: seq<Channel>)
      requires Valid() && (answer.Reported? ==> KernelReports(answer.events))
      modifies this`activeEvents, this`polls, channels`revents
      ensures Valid() && View() == old(View())
      ensures polls == old(polls) + [PollGrowth.Poll(answer.Returned(), |interest|)]
      ensures answer.PollFailed? ==> active == activeChannels && activeEvents == old(activeEvents)
      ensures answer.Reported? ==>
                && |active| == |activeChannels| + |answer.events|
                && active[..|activeChannels|] == activeChannels
                && (forall i :: 0 <= i < |answer.events| ==>
                      Activated(answer.events[i], active[|activeChannels| + i]))
    {
      active := activeChannels;
      var n := answer.Returned();
      if answer.Reported? {
        ReportsAreFew(answer.events);
        activeEvents := answer.events + activeEvents[n..];
      }
      LegalAfter(n);
      polls := polls + [PollGrowth.Poll(n, |interest|)];
      assert View().chans == old(View()).chans;
      if n > 0 {
        ghost var stored := activeEvents;
        active := Activate(n, active);
        assert forall i :: 0 <= i < n ==> stored[i] == answer.events[i];
        if n == |activeEvents| {
          activeEvents := activeEvents + seq(|activeEvents|, _ => EpollEvent(NOTHING_READY, null));
          assert View().chans == old(View()).chans;
        }
      }
    }

    lemma LegalAfter(n: int)
      requires Shape() && n <= |activeEvents| && n <= |interest|
      ensures PollGrowth.Legal(polls + [PollGrowth.Poll(n, |interest|)])
      ensures PollGrowth.SizeAfter(polls + [PollGrowth.Poll(n, |interest|)]) == PollGrowth.Grown(|activeEvents|, n)
    {
      var after := polls + [PollGrowth.Poll(n, |interest|)];
      assert after[..|after| - 1] == polls;
    }

    /** The loop of `poll` over the events the kernel stored. */
    method Activate(n: nat, activeChannels: seq<Channel>) returns (active: seq<Channel>)
      requires n <= |activeEvents|
      requires forall i :: 0 <= i < n ==> activeEvents[i].channel in channels
      requires forall i, j :: 0 <= i < j < n ==> activeEvents[i].channel != activeEvents[j].channel
      modifies channels`revents
      ensures View() == old(View())
      ensures |active| == |activeChannels| + n && active[..|activeChannels|] == activeChannels
      ensures forall i :: 0 <= i < n ==> Activated(activeEvents[i], active[|activeChannels| + i])
    {
      active := activeChannels;
      var i := 0;
      while i < n
        invariant 0 <= i <= n
        invariant |active| == |activeChannels| + i && active[..|activeChannels|] == activeChannels
        invariant forall k :: 0 <= k < i ==> Activated(activeEvents[k], active[|activeChannels| + k])
      {
        var channel := activeEvents[i].channel;
        channel.revents := activeEvents[i].events;
        active := active + [channel];
        i := i + 1;
      }
      assert View().chans == old(View()).chans;
    }

    static ghost predicate Activated(e: EpollEvent, c: Channel)
      reads c
    {
      c == e.channel && c.revents == e.events
    }
  }

  lemma {:induction false} NoMoreThan(s: seq<int>, t: set<int>)
    requires forall i :: 0 <= i < |s| ==> s[i] in t
    requires forall i, j :: 0 <= i < j < |s| ==> s[i] != s[j]
    ensures |s| <= |t|
  {
    if s != [] {
      NoMoreThan(s[1..], t - {s[0]});
    }
  }
}
