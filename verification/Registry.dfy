/** The registration machine of Epoller.cpp and Channel.h, beside the kernel's interest list.
    `C` is the type of channel handles. */
module Registry {

  /** `events_`: of the bits of an event mask, a channel only ever sets EPOLLIN and EPOLLOUT. */
  datatype Mask = Mask(readable: bool, writable: bool)

  const NO_EVENT := Mask(false, false)
  const READABLE := Mask(true, false)

  datatype Status = New | Added | Del

  datatype Chan = Chan(fd: int, events: Mask, status: Status)

  /** An entry of the interest list: the mask and the `data.ptr` given to `epoll_ctl`. */
  datatype Reg<C> = Reg(mask: Mask, channel: C)

  datatype Ctl = CtlAdd | CtlMod | CtlDel

  datatype World<C(==)> = World(chans: map<C, Chan>, interest: map<int, Reg<C>>)

  /** A call either returns, or aborts because `epoll_ctl` failed, or because an assertion did. */
  datatype Outcome<T> = Done(value: T) | CtlFailed | AssertFailed

  /** The calls Channel.h and Channel.cpp offer. */
  datatype Call = EnableReadable | EnableWritable | DisableReadable | DisableWritable | DisableAll | Remove

  /** The kernel's side: ADD wants an absent fd, MOD and DEL a present one. */
  predicate CtlSucceeds<C(==)>(interest: map<int, Reg<C>>, op: Ctl, fd: int) {
    if op == CtlAdd then fd !in interest else fd in interest
  }

  function CtlEffect<C(==)>(interest: map<int, Reg<C>>, op: Ctl, fd: int, reg: Reg<C>): map<int, Reg<C>> {
    if op == CtlDel then interest - {fd} else interest[fd := reg]
  }

  ghost function EpollCtl<C>(w: World<C>, op: Ctl, c: C): Outcome<World<C>>
    requires c in w.chans
  {
    var ch := w.chans[c];
    if CtlSucceeds(w.interest, op, ch.fd) then
      Done(w.(interest := CtlEffect(w.interest, op, ch.fd, Reg(ch.events, c))))
    else
      CtlFailed
  }

  ghost function WithStatus<C>(w: World<C>, c: C, st: Status): World<C>
    requires c in w.chans
  {
    w.(chans := w.chans[c := w.chans[c].(status := st)])
  }

  ghost function UpdateChannel<C>(w: World<C>, c: C): Outcome<World<C>>
    requires c in w.chans
  {
    if w.chans[c].status != Added then
      EpollCtl(WithStatus(w, c, Added), CtlAdd, c)
    else if w.chans[c].events != NO_EVENT then
      EpollCtl(w, CtlMod, c)
    else
      EpollCtl(WithStatus(w, c, Del), CtlDel, c)
  }

  ghost function RemoveChannel<C>(w: World<C>, c: C): Outcome<World<C>>
    requires c in w.chans
  {
    if w.chans[c].events != NO_EVENT then
      AssertFailed
    else if w.chans[c].status == Added then
      match EpollCtl(w, CtlDel, c)
      case Done(w') => Done(WithStatus(w', c, New))
      case _ => CtlFailed
    else
      Done(WithStatus(w, c, New))
  }

  function Events(call: Call, m: Mask): Mask {
    match call
    case EnableReadable => m.(readable := true)
    case EnableWritable => m.(writable := true)
    case DisableReadable => m.(readable := false)
    case DisableWritable => m.(writable := false)
    case DisableAll => NO_EVENT
    case Remove => m
  }

  /** `events_` assigned, `update()` not yet called. */
  ghost function Asked<C>(w: World<C>, c: C, call: Call): World<C>
    requires c in w.chans
  {
    w.(chans := w.chans[c := w.chans[c].(events := Events(call, w.chans[c].events))])
  }

  ghost function Perform<C>(w: World<C>, c: C, call: Call): Outcome<World<C>>
    requires c in w.chans
  {
    if call == Remove then
      RemoveChannel(w, c)
    else
      UpdateChannel(Asked(w, c, call), c)
  }

  ghost predicate DistinctFds<C>(w: World<C>) {
    forall c, d :: c in w.chans && d in w.chans && c != d ==> w.chans[c].fd != w.chans[d].fd
  }

  /** The interest list is exactly { fd of c -> (events of c, c) : status of c is ADDED }. */
  ghost predicate Agrees<C>(w: World<C>) {
    && (forall c :: c in w.chans && w.chans[c].status == Added ==>
          w.chans[c].fd in w.interest && w.interest[w.chans[c].fd] == Reg(w.chans[c].events, c))
    && (forall fd :: fd in w.interest ==>
          var c := w.interest[fd].channel;
          c in w.chans && w.chans[c].fd == fd && w.chans[c].status == Added)
  }

  ghost predicate Good<C>(w: World<C>) {
    DistinctFds(w) && Agrees(w)
  }

  /** One channel record replaced together with the matching system call. */
  lemma CtlKeepsGood<C>(w: World<C>, c: C, ch: Chan, op: Ctl)
    requires Good(w) && c in w.chans && ch.fd == w.chans[c].fd
    requires ch.status == Added <==> op != CtlDel
    ensures CtlSucceeds(w.interest, op, ch.fd) <==> (w.chans[c].status == Added <==> op != CtlAdd)
    ensures Good(World(w.chans[c := ch], CtlEffect(w.interest, op, ch.fd, Reg(ch.events, c))))
  {
    assert forall fd :: fd in w.interest && fd != ch.fd ==> w.interest[fd].channel != c;
  }

  /** One channel record replaced without a system call, while it is not registered. */
  lemma IdleKeepsGood<C>(w: World<C>, c: C, ch: Chan)
    requires Good(w) && c in w.chans && ch.fd == w.chans[c].fd
    requires w.chans[c].status != Added && ch.status != Added
    ensures Good(World(w.chans[c := ch], w.interest))
  {
    assert forall fd :: fd in w.interest ==> w.interest[fd].channel != c;
  }

  /** A new channel, with a descriptor of its own. */
  lemma NewKeepsGood<C>(w: World<C>, c: C, ch: Chan)
    requires Good(w) && c !in w.chans && ch.status == New
    requires forall d :: d in w.chans ==> w.chans[d].fd != ch.fd
    ensures Good(World(w.chans[c := ch], w.interest))
  {
  }

  /** No call makes `epoll_ctl` fail; the only abort is the assertion on removing an interested channel;
      and a call that returns leaves the two sides in agreement and every other channel alone. */
  lemma PerformAgrees<C>(w: World<C>, c: C, call: Call)
    requires Good(w) && c in w.chans
    ensures Perform(w, c, call) != CtlFailed
    ensures Perform(w, c, call) == AssertFailed <==> call == Remove && w.chans[c].events != NO_EVENT
    ensures Perform(w, c, call).Done? ==>
              && Good(Perform(w, c, call).value)
              && OnlyMoved(w, Perform(w, c, call).value, c, Events(call, w.chans[c].events))
  {
    var ch := w.chans[c].(events := Events(call, w.chans[c].events));
    if call == Remove {
      if ch.events == NO_EVENT {
        if ch.status == Added {
          CtlKeepsGood(w, c, ch.(status := New), CtlDel);
        } else {
          IdleKeepsGood(w, c, ch.(status := New));
        }
      }
    } else {
      var op := if ch.status != Added then CtlAdd else if ch.events != NO_EVENT then CtlMod else CtlDel;
      var after := ch.(status := if op == CtlDel then Del else Added);
      CtlKeepsGood(w, c, after, op);
      assert Perform(w, c, call) ==
             Done(World(w.chans[c := after], CtlEffect(w.interest, op, ch.fd, Reg(ch.events, c)))) by {
        assert w.chans[c := ch][c := after] == w.chans[c := after];
      }
    }
  }

  ghost predicate OnlyMoved<C>(w: World<C>, w': World<C>, c: C, events: Mask)
    requires c in w.chans
  {
    && w'.chans.Keys == w.chans.Keys
    && w'.chans[c].fd == w.chans[c].fd
    && w'.chans[c].events == events
    && (forall d :: d in w.chans && d != c ==> w'.chans[d] == w.chans[d])
  }

  function StatusAfter(call: Call, before: Chan): Status {
    if call == Remove then New
    else if before.status != Added || Events(call, before.events) != NO_EVENT then Added
    else Del
  }

  /** How a call moves the registration of its own channel. */
  lemma PerformStatus<C>(w: World<C>, c: C, call: Call)
    requires Good(w) && c in w.chans && Perform(w, c, call).Done?
    ensures Perform(w, c, call).value.chans[c].status == StatusAfter(call, w.chans[c])
  {
  }

  /** Disabling everything toggles: a channel that is not registered becomes registered, with an empty
      mask, and a second disable is such a call. Removing it afterwards is safe from either side. */
  lemma DisableAllToggles<C>(w: World<C>, c: C)
    requires Good(w) && c in w.chans
    ensures
      var r := Perform(w, c, DisableAll);
      && r.Done?
      && (w.chans[c].fd in r.value.interest <==> w.chans[c].fd !in w.interest)
      && (w.chans[c].fd !in w.interest ==> r.value.interest[w.chans[c].fd] == Reg(NO_EVENT, c))
      && Perform(r.value, c, Remove).Done?
      && w.chans[c].fd !in Perform(r.value, c, Remove).value.interest
  {
    PerformAgrees(w, c, DisableAll);
    PerformAgrees(Perform(w, c, DisableAll).value, c, Remove);
  }
}
