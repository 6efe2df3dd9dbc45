/** The classes Timer and TimerQueue, proved to take the machine's steps. */
module TimerQueues {
  import opened Timers
  import opened TimerMachine
  import opened TimerProofs
  import opened TimerTheorems

  class Timer {
    const id: TimerId
    var timing: Time
    const interval: int
    const repeated: bool
    var canceled: bool

    constructor (id: TimerId, when: Time, interval: int)
      ensures Value() == TimerRec(id, when, interval, interval > 0, false)
    {
      this.id, timing, this.interval, repeated, canceled := id, when, interval, interval > 0, false;
    }

    function Value(): TimerRec
      reads this
    {
      TimerRec(id, timing, interval, repeated, canceled)
    }

    method Restart()
      requires repeated
      modifies this`timing
      ensures Value() == old(Value()).(timing := old(timing) + old(Value()).Period())
    {
      timing := timing + interval * NANOS_PER_MICRO;
    }

    method Cancel()
      requires !canceled
      modifies this`canceled
      ensures Value() == old(Value()).(canceled := true)
    {
      canceled := true;
    }
  }

  /** `store` is what the timer objects hold. */
  ghost predicate Holds(timers: map<Ptr, Timer>, store: map<Ptr, TimerRec>)
    reads timers.Values
  {
    && (forall p :: p in timers <==> p in store)
    && (forall p :: p in timers ==> timers[p].Value() == store[p])
  }

  class TimerQueue {
    /** The timers that `new` gave and `delete` has not taken back, by address. */
    var timers: map<Ptr, Timer>
    var timerList: seq<Entry>
    /** Timer::nextId_. */
    var nextId: TimerId
    /** The kernel's side of `timerfd_`. */
    var timerfd: Timerfd
    var clock: Time
    /** The calls of timers' callbacks, with the handler's clock reading. */
    var ran: seq<Firing>

    ghost const start: Time
    ghost var steps: seq<Step>
    ghost var s: State

    ghost predicate Traced()
      reads this
    {
      LegalRun(Init(start), steps) && s == Run(Init(start), steps)
    }

    /** No two addresses hold the same object. */
    ghost predicate Apart()
      reads this
    {
      forall p, q :: p in timers && q in timers && timers[p] == timers[q] ==> p == q
    }

    /** The fields are those of the state that the steps taken so far lead to. */
    ghost predicate Valid()
      reads this, timers.Values
    {
      && Traced() && Apart()
      && Holds(timers, s.store) && s.list == timerList && s.fd == timerfd && s.nextId == nextId && s.clock == clock
      && s.log == ran
    }

    constructor (now: Time)
      ensures Valid() && s == Init(now) && start == now
    {
      timers, timerList, nextId, timerfd, clock, ran := map[], [], 0, Disarmed, now, [];
      start, steps, s := now, [], Init(now);
    }

    ghost method Take(step: Step)
      requires Traced() && Legal(s, step)
      modifies this`steps, this`s
      ensures Traced() && steps == old(steps) + [step] && s == Apply(old(s), step)
    {
      RunStep(Init(start), steps, step);
      steps, s := steps + [step], Apply(s, step);
    }

    /** `new Timer(cb, when, interval)`, at an address of the allocator's choice. */
    method NewTimer(ptr: Ptr, when: Time, interval: int)
      requires Apart() && ptr !in timers
      modifies this`timers, this`nextId
      ensures Apart() && nextId == old(nextId) + 1
      ensures ptr in timers && fresh(timers[ptr]) && timers == old(timers)[ptr := timers[ptr]]
      ensures timers[ptr].Value() == TimerRec(nextId, when, interval, interval > 0, false)
    {
      nextId := nextId + 1;
      var timer := new Timer(nextId, when, interval);
      timers := timers[ptr := timer];
    }

    /** The insertion into the set, and the fd armed if the entry is the first. */
    method InsertTimer(e: Entry, now: Time)
      modifies this`timerList, this`timerfd, this`clock
      ensures timerList == Insert(old(timerList), e) && clock == now
      ensures timerfd == if LowerBound(old(timerList), e) == 0 then SetTimerfd(e.first, now) else old(timerfd)
    {
      clock := now;
      var at := LowerBound(timerList, e);
      timerList := Insert(timerList, e);
      if at == 0 {
        timerfd := SetTimerfd(e.first, now);
      }
    }

    /** `ptr` is the address `new` returned, `now` the clock reading in `durationFromNow`. */
    method AddTimer(ptr: Ptr, when: Time, interval: int, now: Time)
      requires Valid() && Possible(s, Add(ptr, when, interval, now))
      modifies this
      ensures Valid() && s == Apply(old(s), Add(ptr, when, interval, now))
      ensures steps == old(steps) + [Add(ptr, when, interval, now)]
      ensures ptr in timers && fresh(timers[ptr]) && timers == old(timers)[ptr := timers[ptr]]
    {
      AddEffect(s, Add(ptr, when, interval, now));
      NewTimer(ptr, when, interval);
      InsertTimer(Entry(when, ptr), now);
      Take(Add(ptr, when, interval, now));
    }

    method CancelTimer(ptr: Ptr)
      requires Valid() && Possible(s, Cancel(ptr))
      modifies this, timers.Values
      ensures Valid() && s == Apply(old(s), Cancel(ptr))
      ensures steps == old(steps) + [Cancel(ptr)]
      ensures timers == old(timers) - {ptr}
    {
      NotCanceled(start, steps, ptr);
      timers[ptr].Cancel();
      timerList := Erase(timerList, Entry(timers[ptr].timing, ptr));
      timers := timers - {ptr};
      Take(Cancel(ptr));
    }

    /** One call of a callback into the queue, if it makes any. */
    method UserCall(batch: seq<Entry>, i: nat, ghost all: seq<Firing>, ghost log: seq<Firing>)
      requires Valid() && s.phase.Running? && i < |batch| && s.phase.Busy() == batch[i..]
      requires |all| == |batch| && Inside(batch, all, log, s.phase.curr, s)
      modifies this, timers.Values
      ensures Valid() && s.phase == old(s.phase) && old(steps) <= steps && ran == old(ran)
      ensures Inside(batch, all, log, s.phase.curr, s)
      ensures OldOrNew(old(timers.Values))
    {
      var ptr: Ptr := *;
      if ptr in timers {
        var busy := batch[i..];
        if forall k :: 0 <= k < |busy| ==> busy[k].second != ptr {
          NotCanceled(start, steps, ptr);
          InsideUserCode(batch, all, log, s.phase.curr, s, Cancel(ptr));
          CancelTimer(ptr);
        }
      } else {
        var when: Time, interval: int, now: Time := *, *, *;
        if ptr < UINTPTR_MAX && clock <= now {
          InsideUserCode(batch, all, log, s.phase.curr, s, Add(ptr, when, interval, now));
          AddTimer(ptr, when, interval, now);
        }
      }
    }

    /** `Timer::run` calls the callback, any code at all: it adds timers and cancels timers outside the
        batch, as often as it likes, and leaves the handler where it was. */
    method RunCallback(batch: seq<Entry>, i: nat, curr: Time, ghost all: seq<Firing>, ghost log: seq<Firing>)
      requires Valid() && i < |batch| && s.phase == Handling(curr, batch[i..]) && Legal(s, Fire)
      requires |all| == |batch| && Inside(batch, all, log, curr, s)
      modifies this, timers.Values
      ensures Valid() && old(steps) + [Fire] <= steps && s.phase == Running(curr, batch[i], batch[i + 1..])
      ensures ran == old(ran) + [Firing(old(timers[batch[i].second].id), batch[i].first, curr)]
      ensures Inside(batch, all, log, curr, s) && OldOrNew(old(timers.Values))
    {
      EnterCallback(batch, i, curr, all, log);
      UserCalls(batch, i, all, log);
    }

    /** What the callback does. */
    method UserCalls(batch: seq<Entry>, i: nat, ghost all: seq<Firing>, ghost log: seq<Firing>)
      requires Valid() && s.phase.Running? && i < |batch| && s.phase.Busy() == batch[i..]
      requires |all| == |batch| && Inside(batch, all, log, s.phase.curr, s)
      modifies this, timers.Values
      ensures Valid() && s.phase == old(s.phase) && old(steps) <= steps && ran == old(ran)
      ensures Inside(batch, all, log, s.phase.curr, s)
      ensures OldOrNew(old(timers.Values))
    {
      var n: nat := *;
      var k := 0;
      while k < n
        invariant Valid() && s.phase == old(s.phase) && old(steps) <= steps && ran == old(ran)
        invariant Inside(batch, all, log, s.phase.curr, s)
        invariant OldOrNew(old(timers.Values))
      {
        UserCall(batch, i, all, log);
        k := k + 1;
      }
    }

    /** The call itself. */
    method EnterCallback(batch: seq<Entry>, i: nat, curr: Time, ghost all: seq<Firing>, ghost log: seq<Firing>)
      requires Valid() && i < |batch| && s.phase == Handling(curr, batch[i..]) && Legal(s, Fire)
      requires |all| == |batch| && Inside(batch, all, log, curr, s)
      modifies this`ran, this`steps, this`s
      ensures Valid() && steps == old(steps) + [Fire] && s.phase == Running(curr, batch[i], batch[i + 1..])
      ensures ran == old(ran) + [Firing(timers[batch[i].second].id, batch[i].first, curr)]
      ensures Inside(batch, all, log, curr, s)
    {
      var ptr := batch[i].second;
      TurnStarts(start, steps, batch, i);
      FireInside(start, steps, batch, all, log);
      ran := ran + [Firing(timers[ptr].id, timers[ptr].timing, curr)];
      Take(Fire);
    }

    /** Every live timer is an object of `before` or one allocated since. */
    twostate predicate OldOrNew(before: set<Timer>)
      reads this
    {
      forall p :: p in timers ==> timers[p] in before || fresh(timers[p])
    }

    /** `getExpired`: the entries up to the split point, taken out of the set. The fd has been read. */
    method GetExpired(ghost readAt: Time, curr: Time) returns (expired: seq<Entry>)
      requires Valid() && Legal(s, Read(readAt, curr))
      modifies this
      ensures Valid() && s == Apply(old(s), Read(readAt, curr)) && steps == old(steps) + [Read(readAt, curr)]
      ensures timers == old(timers) && expired == Due(old(timerList), curr)
    {
      timerfd := Disarmed;
      clock := curr;
      var end := LowerBound(timerList, Entry(curr + 1, UINTPTR_MAX));
      expired := timerList[..end];
      timerList := timerList[end..];
      Take(Read(readAt, curr));
    }

    /** A repeating timer at the end of its turn in the handler's loop. */
    method RestartTimer(ptr: Ptr)
      requires Valid() && Possible(s, Finish) && ptr == s.phase.current.second
      requires !timers[ptr].canceled && timers[ptr].repeated
      modifies this, timers[ptr]
      ensures Valid() && s == Apply(old(s), Finish) && steps == old(steps) + [Finish]
      ensures timers == old(timers)
    {
      FinishEffect(s);
      timers[ptr].Restart();
      timerList := Insert(timerList, Entry(timers[ptr].timing, ptr));
      Take(Finish);
    }

    /** Any other timer at the end of its turn. */
    method DeleteTimer(ptr: Ptr)
      requires Valid() && Possible(s, Finish) && ptr == s.phase.current.second
      requires timers[ptr].canceled || !timers[ptr].repeated
      modifies this
      ensures Valid() && s == Apply(old(s), Finish) && steps == old(steps) + [Finish]
      ensures timers == old(timers) - {ptr}
    {
      FinishEffect(s);
      timers := timers - {ptr};
      Take(Finish);
    }

    /** One turn of the handler's loop; `ok` says that its assertion held. */
    method HandleOne(batch: seq<Entry>, i: nat, curr: Time, ghost all: seq<Firing>, ghost log: seq<Firing>)
      returns (ok: bool)
      requires Valid() && i < |batch| && s.phase == Handling(curr, batch[i..])
      requires |all| == |batch| && Inside(batch, all, log, curr, s)
      modifies this, timers.Values
      ensures ok <==> batch[i].first <= curr
      ensures !ok ==> Valid() && batch[i].first == curr + 1 && ran == log + all[..i]
      ensures ok ==> Valid() && old(steps) <= steps && s.phase == Handling(curr, batch[i + 1..])
      ensures ok ==> Inside(batch, all, log, curr, s) && OldOrNew(old(timers.Values))
    {
      var ptr := batch[i].second;
      TurnStarts(start, steps, batch, i);
      if !timers[ptr].Value().Expired(curr) {
        return false;
      }
      RunTimer(batch, i, curr, all, log);
      FinishTurn(batch, i, curr, all, log);
      ok := true;
    }

    /** The middle of the turn: the callback, unless the timer was cancelled. */
    method RunTimer(batch: seq<Entry>, i: nat, curr: Time, ghost all: seq<Firing>, ghost log: seq<Firing>)
      requires Valid() && i < |batch| && s.phase == Handling(curr, batch[i..]) && Legal(s, Fire)
      requires |all| == |batch| && Inside(batch, all, log, curr, s)
      modifies this, timers.Values
      ensures Valid() && old(steps) <= steps && s.phase == Running(curr, batch[i], batch[i + 1..])
      ensures Inside(batch, all, log, curr, s) && OldOrNew(old(timers.Values))
    {
      TurnStarts(start, steps, batch, i);
      if !timers[batch[i].second].canceled {
        RunCallback(batch, i, curr, all, log);
      }
    }

    /** The end of the turn: a repeating timer goes back into the set, any other is deleted. */
    method FinishTurn(batch: seq<Entry>, i: nat, curr: Time, ghost all: seq<Firing>, ghost log: seq<Firing>)
      requires Valid() && i < |batch| && s.phase == Running(curr, batch[i], batch[i + 1..])
      requires |all| == |batch| && Inside(batch, all, log, curr, s)
      modifies this, timers.Values
      ensures Valid() && steps == old(steps) + [Finish] && s.phase == Handling(curr, batch[i + 1..])
      ensures Inside(batch, all, log, curr, s)
      ensures timers == old(timers) || timers == old(timers) - {batch[i].second}
    {
      var ptr := batch[i].second;
      FinishInside(start, steps, batch, all, log);
      if !timers[ptr].canceled && timers[ptr].repeated {
        RestartTimer(ptr);
      } else {
        DeleteTimer(ptr);
      }
    }

    /** The handler for a readable timerfd, which it reads at `readAt`; `curr` is its clock reading. It
        aborts exactly when the fd was not readable after all or a timer is due one nanosecond later, and
        then before that timer's callback; otherwise it runs the callback of each timer due, once, in order,
        and leaves the queue idle. */
    method HandleTimingRead(readAt: Time, curr: Time) returns (aborted: bool, ghost served: nat)
      requires Valid() && s.phase.Idle? && clock <= readAt <= curr
      modifies this, timers.Values
      ensures aborted <==>
              !old(timerfd).ReadableAt(readAt) || exists e :: e in old(timerList) && e.first == curr + 1
      ensures !old(timerfd).ReadableAt(readAt) ==> ran == old(ran)
      ensures old(timerfd).ReadableAt(readAt) ==>
                (forall i :: 0 <= i < |Due(old(timerList), curr)| ==>
                    Due(old(timerList), curr)[i].second in old(s).store)
      ensures aborted && old(timerfd).ReadableAt(readAt) ==>
                var batch := Due(old(timerList), curr);
                StoppedAt(batch, Firings(old(s), batch, curr), old(ran), curr, ran, served)
      ensures !aborted ==>
                && Valid() && s.phase.Idle? && old(steps) <= steps && OldOrNew(old(timers.Values))
                && ran == old(ran) + Firings(old(s), Due(old(timerList), curr), curr)
    {
      if !timerfd.ReadableAt(readAt) {
        return true, 0;
      }
      ReadInside(start, steps, readAt, curr);
      ghost var log, all := s.log, Firings(s, Due(s.list, curr), curr);
      var expired := GetExpired(readAt, curr);
      aborted, served := ServeBatch(expired, curr, all, log);
    }

    /** The rest of the handler, once the batch has been taken out of the set. */
    method ServeBatch(expired: seq<Entry>, curr: Time, ghost all: seq<Firing>, ghost log: seq<Firing>)
      returns (aborted: bool, ghost served: nat)
      requires Valid() && s.phase == Handling(curr, expired)
      requires |all| == |expired| && Inside(expired, all, log, curr, s)
      modifies this, timers.Values
      ensures aborted ==> StoppedAt(expired, all, log, curr, ran, served)
      ensures !aborted ==> forall k :: 0 <= k < |expired| ==> expired[k].first <= curr
      ensures !aborted ==> Valid() && s.phase.Idle? && old(steps) <= steps && OldOrNew(old(timers.Values))
      ensures !aborted ==> ran == log + all
    {
      InsideHasFirings(expired, all, log, s);
      aborted, served := HandleBatch(expired, curr, all, log);
      assert all[..|all|] == all;
      FiredWereDue(start, steps, expired, all, log, curr, served);
      if !aborted {
        var now: Time := *;
        Rearm(if now < clock then clock else now);
      }
    }

    /** The loop over the batch. */
    method HandleBatch(expired: seq<Entry>, curr: Time, ghost all: seq<Firing>, ghost log: seq<Firing>)
      returns (aborted: bool, ghost served: nat)
      requires Valid() && s.phase == Handling(curr, expired)
      requires |all| == |expired| && Inside(expired, all, log, curr, s)
      modifies this, timers.Values
      ensures Valid() && served <= |expired| && ran == log + all[..served]
      ensures aborted ==> served < |expired| && expired[served].first == curr + 1
      ensures !aborted ==> old(steps) <= steps && s.phase == Handling(curr, []) && served == |expired|
      ensures !aborted ==> Inside(expired, all, log, curr, s) && OldOrNew(old(timers.Values))
    {
      var i := 0;
      while i < |expired|
        invariant 0 <= i <= |expired|
        invariant Valid() && old(steps) <= steps && s.phase == Handling(curr, expired[i..])
        invariant Inside(expired, all, log, curr, s) && OldOrNew(old(timers.Values))
      {
        var ok := HandleOne(expired, i, curr, all, log);
        if !ok {
          return true, i;
        }
        i := i + 1;
      }
      aborted, served := false, i;
    }

    /** The end of the handler: the fd is armed for the head, if there is one. */
    method Rearm(now: Time)
      requires Valid() && Possible(s, Step.Rearm(now))
      modifies this
      ensures Valid() && s == Apply(old(s), Step.Rearm(now)) && steps == old(steps) + [Step.Rearm(now)]
      ensures timers == old(timers)
    {
      clock := now;
      if timerList != [] {
        timerfd := SetTimerfd(timerList[0].first, now);
      }
      Take(Step.Rearm(now));
    }

    /** The destructor's loop. `gone` has the address of each `delete`: every live timer, once, and so none
        is left. */
    method Destroy() returns (ghost gone: seq<Ptr>)
      requires Valid() && s.phase.Idle?
      modifies this`timers
      ensures timers == map[]
      ensures NoDuplicates(gone) && forall p :: p in gone <==> p in old(timers)
    {
      ListReaches(start, steps);
      gone := DeleteAll();
    }

    /** The loop itself, over a set whose entries lead to the live timers, one to each. */
    method DeleteAll() returns (ghost gone: seq<Ptr>)
      requires NoDuplicates(Pointers(timerList)) && forall p :: p in timers <==> p in Pointers(timerList)
      modifies this`timers
      ensures timers == map[] && gone == Pointers(timerList)
    {
      ghost var pointers := Pointers(timerList);
      gone := [];
      var i := 0;
      while i < |timerList|
        invariant 0 <= i <= |timerList|
        invariant gone == pointers[..i]
        invariant forall p :: p in timers <==> p in pointers[i..]
      {
        var ptr := timerList[i].second;
        assert ptr == pointers[i] && ptr in timers;
        timers := timers - {ptr};
        gone := gone + [ptr];
        i := i + 1;
      }
    }
  }

  /** The handler's assertion failed at entry `k` of the batch, after the callbacks of those before it. */
  ghost predicate StoppedAt(batch: seq<Entry>, all: seq<Firing>, log: seq<Firing>, curr: Time, ran: seq<Firing>,
                            k: nat)
    requires |all| == |batch|
  {
    && k < |batch| && batch[k].first == curr + 1
    && (forall j :: 0 <= j < k ==> batch[j].first <= curr)
    && ran == log + all[..k]
  }

  /** `all` has the firing of each entry. */
  ghost predicate FiringsFor(batch: seq<Entry>, all: seq<Firing>, curr: Time) {
    |all| == |batch| && forall k :: 0 <= k < |batch| ==> all[k].nominal == batch[k].first && all[k].at == curr
  }

  lemma InsideHasFirings(batch: seq<Entry>, all: seq<Firing>, log: seq<Firing>, s: State)
    requires s.phase.Handling? && s.phase.todo == batch
    requires |all| == |batch| && Inside(batch, all, log, s.phase.curr, s)
    ensures FiringsFor(batch, all, s.phase.curr)
  {
  }

  /** What has been fired was due by its handler's clock. */
  lemma FiredWereDue(start: Time, steps: seq<Step>, batch: seq<Entry>, all: seq<Firing>, log: seq<Firing>,
                     curr: Time, n: nat)
    requires FiringsFor(batch, all, curr) && n <= |batch|
    requires LegalRun(Init(start), steps) && Run(Init(start), steps).log == log + all[..n]
    ensures forall k :: 0 <= k < n ==> batch[k].first <= curr
  {
    ReachableInv(start, steps);
    var s := Run(Init(start), steps);
    forall k | 0 <= k < n
      ensures batch[k].first <= curr
    {
      assert s.log[|log| + k] == all[k];
      assert all[k] in s.log;
    }
  }

  /** Between handler calls the entries lead to the live timers, one to each. */
  lemma ListReaches(start: Time, steps: seq<Step>)
    requires LegalRun(Init(start), steps) && Run(Init(start), steps).phase.Idle?
    ensures
      var s := Run(Init(start), steps);
      NoDuplicates(Pointers(s.list)) && forall p :: p in s.store <==> p in Pointers(s.list)
  {
    ReachableInv(start, steps);
    var s := Run(Init(start), steps);
    ListInStore(s);
    forall p | p in s.store
      ensures p in Pointers(s.list)
    {
      var e := Entry(s.store[p].timing, p);
      assert e in s.list;
      var i :| 0 <= i < |s.list| && s.list[i] == e;
      assert Pointers(s.list)[i] == p;
    }
  }

  /** The fields of the state after a timer is added. */
  lemma AddEffect(s: State, step: Step)
    requires step.Add? && Possible(s, step)
    ensures
      var s', id := Apply(s, step), s.nextId + 1;
      && s'.store == s.store[step.ptr := TimerRec(id, step.when, step.interval, step.interval > 0, false)]
      && s'.list == Insert(s.list, Entry(step.when, step.ptr))
      && s'.nextId == id && s'.clock == step.now
      && s'.fd == if LowerBound(s.list, Entry(step.when, step.ptr)) == 0 then SetTimerfd(step.when, step.now)
                  else s.fd
  {
  }

  /** The fields of the state after a timer's turn. */
  lemma FinishEffect(s: State)
    requires Possible(s, Finish)
    ensures
      var s', p, t := Apply(s, Finish), s.phase.current.second, s.store[s.phase.current.second];
      && s'.fd == s.fd && s'.nextId == s.nextId && s'.clock == s.clock
      && (if !t.canceled && t.repeated then
            var t' := t.(timing := t.timing + t.Period());
            s'.store == s.store[p := t'] && s'.list == Insert(s.list, Entry(t'.timing, p))
          else
            s'.store == s.store - {p} && s'.list == s.list)
  {
  }

  lemma ReadInside(start: Time, steps: seq<Step>, readAt: Time, curr: Time)
    requires LegalRun(Init(start), steps)
    requires var s := Run(Init(start), steps); Possible(s, Read(readAt, curr)) && s.fd.ReadableAt(readAt)
    ensures
      var s := Run(Init(start), steps);
      var batch := Due(s.list, curr);
      && Legal(s, Read(readAt, curr))
      && (forall i :: 0 <= i < |batch| ==> batch[i].second in s.store)
      && Inside(batch, Firings(s, batch, curr), s.log, curr, Apply(s, Read(readAt, curr)))
      && (forall e :: e in s.list && e.first <= curr + 1 ==> e in batch)
      && (forall e :: e in batch ==> e in s.list)
  {
    ReachableInv(start, steps);
    var s := Run(Init(start), steps);
    AssertionsExactly(s, Read(readAt, curr));
    InsideStarts(s, readAt, curr);
    InBounds(s);
    SplitIsExact(s.list, curr);
  }

  lemma TurnStarts(start: Time, steps: seq<Step>, batch: seq<Entry>, i: nat)
    requires LegalRun(Init(start), steps) && i < |batch|
    requires var s := Run(Init(start), steps); s.phase.Handling? && s.phase.todo == batch[i..]
    ensures
      var s := Run(Init(start), steps);
      var p := batch[i].second;
      p in s.store && s.store[p].timing == batch[i].first <= s.phase.curr + 1 && !s.store[p].canceled
  {
    ReachableInv(start, steps);
    HeadInTurn(Run(Init(start), steps));
  }

  lemma FireInside(start: Time, steps: seq<Step>, batch: seq<Entry>, all: seq<Firing>, log: seq<Firing>)
    requires LegalRun(Init(start), steps) && |all| == |batch|
    requires var s := Run(Init(start), steps); Legal(s, Fire) && Inside(batch, all, log, s.phase.curr, s)
    ensures var s := Run(Init(start), steps); Inside(batch, all, log, s.phase.curr, Apply(s, Fire))
  {
    ReachableInv(start, steps);
    var s := Run(Init(start), steps);
    HeadInTurn(s);
    InsideFires(batch, all, log, s.phase.curr, s);
  }

  lemma FinishInside(start: Time, steps: seq<Step>, batch: seq<Entry>, all: seq<Firing>, log: seq<Firing>)
    requires LegalRun(Init(start), steps) && |all| == |batch|
    requires var s := Run(Init(start), steps); s.phase.Running? && Inside(batch, all, log, s.phase.curr, s)
    ensures
      var s := Run(Init(start), steps);
      Legal(s, Finish) && Inside(batch, all, log, s.phase.curr, Apply(s, Finish))
  {
    ReachableInv(start, steps);
    var s := Run(Init(start), steps);
    assert s.phase.current in s.phase.Busy();
    CurrentAlone(s);
    InsideFinishes(batch, all, log, s.phase.curr, s);
  }
}
