/** What holds of the timer queue over every run. */
module TimerTheorems {
  import opened Timers
  import opened TimerMachine
  import opened TimerProofs

  /** Between handler calls the head of the set is the earliest of the live timers. */
  lemma HeadIsEarliest(s: State, p: Ptr)
    requires Placed(s) && s.phase.Idle? && p in s.store
    ensures s.list != [] && s.list[0].first <= s.store[p].timing
  {
    var e := Entry(s.store[p].timing, p);
    assert e in s.list;
    var i :| 0 <= i < |s.list| && s.list[i] == e;
    assert i > 0 ==> Less(s.list[0], s.list[i]);
  }

  /** The fd is armed, to wake no later than the timer's deadline or the minimum delay. */
  ghost predicate Awaited(s: State, p: Ptr)
    requires p in s.store
  {
    s.fd.Armed? && s.fd.wake <= MaxTime(s.store[p].timing, s.fd.at + 1000)
  }

  lemma AllAwaited(s: State)
    requires Placed(s) && Wakes(s) && s.phase.Idle?
    ensures forall p :: p in s.store ==> Awaited(s, p)
  {
    forall p | p in s.store
      ensures Awaited(s, p)
    {
      HeadIsEarliest(s, p);
    }
  }

  /** No lost timer: between handler calls the fd is armed for every live timer, to wake no later than
      its deadline or the minimum delay, whatever was cancelled and however early it woke before. */
  lemma {:induction false} NoLostTimer(clock: Time, steps: seq<Step>)
    requires LegalRun(Init(clock), steps)
    ensures
      var s := Run(Init(clock), steps);
      s.phase.Idle? ==> forall p :: p in s.store ==> Awaited(s, p)
  {
    ReachableInv(clock, steps);
    if Run(Init(clock), steps).phase.Idle? {
      AllAwaited(Run(Init(clock), steps));
    }
  }

  // Ownership.

  function Places(s: State): seq<Entry> {
    s.list + s.phase.Busy()
  }

  /** Each timer created is live or was deleted, never both, and deleted at most once. */
  lemma {:induction false} TimersConserved(clock: Time, steps: seq<Step>)
    requires LegalRun(Init(clock), steps)
    ensures
      var s := Run(Init(clock), steps);
      && |s.store| + |s.deleted| == s.nextId
      && NoDuplicates(s.deleted)
      && (forall i :: i in s.births <==> 1 <= i <= s.nextId)
      && (forall i :: i in s.births ==> (i in s.deleted <==> !Live(s, i)))
  {
    ReachableInv(clock, steps);
  }

  /** Each live timer stands in exactly one entry, keyed by its current deadline, and each entry leads to
      a live timer. */
  lemma {:induction false} TimersPlacedOnce(clock: Time, steps: seq<Step>)
    requires LegalRun(Init(clock), steps)
    ensures
      var s := Run(Init(clock), steps);
      && (forall e :: e in Places(s) ==> e.second in s.store && s.store[e.second].timing == e.first)
      && (forall p :: p in s.store ==> Entry(s.store[p].timing, p) in Places(s))
      && (forall i, j :: 0 <= i < j < |Places(s)| ==> Places(s)[i].second != Places(s)[j].second)
  {
    ReachableInv(clock, steps);
    var s := Run(Init(clock), steps);
    forall i, j | 0 <= i < j < |Places(s)|
      ensures Places(s)[i].second != Places(s)[j].second
    {
      PlacesApart(s, i, j);
    }
  }

  lemma {:induction false} PlacesApart(s: State, i: nat, j: nat)
    requires Placed(s) && i < j < |Places(s)|
    ensures Places(s)[i].second != Places(s)[j].second
  {
    var a, b := Places(s)[i], Places(s)[j];
    var n := |s.list|;
    if j < n {
      assert Less(s.list[i], s.list[j]);
    } else if n <= i {
      assert Less(s.phase.Busy()[i - n], s.phase.Busy()[j - n]);
    } else {
      assert a in s.list && b in s.phase.Busy();
    }
    assert a != b;
    assert a in s.list || a in s.phase.Busy();
    assert b in s.list || b in s.phase.Busy();
  }

  /** Both places that insert into the set insert something new. */
  lemma AddInserts(s: State, step: Step)
    requires Placed(s) && Legal(s, step) && step.Add?
    ensures |Apply(s, step).list| == |s.list| + 1
  {
    InsertSorted(s.list, Entry(step.when, step.ptr));
  }

  lemma RestartInserts(s: State)
    requires Placed(s) && Legal(s, Finish) && s.phase.current.second in Apply(s, Finish).store
    ensures |Apply(s, Finish).list| == |s.list| + 1
  {
    var e := s.phase.current;
    assert e in s.phase.Busy();
    var t := s.store[e.second];
    InsertSorted(s.list, Entry(t.timing + t.Period(), e.second));
  }

  /** The timers the destructor deletes, in the order of the set. */
  ghost function DestroyedIds(s: State): seq<TimerId>
    requires forall i :: 0 <= i < |s.list| ==> s.list[i].second in s.store
  {
    seq(|s.list|, i requires 0 <= i < |s.list| => s.store[s.list[i].second].id)
  }

  ghost function Pointers(list: seq<Entry>): seq<Ptr> {
    seq(|list|, i requires 0 <= i < |list| => list[i].second)
  }

  lemma {:induction false} ListInStore(s: State)
    requires Placed(s)
    ensures forall i :: 0 <= i < |s.list| ==> s.list[i].second in s.store
    ensures forall i, j :: 0 <= i < j < |s.list| ==> s.list[i].second != s.list[j].second
  {
    forall i | 0 <= i < |s.list|
      ensures s.list[i].second in s.store
    {
      assert s.list[i] in s.list;
    }
    forall i, j | 0 <= i < j < |s.list|
      ensures s.list[i].second != s.list[j].second
    {
      PlacesApart(s, i, j);
    }
  }

  lemma LiveIsListed(s: State, id: TimerId)
    requires Placed(s) && s.phase.Idle? && id in s.births && Live(s, id)
    ensures forall i :: 0 <= i < |s.list| ==> s.list[i].second in s.store
    ensures id in DestroyedIds(s)
  {
    ListInStore(s);
    var p := s.births[id].ptr;
    var e := Entry(s.store[p].timing, p);
    assert e in s.list;
    var i :| 0 <= i < |s.list| && s.list[i] == e;
    assert DestroyedIds(s)[i] == id;
  }

  lemma ListedIsLive(s: State, i: nat)
    requires Placed(s) && Owned(s) && i < |s.list| && s.list[i].second in s.store
    ensures var id := s.store[s.list[i].second].id; id in s.births && Live(s, id) && id !in s.deleted
  {
    assert BornAs(s, s.list[i].second);
  }

  lemma DestroyedOnce(s: State)
    requires Placed(s) && Owned(s)
    ensures forall i :: 0 <= i < |s.list| ==> s.list[i].second in s.store
    ensures forall i :: 0 <= i < |s.list| ==> DestroyedIds(s)[i] in s.births && DestroyedIds(s)[i] !in s.deleted
    ensures NoDuplicates(DestroyedIds(s))
  {
    ListInStore(s);
    forall i | 0 <= i < |s.list|
      ensures DestroyedIds(s)[i] in s.births && DestroyedIds(s)[i] !in s.deleted
    {
      ListedIsLive(s, i);
    }
    forall i, j | 0 <= i < j < |s.list|
      ensures DestroyedIds(s)[i] != DestroyedIds(s)[j]
    {
      assert BornAs(s, s.list[i].second) && BornAs(s, s.list[j].second);
    }
  }

  /** Destroying an idle queue deletes, once each, exactly the timers not deleted before: then every timer
      ever created has been deleted exactly once. */
  lemma {:induction false} DestructorLeaksNothing(clock: Time, steps: seq<Step>)
    requires LegalRun(Init(clock), steps) && Run(Init(clock), steps).phase.Idle?
    ensures
      var s := Run(Init(clock), steps);
      && (forall i :: 0 <= i < |s.list| ==> s.list[i].second in s.store)
      && NoDuplicates(s.deleted + DestroyedIds(s))
      && (forall i :: i in s.deleted + DestroyedIds(s) <==> 1 <= i <= s.nextId)
  {
    ReachableInv(clock, steps);
    DestructionIsComplete(Run(Init(clock), steps));
  }

  lemma DestructionIsComplete(s: State)
    requires Placed(s) && Owned(s) && s.phase.Idle?
    ensures forall i :: 0 <= i < |s.list| ==> s.list[i].second in s.store
    ensures NoDuplicates(s.deleted + DestroyedIds(s))
    ensures forall i :: i in s.deleted + DestroyedIds(s) <==> 1 <= i <= s.nextId
  {
    DestroyedOnce(s);
    forall i | 1 <= i <= s.nextId && i !in s.deleted
      ensures i in DestroyedIds(s)
    {
      LiveIsListed(s, i);
    }
  }

  // Assertions and aborts.

  /** The handler never follows a dangling pointer, and never has nothing to do next. */
  lemma HandlerCanGoOn(s: State)
    requires Placed(s)
    ensures s.phase.Handling? && s.phase.todo != [] ==> Possible(s, Fire)
    ensures s.phase.Handling? && s.phase.todo == [] ==> Possible(s, Rearm(s.clock))
    ensures s.phase.Running? ==> Possible(s, Finish)
  {
    assert s.phase.Handling? && s.phase.todo != [] ==> s.phase.todo[0] in s.phase.Busy();
    assert s.phase.Running? ==> s.phase.current in s.phase.Busy();
  }

  /** Which assertions can fail: reading a timerfd that is not readable, and firing a timer due at
      exactly one nanosecond after the handler's clock reading. No other ever does. */
  lemma AssertionsExactly(s: State, step: Step)
    requires Placed(s) && Healthy(s) && Possible(s, step)
    ensures AssertionsHold(s, step) <==>
              match step
              case Read(readAt, _) => s.fd.ReadableAt(readAt)
              case Fire => s.phase.todo[0].first != s.phase.curr + 1
              case _ => true
  {
    match step
    case Read(_, curr) =>
      InBounds(s);
      SplitIsExact(s.list, curr);
      if Later(s.list, curr) != [] {
        assert Later(s.list, curr)[0] in Later(s.list, curr);
      }
    case Fire =>
      assert s.phase.todo[0] in s.phase.Busy();
    case _ =>
  }

  /** Seen from the start of the handler: the whole batch passes `expired(curr)` iff no entry is due at
      exactly `curr + 1`. */
  lemma BatchExpiredIff(s: State, curr: Time)
    requires Placed(s) && Healthy(s)
    ensures (forall e :: e in Due(s.list, curr) ==> e.second in s.store && s.store[e.second].Expired(curr)) <==>
            (forall e :: e in s.list ==> e.first != curr + 1)
  {
    InBounds(s);
    SplitIsExact(s.list, curr);
    if e :| e in s.list && e.first == curr + 1 {
      assert e in Due(s.list, curr) && !s.store[e.second].Expired(curr);
    }
  }

  /** The abort is reachable: one timer 1001 ns ahead, the fd wakes after 1000 ns. */
  lemma ExpiredAssertionCanFail()
    ensures
      var steps := [Add(4096, 1001, 0, 0), Read(1000, 1000)];
      && LegalRun(Init(0), steps)
      && Possible(Run(Init(0), steps), Fire)
      && !AssertionsHold(Run(Init(0), steps), Fire)
  {
    RunStep(Init(0), [], Add(4096, 1001, 0, 0));
    var one := [Add(4096, 1001, 0, 0)];
    assert [] + one == one;
    var s := Run(Init(0), one);
    assert s.list == [Entry(1001, 4096)] && s.fd == Armed(0, 1000);
    assert LowerBound([], Entry(1001, UINTPTR_MAX)) == 0;
    assert SplitPoint(s.list, 1000) == 1;
    RunStep(Init(0), one, Read(1000, 1000));
    assert one + [Read(1000, 1000)] == [Add(4096, 1001, 0, 0), Read(1000, 1000)];
  }

  /** What user code makes of the timerfd: the setting by the last added timer that became the head, or
      `Disarmed` if none did. */
  ghost function NewSetting(s: State, steps: seq<Step>): Timerfd
    requires LegalRun(s, steps)
  {
    if steps == [] then Disarmed
    else
      var before, last := steps[..|steps| - 1], steps[|steps| - 1];
      if last.Add? && LowerBound(Run(s, before).list, Entry(last.when, last.ptr)) == 0 then
        SetTimerfd(last.when, last.now)
      else
        NewSetting(s, before)
  }

  ghost predicate UserSteps(steps: seq<Step>) {
    forall i :: 0 <= i < |steps| ==> steps[i].Add? || steps[i].Cancel?
  }

  lemma {:induction false} UserStepsSetFd(s: State, steps: seq<Step>)
    requires LegalRun(s, steps) && UserSteps(steps)
    ensures Run(s, steps).phase == s.phase
    ensures Run(s, steps).fd == if NewSetting(s, steps).Disarmed? then s.fd else NewSetting(s, steps)
  {
    if steps != [] {
      UserStepsSetFd(s, steps[..|steps| - 1]);
    }
  }

  /** The handler's read of the timerfd, after the fd was reported readable and other handlers of the same
      poll have run user code: its assertion holds iff no timer they added became the head, or the setting
      by the last one that did has expired as well by the time of the read. */
  lemma {:induction false} ReadAfterUserCode(s: State, steps: seq<Step>, reported: Time, readAt: Time, curr: Time)
    requires Inv(s) && s.phase.Idle? && s.fd.ReadableAt(reported)
    requires LegalRun(s, steps) && UserSteps(steps)
    requires Possible(Run(s, steps), Read(readAt, curr)) && reported <= readAt
    ensures AssertionsHold(Run(s, steps), Read(readAt, curr)) <==>
            NewSetting(s, steps).Disarmed? || NewSetting(s, steps).wake <= readAt
  {
    RunKeepsInv(s, steps);
    UserStepsSetFd(s, steps);
    AssertionsExactly(Run(s, steps), Read(readAt, curr));
  }

  /** The same for a single added timer. */
  lemma {:induction false} ReadAfterAdd(s: State, ptr: Ptr, when: Time, interval: int, now: Time,
                                        readAt: Time, curr: Time)
    requires Placed(s) && Healthy(s) && s.phase.Idle? && s.fd.ReadableAt(now)
    requires Possible(s, Add(ptr, when, interval, now)) && now <= readAt <= curr
    ensures
      var s' := Apply(s, Add(ptr, when, interval, now));
      AssertionsHold(s', Read(readAt, curr)) <==>
      LowerBound(s.list, Entry(when, ptr)) > 0 || SetTimerfd(when, now).wake <= readAt
  {
    var step := Add(ptr, when, interval, now);
    KeepsPlaced(s, step);
    KeepsHealthy(s, step);
    AssertionsExactly(Apply(s, step), Read(readAt, curr));
  }

  /** The abort is reachable: the fd is readable at 1000, a timer already due is added, and the read that
      follows at once finds the fd set for 2000. A read at 2000 would succeed. */
  lemma TimerfdReadCanFail()
    ensures
      var first := [Add(4096, 1000, 0, 0)];
      var steps := [Add(4096, 1000, 0, 0), Add(8192, 500, 0, 1000)];
      && LegalRun(Init(0), first) && Run(Init(0), first).fd.ReadableAt(1000)
      && LegalRun(Init(0), steps)
      && Possible(Run(Init(0), steps), Read(1000, 1000))
      && !AssertionsHold(Run(Init(0), steps), Read(1000, 1000))
      && AssertionsHold(Run(Init(0), steps), Read(2000, 2000))
  {
    var a, b := Add(4096, 1000, 0, 0), Add(8192, 500, 0, 1000);
    RunStep(Init(0), [], a);
    assert [] + [a] == [a];
    var s := Run(Init(0), [a]);
    assert s.list == [Entry(1000, 4096)] && s.fd == Armed(0, 1000);
    RunStep(Init(0), [a], b);
    assert [a] + [b] == [a, b];
    ReachableInv(0, [a]);
    ReadAfterAdd(s, 8192, 500, 0, 1000, 1000, 1000);
    ReadAfterAdd(s, 8192, 500, 0, 1000, 2000, 2000);
  }

  /** `cancel`'s own assertion never fails: a live timer has not been cancelled. */
  lemma {:induction false} NotCanceled(clock: Time, steps: seq<Step>, p: Ptr)
    requires LegalRun(Init(clock), steps) && p in Run(Init(clock), steps).store
    ensures !Run(Init(clock), steps).store[p].canceled
  {
    ReachableInv(clock, steps);
  }

  // Fixed rate.

  lemma {:induction false} NominalsBelow(log: seq<Firing>, id: TimerId, c: Time)
    requires forall f :: f in log ==> f.nominal <= c
    ensures forall k :: 0 <= k < Fired(log, id) ==> Nominals(log, id)[k] <= c
  {
    if log != [] {
      NominalsBelow(log[..|log| - 1], id, c);
    }
  }

  lemma MulAtMost(a: int, b: int, d: int)
    requires a <= b && d > 0
    ensures a * d <= b * d
  {
  }

  lemma {:induction false} QuotientBound(m: int, d: int, x: int)
    requires d > 0 && m * d <= x
    ensures m <= x / d
  {
    if x / d + 1 <= m {
      MulAtMost(x / d + 1, m, d);
    }
  }

  lemma CountBound(b: Birth, n: nat, clock: Time)
    requires b.interval > 0 && n > 0 && b.Nth(n - 1) <= clock
    ensures n <= (clock - b.when) / (b.interval * NANOS_PER_MICRO) + 1
  {
    QuotientBound(n - 1, b.interval * NANOS_PER_MICRO, clock - b.when);
  }

  lemma FiringsAreNominal(s: State, id: TimerId)
    requires Rated(s) && id in s.births
    ensures forall k :: 0 <= k < Fired(s.log, id) ==> Nominals(s.log, id)[k] == s.births[id].Nth(k) <= s.clock
    ensures s.births[id].interval <= 0 ==> Fired(s.log, id) <= 1
  {
    assert Consecutive(s, id);
    NominalsBelow(s.log, id, s.clock);
  }

  lemma NextIsNominal(s: State, id: TimerId)
    requires Rated(s) && id in s.births && Live(s, id) && !s.phase.IsCurrent(s.births[id].ptr)
    ensures s.store[s.births[id].ptr].timing == s.births[id].Nth(Fired(s.log, id))
  {
    assert OnRate(s, s.births[id].ptr);
  }

  /** A timer fires for t0, t0 + d, t0 + 2d, ... with none skipped, its next deadline is always the next
      term, and a timer that does not repeat fires at most once. No firing is early: the clock reading of
      its handler is not before the deadline it is for. */
  lemma {:induction false} FixedRate(clock: Time, steps: seq<Step>, id: TimerId)
    requires LegalRun(Init(clock), steps) && id in Run(Init(clock), steps).births
    ensures
      var s := Run(Init(clock), steps);
      var b, n := s.births[id], Fired(s.log, id);
      && (forall k :: 0 <= k < n ==> Nominals(s.log, id)[k] == b.Nth(k) <= s.clock)
      && (Live(s, id) && !s.phase.IsCurrent(b.ptr) ==> s.store[b.ptr].timing == b.Nth(n))
      && (b.interval <= 0 ==> n <= 1)
      && (forall f :: f in s.log ==> f.nominal <= f.at <= s.clock)
  {
    ReachableInv(clock, steps);
    var s := Run(Init(clock), steps);
    FiringsAreNominal(s, id);
    if Live(s, id) && !s.phase.IsCurrent(s.births[id].ptr) {
      NextIsNominal(s, id);
    }
  }

  /** By the time the clock shows c, a repeating timer fired at most floor((c - t0) / d) + 1 times. */
  lemma {:induction false} FiringCount(clock: Time, steps: seq<Step>, id: TimerId)
    requires LegalRun(Init(clock), steps) && id in Run(Init(clock), steps).births
    ensures
      var s := Run(Init(clock), steps);
      var b, n := s.births[id], Fired(s.log, id);
      b.interval > 0 && n > 0 ==> n <= (s.clock - b.when) / (b.interval * NANOS_PER_MICRO) + 1
  {
    FixedRate(clock, steps, id);
    var s := Run(Init(clock), steps);
    var b, n := s.births[id], Fired(s.log, id);
    if b.interval > 0 && n > 0 {
      assert Nominals(s.log, id)[n - 1] == b.Nth(n - 1) <= s.clock;
      CountBound(b, n, s.clock);
    }
  }

  // What one handler call fires.

  /** The firing an entry stands for. */
  ghost function FiringOf(s: State, e: Entry, curr: Time): Firing
    requires e.second in s.store
  {
    Firing(s.store[e.second].id, e.first, curr)
  }

  ghost function Firings(s: State, batch: seq<Entry>, curr: Time): seq<Firing>
    requires forall i :: 0 <= i < |batch| ==> batch[i].second in s.store
  {
    seq(|batch|, i requires 0 <= i < |batch| => FiringOf(s, batch[i], curr))
  }

  /** Inside a handler call for `batch`: some of the firings `all` are logged, the rest still to come. */
  ghost predicate Inside(batch: seq<Entry>, all: seq<Firing>, log: seq<Firing>, curr: Time, s: State)
    requires |all| == |batch|
  {
    && !s.phase.Idle? && s.phase.curr == curr
    && |s.phase.todo| <= |batch|
    && (var k := |batch| - |s.phase.todo|;
        && s.phase.todo == batch[k..]
        && s.log == log + all[..k]
        && (s.phase.Running? ==> k > 0 && s.phase.current == batch[k - 1])
        && (forall j :: k <= j < |batch| ==>
              batch[j].second in s.store && all[j] == FiringOf(s, batch[j], curr)))
  }

  lemma {:induction false} DueInStore(s: State, curr: Time)
    requires Placed(s)
    ensures forall i :: 0 <= i < |Due(s.list, curr)| ==> Due(s.list, curr)[i].second in s.store
  {
    forall i | 0 <= i < |Due(s.list, curr)|
      ensures Due(s.list, curr)[i].second in s.store
    {
      assert s.list[i] in s.list;
    }
  }

  ghost predicate InTurn(s: State, e: Entry) {
    e.second in s.store && s.store[e.second].timing == e.first && !s.store[e.second].canceled
  }

  lemma HeadInTurn(s: State)
    requires Placed(s) && Healthy(s) && s.phase.Handling? && s.phase.todo != []
    ensures InTurn(s, s.phase.todo[0]) && s.phase.todo[0].first <= s.phase.curr + 1
  {
    assert s.phase.todo[0] in s.phase.Busy();
  }

  lemma InsideFires(batch: seq<Entry>, all: seq<Firing>, log: seq<Firing>, curr: Time, s: State)
    requires |all| == |batch| && Inside(batch, all, log, curr, s)
    requires Legal(s, Fire) && InTurn(s, s.phase.todo[0])
    ensures Inside(batch, all, log, curr, Apply(s, Fire))
  {
    var k := |batch| - |s.phase.todo|;
    assert s.phase.todo[0] == batch[k];
    assert all[..k + 1] == all[..k] + [all[k]];
    assert log + all[..k + 1] == (log + all[..k]) + [all[k]];
  }

  /** User code leaves the timers of the batch alone. */
  lemma InsideUserCode(batch: seq<Entry>, all: seq<Firing>, log: seq<Firing>, curr: Time, s: State, step: Step)
    requires |all| == |batch| && Inside(batch, all, log, curr, s)
    requires Legal(s, step) && (step.Add? || step.Cancel?)
    ensures Inside(batch, all, log, curr, Apply(s, step))
  {
    var k := |batch| - |s.phase.todo|;
    forall j | k <= j < |batch|
      ensures batch[j].second in Apply(s, step).store
      ensures FiringOf(Apply(s, step), batch[j], curr) == FiringOf(s, batch[j], curr)
    {
      assert s.phase.todo[j - k] == batch[j];
      assert batch[j] in s.phase.Busy();
    }
  }

  /** The timer that just ran occurs nowhere in the rest of the batch. */
  lemma CurrentIsAlone(s: State, j: nat)
    requires Placed(s) && s.phase.Running? && j < |s.phase.todo|
    ensures s.phase.todo[j].second != s.phase.current.second
  {
    var busy := s.phase.Busy();
    assert busy[0] == s.phase.current && busy[j + 1] == s.phase.todo[j];
    assert Less(busy[0], busy[j + 1]);
    assert busy[0] in busy && busy[j + 1] in busy;
  }

  lemma CurrentAlone(s: State)
    requires Placed(s) && s.phase.Running?
    ensures forall j :: 0 <= j < |s.phase.todo| ==> s.phase.todo[j].second != s.phase.current.second
  {
    forall j | 0 <= j < |s.phase.todo|
      ensures s.phase.todo[j].second != s.phase.current.second
    {
      CurrentIsAlone(s, j);
    }
  }

  lemma InsideFinishes(batch: seq<Entry>, all: seq<Firing>, log: seq<Firing>, curr: Time, s: State)
    requires |all| == |batch| && Inside(batch, all, log, curr, s) && Legal(s, Finish)
    requires forall j :: 0 <= j < |s.phase.todo| ==> s.phase.todo[j].second != s.phase.current.second
    ensures Inside(batch, all, log, curr, Apply(s, Finish))
  {
    var k := |batch| - |s.phase.todo|;
    forall j | k <= j < |batch|
      ensures batch[j].second != s.phase.current.second
    {
      assert s.phase.todo[j - k] == batch[j];
    }
  }

  ghost predicate NoRearm(steps: seq<Step>) {
    forall i :: 0 <= i < |steps| ==> !steps[i].Rearm?
  }

  lemma {:induction false} InsideRun(batch: seq<Entry>, all: seq<Firing>, log: seq<Firing>, curr: Time,
                                     s: State, steps: seq<Step>)
    requires |all| == |batch| && Inside(batch, all, log, curr, s)
    requires Inv(s) && LegalRun(s, steps) && NoRearm(steps)
    ensures Inside(batch, all, log, curr, Run(s, steps))
  {
    if steps != [] {
      var before, step := steps[..|steps| - 1], steps[|steps| - 1];
      InsideRun(batch, all, log, curr, s, before);
      RunKeepsInv(s, before);
      match step
      case Fire =>
        HeadInTurn(Run(s, before));
        InsideFires(batch, all, log, curr, Run(s, before));
      case Finish =>
        CurrentAlone(Run(s, before));
        InsideFinishes(batch, all, log, curr, Run(s, before));
      case Add(_, _, _, _) => InsideUserCode(batch, all, log, curr, Run(s, before), step);
      case Cancel(_) => InsideUserCode(batch, all, log, curr, Run(s, before), step);
      case Read(_, _) => assert false;
      case Rearm(_) => assert false;
    }
  }

  lemma {:induction false} InsideStarts(s: State, readAt: Time, curr: Time)
    requires Placed(s) && Legal(s, Read(readAt, curr))
    ensures forall i :: 0 <= i < |Due(s.list, curr)| ==> Due(s.list, curr)[i].second in s.store
    ensures Inside(Due(s.list, curr), Firings(s, Due(s.list, curr), curr), s.log, curr, Apply(s, Read(readAt, curr)))
  {
    DueInStore(s, curr);
  }

  lemma InsideEnds(batch: seq<Entry>, all: seq<Firing>, log: seq<Firing>, curr: Time, s: State, now: Time)
    requires |all| == |batch| && Inside(batch, all, log, curr, s) && Legal(s, Rearm(now))
    ensures Apply(s, Rearm(now)).log == log + all
  {
    assert all[..|batch|] == all;
  }

  /** One handler call fires exactly the entries due when it read the clock, each once, in the order of
      the set, whatever its callbacks add or cancel. */
  lemma {:induction false} HandlerFiresBatch(s0: State, readAt: Time, curr: Time, steps: seq<Step>, now: Time)
    requires Inv(s0) && Legal(s0, Read(readAt, curr))
    requires LegalRun(Apply(s0, Read(readAt, curr)), steps) && NoRearm(steps)
    requires Legal(Run(Apply(s0, Read(readAt, curr)), steps), Rearm(now))
    ensures forall i :: 0 <= i < |Due(s0.list, curr)| ==> Due(s0.list, curr)[i].second in s0.store
    ensures Apply(Run(Apply(s0, Read(readAt, curr)), steps), Rearm(now)).log ==
            s0.log + Firings(s0, Due(s0.list, curr), curr)
  {
    var s1 := Apply(s0, Read(readAt, curr));
    InsideStarts(s0, readAt, curr);
    KeepsInv(s0, Read(readAt, curr));
    var batch, all := Due(s0.list, curr), Firings(s0, Due(s0.list, curr), curr);
    InsideRun(batch, all, s0.log, curr, s1, steps);
    InsideEnds(batch, all, s0.log, curr, Run(s1, steps), now);
  }

  /** So no timer fires twice in a batch, and deadlines never go back within one. */
  lemma {:induction false} BatchFiresOnceInOrder(s: State, curr: Time)
    requires Placed(s) && Owned(s)
    ensures forall i :: 0 <= i < |Due(s.list, curr)| ==> Due(s.list, curr)[i].second in s.store
    ensures
      var all := Firings(s, Due(s.list, curr), curr);
      forall i, j :: 0 <= i < j < |all| ==> all[i].id != all[j].id && all[i].nominal <= all[j].nominal
  {
    DueInStore(s, curr);
    var all := Firings(s, Due(s.list, curr), curr);
    forall i, j | 0 <= i < j < |all|
      ensures all[i].id != all[j].id && all[i].nominal <= all[j].nominal
    {
      assert Less(s.list[i], s.list[j]);
      PlacesApart(s, i, j);
      assert BornAs(s, s.list[i].second) && BornAs(s, s.list[j].second);
    }
  }
}
