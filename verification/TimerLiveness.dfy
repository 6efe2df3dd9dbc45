/** How far the clock must go for a timer to fire, over every run. */
module TimerLiveness {
  import opened Timers
  import opened TimerMachine
  import opened TimerProofs
  import opened TimerTheorems

  // Early wake-ups.

  /** A handler call that reads the clock before the head is due. */
  ghost predicate Early(s: State, readAt: Time, curr: Time) {
    && s.phase.Idle? && s.list != [] && s.fd.ReadableAt(readAt)
    && s.clock <= readAt <= curr && curr + 1 < s.list[0].first
  }

  /** Such a call runs nothing and leaves the set as it is: all it can do is arm the fd again. */
  lemma {:induction false} EarlyIsHarmless(s: State, readAt: Time, curr: Time, now: Time)
    requires Early(s, readAt, curr) && curr <= now
    ensures Legal(s, Read(readAt, curr))
    ensures
      var mid := Apply(s, Read(readAt, curr));
      && (forall step :: Possible(mid, step) ==> step.Rearm?)
      && Legal(mid, Rearm(now))
      && Apply(mid, Rearm(now)) == s.(fd := SetTimerfd(s.list[0].first, now), clock := now)
  {
    assert SplitPoint(s.list, curr) == 0;
  }

  // Every handler call takes a microsecond.

  /** Where the count starts: when the fd was armed, or now. */
  function Base(s: State): Time {
    if s.fd.Armed? then s.fd.at else s.clock
  }

  function Reads(steps: seq<Step>): nat {
    if steps == [] then 0
    else Reads(steps[..|steps| - 1]) + if steps[|steps| - 1].Read? then 1 else 0
  }

  /** The clock, and the instant the fd was last armed, are at `b` or later. */
  ghost predicate Past(s: State, b: Time) {
    b <= s.clock && (s.fd.Armed? ==> b <= s.fd.at)
  }

  lemma StepKeepsPast(s: State, step: Step, b: Time)
    requires Wakes(s) && Legal(s, step) && Past(s, b)
    ensures Past(Apply(s, step), if step.Read? then b + 1000 else b)
  {
  }

  /** Whatever is added, cancelled and fired in between, each handler call brings the clock 1000 ns further. */
  lemma {:induction false} ReadsAdvanceClock(s: State, steps: seq<Step>)
    requires Inv(s) && LegalRun(s, steps)
    ensures Past(Run(s, steps), Base(s) + 1000 * Reads(steps))
  {
    if steps != [] {
      var before := steps[..|steps| - 1];
      ReadsAdvanceClock(s, before);
      RunKeepsInv(s, before);
      StepKeepsPast(Run(s, before), steps[|steps| - 1], Base(s) + 1000 * Reads(before));
    }
  }

  /** Early wake-ups are finite: over any run, a handler call whose clock reading is before a deadline T has
      fewer than (T - Base) / 1000 handler calls before it. */
  lemma {:induction false} EarlyIsFinite(s: State, steps: seq<Step>, readAt: Time, curr: Time, deadline: Time)
    requires Inv(s) && LegalRun(s, steps) && Legal(Run(s, steps), Read(readAt, curr))
    requires curr + 1 < deadline
    ensures 1000 * (Reads(steps) + 1) < deadline - Base(s) - 1
  {
    ReadsAdvanceClock(s, steps);
    RunKeepsInv(s, steps);
    StepKeepsPast(Run(s, steps), Read(readAt, curr), Base(s) + 1000 * Reads(steps));
  }

  // What becomes of a timer.

  /** Its callback is running. */
  ghost predicate IsRunning(s: State, id: TimerId) {
    s.phase.Running? && s.phase.current.second in s.store && s.store[s.phase.current.second].id == id
  }

  /** Alive iff not cancelled, and repeating, or not yet fired, or just firing. */
  ghost predicate LivesRightly(s: State, id: TimerId, cancelled: bool)
    requires id in s.births
  {
    Live(s, id) <==> !cancelled && (s.births[id].interval > 0 || Fired(s.log, id) == 0 || IsRunning(s, id))
  }

  lemma UserCodeKeepsLife(s: State, step: Step, id: TimerId, cancelled: bool)
    requires Owned(s) && Legal(s, step) && (step.Add? || step.Cancel?)
    requires id in s.births && LivesRightly(s, id, cancelled)
    ensures LivesRightly(Apply(s, step), id, cancelled || (step.Cancel? && s.store[step.ptr].id == id))
  {
    if step.Cancel? {
      assert BornAs(s, step.ptr);
    }
  }

  lemma AddStartsLife(s: State, step: Step)
    requires Owned(s) && Rated(s) && Legal(s, step) && step.Add?
    ensures LivesRightly(Apply(s, step), s.nextId + 1, false)
  {
    var id, s' := s.nextId + 1, Apply(s, step);
    NoNominals(s.log, id);
    assert s'.births[id].ptr == step.ptr && s'.store[step.ptr].id == id;
    assert Fired(s'.log, id) == 0;
  }

  lemma FireKeepsLife(s: State, id: TimerId, cancelled: bool)
    requires Healthy(s) && Owned(s) && Legal(s, Fire) && id in s.births && LivesRightly(s, id, cancelled)
    ensures LivesRightly(Apply(s, Fire), id, cancelled)
  {
    var p := s.phase.todo[0].second;
    var t := s.store[p];
    assert BornAs(s, p);
    NominalsAppend(s.log, Firing(t.id, t.timing, s.phase.curr), id);
  }

  lemma FinishKeepsLife(s: State, id: TimerId, cancelled: bool)
    requires Healthy(s) && Owned(s) && Rated(s) && Legal(s, Finish)
    requires id in s.births && LivesRightly(s, id, cancelled)
    ensures LivesRightly(Apply(s, Finish), id, cancelled)
  {
    assert BornAs(s, s.phase.current.second) && OnRate(s, s.phase.current.second);
  }

  lemma StepKeepsLife(s: State, step: Step, id: TimerId, cancelled: bool)
    requires Inv(s) && Legal(s, step) && id in s.births && LivesRightly(s, id, cancelled)
    ensures LivesRightly(Apply(s, step), id, cancelled || (step.Cancel? && s.store[step.ptr].id == id))
  {
    match step
    case Add(_, _, _, _) => UserCodeKeepsLife(s, step, id, cancelled);
    case Cancel(_) => UserCodeKeepsLife(s, step, id, cancelled);
    case Fire => FireKeepsLife(s, id, cancelled);
    case Finish => FinishKeepsLife(s, id, cancelled);
    case _ =>
  }

  lemma BirthStartsLife(s: State, step: Step, id: TimerId)
    requires Owned(s) && Rated(s) && Legal(s, step) && id !in s.births && id in Apply(s, step).births
    ensures step.Add? && LivesRightly(Apply(s, step), id, false)
  {
    assert step.Add? && id == s.nextId + 1;
    AddStartsLife(s, step);
  }

  lemma StepGivesLife(s: State, step: Step, id: TimerId, cancelled: bool)
    requires Inv(s) && Legal(s, step) && id in Apply(s, step).births
    requires if id in s.births then LivesRightly(s, id, cancelled) else !cancelled
    ensures LivesRightly(Apply(s, step), id, cancelled || (step.Cancel? && s.store[step.ptr].id == id))
  {
    if id in s.births {
      StepKeepsLife(s, step, id, cancelled);
    } else {
      BirthStartsLife(s, step, id);
    }
  }

  /** A timer not yet created has not been cancelled. */
  lemma {:induction false} UnbornIsNotCancelled(clock: Time, steps: seq<Step>, id: TimerId)
    requires LegalRun(Init(clock), steps) && id !in Run(Init(clock), steps).births
    ensures NeverCancelled(Init(clock), steps, id)
  {
    if steps != [] {
      var before, last := steps[..|steps| - 1], steps[|steps| - 1];
      UnbornIsNotCancelled(clock, before, id);
      ReachableInv(clock, before);
      if last.Cancel? {
        assert BornAs(Run(Init(clock), before), last.ptr);
      }
    }
  }

  /** Over every run a timer is alive iff it was never cancelled and it repeats, or has not fired yet, or its
      callback is running: repeating timers stay until cancelled, others are deleted after their one firing. */
  lemma {:induction false} TimerLivesUntil(clock: Time, steps: seq<Step>, id: TimerId)
    requires LegalRun(Init(clock), steps) && id in Run(Init(clock), steps).births
    ensures LivesRightly(Run(Init(clock), steps), id, !NeverCancelled(Init(clock), steps, id))
  {
    if steps != [] {
      var before, last := steps[..|steps| - 1], steps[|steps| - 1];
      var s := Run(Init(clock), before);
      ReachableInv(clock, before);
      if id in s.births {
        TimerLivesUntil(clock, before, id);
      } else {
        UnbornIsNotCancelled(clock, before, id);
      }
      StepGivesLife(s, last, id, !NeverCancelled(Init(clock), before, id));
    }
  }

  // Every timer fires.

  /** Timer `id` is not cancelled in the run. */
  ghost predicate NeverCancelled(s: State, steps: seq<Step>, id: TimerId)
    requires LegalRun(s, steps)
  {
    steps == [] ||
    (var before, last := steps[..|steps| - 1], steps[|steps| - 1];
     && NeverCancelled(s, before, id)
     && (last.Cancel? ==> Run(s, before).store[last.ptr].id != id))
  }

  /** The timer is still to fire for the deadline of entry `e`: it waits in the set, and then no clock
      reading so far, the last of them at `b` or later, was near its deadline; or it waits in the batch. */
  ghost predicate Waits(s: State, id: TimerId, e: Entry, calls: nat, b: Time) {
    && e.second in s.store && s.store[e.second].id == id && s.store[e.second].timing == e.first
    && !s.phase.IsCurrent(e.second)
    && (if e in s.list then calls > 0 ==> b + 1 < e.first else e in s.phase.Busy())
  }

  lemma UserCodeKeepsWaits(s: State, step: Step, id: TimerId, e: Entry, calls: nat, b: Time)
    requires Placed(s) && Waits(s, id, e, calls, b) && Legal(s, step)
    requires step.Add? || (step.Cancel? && s.store[step.ptr].id != id)
    ensures Waits(Apply(s, step), id, e, calls, b)
  {
    match step
    case Add(ptr, when, _, _) =>
      InsertMembers(s.list, Entry(when, ptr));
    case Cancel(ptr) =>
      EraseMembers(s.list, Entry(s.store[ptr].timing, ptr));
  }

  /** A clock reading puts the timer into the batch if it is due. */
  lemma ReadKeepsWaits(s: State, step: Step, id: TimerId, e: Entry, calls: nat, b: Time)
    requires Placed(s) && Healthy(s) && Waits(s, id, e, calls, b) && Legal(s, step) && step.Read?
    requires b + 1000 <= step.curr
    ensures Waits(Apply(s, step), id, e, calls + 1, b + 1000)
  {
    InBounds(s);
    SplitIsExact(s.list, step.curr);
  }

  /** Its turn in the batch fires it. */
  lemma FireEndsWaits(s: State, id: TimerId, e: Entry, calls: nat, b: Time)
    requires Placed(s) && Healthy(s) && Waits(s, id, e, calls, b) && Legal(s, Fire)
    ensures if s.phase.todo[0] == e then Fired(Apply(s, Fire).log, id) == Fired(s.log, id) + 1
            else Waits(Apply(s, Fire), id, e, calls, b)
  {
    var head := s.phase.todo[0];
    assert head in s.phase.Busy();
    var t := s.store[head.second];
    NominalsAppend(s.log, Firing(t.id, t.timing, s.phase.curr), id);
  }

  lemma FinishKeepsOthers(s: State, p: Ptr)
    requires Legal(s, Finish) && p in s.store && !s.phase.IsCurrent(p)
    ensures p in Apply(s, Finish).store && Apply(s, Finish).store[p] == s.store[p]
  {
  }

  lemma FinishKeepsEntry(s: State, e: Entry)
    requires Placed(s) && Legal(s, Finish) && !s.phase.IsCurrent(e.second)
    ensures e in s.list <==> e in Apply(s, Finish).list
    ensures e in s.phase.Busy() ==> e in Apply(s, Finish).phase.Busy()
  {
    var p, t := s.phase.current.second, s.store[s.phase.current.second];
    if !t.canceled && t.repeated {
      InsertMembers(s.list, Entry(t.timing + t.Period(), p));
    }
    assert s.phase.Busy() == [s.phase.current] + s.phase.todo;
  }

  lemma FinishKeepsWaits(s: State, id: TimerId, e: Entry, calls: nat, b: Time)
    requires Placed(s) && Waits(s, id, e, calls, b) && Legal(s, Finish)
    ensures Waits(Apply(s, Finish), id, e, calls, b)
  {
    FinishKeepsOthers(s, e.second);
    FinishKeepsEntry(s, e);
  }

  lemma FiredGrows(s: State, step: Step, id: TimerId)
    requires Legal(s, step)
    ensures Fired(s.log, id) <= Fired(Apply(s, step).log, id)
  {
    if step.Fire? {
      var t := s.store[s.phase.todo[0].second];
      NominalsAppend(s.log, Firing(t.id, t.timing, s.phase.curr), id);
    }
  }

  /** It has fired since it had fired `n` times, or it waits. */
  ghost predicate Pending(s: State, id: TimerId, e: Entry, n: nat, calls: nat, b: Time) {
    n <= Fired(s.log, id) && (n < Fired(s.log, id) || Waits(s, id, e, calls, b))
  }

  lemma StepKeepsPending(s: State, step: Step, id: TimerId, e: Entry, n: nat, calls: nat, b: Time)
    requires Placed(s) && Healthy(s) && Wakes(s) && Past(s, b) && Pending(s, id, e, n, calls, b)
    requires Legal(s, step) && (step.Cancel? ==> s.store[step.ptr].id != id)
    ensures if step.Read? then Pending(Apply(s, step), id, e, n, calls + 1, b + 1000)
            else Pending(Apply(s, step), id, e, n, calls, b)
  {
    FiredGrows(s, step, id);
    if n == Fired(s.log, id) {
      match step
      case Add(_, _, _, _) => UserCodeKeepsWaits(s, step, id, e, calls, b);
      case Cancel(_) => UserCodeKeepsWaits(s, step, id, e, calls, b);
      case Read(_, _) => ReadKeepsWaits(s, step, id, e, calls, b);
      case Fire => FireEndsWaits(s, id, e, calls, b);
      case Finish => FinishKeepsWaits(s, id, e, calls, b);
      case Rearm(_) =>
    }
  }

  lemma {:induction false} RunKeepsPending(s: State, steps: seq<Step>, id: TimerId, e: Entry, n: nat)
    requires Inv(s) && LegalRun(s, steps) && NeverCancelled(s, steps, id)
    requires Pending(s, id, e, n, 0, Base(s))
    ensures Pending(Run(s, steps), id, e, n, Reads(steps), Base(s) + 1000 * Reads(steps))
  {
    if steps != [] {
      var before, last := steps[..|steps| - 1], steps[|steps| - 1];
      RunKeepsPending(s, before, id, e, n);
      RunKeepsInv(s, before);
      ReadsAdvanceClock(s, before);
      StepKeepsPending(Run(s, before), last, id, e, n, Reads(before), Base(s) + 1000 * Reads(before));
    }
  }

  lemma WaitsAtFirst(s: State, p: Ptr, b: Time)
    requires Placed(s) && s.phase.Idle? && p in s.store
    ensures Waits(s, s.store[p].id, Entry(s.store[p].timing, p), 0, b)
  {
  }

  lemma WaitsNoLonger(s: State, id: TimerId, e: Entry, n: nat, calls: nat, b: Time)
    requires s.phase.Idle? && Pending(s, id, e, n, calls, b) && calls > 0 && b + 1 >= e.first
    ensures Fired(s.log, id) > n
  {
  }

  /** Every timer fires: one with deadline T that is not cancelled has fired once (T - Base) / 1000 handler
      calls are complete, whatever is added or cancelled meanwhile and however early the fd wakes. */
  lemma {:induction false} EveryTimerFires(s: State, steps: seq<Step>, p: Ptr)
    requires Inv(s) && s.phase.Idle? && p in s.store
    requires LegalRun(s, steps) && NeverCancelled(s, steps, s.store[p].id) && Run(s, steps).phase.Idle?
    requires Reads(steps) > 0 && 1000 * Reads(steps) >= s.store[p].timing - Base(s) - 1
    ensures Fired(Run(s, steps).log, s.store[p].id) > Fired(s.log, s.store[p].id)
  {
    var id, e := s.store[p].id, Entry(s.store[p].timing, p);
    var n, k := Fired(s.log, id), Reads(steps);
    WaitsAtFirst(s, p, Base(s));
    RunKeepsPending(s, steps, id, e, n);
    WaitsNoLonger(Run(s, steps), id, e, n, k, Base(s) + 1000 * k);
  }
}
