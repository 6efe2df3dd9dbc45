/** Every legal step keeps the invariant. */
module TimerProofs {
  import opened Timers
  import opened TimerMachine

  lemma SplitIndices(list: seq<Entry>, curr: Time)
    requires Sorted(list) && forall e :: e in list ==> e.second < UINTPTR_MAX
    ensures forall i :: 0 <= i < |list| ==> (i < SplitPoint(list, curr) <==> list[i].first <= curr + 1)
  {
    LowerBoundFinds(list, Entry(curr + 1, UINTPTR_MAX));
    var n := SplitPoint(list, curr);
    forall i | n <= i < |list|
      ensures list[i].first > curr + 1
    {
      assert i > n ==> Less(list[n], list[i]);
      assert list[n] in list;
    }
  }

  lemma SplitSorted(list: seq<Entry>, n: nat)
    requires Sorted(list) && n <= |list|
    ensures Sorted(list[..n]) && Sorted(list[n..])
  {
  }

  lemma {:induction false} SplitMembers(list: seq<Entry>, n: nat, limit: Time)
    requires n <= |list| && forall i :: 0 <= i < |list| ==> (i < n <==> list[i].first <= limit)
    ensures forall e :: e in list[..n] <==> e in list && e.first <= limit
    ensures forall e :: e in list[n..] <==> e in list && e.first > limit
  {
    forall e | e in list
      ensures e.first <= limit ==> e in list[..n]
      ensures e.first > limit ==> e in list[n..]
    {
      var i :| 0 <= i < |list| && list[i] == e;
      assert i < n ==> list[..n][i] == e;
      assert i >= n ==> list[n..][i - n] == e;
    }
  }

  /** The split `getExpired` makes is exact: due means at most one nanosecond after `curr`. */
  lemma {:induction false} SplitIsExact(list: seq<Entry>, curr: Time)
    requires Sorted(list) && forall e :: e in list ==> e.second < UINTPTR_MAX
    ensures Due(list, curr) + Later(list, curr) == list
    ensures forall e :: e in Due(list, curr) <==> e in list && e.first <= curr + 1
    ensures forall e :: e in Later(list, curr) <==> e in list && e.first > curr + 1
    ensures Sorted(Due(list, curr)) && Sorted(Later(list, curr))
  {
    SplitIndices(list, curr);
    SplitMembers(list, SplitPoint(list, curr), curr + 1);
    SplitSorted(list, SplitPoint(list, curr));
  }

  lemma InBounds(s: State)
    requires Placed(s) && Healthy(s)
    ensures forall e :: e in s.list ==> e.second < UINTPTR_MAX
  {
  }

  // Placed.

  lemma AddKeepsPlaced(s: State, step: Step)
    requires Placed(s) && Legal(s, step) && step.Add?
    ensures Placed(Apply(s, step))
  {
    var e := Entry(step.when, step.ptr);
    InsertMembers(s.list, e);
    InsertSorted(s.list, e);
    var s' := Apply(s, step);
    forall p | p in s'.store
      ensures Entry(s'.store[p].timing, p) in s'.list || Entry(s'.store[p].timing, p) in s'.phase.Busy()
    {
      assert p != step.ptr ==> p in s.store;
    }
  }

  lemma CancelKeepsPlaced(s: State, step: Step)
    requires Placed(s) && Legal(s, step) && step.Cancel?
    ensures Placed(Apply(s, step))
  {
    var e := Entry(s.store[step.ptr].timing, step.ptr);
    EraseMembers(s.list, e);
    EraseSorted(s.list, e);
  }

  lemma ReadKeepsPlaced(s: State, step: Step)
    requires Placed(s) && Healthy(s) && Legal(s, step) && step.Read?
    ensures Placed(Apply(s, step))
    ensures forall e :: e in Apply(s, step).phase.Busy() ==> e.first <= step.curr + 1
  {
    InBounds(s);
    SplitIsExact(s.list, step.curr);
  }

  lemma SamePlaces(s: State, s': State)
    requires Placed(s) && s'.store == s.store && s'.list == s.list && s'.phase.Busy() == s.phase.Busy()
    ensures Placed(s')
  {
  }

  lemma FireKeepsPlaced(s: State)
    requires Placed(s) && Legal(s, Fire)
    ensures Placed(Apply(s, Fire)) && Apply(s, Fire).phase.Busy() == s.phase.Busy()
  {
    assert s.phase.todo == [s.phase.todo[0]] + s.phase.todo[1..];
    SamePlaces(s, Apply(s, Fire));
  }

  lemma FinishKeepsPlaced(s: State)
    requires Placed(s) && Healthy(s) && Legal(s, Finish)
    ensures Placed(Apply(s, Finish))
  {
    var e, busy := s.phase.current, s.phase.Busy();
    var s' := Apply(s, Finish);
    assert s'.phase.Busy() == busy[1..];
    assert e in busy;
    forall x | x in s'.phase.Busy()
      ensures x in busy && x.second != e.second
    {
      var i :| 0 < i < |busy| && busy[i] == x;
      assert Less(busy[0], busy[i]);
    }
    forall x | x in busy && x != e
      ensures x in s'.phase.Busy()
    {
    }
    forall x | x in s.list
      ensures x.second != e.second
    {
    }
    if s.store[e.second].repeated {
      var x := Entry(s'.store[e.second].timing, e.second);
      InsertMembers(s.list, x);
      InsertSorted(s.list, x);
    }
  }

  lemma RearmKeepsPlaced(s: State, step: Step)
    requires Placed(s) && Legal(s, step) && step.Rearm?
    ensures Placed(Apply(s, step))
  {
  }

  lemma KeepsPlaced(s: State, step: Step)
    requires Placed(s) && Healthy(s) && Legal(s, step)
    ensures Placed(Apply(s, step))
  {
    match step
    case Add(_, _, _, _) => AddKeepsPlaced(s, step);
    case Cancel(_) => CancelKeepsPlaced(s, step);
    case Read(_, _) => ReadKeepsPlaced(s, step);
    case Fire => FireKeepsPlaced(s);
    case Finish => FinishKeepsPlaced(s);
    case Rearm(_) => RearmKeepsPlaced(s, step);
  }

  lemma KeepsHealthy(s: State, step: Step)
    requires Placed(s) && Healthy(s) && Legal(s, step)
    ensures Healthy(Apply(s, step))
  {
    if step.Read? {
      ReadKeepsPlaced(s, step);
    } else if step.Fire? {
      FireKeepsPlaced(s);
      assert s.phase.todo[0] in s.phase.Busy();
    }
  }

  // Owned.

  lemma DeleteKeepsOwned(s: State, ptr: Ptr)
    requires Owned(s) && ptr in s.store
    ensures Owned(Deleted(s, ptr))
  {
    var s', id := Deleted(s, ptr), s.store[ptr].id;
    assert s'.store.Keys == s.store.Keys - {ptr};
    assert |s'.store| == |s'.store.Keys| && |s.store| == |s.store.Keys|;
    assert BornAs(s, ptr) && Live(s, id);
    forall i | i in s.births
      ensures i in s'.deleted <==> !Live(s', i)
    {
    }
    forall p | p in s'.store
      ensures BornAs(s', p)
    {
      assert BornAs(s, p);
    }
  }

  /** Who is live, seen from one id, when a timer is stored at a new address under a new id. */
  lemma AddKeepsLive(s: State, s': State, ptr: Ptr, t: TimerRec, birth: Birth, i: TimerId)
    requires ptr !in s.store && s'.store == s.store[ptr := t]
    requires t.id !in s.births && s'.births == s.births[t.id := birth] && birth.ptr == ptr
    requires i in s.births && (Live(s, i) ==> BornAs(s, s.births[i].ptr))
    ensures Live(s', i) <==> Live(s, i)
  {
  }

  lemma AddKeepsBorn(s: State, s': State, ptr: Ptr, t: TimerRec, birth: Birth)
    requires s'.store == s.store[ptr := t] && s'.births == s.births[t.id := birth]
    requires t.id !in s.births && birth.ptr == ptr && birth.interval == t.interval
    requires forall p :: p in s.store ==> BornAs(s, p)
    ensures forall p :: p in s'.store ==> BornAs(s', p)
  {
    forall p | p in s'.store
      ensures BornAs(s', p)
    {
      assert p != ptr ==> BornAs(s, p);
    }
  }

  lemma AddKeepsOwned(s: State, step: Step)
    requires Owned(s) && Legal(s, step) && step.Add?
    ensures Owned(Apply(s, step))
  {
    var s', id := Apply(s, step), s.nextId + 1;
    var t, birth := s'.store[step.ptr], Birth(step.ptr, step.when, step.interval);
    AddKeepsBorn(s, s', step.ptr, t, birth);
    forall i | i in s'.births
      ensures i in s'.deleted <==> !Live(s', i)
    {
      if i != id {
        AddKeepsLive(s, s', step.ptr, t, birth, i);
      }
    }
  }

  /** A restarted timer keeps its address and its id. */
  lemma RestartKeepsOwned(s: State, s': State, p: Ptr, t: TimerRec)
    requires Owned(s) && p in s.store && t.id == s.store[p].id && t.interval == s.store[p].interval
    requires s'.store == s.store[p := t]
    requires s'.births == s.births && s'.deleted == s.deleted && s'.nextId == s.nextId
    ensures Owned(s')
  {
    forall i | i in s'.births
      ensures Live(s', i) <==> Live(s, i)
    {
    }
    forall q | q in s'.store
      ensures BornAs(s', q)
    {
      assert BornAs(s, q);
    }
  }

  lemma SameOwnership(s: State, s': State)
    requires Owned(s)
    requires s'.store == s.store && s'.births == s.births && s'.deleted == s.deleted && s'.nextId == s.nextId
    ensures Owned(s')
  {
    forall i | i in s'.births
      ensures Live(s', i) <==> Live(s, i)
    {
    }
    forall q | q in s'.store
      ensures BornAs(s', q)
    {
      assert BornAs(s, q);
    }
  }

  lemma KeepsOwned(s: State, step: Step)
    requires Owned(s) && Legal(s, step)
    ensures Owned(Apply(s, step))
  {
    var s' := Apply(s, step);
    match step
    case Add(_, _, _, _) => AddKeepsOwned(s, step);
    case Cancel(p) =>
      DeleteKeepsOwned(s, p);
      SameOwnership(Deleted(s, p), s');
    case Finish =>
      var p := s.phase.current.second;
      if !s.store[p].canceled && s.store[p].repeated {
        RestartKeepsOwned(s, s', p, s'.store[p]);
      } else {
        DeleteKeepsOwned(s, p);
        SameOwnership(Deleted(s, p), s');
      }
    case _ => SameOwnership(s, s');
  }

  // Rated.

  lemma NominalsAppend(log: seq<Firing>, f: Firing, id: TimerId)
    ensures Nominals(log + [f], id) == Nominals(log, id) + if f.id == id then [f.nominal] else []
  {
    assert (log + [f])[..|log|] == log;
  }

  lemma {:induction false} NoNominals(log: seq<Firing>, id: TimerId)
    requires forall f :: f in log ==> f.id != id
    ensures Nominals(log, id) == []
  {
    if log != [] {
      NoNominals(log[..|log| - 1], id);
    }
  }

  lemma NthNext(b: Birth, k: int)
    ensures b.Nth(k + 1) == b.Nth(k) + b.interval * NANOS_PER_MICRO
    ensures b.Nth(0) == b.when
  {
  }

  /** One timer's record survives a step that changes neither it nor the firings of its id. */
  lemma SameRate(s: State, s': State, p: Ptr)
    requires p in s.store && OnRate(s, p)
    requires p in s'.store && s'.store[p] == s.store[p]
    requires var id := s.store[p].id; id in s'.births && s'.births[id] == s.births[id]
    requires Fired(s'.log, s.store[p].id) == Fired(s.log, s.store[p].id)
    requires s'.phase.IsCurrent(p) == s.phase.IsCurrent(p)
    ensures OnRate(s', p)
  {
  }

  lemma SameConsecutive(s: State, s': State, i: TimerId)
    requires i in s.births && Consecutive(s, i)
    requires i in s'.births && s'.births[i] == s.births[i]
    requires Nominals(s'.log, i) == Nominals(s.log, i)
    ensures Consecutive(s', i)
  {
  }

  lemma AddKeepsRated(s: State, step: Step)
    requires Owned(s) && Rated(s) && Legal(s, step) && step.Add?
    requires s.phase.Running? ==> s.phase.current.second in s.store
    ensures Rated(Apply(s, step))
  {
    var s' := Apply(s, step);
    NoNominals(s.log, s'.nextId);
    NthNext(s'.births[s'.nextId], 0);
    forall p | p in s'.store
      ensures OnRate(s', p)
    {
      if p != step.ptr {
        assert OnRate(s, p) && s.store[p].id in s.births;
        SameRate(s, s', p);
      }
    }
    forall i | i in s'.births
      ensures Consecutive(s', i)
    {
      if i in s.births {
        SameConsecutive(s, s', i);
      }
    }
  }

  /** Steps that neither fire nor restart: what stays in the store keeps its record. */
  lemma QuietKeepsRated(s: State, s': State)
    requires Rated(s)
    requires s'.births == s.births && s'.log == s.log && s.clock <= s'.clock
    requires forall p :: p in s'.store ==> p in s.store && s'.store[p] == s.store[p]
    requires forall p :: p in s'.store ==> s'.phase.IsCurrent(p) == s.phase.IsCurrent(p)
    ensures Rated(s')
  {
    forall p | p in s'.store
      ensures OnRate(s', p)
    {
      assert OnRate(s, p);
      SameRate(s, s', p);
    }
    forall i | i in s'.births
      ensures Consecutive(s', i)
    {
      SameConsecutive(s, s', i);
    }
  }

  /** The firing timer: one more nominal deadline, and it is the next one due. */
  lemma FireOwnRate(s: State, s': State, p: Ptr)
    requires p in s.store && OnRate(s, p) && !s.phase.IsCurrent(p)
    requires Consecutive(s, s.store[p].id)
    requires s.store[p].repeated <==> s.store[p].interval > 0
    requires s'.store == s.store && s'.births == s.births && s'.phase.IsCurrent(p)
    requires var t := s.store[p]; Nominals(s'.log, t.id) == Nominals(s.log, t.id) + [t.timing]
    ensures OnRate(s', p) && Consecutive(s', s.store[p].id)
  {
  }

  lemma FireKeepsRated(s: State)
    requires Placed(s) && Healthy(s) && Owned(s) && Rated(s) && Legal(s, Fire)
    ensures Rated(Apply(s, Fire))
  {
    var s' := Apply(s, Fire);
    var e := s.phase.todo[0];
    assert e in s.phase.Busy();
    var t := s.store[e.second];
    var f := Firing(t.id, t.timing, s.phase.curr);
    assert OnRate(s, e.second) && BornAs(s, e.second);
    NominalsAppend(s.log, f, t.id);
    FireOwnRate(s, s', e.second);
    forall p | p in s'.store && p != e.second
      ensures OnRate(s', p)
    {
      assert OnRate(s, p) && BornAs(s, p);
      NominalsAppend(s.log, f, s.store[p].id);
      SameRate(s, s', p);
    }
    forall i | i in s'.births && i != t.id
      ensures Consecutive(s', i)
    {
      NominalsAppend(s.log, f, i);
      SameConsecutive(s, s', i);
    }
  }

  /** The restarted timer: one period further, now that its firing counts. */
  lemma RestartOwnRate(s: State, s': State, p: Ptr)
    requires p in s.store && OnRate(s, p) && s.phase.IsCurrent(p) && s.store[p].repeated
    requires s'.store == s.store[p := s.store[p].(timing := s.store[p].timing + s.store[p].Period())]
    requires s'.births == s.births && s'.log == s.log && !s'.phase.IsCurrent(p)
    ensures OnRate(s', p)
  {
    var id := s.store[p].id;
    NthNext(s.births[id], Fired(s.log, id) - 1);
  }

  lemma FinishKeepsRated(s: State)
    requires Rated(s) && Legal(s, Finish)
    ensures Rated(Apply(s, Finish))
  {
    var s' := Apply(s, Finish);
    var cur := s.phase.current.second;
    forall p | p in s'.store
      ensures OnRate(s', p)
    {
      assert OnRate(s, p);
      if p == cur {
        RestartOwnRate(s, s', p);
      } else {
        SameRate(s, s', p);
      }
    }
    forall i | i in s'.births
      ensures Consecutive(s', i)
    {
      SameConsecutive(s, s', i);
    }
  }

  lemma KeepsRated(s: State, step: Step)
    requires Placed(s) && Healthy(s) && Owned(s) && Rated(s) && Legal(s, step)
    ensures Rated(Apply(s, step))
  {
    match step
    case Add(_, _, _, _) =>
      assert s.phase.Running? ==> s.phase.current in s.phase.Busy();
      AddKeepsRated(s, step);
    case Fire => FireKeepsRated(s);
    case Finish => FinishKeepsRated(s);
    case _ => QuietKeepsRated(s, Apply(s, step));
  }

  // Wakes.

  lemma AddKeepsWakes(s: State, step: Step)
    requires Placed(s) && Wakes(s) && Legal(s, step) && step.Add?
    ensures Wakes(Apply(s, step))
  {
    var e := Entry(step.when, step.ptr);
    InsertSorted(s.list, e);
    SetTimerfdBounds(step.when, step.now);
    if LowerBound(s.list, e) > 0 {
      assert s.list != [];
    }
  }

  lemma CancelKeepsWakes(s: State, step: Step)
    requires Placed(s) && Wakes(s) && Legal(s, step) && step.Cancel?
    ensures Wakes(Apply(s, step))
  {
    EraseSorted(s.list, Entry(s.store[step.ptr].timing, step.ptr));
  }

  lemma KeepsWakes(s: State, step: Step)
    requires Placed(s) && Wakes(s) && Legal(s, step)
    ensures Wakes(Apply(s, step))
  {
    match step
    case Add(_, _, _, _) => AddKeepsWakes(s, step);
    case Cancel(_) => CancelKeepsWakes(s, step);
    case Rearm(now) =>
      if s.list != [] {
        SetTimerfdBounds(s.list[0].first, now);
      }
    case _ =>
  }

  lemma KeepsInv(s: State, step: Step)
    requires Inv(s) && Legal(s, step)
    ensures Inv(Apply(s, step))
  {
    KeepsPlaced(s, step);
    KeepsHealthy(s, step);
    KeepsOwned(s, step);
    KeepsRated(s, step);
    KeepsWakes(s, step);
  }

  lemma {:induction false} RunKeepsInv(s: State, steps: seq<Step>)
    requires Inv(s) && LegalRun(s, steps)
    ensures Inv(Run(s, steps))
  {
    if steps != [] {
      var before := steps[..|steps| - 1];
      RunKeepsInv(s, before);
      KeepsInv(Run(s, before), steps[|steps| - 1]);
    }
  }

  /** The invariant holds in every state the queue can reach. */
  lemma {:induction false} ReachableInv(clock: Time, steps: seq<Step>)
    requires LegalRun(Init(clock), steps)
    ensures Inv(Run(Init(clock), steps))
  {
    RunKeepsInv(Init(clock), steps);
  }
}
