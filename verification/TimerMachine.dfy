/** Steps, runs and the invariant of the timer queue. */
module TimerMachine {
  import opened Timers

  /** What a timer was created with. */
  datatype Birth = Birth(ptr: Ptr, when: Time, interval: int) {
    /** The deadline after `k` firings, if it fires at a fixed rate. */
    function Nth(k: int): Time {
      when + k * (interval * NANOS_PER_MICRO)
    }
  }

  /** The callback of timer `id` ran at handler time `at` for the deadline `nominal`. */
  datatype Firing = Firing(id: TimerId, nominal: Time, at: Time)

  /** Between handler calls; between two timers of a batch; or inside a timer's callback. */
  datatype Phase =
    | Idle
    | Handling(curr: Time, todo: seq<Entry>)
    | Running(curr: Time, current: Entry, todo: seq<Entry>)
  {
    /** The entries of the batch whose timers the handler still uses. */
    function Busy(): seq<Entry> {
      match this
      case Idle => []
      case Handling(_, todo) => todo
      case Running(_, current, todo) => [current] + todo
    }

    predicate IsCurrent(p: Ptr) {
      Running? && current.second == p
    }
  }

  /** `store` holds the timers created and not yet deleted, by address. The last four fields are history. */
  datatype State = State(
    store: map<Ptr, TimerRec>,
    list: seq<Entry>,
    fd: Timerfd,
    phase: Phase,
    nextId: TimerId,
    births: map<TimerId, Birth>,
    deleted: seq<TimerId>,
    log: seq<Firing>,
    clock: Time)

  function Init(clock: Time): State {
    State(map[], [], Disarmed, Idle, 0, map[], [], [], clock)
  }

  /** `Read` reads the timerfd at `readAt` and the clock at `curr`. */
  datatype Step =
    | Add(ptr: Ptr, when: Time, interval: int, now: Time)
    | Cancel(ptr: Ptr)
    | Read(readAt: Time, curr: Time)
    | Fire
    | Finish
    | Rearm(now: Time)

  /** What the program order, the allocator, the clock and the caller allow. A caller may add timers, and
      cancel a live timer outside the batch being handled, between handler calls or in a callback. */
  ghost predicate Possible(s: State, step: Step) {
    match step
    case Add(ptr, _, _, now) =>
      !s.phase.Handling? && ptr !in s.store && ptr < UINTPTR_MAX && s.clock <= now
    case Cancel(ptr) =>
      !s.phase.Handling? && ptr in s.store && forall e :: e in s.phase.Busy() ==> e.second != ptr
    case Read(readAt, curr) => s.phase.Idle? && s.clock <= readAt <= curr
    case Fire => s.phase.Handling? && s.phase.todo != [] && s.phase.todo[0].second in s.store
    case Finish => s.phase.Running? && s.phase.current.second in s.store
    case Rearm(now) => s.phase.Handling? && s.phase.todo == [] && s.clock <= now
  }

  /** The assertions in the code the step runs. */
  ghost predicate AssertionsHold(s: State, step: Step)
    requires Possible(s, step)
  {
    match step
    case Cancel(ptr) => !s.store[ptr].canceled
    case Read(readAt, curr) =>
      s.fd.ReadableAt(readAt) && (Later(s.list, curr) != [] ==> curr < Later(s.list, curr)[0].first)
    case Fire => s.store[s.phase.todo[0].second].Expired(s.phase.curr)
    case _ => true
  }

  ghost predicate Legal(s: State, step: Step) {
    Possible(s, step) && AssertionsHold(s, step)
  }

  function SplitPoint(list: seq<Entry>, curr: Time): (n: nat)
    ensures n <= |list|
  {
    LowerBound(list, Entry(curr + 1, UINTPTR_MAX))
  }

  function Due(list: seq<Entry>, curr: Time): seq<Entry> {
    list[..SplitPoint(list, curr)]
  }

  function Later(list: seq<Entry>, curr: Time): seq<Entry> {
    list[SplitPoint(list, curr)..]
  }

  ghost function Deleted(s: State, ptr: Ptr): State
    requires ptr in s.store
  {
    s.(store := s.store - {ptr}, deleted := s.deleted + [s.store[ptr].id])
  }

  ghost function Apply(s: State, step: Step): State
    requires Possible(s, step)
  {
    match step
    case Add(ptr, when, interval, now) =>
      var id := s.nextId + 1;
      s.(store := s.store[ptr := TimerRec(id, when, interval, interval > 0, false)],
         list := Insert(s.list, Entry(when, ptr)),
         fd := if LowerBound(s.list, Entry(when, ptr)) == 0 then SetTimerfd(when, now) else s.fd,
         nextId := id, births := s.births[id := Birth(ptr, when, interval)], clock := now)
    case Cancel(ptr) =>
      Deleted(s, ptr).(list := Erase(s.list, Entry(s.store[ptr].timing, ptr)))
    case Read(_, curr) =>
      s.(fd := Disarmed, list := Later(s.list, curr), phase := Handling(curr, Due(s.list, curr)), clock := curr)
    case Fire =>
      var e := s.phase.todo[0];
      var t := s.store[e.second];
      s.(phase := Running(s.phase.curr, e, s.phase.todo[1..]),
         log := if t.canceled then s.log else s.log + [Firing(t.id, t.timing, s.phase.curr)])
    case Finish =>
      var p := s.phase.current.second;
      var t := s.store[p];
      var s' := s.(phase := Handling(s.phase.curr, s.phase.todo));
      if !t.canceled && t.repeated then
        var t' := t.(timing := t.timing + t.Period());
        s'.(store := s.store[p := t'], list := Insert(s.list, Entry(t'.timing, p)))
      else
        Deleted(s', p)
    case Rearm(now) =>
      s.(phase := Idle, clock := now, fd := if s.list == [] then s.fd else SetTimerfd(s.list[0].first, now))
  }

  // Runs.

  ghost predicate LegalRun(s: State, steps: seq<Step>)
    decreases steps, 0
  {
    steps == [] ||
    (LegalRun(s, steps[..|steps| - 1]) && Legal(Run(s, steps[..|steps| - 1]), steps[|steps| - 1]))
  }

  ghost function Run(s: State, steps: seq<Step>): State
    requires LegalRun(s, steps)
    decreases steps, 1
  {
    if steps == [] then s else Apply(Run(s, steps[..|steps| - 1]), steps[|steps| - 1])
  }

  lemma RunStep(s: State, steps: seq<Step>, step: Step)
    requires LegalRun(s, steps) && Legal(Run(s, steps), step)
    ensures LegalRun(s, steps + [step]) && Run(s, steps + [step]) == Apply(Run(s, steps), step)
  {
    assert (steps + [step])[..|steps|] == steps;
  }

  // The invariant, in four parts.

  /** Every live timer stands in exactly one place, under its current deadline. */
  ghost predicate Placed(s: State) {
    && Sorted(s.list) && Sorted(s.phase.Busy())
    && (forall e :: e in s.list || e in s.phase.Busy() ==> e.second in s.store && s.store[e.second].timing == e.first)
    && (forall e :: e in s.list ==> e !in s.phase.Busy())
    && (forall p :: p in s.store ==>
          Entry(s.store[p].timing, p) in s.list || Entry(s.store[p].timing, p) in s.phase.Busy())
  }

  ghost predicate Healthy(s: State) {
    && (forall p :: p in s.store ==>
          p < UINTPTR_MAX && !s.store[p].canceled && (s.store[p].repeated <==> s.store[p].interval > 0))
    && (!s.phase.Idle? ==> s.phase.curr <= s.clock)
    && (forall e :: e in s.phase.Busy() ==> e.first <= s.phase.curr + 1)
    && (s.phase.Running? ==> s.phase.current.first <= s.phase.curr)
  }

  /** Every timer ever created is either live or was deleted once. */
  ghost predicate Owned(s: State) {
    && (forall i :: i in s.births <==> 1 <= i <= s.nextId)
    && (forall i :: i in s.births ==> (i in s.deleted <==> !Live(s, i)))
    && (forall i :: i in s.deleted ==> i in s.births)
    && (forall p :: p in s.store ==> BornAs(s, p))
    && NoDuplicates(s.deleted)
    && |s.store| + |s.deleted| == s.nextId
  }

  ghost predicate Live(s: State, i: TimerId)
    requires i in s.births
  {
    s.births[i].ptr in s.store && s.store[s.births[i].ptr].id == i
  }

  ghost predicate BornAs(s: State, p: Ptr)
    requires p in s.store
  {
    && s.store[p].id in s.births
    && s.births[s.store[p].id].ptr == p
    && s.births[s.store[p].id].interval == s.store[p].interval
  }

  ghost predicate NoDuplicates<T>(s: seq<T>) {
    forall i, j :: 0 <= i < j < |s| ==> s[i] != s[j]
  }

  /** The deadlines timer `id` fired for, in order. */
  ghost function Nominals(log: seq<Firing>, id: TimerId): seq<Time> {
    if log == [] then []
    else
      var last := log[|log| - 1];
      Nominals(log[..|log| - 1], id) + if last.id == id then [last.nominal] else []
  }

  ghost function Fired(log: seq<Firing>, id: TimerId): nat {
    |Nominals(log, id)|
  }

  /** The deadline of a live timer follows from its birth and the number of its firings. */
  ghost predicate OnRate(s: State, p: Ptr)
    requires p in s.store
  {
    var t := s.store[p];
    var n := Fired(s.log, t.id) - if s.phase.IsCurrent(p) then 1 else 0;
    BornAs(s, p) && n >= 0 && t.timing == s.births[t.id].Nth(n) && (!t.repeated ==> n == 0)
  }

  ghost predicate Consecutive(s: State, i: TimerId)
    requires i in s.births
  {
    && (forall k :: 0 <= k < Fired(s.log, i) ==> Nominals(s.log, i)[k] == s.births[i].Nth(k))
    && (s.births[i].interval <= 0 ==> Fired(s.log, i) <= 1)
  }

  ghost predicate Rated(s: State) {
    && (forall p :: p in s.store ==> OnRate(s, p))
    && (forall i :: i in s.births ==> Consecutive(s, i))
    && (forall f :: f in s.log ==> f.id in s.births && f.nominal <= f.at <= s.clock)
  }

  ghost predicate Wakes(s: State) {
    && (s.fd.Armed? ==> s.fd.at <= s.clock && s.fd.at + 1000 <= s.fd.wake)
    && (s.phase.Idle? && s.list != [] ==>
          s.fd.Armed? && s.fd.wake <= MaxTime(s.list[0].first, s.fd.at + 1000))
  }

  ghost predicate Inv(s: State) {
    Placed(s) && Healthy(s) && Owned(s) && Rated(s) && Wakes(s)
  }
}
