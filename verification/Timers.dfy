/** The timer queue of TimerQueue.cpp as a machine: one step per stretch of code between two points
    where user code can run. Times are nanoseconds on one monotone clock. */
module Timers {

  type Time = int
  type Ptr = nat
  type TimerId = nat

  const UINTPTR_MAX: nat := 0xFFFF_FFFF_FFFF_FFFF
  const NANOS_PER_MICRO := 1000
  const NANO_DEN := 1_000_000_000

  /** `interval` is in microseconds. */
  datatype TimerRec = TimerRec(id: TimerId, timing: Time, interval: int, repeated: bool, canceled: bool) {
    function Period(): int {
      interval * NANOS_PER_MICRO
    }

    predicate Expired(now: Time) {
      now >= timing
    }
  }

  datatype Entry = Entry(first: Time, second: Ptr)

  /** `Disarmed`, or set at `at` to fire at `wake`. */
  datatype Timerfd = Disarmed | Armed(at: Time, wake: Time) {
    predicate ReadableAt(now: Time) {
      Armed? && now >= wake
    }
  }

  // timerfd arithmetic.

  datatype Timespec = Timespec(sec: int, nsec: int) {
    predicate Ok() {
      0 <= sec && 0 <= nsec < NANO_DEN
    }

    function Nanos(): int {
      sec * NANO_DEN + nsec
    }
  }

  /** `duration_cast` truncates toward zero. */
  function ToMicros(nanos: int): int {
    if nanos >= 0 then nanos / NANOS_PER_MICRO else -((-nanos) / NANOS_PER_MICRO)
  }

  /** A count of microseconds, split as if it were nanoseconds. */
  function DurationFromNow(when: Time, now: Time): Timespec {
    var micros := ToMicros(when - now);
    var atLeast := if micros < 1000 then 1000 else micros;
    Timespec(atLeast / NANO_DEN, atLeast % NANO_DEN)
  }

  function SetTimerfd(when: Time, now: Time): Timerfd {
    Armed(now, now + DurationFromNow(when, now).Nanos())
  }

  /** The argument is a valid, non-zero timespec, so it arms and never disarms the fd; and though the
      fd may wake far too early it never wakes after the deadline, bar the one-microsecond minimum. */
  lemma SetTimerfdBounds(when: Time, now: Time)
    ensures DurationFromNow(when, now).Ok() && DurationFromNow(when, now).Nanos() > 0
    ensures now + 1000 <= SetTimerfd(when, now).wake <= MaxTime(when, now + 1000)
  {
  }

  /** Whether the fd waits for the deadline: only if that is within the minimum delay of a microsecond. */
  lemma WaitsForDeadlineIff(when: Time, now: Time)
    ensures SetTimerfd(when, now).wake >= when <==> when <= now + 1000
  {
  }

  /** How long it waits: from a millisecond ahead, a thousandth of the remaining time; up to there, and for a
      deadline already past, a microsecond. */
  lemma WakesEarly(when: Time, now: Time)
    ensures when - now >= 1_000_000 ==> SetTimerfd(when, now).wake == now + (when - now) / 1000
    ensures when - now < 1_000_000 ==> SetTimerfd(when, now).wake == now + 1000
  {
  }

  function MaxTime(a: Time, b: Time): Time {
    if a < b then b else a
  }

  // std::set<Entry>, in order.

  predicate Less(a: Entry, b: Entry) {
    a.first < b.first || (a.first == b.first && a.second < b.second)
  }

  ghost predicate Sorted(s: seq<Entry>) {
    forall i, j :: 0 <= i < j < |s| ==> Less(s[i], s[j])
  }

  function LowerBound(s: seq<Entry>, e: Entry): (n: nat)
    ensures n <= |s|
  {
    if s == [] || !Less(s[0], e) then 0 else 1 + LowerBound(s[1..], e)
  }

  function Insert(s: seq<Entry>, e: Entry): seq<Entry> {
    var n := LowerBound(s, e);
    if n < |s| && s[n] == e then s else s[..n] + [e] + s[n..]
  }

  function Erase(s: seq<Entry>, e: Entry): seq<Entry> {
    var n := LowerBound(s, e);
    if n < |s| && s[n] == e then s[..n] + s[n + 1..] else s
  }

  lemma LowerBoundSplits(s: seq<Entry>, e: Entry)
    ensures forall i :: 0 <= i < LowerBound(s, e) ==> Less(s[i], e)
    ensures LowerBound(s, e) < |s| ==> !Less(s[LowerBound(s, e)], e)
  {
  }

  /** `lower_bound` finds the entry if it is there. */
  lemma {:induction false} LowerBoundFinds(s: seq<Entry>, e: Entry)
    requires Sorted(s)
    ensures forall i :: 0 <= i < LowerBound(s, e) ==> Less(s[i], e)
    ensures e in s <==> LowerBound(s, e) < |s| && s[LowerBound(s, e)] == e
    ensures forall i :: LowerBound(s, e) <= i < |s| && s[i] != e ==> Less(e, s[i])
  {
    LowerBoundSplits(s, e);
    var n := LowerBound(s, e);
    forall i | n <= i < |s| && s[i] != e
      ensures Less(e, s[i])
    {
      assert i > n ==> Less(s[n], s[i]);
    }
  }

  lemma {:induction false} InsertMembers(s: seq<Entry>, e: Entry)
    ensures forall x :: x in Insert(s, e) <==> x in s || x == e
  {
    var n := LowerBound(s, e);
    assert s == s[..n] + s[n..];
  }

  lemma {:induction false} InsertSorted(s: seq<Entry>, e: Entry)
    requires Sorted(s)
    ensures Sorted(Insert(s, e))
    ensures e !in s ==> |Insert(s, e)| == |s| + 1
    ensures LowerBound(s, e) == 0 <==> Insert(s, e)[0] == e
    ensures LowerBound(s, e) > 0 ==> Insert(s, e)[0] == s[0]
  {
    LowerBoundFinds(s, e);
  }

  lemma {:induction false} EraseMembers(s: seq<Entry>, e: Entry)
    requires Sorted(s)
    ensures forall x :: x in Erase(s, e) <==> x in s && x != e
  {
    LowerBoundFinds(s, e);
    var n := LowerBound(s, e);
    if e in s {
      assert s == s[..n] + [e] + s[n + 1..];
    }
  }

  lemma {:induction false} EraseSorted(s: seq<Entry>, e: Entry)
    requires Sorted(s)
    ensures Sorted(Erase(s, e))
    ensures Erase(s, e) != [] ==> s != [] && s[0].first <= Erase(s, e)[0].first
  {
    LowerBoundFinds(s, e);
  }
}
