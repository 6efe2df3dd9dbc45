/** The start gate of Thread.cpp: a starter thread (`start`, then `join`) and the new thread (`run`), as
    interleaved steps around one mutex and one condition variable that may wake up spuriously. */
module ThreadGate {

  /** `run`, between two of its actions. In `Woken` the wait has ended and the mutex is to be taken again. */
  datatype Runner = Born | Testing | Waiting | Woken | Passing | Outside | Finished

  /** `start` and `join`, between two of their actions. */
  datatype Starter = Ready | Asserted | Locked | Flagged | Notified | Started | Joining | Joined

  datatype Mutex = Free | ByRunner | ByStarter

  /** `hasFunc`: the thread was given a function. `calls` counts its calls. */
  datatype State = State(
    runner: Runner,
    starter: Starter,
    mutex: Mutex,
    started: bool,
    joined: bool,
    hasFunc: bool,
    calls: nat)

  function Init(hasFunc: bool): State {
    State(Born, Ready, Free, false, false, hasFunc, 0)
  }

  datatype Step =
    // The runner.
    | Lock | Test | Relock | Unlock | Call
    // A wake-up nobody asked for.
    | Spurious
    // The starter.
    | Assert | StartLock | SetFlag | Notify | StartUnlock | JoinBegin | JoinEnd

  predicate Enabled(s: State, step: Step) {
    match step
    case Lock => s.runner == Born && s.mutex == Free
    case Test => s.runner == Testing
    case Relock => s.runner == Woken && s.mutex == Free
    case Unlock => s.runner == Passing
    case Call => s.runner == Outside
    case Spurious => s.runner == Waiting
    case Assert => s.starter == Ready
    case StartLock => s.starter == Asserted && s.mutex == Free
    case SetFlag => s.starter == Locked
    case Notify => s.starter == Flagged
    case StartUnlock => s.starter == Notified
    case JoinBegin => s.starter == Started
    case JoinEnd => s.starter == Joining && s.runner == Finished
  }

  /** The assertions of `start` and `join`. */
  predicate AssertionHolds(s: State, step: Step) {
    match step
    case Assert => !s.started
    case JoinBegin => s.started && !s.joined
    case _ => true
  }

  /** Testing the flag and going to sleep releases the mutex in one action, as `wait` does. `notify_one`
      wakes the runner if it sleeps, and is lost otherwise. */
  function Apply(s: State, step: Step): State
    requires Enabled(s, step)
  {
    match step
    case Lock => s.(runner := Testing, mutex := ByRunner)
    case Test => if s.started then s.(runner := Passing) else s.(runner := Waiting, mutex := Free)
    case Relock => s.(runner := Testing, mutex := ByRunner)
    case Unlock => s.(runner := Outside, mutex := Free)
    case Call => s.(runner := Finished, calls := s.calls + if s.hasFunc then 1 else 0)
    case Spurious => s.(runner := Woken)
    case Assert => s.(starter := Asserted)
    case StartLock => s.(starter := Locked, mutex := ByStarter)
    case SetFlag => s.(starter := Flagged, started := true)
    case Notify => s.(starter := Notified, runner := if s.runner == Waiting then Woken else s.runner)
    case StartUnlock => s.(starter := Started, mutex := Free)
    case JoinBegin => s.(starter := Joining, joined := true)
    case JoinEnd => s.(starter := Joined)
  }

  ghost predicate LegalRun(s: State, steps: seq<Step>)
    decreases steps
  {
    steps == [] || (Enabled(s, steps[0]) && LegalRun(Apply(s, steps[0]), steps[1..]))
  }

  ghost function Run(s: State, steps: seq<Step>): State
    requires LegalRun(s, steps)
    decreases steps
  {
    if steps == [] then s else Run(Apply(s, steps[0]), steps[1..])
  }

  /** `start` has returned. */
  predicate StartDone(s: State) {
    s.starter == Started || s.starter == Joining || s.starter == Joined
  }

  ghost predicate Inv(s: State) {
    && (s.mutex == ByRunner <==> s.runner == Testing || s.runner == Passing)
    && (s.mutex == ByStarter <==> s.starter == Locked || s.starter == Flagged || s.starter == Notified)
    && (s.started <==> s.starter == Flagged || s.starter == Notified || StartDone(s))
    && (s.joined <==> s.starter == Joining || s.starter == Joined)
    // A sleeping runner has either not been let through yet, or is about to be notified.
    && (s.runner == Waiting ==> !s.started || s.starter == Flagged)
    && (s.runner == Passing || s.runner == Outside || s.runner == Finished ==> s.started)
    && s.calls == (if s.hasFunc && s.runner == Finished then 1 else 0)
    && (s.starter == Joined ==> s.runner == Finished)
  }

  lemma KeepsInv(s: State, step: Step)
    requires Inv(s) && Enabled(s, step)
    ensures Inv(Apply(s, step)) && AssertionHolds(s, step)
  {
  }

  lemma {:induction false} RunKeepsInv(s: State, steps: seq<Step>)
    requires Inv(s) && LegalRun(s, steps)
    ensures Inv(Run(s, steps))
    decreases steps
  {
    if steps != [] {
      KeepsInv(s, steps[0]);
      RunKeepsInv(Apply(s, steps[0]), steps[1..]);
    }
  }

  /** In every interleaving the function runs at most once and only once the flag is set; when `start` has
      returned the runner does not sleep; when `join` has returned the function has run. */
  lemma {:induction false} GateIsSafe(hasFunc: bool, steps: seq<Step>)
    requires LegalRun(Init(hasFunc), steps)
    ensures
      var s := Run(Init(hasFunc), steps);
      && s.calls <= 1 && (s.calls == 1 ==> s.started)
      && (StartDone(s) ==> s.runner != Waiting)
      && (s.starter == Joined ==> s.runner == Finished && (s.hasFunc ==> s.calls == 1))
  {
    RunKeepsInv(Init(hasFunc), steps);
  }

  // Liveness.

  predicate ByRunnerThread(step: Step) {
    step == Lock || step == Test || step == Relock || step == Unlock || step == Call
  }

  /** How many steps the runner still takes once the flag is set. */
  function Remaining(s: State): nat {
    match s.runner
    case Born => 4
    case Waiting => 5
    case Woken => 4
    case Testing => 3
    case Passing => 2
    case Outside => 1
    case Finished => 0
  }

  /** After `start` the runner can always go on until it has finished, each of its steps brings it nearer
      and nothing else delays it. */
  lemma RunnerAdvances(s: State)
    requires Inv(s) && StartDone(s)
    ensures s.runner != Finished ==> exists step :: ByRunnerThread(step) && Enabled(s, step)
    ensures forall step :: Enabled(s, step) ==>
              && StartDone(Apply(s, step))
              && Remaining(Apply(s, step)) == Remaining(s) - (if ByRunnerThread(step) then 1 else 0)
  {
    var step := match s.runner
      case Born => Lock
      case Woken => Relock
      case Testing => Test
      case Passing => Unlock
      case _ => Call;
    assert s.runner != Finished ==> ByRunnerThread(step) && Enabled(s, step);
  }

  ghost function RunnerSteps(steps: seq<Step>): nat {
    if steps == [] then 0 else (if ByRunnerThread(steps[0]) then 1 else 0) + RunnerSteps(steps[1..])
  }

  /** So, from any state after `start`, the function has been called after at most four steps of the
      runner, whatever the starter does meanwhile. */
  lemma {:induction false} RunnerFinishes(s: State, steps: seq<Step>)
    requires Inv(s) && StartDone(s) && LegalRun(s, steps)
    ensures RunnerSteps(steps) + Remaining(Run(s, steps)) == Remaining(s) <= 4
    ensures RunnerSteps(steps) == Remaining(s) ==>
              Run(s, steps).runner == Finished && (s.hasFunc ==> Run(s, steps).calls == 1)
    decreases steps
  {
    RunKeepsInv(s, steps);
    if steps != [] {
      RunnerAdvances(s);
      KeepsInv(s, steps[0]);
      RunnerFinishes(Apply(s, steps[0]), steps[1..]);
    }
  }

  /** No reachable state is stuck before `join` has returned, spurious wake-ups aside. */
  lemma {:induction false} NoDeadlock(hasFunc: bool, steps: seq<Step>)
    requires LegalRun(Init(hasFunc), steps)
    ensures
      var s := Run(Init(hasFunc), steps);
      s.starter != Joined ==> exists step :: step != Spurious && Enabled(s, step)
  {
    RunKeepsInv(Init(hasFunc), steps);
    var s := Run(Init(hasFunc), steps);
    if s.mutex == ByRunner {
      assert Enabled(s, if s.runner == Testing then Test else Unlock);
    } else if StartDone(s) && s.starter != Joined && s.runner != Finished {
      RunnerAdvances(s);
    } else {
      var step := match s.starter
        case Ready => Assert
        case Asserted => StartLock
        case Locked => SetFlag
        case Flagged => Notify
        case Notified => StartUnlock
        case Started => JoinBegin
        case _ => JoinEnd;
      assert s.starter != Joined ==> Enabled(s, step);
    }
  }
}
