/** The registration machine over every sequence of calls. */
module RegistryRuns {
  import opened Registry

  ghost predicate LegalRun<C>(w: World<C>, calls: seq<(C, Call)>)
    decreases calls
  {
    calls == [] || (calls[0].0 in w.chans &&
                    (Perform(w, calls[0].0, calls[0].1).Done? ==>
                       LegalRun(Perform(w, calls[0].0, calls[0].1).value, calls[1..])))
  }

  ghost function Run<C>(w: World<C>, calls: seq<(C, Call)>): Outcome<World<C>>
    requires LegalRun(w, calls)
    decreases calls
  {
    if calls == [] then Done(w)
    else
      match Perform(w, calls[0].0, calls[0].1)
      case Done(w') => Run(w', calls[1..])
      case CtlFailed => CtlFailed
      case AssertFailed => AssertFailed
  }

  /** Over every sequence of calls the kernel agrees with the channels and `epoll_ctl` never fails. */
  lemma {:induction false} RunAgrees<C>(w: World<C>, calls: seq<(C, Call)>)
    requires Good(w) && LegalRun(w, calls)
    ensures !Run(w, calls).CtlFailed?
    ensures Run(w, calls).Done? ==> Good(Run(w, calls).value)
    decreases calls
  {
    if calls != [] {
      PerformAgrees(w, calls[0].0, calls[0].1);
      if Perform(w, calls[0].0, calls[0].1).Done? {
        RunAgrees(Perform(w, calls[0].0, calls[0].1).value, calls[1..]);
      }
    }
  }
}
