/** The size of `activeEvents_` over a run of `Epoller::poll`. */
module PollGrowth {

  const DEFAULT_EVENT_NUMS: nat := 128

  /** One `epoll_wait`: what it returned, and how many channels were registered. */
  datatype Poll = Poll(returned: int, registered: nat)

  ghost function Grown(size: nat, returned: int): nat {
    if returned > 0 && returned == size then size * 2 else size
  }

  ghost function SizeAfter(polls: seq<Poll>): nat {
    if polls == [] then DEFAULT_EVENT_NUMS
    else Grown(SizeAfter(polls[..|polls| - 1]), polls[|polls| - 1].returned)
  }

  /** The kernel fills at most the array, and reports each registered channel at most once. */
  ghost predicate Legal(polls: seq<Poll>) {
    polls == [] ||
    (var last := polls[|polls| - 1];
     && Legal(polls[..|polls| - 1])
     && last.returned <= SizeAfter(polls[..|polls| - 1]) && last.returned <= last.registered)
  }

  ghost function FullPolls(polls: seq<Poll>): nat {
    if polls == [] then 0
    else
      var before := polls[..|polls| - 1];
      FullPolls(before) + if polls[|polls| - 1].returned == SizeAfter(before) then 1 else 0
  }

  ghost function PeakRegistered(polls: seq<Poll>): nat {
    if polls == [] then 0
    else
      var before := PeakRegistered(polls[..|polls| - 1]);
      if before < polls[|polls| - 1].registered then polls[|polls| - 1].registered else before
  }

  ghost function Pow2(k: nat): nat {
    if k == 0 then 1 else 2 * Pow2(k - 1)
  }

  /** The array doubles exactly at the polls that fill it. */
  lemma {:induction false} SizeIsPowerOfTwo(polls: seq<Poll>)
    ensures SizeAfter(polls) == DEFAULT_EVENT_NUMS * Pow2(FullPolls(polls))
    ensures SizeAfter(polls) > 0
  {
    if polls != [] {
      SizeIsPowerOfTwo(polls[..|polls| - 1]);
    }
  }

  /** It never exceeds twice the largest number of channels ever registered. */
  lemma {:induction false} SizeBound(polls: seq<Poll>)
    requires Legal(polls)
    ensures SizeAfter(polls) <= DEFAULT_EVENT_NUMS || SizeAfter(polls) <= 2 * PeakRegistered(polls)
  {
    if polls != [] {
      SizeBound(polls[..|polls| - 1]);
    }
  }
}
