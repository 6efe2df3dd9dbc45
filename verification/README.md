# A single-threaded reactor server, modelled and verified

This project models version 1.7 of the step-by-step network library (`v1.7/src`): a timer queue on one
timerfd, a growable byte buffer, TCP connections over two such buffers, an epoll poller with its channels, the
server's map of connections, and the start gate of a thread. `dafny verify dfyconfig.toml` checks everything.

Each part comes as a machine and as objects. The machine is a datatype of states with one step per stretch of
code between two points where something else can happen: user code, the kernel's answer, another thread. What
holds over every run is proved of it. The objects are classes with the source's fields and methods, and each
method is proved to take the machine's steps. TimerQueue and TcpConnection keep the ghost list of steps they have
taken, and `Valid()` says that their fields are those of the state that list leads to, so every result about runs
holds of the objects; Buffer and Epoller are tied to their machines by the abstract value each method moves.

| files | part |
|---|---|
| `Buffer.dfy`, `BufferRuns.dfy` | the byte buffer, in place; the queue it refines, and its capacity over runs |
| `Timers.dfy`, `TimerMachine.dfy`, `TimerProofs.dfy`, `TimerTheorems.dfy`, `TimerLiveness.dfy`, `TimerQueue.dfy` | timerfd arithmetic and the ordered set; the machine, its invariant, its theorems; when timers fire; the classes |
| `Registry.dfy`, `RegistryRuns.dfy`, `PollGrowth.dfy`, `Epoller.dfy` | channel registration beside the kernel's interest list; the event array; the classes Channel and Epoller |
| `Streams.dfy`, `TcpConnection.dfy` | one connection's bytes, mask and state; the class |
| `Naming.dfy`, `TcpServer.dfy`, `Reactor.dfy` | connection names; EventLoop and TcpServer; the whole server on one poller |
| `ThreadGate.dfy` | the mutex and condition variable protocol of Thread |

What a method does to the world outside is recorded where it happens and not by the machine: the calls of timers'
callbacks (`ran`), the bytes the kernel has taken (`wire`), the calls of the connection callback (`notified`) and of
the message callback (`shown`). `Valid()` ties each to the machine's history.

The environment is free within its contracts. The kernel may take any prefix of a write or refuse it, return
any bytes from `readv`, report any registered channels in any order, and give any unused address or descriptor.
The clock may advance by any amount between two readings. Callbacks are arbitrary code (`RunCallback`,
`UserCode`): nondeterministic calls into the library, any number of times.

Four results differ from what one might expect of the code.

* The handler of the timerfd asserts `expired(curr)` for its whole batch, but the batch also holds a timer due
  at exactly `curr + 1` ns. The assertion then aborts. It holds for all of the batch iff no entry is due at that
  instant (`BatchExpiredIff`), and the abort is reachable with a single timer (`ExpiredAssertionCanFail`).
* The handler also asserts that it could read the timerfd. Between the poll that reported the fd and its handler,
  other handlers of the same poll may add and cancel timers, and an added timer that becomes the head sets the fd
  anew. The assertion holds iff none became the head, or the setting by the last one that did has expired as
  well by the time of the read (`ReadAfterUserCode`). A run in which it fails is `TimerfdReadCanFail`.
* `durationFromNow` splits a count of microseconds as if it were nanoseconds. The fd waits for the deadline iff
  that is at most a microsecond ahead (`WaitsForDeadlineIff`): from a millisecond on it wakes after a thousandth of
  the time, up to there after a microsecond (`WakesEarly`). Over every run this costs finitely many early wake-ups
  (`EarlyIsFinite`) and no timer: each one fires unless it is cancelled (`NoLostTimer`, `EveryTimerFires`).
* `send` does not look at the state of the connection. On a closed one it puts the removed channel back into
  the interest list as soon as something is left over. It cannot, whatever the kernel answers, iff the message is
  empty (`SendOnClosedIsHarmlessIff`); a run in which it does is `ClosedSendCanRegister`.

Assertions are taken as enabled, as the build files leave them.

## Model

| member | source | states |
|---|---|---|
| Buffers.Buffer.constructor | v1.7/src/Buffer.cpp:5-11 | any initial size is accepted; the buffer is a sound one, with an empty readable region after the prepend area, iff that area fits |
| Buffers.Buffer.CopyWithin | v1.7/src/Buffer.cpp:72-74 | the element-by-element copy inside the vector is right whenever the destination is not inside the source range, overlapping or not |
| Buffers.Buffer.MakeSpace | v1.7/src/Buffer.cpp:61-79 | afterwards there is room for `len`, the readable bytes are the same, the vector has not shrunk; compaction happens only as a strict move to the left |
| Buffers.Buffer.EnsureWritableSize | v1.7/src/Buffer.cpp:53-59 | the same, whether or not there was room before |
| Buffers.Buffer.HasWritten | v1.7/src/Buffer.cpp:81-85 | the written bytes become readable; the assertion is its precondition |
| Buffers.Buffer.Append | v1.7/src/Buffer.cpp:46-51 | the readable bytes grow by exactly the given ones |
| Buffers.Buffer.Readv | v1.7/src/Buffer.cpp:22-28 | the system call: bytes fill the room at the end, then the spill array, and nothing readable changes |
| Buffers.Buffer.ReadFd | v1.7/src/Buffer.cpp:18-44 | for any answer of up to room + 65536 bytes the readable bytes grow by exactly those read; an error changes nothing |
| Buffers.Buffer.Retrieve | v1.7/src/Buffer.cpp:87-97 | the oldest bytes leave; asking for too many empties the buffer |
| Buffers.Buffer.RetrieveAll | v1.7/src/Buffer.cpp:99-103 | the readable region is empty and the prepend area restored |
| Buffers.Buffer.RetrieveAsString | v1.7/src/Buffer.cpp:105-111 | what is returned followed by what stays is what was readable |
| Buffers.Buffer.RetrieveAllAsString | v1.7/src/Buffer.cpp:113-116 | everything readable is returned and nothing stays |
| BufferRuns.BufferIsQueue | v1.7/src/Buffer.cpp:18-116 | over every sequence of calls the readable region is that of a plain byte queue |
| BufferRuns.BytesConserved | v1.7/src/Buffer.cpp:18-116 | all bytes put in are all bytes taken out followed by the readable ones, in order |
| BufferRuns.CapacityBound | v1.7/src/Buffer.cpp:61-79 | over every run the vector never shrinks and stays within max(initial, 2 * peak readable + 7) |
| BufferRuns.CapacityBoundIsReached | v1.7/src/Buffer.cpp:61-67 | that bound is attained |
| Timers.SetTimerfdBounds | v1.7/src/TimerQueue.cpp:32-61 | the timespec is valid and non-zero, so the fd is always armed; it wakes at least 1000 ns later and not after the deadline, that minimum aside |
| Timers.WaitsForDeadlineIff | v1.7/src/TimerQueue.cpp:32-44 | the fd waits for the deadline iff that is at most 1000 ns ahead; anything later it wakes for too early |
| Timers.WakesEarly | v1.7/src/TimerQueue.cpp:35-42 | exactly how long the fd waits: from 1 ms ahead on a thousandth of the remaining time, before that 1000 ns |
| Timers.LowerBoundFinds | v1.7/src/TimerQueue.h:72-73 | `lower_bound` in the order of (deadline, address) splits the set and finds an entry iff it is there |
| Timers.InsertMembers | v1.7/src/TimerQueue.cpp:114 | inserting adds that entry only |
| Timers.InsertSorted | v1.7/src/TimerQueue.cpp:114-118 | the order is kept, and the entry becomes the head exactly when the re-arming test says so |
| Timers.EraseMembers | v1.7/src/TimerQueue.cpp:126 | erasing removes that entry only |
| Timers.EraseSorted | v1.7/src/TimerQueue.cpp:122-128 | the order is kept and the head never gets earlier, so cancelling needs no re-arming |
| TimerProofs.SplitIsExact | v1.7/src/TimerQueue.cpp:164-176 | `getExpired` takes exactly the entries due by curr + 1 ns, in order, and leaves exactly the later ones |
| TimerProofs.KeepsPlaced | v1.7/src/TimerQueue.cpp:109-162 | every step keeps each live timer in one place, under its current deadline |
| TimerProofs.KeepsOwned | v1.7/src/TimerQueue.cpp:109-156 | every step keeps created = live + deleted, and deletes nothing twice |
| TimerProofs.KeepsRated | v1.7/src/TimerQueue.cpp:137-156 | every step keeps each deadline on its timer's grid |
| TimerProofs.KeepsWakes | v1.7/src/TimerQueue.cpp:109-162 | every step keeps the fd armed for the head between handler calls |
| TimerProofs.ReachableInv | v1.7/src/TimerQueue.cpp:109-176 | all of that in every reachable state, callbacks included |
| TimerTheorems.NoLostTimer | v1.7/src/TimerQueue.cpp:32-61 | between handler calls every live timer is awaited: the fd is armed to wake by max(its deadline, arming time + 1000 ns), although cancelling never re-arms |
| TimerTheorems.TimersConserved | v1.7/src/TimerQueue.cpp:109-156 | each timer created is live or deleted, never both, never twice |
| TimerTheorems.TimersPlacedOnce | v1.7/src/TimerQueue.cpp:113-154 | each live timer has exactly one entry, in the set or in the batch being handled, keyed by its current deadline |
| TimerTheorems.AddInserts | v1.7/src/TimerQueue.cpp:113-114 | the insertion of a new timer always succeeds |
| TimerTheorems.RestartInserts | v1.7/src/TimerQueue.cpp:146-151 | so does the insertion of a restarted one |
| TimerTheorems.DestructorLeaksNothing | v1.7/src/TimerQueue.cpp:98-107 | destroying an idle queue leaves every timer ever created deleted exactly once |
| TimerTheorems.HandlerCanGoOn | v1.7/src/TimerQueue.cpp:137-161 | the handler never follows a dangling pointer and always has a next step |
| TimerTheorems.AssertionsExactly | v1.7/src/TimerQueue.cpp:130-176 | which assertions of the queue can fail, and exactly when |
| TimerTheorems.BatchExpiredIff | v1.7/src/TimerQueue.cpp:137-140 | the whole batch is expired iff no entry is due at exactly curr + 1 ns |
| TimerTheorems.ExpiredAssertionCanFail | v1.7/src/TimerQueue.cpp:140 | a run of one timer in which that assertion fails |
| TimerTheorems.ReadAfterUserCode | v1.7/src/TimerQueue.cpp:21-28 | after any adds and cancels between the report and the handler, its read assertion holds iff none added became the head, or the setting by the last that did has expired by the read |
| TimerTheorems.ReadAfterAdd | v1.7/src/TimerQueue.cpp:109-120 | for a single added timer, in terms of the set, the deadline and the clock, for every later reading |
| TimerTheorems.TimerfdReadCanFail | v1.7/src/TimerQueue.cpp:21-28 | a run of two timers in which that assertion fails, and would hold a microsecond later |
| TimerTheorems.NotCanceled | v1.7/src/TimerQueue.h:44-48 | a live timer has not been cancelled, so the assertion in `cancel` holds |
| TimerTheorems.FixedRate | v1.7/src/TimerQueue.h:38-42 | firings are for t0, t0 + d, t0 + 2d, ... with none skipped, and none before its deadline by its own handler's clock reading; the next deadline is the next term; a timer that does not repeat fires at most once |
| TimerTheorems.FiringCount | v1.7/src/TimerQueue.cpp:130-156 | by clock reading c at most floor((c - t0) / d) + 1 firings |
| TimerTheorems.HandlerFiresBatch | v1.7/src/TimerQueue.cpp:130-162 | one handler call fires exactly the entries due when it read the clock, in order, whatever callbacks add or cancel meanwhile |
| TimerTheorems.BatchFiresOnceInOrder | v1.7/src/TimerQueue.cpp:137-156 | within a batch no timer fires twice and deadlines do not go back |
| TimerLiveness.EarlyIsHarmless | v1.7/src/TimerQueue.cpp:130-162 | a handler call before the head is due can only arm the fd again, which leaves the queue as it was |
| TimerLiveness.ReadsAdvanceClock | v1.7/src/TimerQueue.cpp:32-61 | over every run, whatever is added, cancelled and fired in between, n handler calls bring the clock at least 1000 * n ns further |
| TimerLiveness.EarlyIsFinite | v1.7/src/TimerQueue.cpp:32-44 | so over every run fewer than (T - start) / 1000 handler calls come before any given deadline T |
| TimerLiveness.TimerLivesUntil | v1.7/src/TimerQueue.cpp:122-156 | over every run a timer is alive iff it was never cancelled and it repeats, or has not fired, or its callback is running: repeating ones stay until cancelled, the others go after their one firing |
| TimerLiveness.EveryTimerFires | v1.7/src/TimerQueue.cpp:109-162 | a live timer with deadline T that is not cancelled has fired once the handler has run at least once and (T - start) / 1000 times, whatever is added, cancelled and fired meanwhile |
| TimerQueues.Timer.Restart | v1.7/src/TimerQueue.h:38-42 | the deadline moves by one interval |
| TimerQueues.Timer.Cancel | v1.7/src/TimerQueue.h:44-48 | the flag is set; the assertion is the precondition |
| TimerQueues.TimerQueue.AddTimer | v1.7/src/TimerQueue.cpp:109-120 | takes the machine's step for a new timer at the allocator's address |
| TimerQueues.TimerQueue.CancelTimer | v1.7/src/TimerQueue.cpp:122-128 | takes the machine's step, for any live timer outside the batch |
| TimerQueues.TimerQueue.GetExpired | v1.7/src/TimerQueue.cpp:164-176 | returns the due entries and keeps the later ones |
| TimerQueues.TimerQueue.RunCallback | v1.7/src/TimerQueue.h:29-36 | the callback is called once, for this timer at this clock reading; whatever it adds or cancels leaves the rest of the batch to be fired as before |
| TimerQueues.TimerQueue.HandleBatch | v1.7/src/TimerQueue.cpp:137-156 | the loop calls the callbacks of the batch in order, one each; it stops early only at an entry due at exactly curr + 1 ns, having called those of the entries before it |
| TimerQueues.TimerQueue.ServeBatch | v1.7/src/TimerQueue.cpp:137-161 | it runs to its end iff every entry is due; then each callback was called once, in order, and the queue is idle again; else it stops at the first entry that is not due |
| TimerQueues.TimerQueue.HandleTimingRead | v1.7/src/TimerQueue.cpp:130-162 | reads the fd at one instant and the clock at the same or a later one; aborts iff the fd is not readable at the first or an entry is due at exactly the second + 1 ns; otherwise calls the callbacks of exactly the due entries, once each and in order, and is idle again; an abort in the loop comes after the callbacks of the entries before |
| TimerQueues.TimerQueue.Destroy | v1.7/src/TimerQueue.cpp:98-107 | the addresses deleted are exactly those of the live timers, none twice, and no timer is left |
| Registry.CtlKeepsGood | v1.7/src/Epoller.cpp:83-95 | a status change and its `epoll_ctl` go together: the call succeeds and the agreement holds afterwards |
| Registry.PerformAgrees | v1.7/src/Epoller.cpp:56-106 | `epoll_ctl` never fails; the only abort is removing a channel that still has events; a call that returns keeps the interest list equal to fd -> (events, channel) of the ADDED channels |
| Registry.PerformStatus | v1.7/src/Epoller.cpp:56-81 | where a call leaves its own channel's status |
| Registry.DisableAllToggles | v1.7/src/Channel.h:27 | disabling everything on an unregistered channel registers it with an empty mask; removing it then is still safe |
| RegistryRuns.RunAgrees | v1.7/src/Channel.h:24-29 | the agreement over every sequence of calls on channels with distinct descriptors |
| PollGrowth.SizeIsPowerOfTwo | v1.7/src/Epoller.cpp:41-44 | the array has 128 * 2^k elements after k polls that filled it |
| PollGrowth.SizeBound | v1.7/src/Epoller.cpp:21-45 | it never exceeds max(128, 2 * the peak number of registered channels) |
| Polling.Channel.EnableReadable | v1.7/src/Channel.h:24 | the new mask and status, with the interest list in agreement |
| Polling.Channel.EnableWritable | v1.7/src/Channel.h:25 | the same |
| Polling.Channel.DisableAllEvents | v1.7/src/Channel.h:27 | the same |
| Polling.Channel.DisableReadable | v1.7/src/Channel.h:28 | the same |
| Polling.Channel.DisableWritable | v1.7/src/Channel.h:29 | the same |
| Polling.Channel.Remove | v1.7/src/Channel.cpp:57-61 | the channel is NEW and the interest list in agreement |
| Polling.Epoller.UpdateChannel | v1.7/src/Epoller.cpp:56-81 | does what the registration machine does, and never reaches the abort |
| Polling.Epoller.RemoveChannel | v1.7/src/Epoller.cpp:97-106 | does what the registration machine does |
| Polling.Epoller.ReportsAreFew | v1.7/src/Epoller.cpp:24-27 | one poll never reports more events than registered channels |
| Polling.Epoller.Poll | v1.7/src/Epoller.cpp:21-54 | the reported channels are appended in the kernel's order with their events; registration is untouched; the array grows as stated above |
| Streams.StreamConserved | v1.7/src/TcpConnection.cpp:134-166 | over every interleaving of sends, reads and writable events, in any state of the connection, with any partial or failed writes: the prefixes the kernel answered to have taken of what it was offered, then the output buffer, are the concatenation of all messages sent; what arrived is as many bytes as the user took, then the input buffer |
| Streams.AcceptedIsWire | v1.7/src/TcpConnection.cpp:85-160 | the bytes counted as accepted are those the answers to `write` say, offered under its two guards; those counted as taken are as many as the user took |
| Streams.KeepsTrackedIff | v1.7/src/TcpConnection.cpp:115-166 | a call keeps mask and notices in line with the state iff it is orderly: nothing is sent or received too soon, it closes once, and a send after that leaves nothing over |
| Streams.TrackedThroughoutIff | v1.7/src/TcpConnection.cpp:43-166 | so over a whole run they stay in line iff every call of it is orderly |
| Streams.WriteInterestTracksBacklog | v1.7/src/TcpConnection.cpp:80-99 | over every orderly run, while the connection is up, EPOLLOUT is asked for iff the output buffer is not empty |
| Streams.BacklogDrains | v1.7/src/TcpConnection.cpp:85-93 | with no further sends, as many writable events as buffered bytes drain the buffer and drop EPOLLOUT |
| Streams.Lifecycle | v1.7/src/TcpConnection.cpp:43-64 | over every orderly run CONNECTING, CONNECTED, DISCONNECTED and never back; the connection callback runs once for UP and once for DOWN |
| Streams.SendOnClosed | v1.7/src/TcpConnection.cpp:134-166 | a send on a closed connection leaves its mask empty iff the kernel takes the whole message at once |
| Streams.SendOnClosedIsSafeIff | v1.7/src/TcpConnection.cpp:134-166 | whatever the kernel may answer, it leaves it empty iff there is nothing to send |
| Streams.EchoIsFaithful | v1.7/Test/EchoServerTest.cpp:28-34 | with the echo callback, over every run of the connection's steps, the bytes that arrived are those the kernel took for the peer followed by the output buffer, and the input buffer is empty |
| TcpConnections.TcpConnection.constructor | v1.7/src/TcpConnection.cpp:27-41 | a connecting connection with an unregistered channel |
| TcpConnections.TcpConnection.ConnectionEstablished | v1.7/src/TcpConnection.cpp:43-51 | takes the machine's step; the channel is registered for reading |
| TcpConnections.TcpConnection.Write | v1.7/src/TcpConnection.cpp:144 | the system call: the prefix that the answer says goes to the peer, nothing on an error |
| TcpConnections.TcpConnection.Send | v1.7/src/TcpConnection.cpp:134-166 | in every state: with nothing buffered and EPOLLOUT not asked for, the prefix the kernel takes goes to the peer at once; exactly the rest is buffered, and EPOLLOUT asked for if there is a rest |
| TcpConnections.TcpConnection.HandleWrite | v1.7/src/TcpConnection.cpp:80-113 | the prefix the kernel takes of the backlog goes to the peer and exactly the rest stays; EPOLLOUT is dropped iff nothing is left; aborts, changing nothing, iff it is writing and `write` takes nothing |
| TcpConnections.TcpConnection.Fill | v1.7/src/TcpConnection.cpp:69 | the first line of `handleRead`: what `readv` answered is in the input buffer and counted as received |
| TcpConnections.TcpConnection.HandleRead | v1.7/src/TcpConnection.cpp:66-78 | in every state: what arrived is received and shown, with what was there, to the message callback, which alone acts after that; an error changes nothing, zero bytes close; discarding empties the input buffer, echoing takes exactly the echo steps |
| TcpConnections.TcpConnection.Echo | v1.7/Test/EchoServerTest.cpp:33 | all that was readable goes to `send` |
| TcpConnections.TcpConnection.RunMessageCallback | v1.7/Test/DiscardServerTest.cpp:28-33 | the test servers' callbacks, and any other code: called once with the whole input buffer; the default does nothing, discarding takes all input, echoing takes exactly its two steps, and a connection that is up stays up and in line |
| TcpConnections.TcpConnection.HandleClose | v1.7/src/TcpConnection.cpp:115-121 | takes the machine's step from every state, a second close included |
| TcpConnections.TcpConnection.ConnectionDestroy | v1.7/src/TcpConnection.cpp:53-64 | from every state not up any more, and the channel NEW; the precondition is the assertion in `Channel::remove` |
| Naming.NamesDiffer | v1.7/src/TcpServer.cpp:34 | different indices give different names |
| Servers.EventLoop.constructor | v1.7/src/EventLoop.cpp:11-17 | an idle timer queue and a registered timer channel |
| Servers.EventLoop.CollectActive | v1.7/src/EventLoop.cpp:38-44 | each iteration starts from this poll's channels only, in order, none twice |
| Servers.EventLoop.RunAt | v1.7/src/EventLoop.cpp:87-91 | a timer that does not repeat |
| Servers.EventLoop.RunAfter | v1.7/src/EventLoop.cpp:93-98 | its deadline is the delay after the clock reading |
| Servers.EventLoop.RunEvery | v1.7/src/EventLoop.cpp:100-105 | first due after one interval, repeating iff the interval is positive |
| Servers.TcpServer.NewConnection | v1.7/src/TcpServer.cpp:30-46 | the new entry, under the next name, replaces none; the connection is up, on the given descriptor and the poller of the server, with the message callback of the server |
| Servers.TcpServer.RemoveConnection | v1.7/src/TcpServer.cpp:48-53 | for a connection in any state: the name is gone from the map, the channel NEW and out of the interest list |
| Servers.TcpServer.OnHangup | v1.7/src/TcpConnection.cpp:115-123 | a hang-up closes and destroys the connection and takes its name out of the map |
| Servers.TcpServer.OnReadable | v1.7/src/TcpConnection.cpp:66-78 | one answer of the kernel is consumed: an error takes no step, zero bytes close and destroy, bytes are received and shown to the callback |
| Servers.TcpServer.OnWritable | v1.7/src/TcpConnection.cpp:80-113 | one write of the backlog, and the abort, iff EPOLLOUT is asked for |
| Servers.TcpServer.HandleEvents | v1.7/src/Channel.cpp:25-50 | the callbacks run iff their bit is set, in the order close, read, write, and take exactly the steps that the answers of the kernel and the message callback determine; a mapped connection that was up is up, mapped and registered for exactly what it needs, or closed and neither |
| Reactor.PerformAllSound | v1.7/src/TcpConnection.cpp:53-62 | the channel calls a handler makes in a row always return and touch no other channel |
| Reactor.KeepsInv | v1.7/src/TcpServer.cpp:30-53 | every event keeps the poller, the connections and the map in agreement |
| Reactor.RegistrationIsExact | v1.7/src/TcpServer.cpp:25-53 | over every run of the server no channel call aborts, and the interest list is exactly the timerfd, the listening socket and the mapped connections, each with the right mask |
| Reactor.ConnectionsSettle | v1.7/src/TcpConnection.cpp:115-123 | every connection is up and mapped, or down, unmapped, unregistered and notified once of each; its bytes are conserved |
| Reactor.ConnectionsAreApart | v1.7/src/TcpServer.cpp:30-53 | over every run of the server each connection is exactly where its own steps lead, whatever the others do in between, and exists iff it was accepted; so its bytes are conserved from its own messages and answers |
| Reactor.SendOnClosedRegisters | v1.7/src/TcpConnection.cpp:158-165 | a send on a closed connection puts its channel back into the interest list iff some of the message is left over |
| Reactor.SendOnClosedIsHarmlessIff | v1.7/src/TcpConnection.cpp:134-166 | whatever the kernel may answer, it does not iff there is nothing to send |
| Reactor.ClosedSendCanRegister | v1.7/src/TcpConnection.cpp:134-166 | a run of the server in which it does |
| Reactor.ActiveChannelsStayRegistered | v1.7/src/EventLoop.cpp:44-50 | over the dispatches of one poll, with any user code in them, no handler finds that an earlier one took its channel away |
| ThreadGate.GateIsSafe | v1.7/src/Thread.cpp:50-71 | the function runs at most once and only after `start` set the flag; after `start` the runner never sleeps; after `join` the function has run |
| ThreadGate.RunnerAdvances | v1.7/src/Thread.cpp:58-71 | after `start` the runner can always take a step, and only its own steps change what remains |
| ThreadGate.RunnerFinishes | v1.7/src/Thread.cpp:58-71 | after at most four of them the function has been called, in every interleaving |
| ThreadGate.NoDeadlock | v1.7/src/Thread.cpp:26-71 | no reachable state is stuck before `join` returns, without counting on spurious wake-ups |

## Left out

- `TcpConnection::shutdown` and `Sockets::shutdownWrite`: the state DISCONNECTING is entered only there.
- Object lifetime: a connection destroyed inside its own dispatch. EPOLLHUP and EPOLLIN in one dispatch may close
  twice: `HandleEvents` then takes the machine's steps but promises no state of the map and the mask.
- Cancelling a timer of the batch being handled: the queue then uses a deleted timer. The steps exclude it.
- Builds without assertions: there a timer due at exactly curr + 1 ns fires one nanosecond early.
- The clock between `now()` in `durationFromNow` and `timerfd_settime` stands still, and one monotone clock
  serves both CLOCK_MONOTONIC and system_clock.
- The spill array `extrabuf` and the vector are separate; pointers into the buffer handed to users are not modelled.
- The vector is a sequence field and element writes replace it: its storage and iterators are not modelled.
- Close callbacks are requests to the caller: `HandleRead` and `HandleClose` return where the source calls
  `closeCallback_` last, and `TcpServer` makes the call. User code that a callback runs on other connections is
  covered by the runs of `Reactor`, not inside the class methods.
- The connection callback makes no calls inside the class methods; calls it would make follow as steps of their own.
- `newConnection` runs the UP callback before it inserts into the map; in `Reactor` the sends of that callback
  follow the insertion. They touch neither the map nor the name.
- A system-wide invariant over the objects: it is proved of the machine in `Reactor`, the classes are proved for
  their own connection and for all channels of their poller.
- Reuse of client descriptors: the library never closes one, so `accept` never repeats one.
- Runs of `Reactor` leave out what `Orderly` excludes: of sends to a connection that has closed, those with
  something left over. `SendOnClosedRegisters` says what one does.
- `abort()` in `handleWrite` ends a run: runs have only writes that take something, and
  `HandleWrite` says exactly when the abort comes.
- Initial buffer sizes below 8: the unsigned writable size wraps at once, and no later call is sound.
- Thread as a class: its members are steps of two threads, so they are steps of the machine in `ThreadGate`.
- `EventLoop::updateChannel` and `removeChannel` only forward; channels call the poller directly.
- Thread construction order, `detach`, `started()`, a second `start`, and threads other than the two of the gate.
- Integer widths: sizes, indices, ids and timestamps are unbounded.
- `firstExpiredTimer`, whose only call is commented out, `Address`, `Sockets`, the other system calls and all printing.
- Versions 1.0 to 1.6, which are earlier forms of the same code.
