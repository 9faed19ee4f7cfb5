# Pedronet, verified in Dafny

A model of the parts of the pedronet reactor library whose behaviour is decided
by their own code and not by the kernel: the two timer queues and the timerfd
they share, the three cross-thread event queues, the output side of a TCP
connection, the index arithmetic of the event loop group and the slot array of
the poll selector.  `dafny verify dfyconfig.toml` checks everything.

| file | what it models |
|---|---|
| WheelSpec, WheelSweep, WheelOrder, WheelTermination, WheelRuns, WheelTimers | the hashed timing wheel: state and operations, one sweep step by step, the order within it, when it ends, whole runs, what becomes of a single timer |
| TimerHashWheel | the wheel as an object with the nested loops of the source |
| HeapSpec, HeapRuns, HeapTimers, TimerHeapQueue | the heap queue and its Process with the lock dropped around callbacks: one Process step by step, whole runs, what becomes of a single timer, and as an object |
| TimerChannel | WakeUpAfter and HandleEvents of the timer channel, and what re-arming costs |
| TimerArming | the timerfd, the channel and a timer queue under any interleaving of threads, with deadlines |
| LockFreeQueue, EventLockFreeQueue | the lock-free event queue under any interleaving, and as an object |
| LockedQueues, EventQueues | the blocking and the double-buffer event queue, likewise |
| TcpSpec, TcpConnection | the output side of a connection as a state machine, and as objects |
| EventLoopGroup | timer ids of a group of loops, and their round robin |
| Poller | compaction, partition and locators of the poll selector |
| Division, Options | shared helpers |

Clocks are inputs.  Timer callbacks are lists of what they add and cancel, given
by an arbitrary function of how many callbacks of the sweep or Process have run;
statements about a sweep or a Process hold for every such function, unless they
name a condition on it.  Threads are program counters, and a statement about a
run holds for every interleaving of their atomic accesses; `TimerChannelSpec` is
about requests to the timer channel that come one after another.
Sockets, poll, eventfd and timerfd are reduced to their effect: how many bytes
a write took, which slots have something to report, a counter, a timer that is
off, armed or expired.  The lock-free queue rests on the contract of the
concurrent queue inside it: order per producer, at most 32 elements a batch,
and an empty batch only if the queue was empty at some moment of the call.

Some history is kept in the states beside what the source keeps (the deadline
of each filed timer, instants asked of the channel, bytes accepted and written,
callbacks started); it is named as such where it is declared.

## What turned out not to hold

Each has a concrete run, and the exact condition under which the code is right.

- A sweep of the wheel need not end.  A repeating timer that it pops is filed
  again before the sweep is over; if the new place is still to be visited with
  its round reached, it is popped there again and again.  With the default
  options a 500 ms timer and a loop that was busy for a minute are enough
  (`StalledLoopNeverReturns`).  If callbacks file only a limited number of
  timers into the way of the sweep, and none that goes back into it, the sweep
  ends if and only if callbacks cancel every timer that refills it (`EndsIff`).
  If every callback files one more timer into the bucket visited last, and
  nobody cancels those timers, it never ends either (`FeedingDiverges`).  Within one revolution, and with intervals and added
  delays of a tick or more, it always ends (`OneRevolutionEnds`).
- A sweep that crosses into a new revolution starts timers early, up to the end
  of that revolution (`FiresAMinuteEarly`); exactly which, `StartsEarlyIff` says.
- A timer whose deadline lies in a tick already swept can be passed over
  (`PastDeadlineIsMissed`); a sweep starts it exactly if it comes by its bucket
  (`PastDeadlineIff`).
- Shutdown is documented to wait until the data is written.  It does, unless
  OnWriteComplete leaves bytes buffered and a Shutdown comes before the test
  that follows it (`SendThenShutdownIsCutOff`, `CutOffIff`).
- A first send that the socket refuses is meant to be buffered when it would
  only block.  The error is taken from SO_ERROR (src/socket.cc:99-107) and not
  from the failed call; a write that would block leaves SO_ERROR at zero, and
  no error means that the connection is closed by force (`RefusalDrops`).  The
  connection survives exactly if SO_ERROR has an error to tell (`RefusedSend`).
- A re-arm is judged by durations, so that one that is taken up can put off an
  earlier deadline (`ReArmCanPostpone`).  It does exactly when more time has
  passed since the timer was last set than the new duration is shorter, for
  requests one after another (`PostponesIff`) and for each single
  timerfd_settime in any interleaving (`SetTimerPostponesIff`); for requests one
  after another the total is bounded (`ReArmsAreBounded`).
- WakeUpAfter records a duration and sets the timer in two steps.  Where callers
  may overtake each other, as those of the wheel may, the timer can end up set
  for an earlier, longer request than the one recorded: a millisecond is served
  after ten seconds, and requests in between are skipped (`OvertakenIsLate`).
  At rest the timer is set as recorded exactly when the last call to set it was
  the last to record, or is left over from before the last firing and happens to
  set the same (`SetAsRecordedIff`).  Callers that take turns, as those of the
  heap queue do under its lock, are always served in time (`SerialIsServed`).
- Round robin is even up to the wrap of the counter, and across it exactly when
  the number of loops divides 2^64 (`AlwaysFairIff`); for any other number
  `UnfairAcrossWrap` has the calls.
- The partition in `Poller::Wait` can leave locators wrong (`WaitCanMislead`).
  It does exactly when an idle slot precedes one with something to report
  (`PartitionKeepsLocatorsIff`), and then some Update hits the wrong descriptor
  (`UpdatesAreRightIff`).

## Model

| member | source | states |
|---|---|---|
| WheelSpec.Pop | include/pedronet/queue/timer_hash_wheel.h:34-51 | the earliest round of a bucket is handed out whole, and only if it is not after the asked one; nothing otherwise |
| WheelSpec.FileKeeps | include/pedronet/queue/timer_hash_wheel.h:29-32 | filing an id keeps every id in exactly the list of its deadline's tick, once |
| WheelSweep.ZoneCoversDue | include/pedronet/queue/timer_hash_wheel.h:157-173 | in each of the three shapes the visited buckets cover every tick from the last sweep to now |
| WheelSweep.ZoneAhead | include/pedronet/queue/timer_hash_wheel.h:76-89 | which ticks ahead of the clock are within a sweep's reach: exactly the later visited buckets of the current revolution, when the sweep crossed into it |
| WheelSweep.SweepIsExact | include/pedronet/queue/timer_hash_wheel.h:76-104 | a finished sweep started exactly the reached timers, less those an earlier callback of the sweep cancelled, and none after its cancellation; which timers are live afterwards, and where |
| WheelSweep.StartsOnlyReached | include/pedronet/queue/timer_hash_wheel.h:84-100 | at every moment of a sweep, only live timers within its reach have been started |
| WheelSweep.DueTimersFire | include/pedronet/queue/timer_hash_wheel.h:157-177 | completeness: every timer due by now is started unless a callback of the sweep cancels it, in any of the three shapes |
| WheelSweep.EarlyOnlyAcrossRevolutions | include/pedronet/queue/timer_hash_wheel.h:76-104 | an early start implies a new revolution, and is less than the rest of that revolution early |
| WheelSweep.AgreesWithDeadlines | include/pedronet/queue/timer_hash_wheel.h:157-170 | within one revolution the wheel behaves as a plain map from ids to deadlines: what is due to the tick is started unless cancelled, and nothing starts a full tick early |
| WheelSweep.StartsEarlyIff | include/pedronet/queue/timer_hash_wheel.h:76-104 | exactly which timers a finished sweep started ahead of their tick |
| WheelSweep.ProcessKeeps | include/pedronet/queue/timer_hash_wheel.h:157-177 | Process keeps the representation and leaves nothing behind the tick of its next sweep |
| WheelOrder.StartsInTickOrder | include/pedronet/queue/timer_hash_wheel.h:162-170 | less than a revolution after the last sweep, also across the end of the array: whenever a due timer is started, those of earlier ticks have been started or cancelled before |
| WheelTermination.RefillsDiverge | include/pedronet/queue/timer_hash_wheel.h:84-100 | a timer that refills the sweep and is never cancelled keeps it from ending, whatever else callbacks do |
| WheelTermination.EndsIff | include/pedronet/queue/timer_hash_wheel.h:76-104 | for callbacks that cancel at will and file a limited number of timers into the sweep's way, none of which goes back there: the sweep ends if and only if every timer that refills it is cancelled by a callback |
| WheelTermination.FeedingDiverges | include/pedronet/queue/timer_hash_wheel.h:81-103 | a sweep that reaches a live timer, and whose every callback files one more into the bucket visited last, with its round reached and never cancelled, does not end, whatever else callbacks add and cancel |
| WheelTermination.EndsInTime | include/pedronet/queue/timer_hash_wheel.h:81-103 | from any moment on at which nobody refills the sweep and nothing more is filed into its way, it ends within a bound read off the wheel, and starts no timer twice |
| WheelTermination.OneRevolutionEnds | include/pedronet/queue/timer_hash_wheel.h:81-103 | within one revolution, with intervals and added delays of a tick or more, the sweep ends and starts each timer at most once |
| WheelTermination.StalledLoopNeverReturns | include/pedronet/queue/timer_hash_wheel.h:112-115 | default options, a 500 ms timer, a minute's stall: the sweep does not end |
| WheelTermination.FiresAMinuteEarly | include/pedronet/queue/timer_hash_wheel.h:112-115 | default options: the next sweep ends, having started a timer with 59.9 s to go |
| WheelRuns.RunsStayValid | include/pedronet/queue/timer_hash_wheel.h:131-177 | over every legal sequence of Add, Cancel and Process the representation holds and nothing is overdue |
| WheelRuns.FiledOnce | include/pedronet/queue/timer_hash_wheel.h:131-150 | a live id is in bucket i under round r exactly when i + n r is the tick of its deadline, and once |
| WheelRuns.AddKeepsNoneOverdue | include/pedronet/queue/timer_hash_wheel.h:134-146 | an Add keeps the next sweep complete exactly when its deadline is not in a tick already left behind |
| WheelRuns.DeadStaysQuiet | include/pedronet/queue/timer_hash_wheel.h:85-89 | once cancelled, also from a callback of the same sweep, a timer is not started again in it |
| WheelRuns.CancelledNeverStarts | include/pedronet/queue/timer_hash_wheel.h:152-155 | a cancelled timer is not started by anything that follows |
| WheelRuns.LiveIsStarted | include/pedronet/queue/timer_hash_wheel.h:131-177 | over every legal run, a timer that nobody cancels is started by the first Process at its deadline or later, if not before |
| WheelRuns.AskedInstantSuffices | include/pedronet/queue/timer_hash_wheel.h:106-109 | the instant Add asks of the channel is in the tick of the deadline, and a Process at or after it starts the timer unless one of its callbacks cancels it |
| WheelRuns.PastDeadlineIff | include/pedronet/queue/timer_hash_wheel.h:131-173 | a timer added with a deadline in a tick already left behind is started by the next sweep exactly if that sweep passes its bucket, as one of a full revolution does |
| WheelRuns.PastDeadlineIsMissed | include/pedronet/queue/timer_hash_wheel.h:162-167 | an instance with default options: a sweep 0.1 s later does not reach such a timer |
| WheelTimers.AddedTimer | include/pedronet/queue/timer_hash_wheel.h:91-150 | from Add(due, interval), over every legal run: every Process leaves the timer filed for `due` until one starts it, at `due` at the latest; that one leaves it live exactly if the interval is positive, and filed one such interval later |
| WheelTimers.CallbackTimer | include/pedronet/queue/timer_hash_wheel.h:91-150 | the same for a timer that a callback of a sweep adds |
| WheelTimers.CancelEndsIt | include/pedronet/queue/timer_hash_wheel.h:152-155 | after a Cancel nothing that follows starts the timer, and the other timers stay live as they were |
| WheelTimers.NextSweep | include/pedronet/queue/timer_hash_wheel.h:157-177 | by the instants of two Processes with Adds and Cancels between: within one revolution the second starts exactly what is due to the tick and uncancelled, nothing a full tick early; an early start needs a revolution between them |
| WheelTimers.FirstSweep | include/pedronet/queue/timer_hash_wheel.h:117-128 | the same for the first Process of a wheel, by the instant it was made |
| WheelTimers.ProcessAsks | include/pedronet/queue/timer_hash_wheel.h:175-176 | Process ends by asking for the start of a tick, after its own instant and at most a tick after |
| TimerHashWheel.TimerHashWheel.constructor | include/pedronet/queue/timer_hash_wheel.h:117-128 | an empty wheel, last swept at the instant it is made, which it asks of the channel |
| TimerHashWheel.TimerHashWheel.Add | include/pedronet/queue/timer_hash_wheel.h:131-150 | the object's whole new state after Add |
| TimerHashWheel.TimerHashWheel.Cancel | include/pedronet/queue/timer_hash_wheel.h:152-155 | the object's whole new state after Cancel |
| TimerHashWheel.TimerHashWheel.ProcessBuckets | include/pedronet/queue/timer_hash_wheel.h:76-104 | the nested loops are a run of the sweep over the given buckets, finished or out of budget |
| TimerHashWheel.TimerHashWheel.Process | include/pedronet/queue/timer_hash_wheel.h:157-177 | Process is a finished sweep over the planned buckets, or the sweep is not over after the budgeted steps |
| HeapRuns.OneItemEach | src/queue/timer_heap_queue.cc:12-22 | after every legal run of Add, Cancel and Process a live id has exactly one heap item, and a cancelled one at most one |
| HeapRuns.CancelledNeverStarts | src/queue/timer_heap_queue.cc:19-35 | over every run, a cancelled timer is not started by anything that follows, though its heap item may still be there |
| HeapRuns.DeadStaysQuiet | src/queue/timer_heap_queue.cc:32-46 | once cancelled, also from a callback of the same Process, a timer is not started again in it |
| HeapRuns.LiveIsStarted | src/queue/timer_heap_queue.cc:24-52 | over every legal run, a timer that nobody cancels is started by the first Process at its deadline or later |
| HeapTimers.AddedTimer | src/queue/timer_heap_queue.cc:6-46 | from Add(due, interval), over every legal run: not started before `due`; the first Process at `due` or later starts it and leaves it live exactly if the interval is positive, and then due one such interval after its callback |
| HeapTimers.CallbackTimer | src/queue/timer_heap_queue.cc:6-46 | the same for a timer added while a callback runs, started in this very Process if it is due at once |
| HeapTimers.CancelEndsIt | src/queue/timer_heap_queue.cc:19-22 | after a Cancel nothing that follows starts the timer, and the other timers stay live as they were |
| HeapSpec.ProcessIsExact | src/queue/timer_heap_queue.cc:24-52 | a finished Process started exactly the timers that were due, less those cancelled before their turn; which timers are live afterwards, and that a repeating one is due one interval after its callback |
| HeapSpec.StartsOnlyDue | src/queue/timer_heap_queue.cc:27-39 | at every moment of a Process: never early, only live timers, nobody twice, and in order of deadline |
| HeapSpec.EndsInTime | src/queue/timer_heap_queue.cc:28-46 | with positive delays, a Process takes at most as many items as were due when it began, whatever callbacks and other threads do |
| HeapSpec.FeedingDiverges | src/queue/timer_heap_queue.cc:28-46 | with a live timer due, a Process during whose every callback a timer is added that is due at once and never cancelled is never finished, whatever else is added and cancelled |
| HeapSpec.TurnEffect | src/queue/timer_heap_queue.cc:28-46 | what one turn does to any id, among it that a repeating timer cancelled in its own callback stays cancelled |
| TimerHeapQueue.TimerHeapQueue.Add | src/queue/timer_heap_queue.cc:6-17 | the object's whole new state after Add, with the instant asked of the channel |
| TimerHeapQueue.TimerHeapQueue.Process | src/queue/timer_heap_queue.cc:24-52 | terminates for every callback function whose delays are positive from some callback on; is a finished run of the loop; the earliest deadline left is asked for |
| TimerChannelSpec.SkipsIff | src/channel/timer_channel.cc:38-41 | for every recorded value, sentinels and overflow included, a request is taken up exactly if it is shorter by 100 us or more |
| TimerChannelSpec.Sentinels | src/channel/timer_channel.cc:17-23 | no request is taken up during the window of HandleEvents; after it, all but those within 100 us of the largest integer |
| TimerChannelSpec.ToTimespec | src/channel/timer_channel.cc:47-48 | the timespec is the duration, in range, and never the zero that disarms |
| TimerChannelSpec.RequestIs | src/channel/timer_channel.cc:30-53 | a request is for at least 100 us, is taken up exactly if that is shorter than what is recorded by 100 us or more, and then sets the timer for exactly that |
| TimerChannelSpec.ReArmsAreBounded | src/channel/timer_channel.cc:30-53 | for requests one after another, between firings: durations shrink by 100 us, at most d0/100 arms, expiry bounded by their sum |
| TimerChannelSpec.EveryRequestIsServed | src/channel/timer_channel.cc:37-45 | for requests one after another: each, taken up or skipped, leaves the timer due less than 100 us after the instant asked for, or less than 200 us after the request if that was shorter than 100 us or in the past |
| TimerChannelSpec.PostponesIff | src/channel/timer_channel.cc:30-53 | for requests one after another: one that is taken up puts off the last arm's deadline exactly when more time has passed since then than the new duration is shorter |
| TimerChannelSpec.ReArmCanPostpone | src/channel/timer_channel.cc:39 | an instance |
| TimerChannel.TimerChannel.WakeUpAfter | src/channel/timer_channel.cc:30-53 | with other threads storing in between, the decision is right for the value the exchange replaced |
| TimerChannel.TimerChannel.HandleEvents | src/channel/timer_channel.cc:17-28 | the two sentinels in their order, and a channel that looks at the next request afresh |
| TimerArming.PendingIsNeverForgotten | src/queue/timer_heap_queue.cc:12-16 | in every interleaving a pending timer has the timerfd armed or expired, or an arming call under way, or a Process still to look |
| TimerArming.RestingMeansArmed | src/channel/timer_channel.cc:17-31 | with all calls returned and the loop in the selector, a pending timer means the timerfd will wake it |
| TimerArming.ArmsShrink | src/channel/timer_channel.cc:37-45 | in every interleaving, between two windows of HandleEvents the recorded durations shrink by 100 us each, so that there are at most d0/100 of them |
| TimerArming.SetAsRecordedIff | src/channel/timer_channel.cc:42-50 | in every interleaving, at rest with a duration recorded: exactly when the timerfd is set for it, and by how much it is late otherwise |
| TimerArming.SetTimerPostponesIff | src/channel/timer_channel.cc:47-50 | in every interleaving, exactly when a timerfd_settime puts off a deadline |
| TimerArming.SerialIsServed | src/queue/timer_heap_queue.cc:12-16 | where callers take turns but HandleEvents may come at any point: when a call returns, the timer is due less than 100 us past what was asked, or a Process is still to look |
| TimerArming.OvertakenIsLate | include/pedronet/queue/timer_hash_wheel.h:147-149 | an instance without turns: a millisecond served after ten seconds |
| TimerArming.ArmingFinishes | src/channel/timer_channel.cc:37-53 | an undisturbed WakeUpAfter, wherever it stands, has at most four accesses to go, can always make the next, and ends armed or rightly skipped |
| LockFreeQueue.ReachableIsFine | include/pedronet/queue/event_lock_free_queue.h:19-42 | in every interleaving of any number of producers: the counter is the balance modulo 2^64, no wake-up is lost, order per producer |
| LockFreeQueue.NoLostWakeUp | include/pedronet/queue/event_lock_free_queue.h:25-27 | producers through, queue not empty, consumer in the selector: its eventfd is readable |
| LockFreeQueue.EveryCallbackRuns | include/pedronet/queue/event_lock_free_queue.h:30-42 | the consumer comes to rest in bounded steps, and then every callback has run once, in its producer's order |
| LockFreeQueue.CounterCanUnderflow | include/pedronet/queue/event_lock_free_queue.h:25-37 | the counter does pass below zero |
| EventLockFreeQueue.EventLockFreeQueue.Add | include/pedronet/queue/event_lock_free_queue.h:19-28 | the object's new state, reached by steps of the relation |
| EventLockFreeQueue.EventLockFreeQueue.Process | include/pedronet/queue/event_lock_free_queue.h:30-42 | drains the queue in batches whatever the dequeues hand out, each producer's callbacks in order |
| EventLockFreeQueue.EventLockFreeQueue.HandleEvents | src/channel/event_channel.cc:17-26 | the eventfd is drained, then the queue |
| LockedQueues.ReachableIsFine | include/pedronet/queue/event_double_buffer_queue.h:15-36 | for both queues in every interleaving: run ++ in hand ++ pending is what was added, in lock order, and no pending callback is forgotten |
| LockedQueues.RefinesFifo | include/pedronet/queue/event_blocking_queue.h:16-45 | every step of either queue is a step of one first-in-first-out executor |
| LockedQueues.EveryCallbackRuns | include/pedronet/queue/event_blocking_queue.h:30-45 | the consumer comes to rest in bounded steps, and then everything added has run, once and in order |
| EventDoubleBufferQueue.EventDoubleBufferQueue.Process | include/pedronet/queue/event_double_buffer_queue.h:26-36 | exactly what was pending runs; exactly what those callbacks add, in order, waits, with the eventfd written |
| EventBlockingQueue.EventBlockingQueue.Process | include/pedronet/queue/event_blocking_queue.h:40-45 | everything runs, also exactly what the callbacks that ran have added, for a finite list of adding callbacks |
| TcpSpec.OutputIsConserved | src/tcp_connection.cc:58-142 | in every run wire ++ buffered ++ in hand is what was accepted, in order |
| TcpSpec.WriteInterestIsExact | src/tcp_connection.cc:73-140 | while alive, registered, and the selector waits for writing exactly if bytes are buffered |
| TcpSpec.ReadsWhileAlive | src/tcp_connection.cc:18-28 | in every run, alive and past OnConnect, the selector waits for reading |
| TcpSpec.SendIs | src/tcp_connection.cc:114-142 | a send while connected: what the socket takes is on the wire, the rest buffered and waited for; nothing is written past buffered bytes |
| TcpSpec.RefusedUnlessConnected | src/tcp_connection.cc:83-210 | a connection that is not connected changes nothing on a send, Shutdown or Close; a disconnected one on nothing that would end it |
| TcpSpec.WriteIs | src/tcp_connection.cc:58-75 | a writable event: what the socket takes is on the wire, OnWriteComplete exactly after the rest; none without write interest |
| TcpSpec.FailedWriteDropsIff | src/tcp_connection.cc:64-70 | a failed write drops the connection exactly if GetError has no error, and changes nothing otherwise |
| TcpSpec.ShutdownDrains | src/tcp_connection.cc:73-171 | the write end is shut only with nothing left and everything on the wire, and nothing is written after, with Shutdown from any thread at any point |
| TcpSpec.ShutdownIsPursued | src/tcp_connection.cc:157-171 | at rest after Shutdown, the write end is shut or the selector waits to send the rest |
| TcpSpec.ShutdownCompletes | src/tcp_connection.cc:58-81 | from there, as many writes as bytes are buffered, each with room for something, put every accepted byte on the wire and shut the write end |
| TcpSpec.WriteProgress | src/tcp_connection.cc:64-80 | each such write shortens what is buffered by what it sends, and the last one shuts the write end |
| TcpSpec.CutOffIff | src/tcp_connection.cc:76-79 | without ForceShutdown, bytes are cut off by the test after OnWriteComplete and exactly if the handler left some |
| TcpSpec.SendThenShutdownIsCutOff | src/tcp_connection.cc:76-79 | a handler that sends two bytes, of which one is taken, and then shuts down loses the other |
| TcpSpec.RefusedSend | src/tcp_connection.cc:121-141 | a refused send is buffered whole and waited for, unless GetError has no error: exactly then the connection is dropped |
| TcpSpec.RefusalDrops | src/tcp_connection.cc:121-128 | an instance: a first send that would block, with no error pending |
| TcpSpec.EndedIsRemoved | src/tcp_connection.cc:144-210 | in every run without Close: a connection that has ended, with no task left, is out of the selector |
| TcpSpec.EndedIsFinal | src/tcp_connection.cc:144-210 | once disconnected, always |
| TcpSpec.HandleCloseEnds | src/tcp_connection.cc:187-197 | the peer goes away: disconnected and removed, bytes or not |
| TcpSpec.ForceCloseEnds | src/tcp_connection.cc:144-155 | ForceClose: the same, with its task |
| TcpSpec.CloseEndsIff | src/tcp_connection.cc:83-96 | Close removes the connection exactly if nothing is buffered |
| TcpSpec.ForceShutdownCuts | src/tcp_connection.cc:173-185 | ForceShutdown shuts the write end at once, cutting off what is buffered; reading goes on |
| TcpConnection.SocketChannel.SetWritable | src/channel/socket_channel.cc:7-17 | the selector is told only of changes, and has the effect all the same |
| TcpConnection.TcpConnection.Start | src/tcp_connection.cc:18-28 | the first Start leaves the connection connected and registered with interest in reading only; one of a registered connection does nothing |
| TcpConnection.TcpConnection.HandleSend | src/tcp_connection.cc:114-142 | handleSend is the two events of the state machine |
| TcpConnection.TcpConnection.HandleWrite | src/tcp_connection.cc:58-81 | handleWrite is the flush, then whatever OnWriteComplete calls, then the test after it |
| TcpConnection.TcpConnection.Shutdown | src/tcp_connection.cc:157-171 | Shutdown on the loop's thread is the state change and the task |
| GroupArithmetic.DecodeIffNoOverflow | src/eventloopgroup.cc:13-31 | decoding undoes encoding exactly if the product fits into 64 bits |
| GroupArithmetic.EncodeDecode | src/eventloopgroup.cc:27-31 | encoding undoes decoding for every id |
| GroupArithmetic.FairBeforeWrap | src/eventloopgroup.cc:5-7 | before the wrap every loop gets its share of consecutive calls, rounded |
| GroupArithmetic.AlwaysFairIff | src/eventloopgroup.cc:5-7 | for all counter values this holds exactly if the number of loops divides 2^64 |
| GroupArithmetic.SchedulesAreFair | src/eventloopgroup.cc:5-25 | any number of consecutive calls before the wrap give every loop its share of new timers, rounded |
| EventLoopGroup.EventLoopGroup.Schedule | src/eventloopgroup.cc:13-25 | a timer on the loop whose turn it is, with an id that no timer ever had before; no other timer affected, and the turn passes on |
| EventLoopGroup.EventLoopGroup.ScheduleCancel | src/eventloopgroup.cc:27-31 | exactly the named timer is cancelled, on any loop |
| PollerSpec.KeptInOrder | include/pedronet/selector/poller.h:22-33 | the kept slots are the registered ones, all of them, in their old relative order |
| PollerSpec.PrefixIsActive | include/pedronet/selector/poller.h:81-83 | any partition puts in front each slot with something to report, as often as it is there, and their number is what poll returned |
| PollerSpec.PartitionKeepsLocatorsIff | include/pedronet/selector/poller.h:82-83 | with one registered slot per descriptor and right locators: some partition keeps the locators right exactly if no idle slot precedes a ready one, and then only by moving nothing |
| PollerSpec.UpdatesAreRightIff | include/pedronet/selector/poller.h:57-83 | after a partition, all Updates leave the slots of other descriptors alone exactly if no slot has moved; when an idle slot preceded a ready one, some has |
| PollerSpec.WaitCanMislead | include/pedronet/selector/poller.h:82-83 | a partition can make a right locator wrong |
| Poller.Poller.CleanUp | include/pedronet/selector/poller.h:22-33 | in-place compaction, and right locators for every registered descriptor that had a slot |
| Poller.Poller.Update | include/pedronet/selector/poller.h:57-63 | the slot that the locator names gets the events and keeps the rest; with right locators, no other descriptor's slot changes |
| Poller.Poller.Wait | include/pedronet/selector/poller.h:69-86 | the first `ready` slots are exactly those with something to report, and locators come out right exactly if no idle slot preceded a ready one |
| Poller.Poller.Get | include/pedronet/selector/poller.h:90-97 | the channel of a slot, or nobody if it was removed meanwhile |

## Left out

- TimerHashWheel.TimerHashWheel.Add: deadlines before the epoch and overflow of 64-bit timestamps are not modelled.
- TimerHashWheel.TimerHashWheel.Process: takes a budget of popped lists, because the loop of the source need not end; everything about unbounded sweeps is stated on the step relation.
- WheelSweep.DueTimersFire: an Add of another thread takes effect between two callbacks of a sweep, not in the middle of filing, and reads the clock when it takes effect.
- TimerHeapQueue.TimerHeapQueue.Process: what other threads do while the lock is free is part of what happens during the callback that runs meanwhile.  The method is for callbacks whose delays are positive from some callback on, because otherwise the loop of the source need not end (`HeapSpec.FeedingDiverges`); what any prefix of the loop has done is stated without that.
- EventBlockingQueue.EventBlockingQueue.Process: is for a finite list of adding callbacks; with callbacks that keep adding, the loop of the source runs forever, and `LockedQueues` says what it has run at every moment.
- WheelTermination.EndsIff: callbacks that file an unlimited number of timers into the sweep's way are covered by `FeedingDiverges` if every one files into the bucket visited last a timer that is never cancelled, and not otherwise.
- TimerArming.PendingIsNeverForgotten: durations within 100 us of the largest 64-bit integer are excluded, since they are never taken up.
- LockFreeQueue.ReachableIsFine: memory accesses are sequentially consistent, and the inside of the concurrent queue is its contract.
- TcpSpec.OutputIsConserved: ForceClose, ForceShutdown and handleClose test `state_` and store to it in two accesses (src/tcp_connection.cc:144-148, 173-177, 187-192); here each is one event.
- TcpSpec.ShutdownDrains: handlers of OnError and OnConnect that call back into the connection in the middle of a send are not modelled, nor are direct writes to the output buffer.
- Poller.Poller.Wait: the partition is the usual one from both ends, which moves nothing when nothing is out of place; the standard only promises some partition, and what holds for any is stated in `PollerSpec`.  Registering a descriptor again before a compaction is not covered.
- The input side of a connection, its local and peer addresses and its close latch.
- The event loop's own start, close and join, and the clients and servers built on it.
- The epoll selector beyond registration and interest, which the connection model shares with it.
- The order among equal deadlines in the priority queue, which stays open.
