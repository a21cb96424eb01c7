# Proofs about the water network library

`water` is a C++ network library built around an event loop. This project models the parts of it where
a mistake would be hardest to see, and proves what they keep over every run.

- **EventLoopQueue.dfy**: any number of threads hand closures to an event loop through a vector under a
  mutex and an eventfd. A state machine; every action is one critical section, one system call, or one
  assignment to a flag of the loop thread. All theorems quantify over all interleavings.
- **TimerQueue.dfy**: mutable timers held by reference in a priority queue, and one kernel timer. The
  clock may show anything at all, also earlier times than before. A timer callback may add any timers.
- **MsgBuffer.dfy**, **MsgBufferRuns.dfy**: the buffer of a connection, an array with two indices, proved
  to be a plain sequence of bytes through compaction, right shift and growth; the cost of growth.
- **WireIntegers.dfy**: integers in host memory of either byte order and on the wire, where the most
  significant byte comes first (Appendix B of RFC 791).
- **TcpConnection.dfy**: the output path of a connection and its half-close.
- **Channel.dfy**: channels, and on values what any operations, callbacks and rounds of the loop come to
  and when they abort the program.
- **Reactor.dfy**: the poller that caches epoll's interest set, and dispatch, where callbacks may change or
  remove channels; both proved to do what Channel.dfy says.
- **AsyncFileLogger.dfy**: the asynchronous log with its recycled buffers. A state machine, like the first.
- **SerialTaskQueue.dfy**: one worker and a synchronous barrier. A state machine, like the first.
- **Numerals.dfy**, **LogStream.dfy**: printing integers and pointers into a buffer of fixed size.
- **Common.dfy**: an option type, and the integer division of C++.

The classes of the source that change in place are classes here, with the same fields. What the kernel
and the clock answer, and what the callbacks do, are parameters, or arbitrary values. Where a part is a
race between threads (EventLoopQueue, AsyncFileLogger, SerialTaskQueue), the state is a value and the
program counters of the threads are part of it, because a method contract cannot speak of steps that
another thread takes in between.

Histories (what was pushed, sent, fired, written, accepted) are ghost fields, or fields of the state that
no step depends on. Sequences of operations whose possibility depends on the state, such as a `readv` that
delivers no more than it may, are run up to the first impossible one. An assertion of the source that fails
aborts the program; whether and where a run aborts is part of what is proved about it.

## Where the code does not do what one may expect

Each of these is a theorem, with the exact condition.

- A `MsgBuffer` loses its shape at `RetrieveAll` exactly if `init_cap_` is below 8 then, that is, if it was
  made so small and has not grown since (`MsgBuffers.MsgBuffer.RetrieveAll`,
  `MsgBufferRuns.SmallBufferBreaks`).
- `hton64` gives network order on a little-endian host. On a big-endian one it swaps the halves
  (`WireIntegers.Wire64IsNetworkOrderIff`). `ntoh64` undoes it on both.
- A timer that a timer callback adds leaves the kernel timer stale unless it is the new earliest
  (`TimerQueues.TimerQueue.AddTimerInLoop`); the end of `HandleRead` always repairs that.
- A failed `write` discards the whole output buffer (`TcpConnections.TcpConnection.WritePending`), so the
  stream is intact exactly when no write failed (`TcpConnections.TakeAll`).
- The assertions of `ConnectionDestroy` hold only for a connected connection whose callback sends nothing,
  or for a disconnected one that has nothing enabled, and only while its channel does not wait for its turn
  in a dispatch. They always fail while the connection is being set up or waits for its half-close
  (`TcpConnections.TcpConnection.ConnectionDestroy`).
- A connection half-closes a second time exactly if a message is sent behind the first half-close and is
  written before the connection is closed (`TcpConnections.TwoClosesIff`, with a run in
  `TcpConnections.SomeRunClosesTwice`).
- With distinct descriptors only the removal of a channel can fail an assertion
  (`Channels.OnlyRemovalsFail`). A channel that an earlier callback of the same report has removed is called
  all the same (`Channels.LaterCallInMapIff`, with a case in `Channels.RemovedChannelIsCalled`).
- A message longer than a log buffer is dropped without being counted, and no other one is
  (`AsyncFileLogger.EveryMessageIsAccountedFor`).
- The log file is in order exactly as long as the log thread does not take a buffer that was queued after
  its swap while `tmp_buffers_` holds older ones (`AsyncFileLogger.FileInOrderIff`).
- A task that calls `SyncTaskInQueue` on its own queue blocks it for good
  (`SerialTaskQueue.BarrierCanCompleteIff`, with a run in `SerialTaskQueue.WorkerCanBlockItself`).
- Printing a pointer counts two characters too few, so pointers that differ only in their low byte print
  alike (`LogStreams.PointersPrintAlikeIff`).
- A `set_quit` ends the loop at the next test of its condition exactly if the loop thread is in the `while`
  statement when it comes (`EventLoopQueue.QuitIsHonouredIff`). That `looping_` is set is not enough. A quit
  before `Loop` is lost (`EventLoopQueue.EarlyQuitIsLost`), and so is one between `looping_ = true` and
  `quit_ = false` (`EventLoopQueue.QuitOnEntryIsLost`), and one behind the `while` statement
  (`EventLoopQueue.QuitOnExitIsLost`), although the comment at `water/net/event_loop.cc:75-76` says that
  the loop exits at its next test.

## Model

| member | source | states |
|---|---|---|
| EventLoopQueue.StepKeepsInv | water/net/event_loop.cc:80-180 | every atomic step of any thread keeps the invariant: the wake-up condition, the conservation of closures, and where the loop thread may stand inside QueueInLoop |
| EventLoopQueue.NoLostWakeup | water/net/event_loop.cc:118-139 | in every interleaving, if the loop is on its way to epoll_wait and closures wait, the eventfd is readable or some thread is between its push and its write; this covers pushes from event callbacks, from functors and from before Loop |
| EventLoopQueue.BlockedMeansDrained | water/net/event_loop.cc:118-180 | a loop blocked on an eventfd that nobody is about to write has executed everything that was ever queued |
| EventLoopQueue.ExactlyOnceInOrder | water/net/event_loop.cc:118-164 | in every reachable state, what was executed, what is left of the batch and what waits are together the pushes of all threads, each once and in order |
| EventLoopQueue.EachThreadInOrder | water/net/event_loop.cc:118-164 | the closures of one thread are executed in the order in which it queued them |
| EventLoopQueue.BatchIsFixed | water/net/event_loop.cc:153-164 | between two swaps nothing joins the batch, whoever pushes, the running closures included; so each pass over a batch ends |
| EventLoopQueue.SwapTakesAll | water/net/event_loop.cc:153-164 | a swap after a moment takes everything that had been queued by then |
| EventLoopQueue.PassExecutesEarlierPushes | water/net/event_loop.cc:80-102 | when the loop is back at epoll_wait after one swap, all closures queued before that swap have been executed |
| EventLoopQueue.DrainBatchEmptiesBatch | water/net/event_loop.cc:153-164 | closures that queue nothing can always be run to the end of the batch, by the loop thread alone |
| EventLoopQueue.WaitingClosuresCanAllRun | water/net/event_loop.cc:80-180 | a blocked loop with waiting closures and no thread inside QueueInLoop can wake up, and then executes all of them without help |
| EventLoopQueue.LoopBlocksAgain | water/net/event_loop.cc:80-180 | after a pass that executes everything, the eventfd reads zero and epoll_wait does not return for it: the loop blocks again |
| EventLoopQueue.QueuedClosureRuns | water/net/event_loop.cc:80-180 | from end to end: from every reachable state with a blocked loop, a thread queues a closure, and the loop wakes up and executes it behind all others |
| EventLoopQueue.CallbackClosureRunsInPass | water/net/event_loop.cc:118-164 | a closure queued by an event callback is executed in the same pass, without any write to the eventfd |
| EventLoopQueue.OwnClosureWakesLater | water/net/event_loop.cc:118-139 | a closure that the loop thread queues from a functor, or outside Loop, makes the eventfd readable |
| EventLoopQueue.ActionsDecide | water/net/event_loop.cc:118-180 | in every run what is queued is exactly what the calls of QueueInLoop queued, and the eventfd counts exactly the writes since it was last read |
| EventLoopQueue.ExecutedIsWhatWasQueued | water/net/event_loop.cc:118-164 | what is executed in a run is a beginning of the closures given to QueueInLoop in it |
| EventLoopQueue.LoopWakesItselfOnlyIfNeeded | water/net/event_loop.cc:118-139 | in every run the loop thread is about to write to its own eventfd only outside Loop or in a functor |
| EventLoopQueue.OthersAlwaysWake | water/net/event_loop.cc:118-139 | the write comes for every other thread, and for the loop thread exactly while it runs functors or is outside Loop |
| EventLoopQueue.QuitStopsPolling | water/net/event_loop.cc:74-102 | as long as no call of Loop clears a pending quit, the loop is in epoll_wait exactly if it was there when the quit came and has not returned; so it returns at most once more |
| EventLoopQueue.QuitIsHonouredIff | water/net/event_loop.cc:74-102 | a quit asked for in any reachable state, whatever happens until the next test of the loop condition, ends the loop there if and only if the loop thread was in the while statement in that state |
| EventLoopQueue.EarlyQuitIsLost | water/net/event_loop.cc:74-85 | the losing case does occur: from every reachable state in which Loop can be called, a quit just before the call does not keep the loop from polling |
| EventLoopQueue.QuitOnEntryIsLost | water/net/event_loop.cc:80-85 | wherever Loop can be called, a quit between its first two assignments is lost although looping_ is set |
| EventLoopQueue.QuitOnExitIsLost | water/net/event_loop.cc:84-102 | a quit between the end of the while statement and the last assignment of Loop is lost on the next call |
| Dates.PastAfterIsPastSum | water/base/date.cc:8-10 | a whole microsecond past the truncated sum is past the exact real sum, so truncation never fires a timer early |
| Dates.AfterIsWithinOne | water/base/date.cc:8-10 | the result is less than a microsecond from the exact real sum, on the side of the epoch |
| Dates.AfterAddsSeconds | water/base/date.cc:8-10 | whole seconds are added exactly |
| Dates.AfterIsNotBefore | water/base/date.cc:8-10 | adding a non-negative interval never moves a date back, for dates before and after the epoch |
| TimerFd.TimespecIsTheWait | water/net/timer_queue.cc:26-38 | every armed timespec is normalised, not zero, and stands for the larger of 100 microseconds and the time left |
| TimerQueues.EarliestExists | water/net/timer_queue.h:17-21 | a set of timers that is not empty has an earliest one under the order of the queue |
| TimerQueues.TimerQueue.Insert | water/net/timer_queue.cc:98-106 | the result says whether the new timer is earlier than all others, and the earliest time afterwards follows from it |
| TimerQueues.TimerQueue.AddTimerInLoop | water/net/timer_queue.cc:89-96 | afterwards the kernel timer stands for the earliest timer if and only if it did before or the new timer is earlier |
| TimerQueues.TimerQueue.GetExpired | water/net/timer_queue.cc:127-138 | takes out exactly the timers that are due strictly before now, in the order of their times, and leaves exactly the others |
| TimerQueues.TimerQueue.RunExpired | water/net/timer_queue.cc:108-125 | each expired timer fires once, in order, and the timers that all callbacks ask for are in the queue afterwards, distinct and new |
| TimerQueues.TimerQueue.Reset | water/net/timer_queue.cc:140-153 | exactly the repeating ones go back, one interval after now; nothing in the queue changes its time; the kernel timer stands for the earliest again |
| TimerQueues.TimerQueue.HandleRead | water/net/timer_queue.cc:108-125 | whatever the callbacks add: the due timers and no others fire, once each and in order; the queue is the timers not due, those added and the repeating ones; no timer that stays in the queue changes its time; the kernel timer stands for the earliest |
| TimerQueues.DueBatchIsSound | water/net/timer_queue.cc:108-125 | firing one batch of timers that are due keeps the history of firings sound |
| TimerQueues.RestartedIsReady | water/net/timer.cc:10-16 | the next firing of a restarted timer will again be more than an interval after its last one |
| TimerQueues.SoundHistoryMeans | water/net/timer_queue.cc:108-153 | in a sound history nothing fires before the time it was asked for, only repeating timers fire twice, and any two firings of one timer are more than its interval apart |
| TimerQueues.HandledStaysSound | water/net/timer_queue.cc:108-153 | one HandleRead, with any clock reading, keeps the history sound and every timer in the queue ready |
| TimerQueues.HandledMatches | water/net/timer_queue.cc:108-153 | what HandleRead promises amounts to the effect of a timer event: exactly the due timers fire, in order; exactly the due repeating ones come back; all others keep their times |
| TimerQueues.RequestsOfEachCallback | water/net/timer_queue.cc:108-125 | the requests of each callback are among those of all callbacks, in their place |
| TimerQueues.EveryRequestHasItsTimer | water/net/timer_queue.cc:81-125 | every request of every callback of a timer event has a timer of its own in the queue afterwards, due when asked |
| TimerQueues.SoundIsOnSchedule | water/net/timer.cc:10-16 | timers that are ready in a sound history are due at the exact time, neither earlier nor later |
| TimerQueues.Happen | water/net/timer_queue.cc:81-153 | every addition and every timer event has exactly its effect on the timers and their times, and leaves the kernel timer at the earliest |
| TimerQueues.Drive | water/net/timer_queue.cc:62-153 | over every sequence of additions and timer events, with any clock readings: each event has exactly its effect on what the one before it left; the history of firings is the concatenation of theirs; the kernel timer covers the queue; none fires early; one-shot timers fire at most once; repeating ones keep their interval; and every timer in the queue waits for the time it was asked for, or, to less than a microsecond and no later, one interval after its last firing |
| WireIntegers.ValueOfBytes | water/base/msg_buffer.cc:154-166 | reading the network-order bytes of a number gives the number, when it fits |
| WireIntegers.BytesOfValue | water/base/msg_buffer.cc:210-223 | bytes in network order are those of their number; with the row above, a bijection |
| WireIntegers.NetworkByteAt | water/base/msg_buffer.cc:210-223 | the byte in place i from the right is digit i of the number to the base 256: most significant byte first |
| WireIntegers.NetworkValueIsPlaceSum | water/base/msg_buffer.cc:154-166 | the number read is the sum of the bytes, each times the power of 256 for its place |
| WireIntegers.StoredByteAt | water/base/funcs.h:9-15 | in host memory the least significant byte comes first exactly on a little-endian host |
| WireIntegers.SwapTwice | water/base/msg_buffer.cc:154-164 | the conversion to network order is its own inverse, on either host |
| WireIntegers.StoredSwapIsNetworkOrder | water/base/msg_buffer.cc:210-218 | a converted number lies in host memory with its most significant byte first, on either host |
| WireIntegers.Ntoh64InvertsHton64 | water/base/funcs.h:9-15 | for every 64-bit number and either byte order, ntoh64 undoes hton64 |
| WireIntegers.LowBytesPeelOff | water/base/funcs.h:9-15 | shifting a number up by whole bytes and adding a smaller one joins their bytes |
| WireIntegers.Wire64Halves | water/base/funcs.h:9-15 | what AppendInt64 writes are the network-order bytes of the two halves: high half first on a little-endian host, low half first on a big-endian one |
| WireIntegers.Wire64RoundTrip | water/base/msg_buffer.cc:166-223 | what ReadInt64 makes of what AppendInt64 wrote is the same number, on either host |
| WireIntegers.Wire64IsNetworkOrderIff | water/base/funcs.h:9-11 | the eight bytes are in network order if and only if the host is little-endian or the halves of the number are equal |
| MsgBuffers.MsgBuffer.constructor | water/base/msg_buffer.cc:17-22 | a new buffer is empty, of the given size, with eight bytes of prepend space |
| MsgBuffers.MsgBuffer.Copy | water/base/msg_buffer.cc:24-29 | the copy holds the same bytes in storage of its own |
| MsgBuffers.MsgBuffer.Swap | water/base/msg_buffer.cc:89-94 | the two buffers exchange storage, indices and size |
| MsgBuffers.MsgBuffer.EnsureWriteableBytes | water/base/msg_buffer.cc:64-87 | there is room, the readable bytes are the same, growth happens only where compaction is not enough, at least doubles the buffer, copies just the readable bytes, and leaves an array within about twice what it has to hold; the mutual recursion with Append ends |
| MsgBuffers.MsgBuffer.AppendBuffer | water/base/msg_buffer.cc:96-100 | the readable bytes of another buffer, or of this one itself, come behind the readable bytes of this one |
| MsgBuffers.MsgBuffer.Append | water/base/msg_buffer.cc:107-111 | the data come behind the readable bytes, whichever way room was made |
| MsgBuffers.MsgBuffer.AppendString | water/base/msg_buffer.cc:102-105 | the string comes behind the readable bytes; making room twice copies them at most once |
| MsgBuffers.MsgBuffer.ShiftRight | water/base/msg_buffer.cc:231-235 | the readable bytes survive being moved right over themselves |
| MsgBuffers.MsgBuffer.AddInFront | water/base/msg_buffer.cc:225-250 | the data come before the readable bytes in all three cases: prepend space, shift, and growth |
| MsgBuffers.MsgBuffer.RetrieveAll | water/base/msg_buffer.cc:121-126 | the indices go back to the start, and the buffer keeps its shape if and only if its size is at least eight |
| MsgBuffers.MsgBuffer.Retrieve | water/base/msg_buffer.cc:113-119 | drops the given number of bytes from the front, or all; when the shape is kept, exactly |
| MsgBuffers.MsgBuffer.Read | water/base/msg_buffer.cc:173-180 | what is returned, followed by what is left, is what was there |
| MsgBuffers.MsgBuffer.ReadFd | water/base/msg_buffer.cc:128-147 | all bytes of a scatter read are appended in order, whether or not they spill into the stack buffer; a failure appends nothing and comes back as the largest size |
| MsgBuffers.MsgBuffer.AppendInt32 | water/base/msg_buffer.cc:215-218 | four bytes in network order are appended, on either host |
| MsgBuffers.MsgBuffer.AppendInt64 | water/base/msg_buffer.cc:220-223 | the eight bytes that hton64 leads to are appended |
| MsgBuffers.MsgBuffer.PeekInt16 | water/base/msg_buffer.cc:154-158 | the number that the first two readable bytes stand for in network order, on either host |
| MsgBuffers.MsgBuffer.PeekInt32 | water/base/msg_buffer.cc:160-164 | the number that the first four readable bytes stand for in network order, on either host |
| MsgBuffers.MsgBuffer.PeekInt64 | water/base/msg_buffer.cc:166-170 | the number that ntoh64 makes of the first eight readable bytes |
| MsgBuffers.MsgBuffer.ReadInt32 | water/base/msg_buffer.cc:194-198 | the number is returned and exactly its bytes are gone |
| MsgBuffers.MsgBuffer.FindCRLF | water/base/msg_buffer.cc:268-271 | the first position of a carriage return before a line feed, or none when there is none |
| MsgBufferRuns.Perform | water/base/msg_buffer.cc:64-180 | every operation on one or two buffers does to the readable bytes what its counterpart does to plain sequences, and a read returns what that one does |
| MsgBufferRuns.PerformAll | water/base/msg_buffer.cc:17-250 | over every sequence of operations on two buffers, self-append, append of the other and swaps included, from any sizes of at least eight, both refine plain sequences, keep their shape, and return the same data; and however much passes through, the arrays stay within twice the most that was in one buffer at once |
| MsgBufferRuns.SmallBufferBreaks | water/base/msg_buffer.cc:121-126 | every new buffer of a size below eight has its write index outside its storage after RetrieveAll |
| MsgBufferRuns.AppendAll | water/base/msg_buffer.cc:64-111 | in every run of appends by all overloads, of bytes, strings, other buffers and the buffer itself, all reallocations together copy no more bytes than the buffer is long, and at most twice the bytes appended plus 24 |
| MsgBufferRuns.WireReadsBack | water/base/msg_buffer.cc:149-223 | the bytes of an integer of each width decode to it, on either host |
| MsgBufferRuns.ExchangeTakesFirst | water/base/msg_buffer.cc:182-223 | whatever is appended later, the next read takes the oldest integer |
| MsgBufferRuns.ExchangeAll | water/base/msg_buffer.cc:182-223 | however appends and matching reads of integers of all widths are mixed, from a buffer that may hold unread ones, the reads return them in the order of the appends, and the buffer holds exactly the ones left; across compaction and growth, on either host |
| TcpConnections.TcpConnection.SendInLoop | water/net/tcp_connection.cc:119-125 | the message is behind everything buffered, and the write event is asked for |
| TcpConnections.TcpConnection.WritePending | water/net/tcp_connection.cc:57-64 | a write moves exactly the bytes the kernel took from the front of the buffer to the wire; a failure discards the buffer |
| TcpConnections.TcpConnection.WriteCallback | water/net/tcp_connection.cc:51-70 | conservation is kept, the write event is given up exactly when nothing is left, and a pending half-close happens exactly then, with everything sent on the wire |
| TcpConnections.TcpConnection.Shutdown | water/net/tcp_connection.cc:108-117 | the half-close happens at once exactly when nothing is waiting to be written, and is pending otherwise |
| TcpConnections.TcpConnection.HandleClose | water/net/tcp_connection.cc:83-95 | the connection is disconnected, asks for no events, and loses nothing of its account |
| TcpConnections.TcpConnection.ReadCallback | water/net/tcp_connection.cc:32-49 | the bytes read are appended; end of file disconnects; the receive callback is called otherwise, also after a failed read |
| TcpConnections.TcpConnection.ConnectionEstablished | water/net/tcp_connection.cc:72-81 | reading is on and the connection connected |
| TcpConnections.TcpConnection.ConnectionDestroy | water/net/tcp_connection.cc:97-106 | the assertions on the way to the poller hold if and only if the channel does not wait for its turn in a dispatch, and the connection is connected and its callback sends nothing, or it is disconnected with nothing enabled and not removed before; what was written and half-closed is untouched |
| TcpConnections.Take | water/net/tcp_connection.cc:32-125 | each step, destruction included, does to the object exactly what it does to the connection as a value, abort included |
| TcpConnections.RunMeans | water/net/tcp_connection.cc:97-125 | what was sent, failed and destroyed in a run can be read off its steps; a run aborts if and only if some destruction comes at the wrong time |
| TcpConnections.ClosedCanBeDestroyed | water/net/tcp_connection.cc:83-106 | a connection in any state can be destroyed right after it was closed, by the peer or not, unless it waits for its turn |
| TcpConnections.SentAfterClosePreventsDestruction | water/net/tcp_connection.cc:97-125 | a message sent to a closed connection makes its destruction fail |
| TcpConnections.WritingBehindClose | water/net/tcp_connection.cc:51-125 | after a half-close the write event is asked for again only if a message was sent behind it |
| TcpConnections.TwoClosesIff | water/net/tcp_connection.cc:51-125 | a run half-closes more than once if and only if a message is sent behind a half-close and the write event later finds it written |
| TcpConnections.SomeRunClosesTwice | water/net/tcp_connection.cc:51-125 | there is such a run |
| TcpConnections.TakeAll | water/net/tcp_connection.cc:32-125 | over every run, up to an abort: the connection is what its steps make of it; wire and buffer together are exactly what was sent if and only if no write failed; every half-close came after all bytes sent before it were on the wire; a half-close asked for has happened or the write event is awaited; it aborts if and only if a destruction comes at the wrong time; there are two half-closes exactly if a message was sent behind the first and written |
| Reactor.Poller.UpdateChannel | water/net/poller.cc:82-113 | from agreement up to the one channel whose mask changed, to full agreement of index, map and interest set, without any epoll_ctl failing |
| Reactor.Poller.RemoveChannel | water/net/poller.cc:115-130 | the channel is out of map and interest set, nothing else changed, agreement is kept and no epoll_ctl failed |
| Reactor.Poller.FillActiveChannels | water/net/poller.cc:67-80 | each reported pointer is the channel that the map has for that descriptor, so the assertions hold |
| Reactor.Poller.Poll | water/net/poller.cc:43-65 | the active channels are those reported, in order, and the event list doubles exactly when it was full |
| Channels.AbortsIff | water/net/poller.cc:82-130 | a sequence of operations aborts the program if and only if one of them fails an assertion in the state that the ones before it leave |
| Channels.OnlyRemovalsFail | water/net/event_loop.cc:58-72 | with distinct descriptors the failing operation is the removal of a channel that asks for events, is not in the map, or waits for its turn in the dispatch |
| Channels.HarmlessRoundsRun | water/net/event_loop.cc:80-102 | without removals no number of rounds aborts the program, whatever is reported and whatever callbacks enable or disable |
| Channels.DispatchSafety | water/net/event_loop.cc:64-97 | when the turn of an active channel comes it is still in the poller's map, whatever earlier callbacks updated, added or removed |
| Channels.LaterCallInMapIff | water/net/channel.cc:46-71 | a later callback of the same report is called in any case, and finds its channel in the map if and only if the last thing earlier callbacks did to the channel is not its removal |
| Channels.RemovedChannelIsCalled | water/net/channel.cc:46-71 | a channel whose read callback removes it is called for its write event outside the map |
| Channels.TurnsDecideMap | water/net/poller.cc:82-130 | whether a channel is in the map after any callbacks is decided by the last operation on it |
| Channels.OpsDecideMask | water/net/channel.h:71-104 | after any operations, the last one about writing decides whether the write event is asked for, and the last one about reading the read event; others do not matter |
| Channels.TurnsDecideMask | water/net/channel.cc:46-71 | the same of all operations of any callbacks |
| Channels.RoundDecides | water/net/event_loop.cc:84-102 | everything that callbacks and closures of a round do to a channel takes effect on its mask and its place in the map, the closures last |
| Channels.UnwatchedAsksForNothing | water/net/poller.cc:100-112 | a channel that is in the map but not watched by epoll asks for no event |
| Channels.TurnsAreForReported | water/net/channel.cc:46-71 | a callback is called if and only if its event is reported, with what its script says, and at most once |
| Channels.EveryTurnIsCalled | water/net/channel.cc:46-71 | the calls made are exactly the turns, in order, unless the program aborts |
| Channels.AbortedDispatch | water/net/event_loop.cc:86-97 | no callback is called behind a failed assertion |
| Reactor.EventLoop.Perform | water/net/channel.h:71-104 | one enable, disable or remove does exactly what it does to the value, fails exactly the assertions of the source, keeps agreement and makes no epoll_ctl fail |
| Reactor.EventLoop.PerformAll | water/net/event_loop.cc:58-72 | any operations on any channels: masks, indices, map and abort are exactly those of the value; agreement holds also then |
| Reactor.EventLoop.HandleEvent | water/net/channel.cc:34-71 | called only for a channel in the map, it calls the error, read and write callbacks that were reported, in that order, whatever each of them does, until one aborts |
| Reactor.EventLoop.DispatchAll | water/net/event_loop.cc:86-97 | every active channel gets its turn while it is in the map; calls, masks, indices and abort are exactly those of the value |
| Reactor.EventLoop.PollAndDispatch | water/net/event_loop.cc:84-97 | one poll with its dispatch does exactly what the reports and the callbacks come to |
| Reactor.EventLoop.Loop | water/net/event_loop.cc:80-102 | over any number of rounds: calls, masks, indices, map and abort are exactly what the rounds come to; agreement with the kernel holds and no epoll_ctl has failed; with distinct descriptors and no removal it does not abort |
| Numerals.NumeralRoundTrip | water/base/log_stream.cc:16-50 | reading a numeral in base ten or sixteen gives its number back |
| Numerals.NumeralHasNoLeadingZero | water/base/log_stream.cc:16-50 | only zero starts with a zero, and is then a single character |
| Numerals.NumeralLength | water/base/log_stream.cc:16-50 | a number below the k-th power of the base has at most k digits |
| Numerals.DecimalRoundTrip | water/base/log_stream.cc:16-34 | printing and reading back gives the value, for every integer and so for the least value of each type |
| Numerals.DecimalIsShort | water/base/log_stream.cc:86-92 | no integer of up to 64 bits, signed or unsigned, needs more than 20 characters, so the limit of 32 is enough |
| Numerals.DecimalIsCanonical | water/base/log_stream.cc:16-34 | no leading zeros, and a minus sign exactly for negative numbers |
| Numerals.DigitsAreTheseCharacters | water/base/log_stream.cc:10-13 | the characters of the digits, and the value of each |
| LogStreams.DecimalDigit | water/base/log_stream.cc:10-13 | the digit table holds, left and right of its middle, the digit of the magnitude |
| LogStreams.TruncatedDivisionKeepsMagnitude | water/base/log_stream.cc:21-25 | division and remainder that round toward zero give the quotient and the last digit of the magnitude, for negative values too |
| LogStreams.TakeDigit | water/base/log_stream.cc:21-25 | moving the last digit of a numeral behind the digits written so far, which are reversed, keeps the whole |
| LogStreams.ReverseInPlace | water/base/log_stream.cc:31 | the range is reversed and everything around it is as before |
| LogStreams.PutDigits | water/base/log_stream.cc:16-26 | the loop, which never negates, leaves the digits of the magnitude in reverse and stays inside the buffer |
| LogStreams.Convert | water/base/log_stream.cc:16-34 | exactly the decimal numeral of the value and a terminator are written, and its length returned |
| LogStreams.ConvertHex | water/base/log_stream.cc:36-50 | exactly the hexadecimal numeral and a terminator are written, and its length returned |
| LogStreams.FixedBuffer.Append | water/base/log_stream.cc:55-61 | the text comes behind the contents as a whole or not at all, and one byte stays free |
| LogStreams.LogStream.PutInteger | water/base/log_stream.cc:86-92 | the numeral comes behind the contents as a whole or not at all, without overrunning the buffer |
| LogStreams.LogStream.PutPointer | water/base/log_stream.cc:134-144 | the pointer's text without its last two characters comes behind the contents |
| LogStreams.PointersPrintAlikeIff | water/base/log_stream.cc:134-144 | two pointers print alike if and only if they agree apart from the low byte and both or neither are below 16 |
| LogStreams.PutAll | water/base/log_stream.cc:55-92 | over every run of texts and integers, the buffer is a concatenation of whole items, those that fitted when their turn came; and each integer taken reads back as its value from its place in the buffer |
| LogStreams.PrintedIntegersReadBack | water/base/log_stream.cc:86-92 | each integer among printed items reads back from its own place in the text |
| AsyncFileLogger.RotateKeepsOwnership | water/base/async_file_logger.cc:98-108 | handing the log buffer on and taking the spare or a new one leaves no buffer in two places, and an empty log buffer |
| AsyncFileLogger.SwapBufferIsRotate | water/base/async_file_logger.cc:191-201 | the extra clear in SwapBuffer changes nothing, since a recycled buffer is empty |
| AsyncFileLogger.StepKeepsOwnership | water/base/async_file_logger.cc:86-201 | every step keeps each buffer in one place: log buffer, spare, either queue, or the log thread's hand |
| AsyncFileLogger.StepKeepsBounds | water/base/async_file_logger.cc:98-115 | every step keeps the limits on the queues, which depend on the phase: at the limit the log buffer is empty |
| AsyncFileLogger.EmptyLogStays | water/base/async_file_logger.cc:98-108 | a log buffer without text always has room for a message that is accepted at all, so it is never queued |
| AsyncFileLogger.LineOvertakes | water/base/async_file_logger.cc:163-189 | once newer records go out before older ones, no later step makes what has gone out a beginning of what was accepted |
| AsyncFileLogger.PopKeepsLedger | water/base/async_file_logger.cc:178-180 | popping a buffer keeps conservation, and keeps the order unless the buffer was queued after the swap while older ones are set aside |
| AsyncFileLogger.SwapQueuesKeepsLedger | water/base/async_file_logger.cc:165-176 | swapping the queues changes neither what is stored nor its age |
| AsyncFileLogger.ClearKeepsLedger | water/base/async_file_logger.cc:181-182 | clearing the written buffer outside the lock touches no record that is still to be written |
| AsyncFileLogger.StepKeepsLedger | water/base/async_file_logger.cc:86-201 | every step keeps the account of records, losses and order |
| AsyncFileLogger.StepKeepsAccounted | water/base/async_file_logger.cc:86-125 | every step keeps the account of what became of each message |
| AsyncFileLogger.MemoryIsBounded | water/base/async_file_logger.cc:86-201 | in every run, however slow the log thread: at most 27 buffers are queued, 26 set aside and 56 in use; none holds more than its capacity; and as long as nothing was dropped, nothing waits to be reported and every capacity is 4 MB |
| AsyncFileLogger.StepKeepsSized | water/base/async_file_logger.cc:86-201 | every step keeps the contents of every buffer within its capacity, and the capacities at 4 MB until something is dropped |
| AsyncFileLogger.OnlyReportsGrowBuffers | water/base/async_file_logger.cc:86-125 | in every run a buffer grows only in an Output that also reports losses |
| AsyncFileLogger.OutputHandsOnIff | water/base/async_file_logger.cc:98-108 | Output queues the log buffer exactly when the message does not fit into it |
| AsyncFileLogger.AcceptedIff | water/base/async_file_logger.cc:86-125 | a message is accepted, as the last record of the log buffer, exactly when it is at most 4 MB long and at most 25 buffers are queued once the log buffer is handed on if it must be |
| AsyncFileLogger.WrittenBufferIsReused | water/base/async_file_logger.cc:98-108 | a buffer that has been written is the next one to become the log buffer, and no new one is made |
| AsyncFileLogger.OffersAreOutputs | water/base/async_file_logger.cc:86-125 | the messages accounted for in a run are exactly those given to Output, in order |
| AsyncFileLogger.NoteReadsBack | water/base/async_file_logger.cc:116-122 | the number in the text of a note reads back as the count of the messages lost |
| AsyncFileLogger.TextOfFile | water/base/async_file_logger.cc:152-189 | unless something overtook, the text in the file is a beginning of the text accepted |
| AsyncFileLogger.EveryMessageIsAccountedFor | water/base/async_file_logger.cc:86-189 | in every run, a message given to Output is ignored uncounted if and only if it is longer than a buffer, and otherwise accepted, in order, or counted; the accepted records are exactly those in the file, in hand and behind, each once; the counted ones are those in the counter plus those reported in notes |
| AsyncFileLogger.SpareIsEmptyAndUnshared | water/base/async_file_logger.cc:98-108 | in every run the spare buffer is empty, and is neither the log buffer nor queued nor in the log thread's hand |
| AsyncFileLogger.DrainQueue | water/base/async_file_logger.cc:177-187 | the log thread alone can always empty its queue, without touching the log buffer or what is set aside |
| AsyncFileLogger.LogThreadWritesAll | water/base/async_file_logger.cc:163-189 | from every reachable state the log thread alone can bring every accepted record into the file, but for messages without text that are left in the log buffer |
| AsyncFileLogger.FileInOrderIff | water/base/async_file_logger.cc:163-189 | in every run, the file with the buffer just popped for it is a beginning of what was accepted if and only if no pop took a buffer queued after the swap while older ones were set aside; the same of the file alone, except between a pop and its write |
| AsyncFileLogger.FileIsNotInOrder | water/base/async_file_logger.cc:163-189 | a run in which the second of two messages is in the file and the first is not |
| SerialTaskQueue.StepKeepsInv | water/base/serial_task_queue.cc:27-53 | every step of any thread or the worker keeps the invariant: serial order, promises, notification, and who waits for what |
| SerialTaskQueue.SerialInOrder | water/base/serial_task_queue.cc:33-53 | in every interleaving, finished, running and queued are together the order of submission, and at most one runs |
| SerialTaskQueue.BarrierWaitsForEarlierTasks | water/base/task_queue.h:16-24 | when SyncTaskInQueue can return, everything submitted before it is finished |
| SerialTaskQueue.NoLostNotification | water/base/serial_task_queue.cc:27-44 | a sleeping worker has a notification pending if and only if something is queued |
| SerialTaskQueue.BlockedWorkerStaysBlocked | water/base/task_queue.h:16-24 | once a job waits on its own queue nothing more is finished and no waiting thread whose promise is unset comes back, in any continuation |
| SerialTaskQueue.DrainCompletesAll | water/base/serial_task_queue.cc:33-53 | a worker that is not itself waiting can finish everything submitted, alone |
| SerialTaskQueue.EverybodyCanReturn | water/base/task_queue.h:16-24 | from every reachable state in which the worker is not itself waiting, all tasks can be finished and every thread comes back from SyncTaskInQueue |
| SerialTaskQueue.SubmittedAreJobs | water/base/serial_task_queue.cc:27-31 | what is submitted in a run is exactly what the threads gave to the queue, in order |
| SerialTaskQueue.IdleWorkerSleeps | water/base/serial_task_queue.cc:33-44 | a worker that sleeps with nothing queued sleeps until somebody submits, whatever wakes it |
| SerialTaskQueue.WorkerFallsAsleep | water/base/serial_task_queue.cc:33-44 | taking the lock, the worker goes to sleep exactly when nothing is queued |
| SerialTaskQueue.BarrierCanCompleteIff | water/base/task_queue.h:16-24 | a thread in SyncTaskInQueue can still return if and only if its promise is set or the worker is not itself in SyncTaskInQueue |
| SerialTaskQueue.WorkerCanBlockItself | water/base/task_queue.h:16-24 | a run after which the worker waits on its own queue and never comes back, in any continuation |

## Left out

- Socket, Acceptor, InetAddress, TcpServer, EventLoopThread, the logger macros: thin wrappers around system calls.
- The memory model: steps are sequentially consistent; `set_quit` and `stop_` are read and written without a lock in the source, and the log thread tests and pops `write_buffers_` without the lock, which is one step here.
- Overflow of `size_t` indices and of the eventfd counter; failures of eventfd, timerfd and `epoll_ctl` other than by a wrong operation.
- RunInLoop on the loop thread: it calls its closure directly, so nothing queues; from other threads it is QueueInLoop.
- EventLoop::RunAt, RunAfter, RunEvery: they make a timer request; `TimerQueues.TimerQueue.AddTimer` is what that leads to on the loop thread, and the queue of closures on others.
- Closures and callbacks: what they do to the modelled state is a parameter; the rest of their effect is not modelled.
- TimerQueues.TimerQueue.Push: the heap inside `std::priority_queue` is a set whose top is some earliest timer, chosen anew at each change; the order among timers of equal time is not modelled.
- Dates.After: doubles are reals, so only the conversion to an integer rounds; the interval's own rounding is not modelled.
- The comparison operators of Timer, and its sequence number, which nothing reads.
- MsgBuffers.MsgBuffer.Append: bytes that lie inside the buffer's own storage; the source would read them after compaction or release. Appending the buffer itself is modelled by AppendBuffer.
- MsgBuffers.MsgBuffer.PeekInt8: requires one readable byte, and PeekInt64 eight, although the assertions of the source ask for less (`water/base/msg_buffer.cc:150`, `water/base/msg_buffer.cc:167`) and would then read past the readable bytes.
- AddInFrontInt8, AddInFrontInt16: AddInFront with two more encodings. AddInFrontInt32 and AddInFrontInt64: they write from a variable of the wrong width (`water/base/msg_buffer.cc:259-266`), so no round trip holds.
- The assignment and move operations of MsgBuffer: a moved-from buffer keeps its indices over empty storage (`water/base/msg_buffer.cc:44-62`).
- TcpConnections.TcpConnection.ReadCallback: the content of the error message is not modelled; neither are the callbacks' own uses of the read buffer.
- TcpConnections.TcpConnection.constructor: `state_` is not initialised in the source and is taken as Connecting.
- Reactor.EventLoop.Perform: on an abort the mask has changed already in the source, and has not here; channels made by callbacks are in the universe from the start, as new ones; the life time of a channel object and its `tie` are not modelled. Event masks are the two kinds of event that the source can enable, and reported events the three groups that it tests.
- EventLoopQueue, AsyncFileLogger and SerialTaskQueue model threads as steps on a value, not as methods on an object, because the steps of several threads interleave.
- AsyncFileLogger.MemoryIsBounded: counts buffers; a buffer can grow beyond 4 MB when a note does not fit, by any amount that the string class chooses.
- The destructor of AsyncFileLogger, which writes at most one buffer, and its stop flag; the branch of Output for a missing log buffer, which never runs; opening, naming and changing log files; a file that cannot be opened.
- SerialTaskQueue: stopping. `stop_` is set without the lock (`water/base/serial_task_queue.cc:19-25`), so no claim about termination is made. `water/base/SerialTaskQueue.h` is an old duplicate.
- Printing of truth values, characters, doubles and `Fmt`; formatting of dates.
