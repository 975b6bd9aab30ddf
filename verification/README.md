# A Dafny model of muduo

muduo is a C++ network library built on one event loop per thread. This project models its most
intricate parts and proves what they promise: the time-zone and calendar arithmetic, the reactor with its
functor queue, timers and pollers, the asynchronous logger, the TCP output path, the byte buffer, the
protobuf frame codec, the HTTP request parser, the blocking queue and thread pool, and the RPC channel.

| file | models |
|---|---|
| Bytes.dfy | byte strings and big-endian integers |
| Buffer.dfy | `muduo/net/Buffer.h`, `muduo/net/Buffer.cc` |
| Calendar.dfy | `muduo/base/Date.cc` |
| TimeZone.dfy, Zone.dfy, ZoneFile.dfy | `muduo/base/TimeZone.cc` |
| EventLoop.dfy | `muduo/net/EventLoop.cc` |
| TimerQueue.dfy | `muduo/net/TimerQueue.cc`, `muduo/net/Timer.cc` |
| Pollers.dfy | `muduo/net/poller/PollPoller.cc`, `muduo/net/poller/EPollPoller.cc` |
| TcpConnection.dfy | `muduo/net/TcpConnection.cc` |
| AsyncLogging.dfy | `muduo/base/AsyncLogging.cc` |
| Monitor.dfy | `muduo/base/BoundedBlockingQueue.h`, `muduo/base/ThreadPool.cc` |
| RpcChannel.dfy | `muduo/net/protorpc/RpcChannel.cc` |
| Codec.dfy | `muduo/net/protobuf/ProtobufCodecLite.cc` |
| HttpContext.dfy | `muduo/net/http/HttpContext.cc`, `muduo/net/http/HttpRequest.h` |

Protocols are step machines on values. A `State`, a `Step` for every action that a lock, a system call or a
callback separates from the next one, `Enabled` and `After` say what may happen; `Legal` and `Final` make runs of
any length, and the results are about every legal run. History fields (bytes accepted, timers deleted, calls
completed) record what the results speak of, and no step reads them. The objects of the source are classes whose methods, with the source's own
fields and loops, are proved to perform those steps (`View() == After(old(View()), step)`, or the run they make).

What the environment decides is a parameter of a step, of any value: what write(2) takes, what a read returns,
which sleeper a signal wakes, spurious wakeups, the clock, the address a new timer gets, what a service answers.

Findings, each with its exact condition:

- `Zones.RepeatAtLastIsLost`: seconds just before the last transition whose reading recurs after it
  are not recovered by either flag; `Zones.AnswersRecoverSeconds` shows that these are the only ones.
- `Pollers.DisabledTwiceIsInKernel`: a second update with empty interest adds the descriptor back to epoll with no
  events, so that its errors and hang-ups are still reported, which PollPoller does not do.
  `Pollers.KernelIsInterestExactly` gives the condition over runs.
- `TimerQueues.CancelledYetRun`: a cancel that overtakes the queued insertion of its timer is lost;
  `TimerQueues.CancelTakesEffectExactly` gives the condition.
- `TimerQueues.UnawaitedBeforeEpoch`: `reset` does not set the timerfd for an expiration at or before the epoch, which
  it takes for an invalid one; `TimerQueues.PendingTimerIsAwaited` and `TimerQueues.EndSetsExactly` give the condition.
- `AsyncLogging.LateLineIsLost`: a line appended after the writer's last exchange is not written when it stops;
  `AsyncLogging.ExitLeavesLateText` gives the condition. `AsyncLogging.AppendBehind`: a line as long as a whole buffer
  is lost silently, and a shorter one joins the text behind the lock.
- `Calendar.BrokenDayValidExactlyFromOrigin`: below day -32044 truncating division breaks the formula.
- `Http.BareLineEndsHeaders`: a non-empty header line without a colon ends the headers, where the source comment says
  "empty line"; `Http.HeadersEndExactly` and `Http.EmptyLineEndsHeadersExactly` give the condition.
- `Http.BadLineBreaksAssert`: a call after a bad request line meets the assert of `setMethod`; `Http.ReadyAfterError`
  says when it holds.

## Model

| member | source | states |
|---|---|---|
| `TimerQueues.IndexesAgree` | muduo/net/TimerQueue.cc:143-259 | in every reachable state `timers_` and `activeTimers_` hold the same live timers under their current expiration, in order and in equal number |
| `TimerQueues.DeletedAtMostOnce` | muduo/net/TimerQueue.cc:143-233 | every timer ever created is live or has been deleted exactly once, and a live one awaits insertion, is indexed, or is in the batch in hand |
| `TimerQueues.TimersAreAsCreated` | muduo/net/TimerQueue.cc:116-124 | while it is live, the timer with number q has the address, the repetition and the interval of the q-th creation of the run, and that creation's expiration until its callback has run |
| `TimerQueues.DeletedNeverRuns` | muduo/net/TimerQueue.cc:143-233 | once deleted a timer never runs again in any continuation, even when its address is given to a new timer; running an entry is not guarded by its being live |
| `TimerQueues.NoFreedTimerRuns` | muduo/net/TimerQueue.cc:174-177 | in every reachable state the timer at the entry whose callback comes next has not been deleted, and no callback run so far was of freed memory |
| `TimerQueues.TimerFoundAsTaken` | muduo/net/TimerQueue.cc:163-177 | the timer found at an entry of the batch is the one the entry was taken for, whatever callbacks and other threads did since |
| `TimerQueues.CancelledRunsInNoLaterBatch` | muduo/net/TimerQueue.cc:143-161 | a timer that was inserted and is then cancelled, between batches or inside a callback, runs in no later batch; one not in the batch in hand does not run again at all |
| `TimerQueues.BatchesAsBegun` | muduo/net/TimerQueue.cc:163-181 | the batches these results number are those the run begins: the batch of each callback is the number of Begin steps before it |
| `TimerQueues.CancelledIsDeleted` | muduo/net/TimerQueue.cc:204-222 | outside a batch every cancelled timer has been deleted |
| `TimerQueues.StaleCancelTouchesNone` | muduo/net/TimerQueue.cc:143-161 | cancelling the id of a timer that is gone touches no other timer, whoever has its address now |
| `TimerQueues.CancelTakesEffectExactly` | muduo/net/TimerQueue.cc:132-161 | cancelling a live timer deletes it, or marks it not to be restarted, if and only if its addTimerInLoop has run |
| `TimerQueues.EarlyCancelIsLost` | muduo/net/TimerQueue.cc:126-161 | a cancel that comes before addTimerInLoop changes nothing, and the timer is in the first batch taken once it is inserted and due |
| `TimerQueues.CancelledYetRun` | muduo/net/TimerQueue.cc:126-161 | a run in which a loop-thread cancel comes before another thread's queued add, and the timer runs |
| `TimerQueues.BatchIsExactlyTheDue` | muduo/net/TimerQueue.cc:183-202 | a batch is exactly the pending timers with expiration at or before now, in order, and exactly the others stay |
| `TimerQueues.BatchRunsTheDue` | muduo/net/TimerQueue.cc:163-181 | from taking a batch to its end, whatever callbacks and other threads do meanwhile, the timers run are those that were due, once each and in order |
| `TimerQueues.BatchEndExact` | muduo/net/TimerQueue.cc:204-222 | at the end of a batch a timer that was created to repeat, and that no step of the run has cancelled since the batch was taken, is pending again its own interval after the clock of the batch; every other timer of the batch is deleted |
| `TimerQueues.BatchUndisturbed` | muduo/net/TimerQueue.cc:163-181 | no add, cancel or creation during the callbacks changes the batch in hand or the numbers of its timers |
| `TimerQueues.PendingTimerIsAwaited` | muduo/net/TimerQueue.cc:132-233 | after every add, cancel or completed batch, a pending timer implies the timerfd is set for no later than the larger of the earliest expiration and the setting time plus 100 microseconds, provided that at each batch the clock or all pending expirations were after the epoch; the setting time is the clock of an insertion or batch end of the run after which the timerfd has not been read as expired |
| `TimerQueues.EndSetsExactly` | muduo/net/TimerQueue.cc:224-233 | after the end of a batch the pending timers are awaited if and only if, before it, all pending timers and all of the batch to be restarted expire after the epoch; or a callback has set the timerfd, for 100 microseconds later or no later than any of them |
| `TimerQueues.AddSetsExactly` | muduo/net/TimerQueue.cc:132-141 | an insertion sets the timerfd if and only if the timer expires before all that are pending |
| `TimerQueues.UnawaitedBeforeEpoch` | muduo/net/TimerQueue.cc:224-233 | a run with two timers before the epoch that leaves one pending with the timerfd unset |
| `TimerQueues.ArmedExact` | muduo/net/TimerQueue.cc:41-55 | the relative time is a proper non-zero timespec, and ends at the later of the expiration and 100 microseconds from now |
| `TimerQueues.StepKeepsInv` | muduo/net/TimerQueue.cc:116-259 | every step, in any order, keeps the indexes, the ownership of timers, the numbering and the cancellation marks |
| `TimerQueues.StepKeepsAlarm` | muduo/net/TimerQueue.cc:116-233 | every step keeps the setting of the timerfd |
| `TimerQueues.InsertedExact` | muduo/net/TimerQueue.cc:246-250 | inserting into the ordered set adds that entry alone and keeps the order |
| `TimerQueues.ErasedExact` | muduo/net/TimerQueue.cc:148-155 | erasing removes that entry alone and keeps the order |
| `TimerQueues.DueExact` | muduo/net/TimerQueue.cc:187-191 | the bound found for the sentry splits the set at now |
| `TimerQueues.InsertKeepsIndexed` | muduo/net/TimerQueue.cc:235-259 | inserting a live timer that is in neither index keeps them in agreement |
| `TimerQueues.EraseKeepsIndexed` | muduo/net/TimerQueue.cc:143-155 | the entry of an active timer is found, and erasing it keeps the indexes in agreement |
| `TimerQueues.SplitKeepsIndexed` | muduo/net/TimerQueue.cc:183-202 | taking the due timers out of both indexes keeps them in agreement |
| `TimerQueues.ResetKeepsCore` | muduo/net/TimerQueue.cc:204-222 | restarting or deleting each expired timer keeps everything but the batch, which is used up |
| `TimerQueues.TimerQueue.AddTimer` | muduo/net/TimerQueue.cc:116-124 | a new timer on the heap under the next sequence number, not yet in either index |
| `TimerQueues.TimerQueue.Insert` | muduo/net/TimerQueue.cc:235-259 | both set insertions take place, and the flag says whether the earliest expiration changed |
| `TimerQueues.TimerQueue.AddTimerInLoop` | muduo/net/TimerQueue.cc:132-141 | refines the machine step: insert, and set the timerfd when the earliest changed |
| `TimerQueues.TimerQueue.CancelInLoop` | muduo/net/TimerQueue.cc:143-161 | refines the machine step; the erased entry is there, as the source asserts |
| `TimerQueues.TimerQueue.GetExpired` | muduo/net/TimerQueue.cc:183-202 | the loop over the due timers erases a key that is there each time, and leaves exactly the others |
| `TimerQueues.TimerQueue.BeginBatch` | muduo/net/TimerQueue.cc:163-172 | refines the machine step up to the first callback |
| `TimerQueues.TimerQueue.RunCallback` | muduo/net/TimerQueue.cc:174-177 | runs the next timer of the batch, which has not been deleted; nothing but the class invariant is asked |
| `TimerQueues.TimerQueue.ResetFirst` | muduo/net/TimerQueue.cc:208-222 | one expired timer is restarted and inserted, or deleted |
| `TimerQueues.TimerQueue.ResetExpired` | muduo/net/TimerQueue.cc:204-227 | the loop of `reset` refines the recursive specification, and returns the earliest expiration left |
| `TimerQueues.TimerQueue.EndBatch` | muduo/net/TimerQueue.cc:178-181 | refines the machine step after the last callback |
| `EventLoops.NoLostWakeup` | muduo/net/EventLoop.cc:103-171 | in every interleaving, at the second and every later poll (and at the first one, given a functor pushed since `loop` began), waiting functors or a quit mean that the eventfd has been written since it was last read, or that a thread which pushed or quit has not yet written; all read off the steps of the run |
| `EventLoops.FunctorsRunInOrder` | muduo/net/EventLoop.cc:160-171 | in every interleaving, functors executed, then the batch in hand, then the pending ones are those waiting at first and then those the steps of the run pushed, in order |
| `EventLoops.EachRoundDrains` | muduo/net/EventLoop.cc:111-130 | everything waiting at first or pushed by the time a poll returned has been executed, in order, when the next poll begins or the loop ends |
| `EventLoops.LoopEndsExactly` | muduo/net/EventLoop.cc:111-146 | while nobody quits each round ends in another poll, and after a quit the loop ends at the end of the round, neither sooner nor later |
| `EventLoops.StoppedOnlyByQuit` | muduo/net/EventLoop.cc:111-146 | a loop that has ended was told to quit by a step of the run |
| `EventLoops.EventfdExact` | muduo/net/EventLoop.cc:234-252 | the eventfd counter is the number of writes since the last read, and the threads owing a write are those that pushed or quit since their last one |
| `EventLoops.StepKeepsInv` | muduo/net/EventLoop.cc:103-269 | each step of the loop thread, a functor or a producer keeps the invariant behind the three results |
| `EventLoops.EventLoop.Wakeup` | muduo/net/EventLoop.cc:234-242 | one more in the eventfd counter, short of its limit |
| `EventLoops.EventLoop.QueueInLoop` | muduo/net/EventLoop.cc:160-171 | performs a run of the machine that appends the functor, and wakes the loop unless it is in a handler on the loop thread |
| `EventLoops.EventLoop.RunFunctor` | muduo/net/EventLoop.cc:264-267 | one functor runs and queues others, continuing a run of the machine |
| `EventLoops.EventLoop.SwapPendingFunctors` | muduo/net/EventLoop.cc:254-263 | the pending functors are taken out all at once |
| `EventLoops.EventLoop.DoPendingFunctors` | muduo/net/EventLoop.cc:254-269 | performs a run of the machine: all that was pending is executed in order, and exactly what those functors queued is pending |
| `AsyncLogging.FileHoldsEveryLine` | muduo/base/AsyncLogging.cc:34-135 | in every interleaving in which the writer finds at most 25 buffers whenever it checks its batch, the file, the unwritten batch, the queued buffers and the current buffer are together all lines that the steps of the run append, in order |
| `AsyncLogging.TextIsConserved` | muduo/base/AsyncLogging.cc:34-135 | in every interleaving, all text that the run appends is in order accounted for, held by the writer, or behind the lock; and the file is the pieces kept with the notices |
| `AsyncLogging.RefillsNeverFail` | muduo/base/AsyncLogging.cc:63-131 | every assert of the writer holds, and a missing spare behind the lock implies a queued buffer |
| `AsyncLogging.DropsNeedLongBatch` | muduo/base/AsyncLogging.cc:90-101 | text is dropped or a notice written only by a step that found more than 25 buffers in its batch |
| `AsyncLogging.RoundExact` | muduo/base/AsyncLogging.cc:75-107 | of a batch of up to 25 buffers all reach the file, and of a longer one exactly the first two, after the notice |
| `AsyncLogging.WriterLeavesExactly` | muduo/base/AsyncLogging.cc:69-69 | the writer has left its loop if and only if it has tested its condition after a stop |
| `AsyncLogging.ExitLeavesLateText` | muduo/base/AsyncLogging.cc:69-135 | when the writer has left, exactly the text appended after its last exchange is missing; so everything is accounted for, and with short batches is in the file, if and only if no non-empty line that fits a buffer was appended after that exchange |
| `AsyncLogging.LateLineIsLost` | muduo/base/AsyncLogging.cc:69-135 | a run that ends with the writer gone and a line missing from the file |
| `AsyncLogging.AppendBehind` | muduo/base/AsyncLogging.cc:34-56 | a line joins the text behind the lock, whole and last, if it is shorter than a buffer; a longer one is lost silently |
| `AsyncLogging.StepKeepsInv` | muduo/base/AsyncLogging.cc:34-135 | each append and each step of the writer keeps the accounts and the places of the buffers |
| `AsyncLogging.Logger.Append` | muduo/base/AsyncLogging.cc:34-56 | refines the machine step of a front-end thread |
| `AsyncLogging.Logger.TestRunning` | muduo/base/AsyncLogging.cc:69-69 | refines the loop condition of the writer, also before its first exchange |
| `AsyncLogging.Logger.Exchange` | muduo/base/AsyncLogging.cc:71-88 | refines the writer's stay in the lock; its asserts hold |
| `AsyncLogging.Logger.CheckBatch` | muduo/base/AsyncLogging.cc:90-101 | refines the reduction of an overlong batch to two buffers |
| `AsyncLogging.Logger.WriteBatch` | muduo/base/AsyncLogging.cc:103-107 | the loop writes the rest of the batch in order |
| `AsyncLogging.Logger.Recycle` | muduo/base/AsyncLogging.cc:109-131 | refines the refilling of the two spares from the batch; its asserts hold |
| `AsyncLogging.Logger.RunOnce` | muduo/base/AsyncLogging.cc:69-133 | one undisturbed round writes all that was behind the lock, or the notice and the first two buffers of more than 25, and leaves nothing there |
| `TcpConnections.BytesInOrder` | muduo/net/TcpConnection.cc:139-192 | for every run with arbitrary partial writes, bytes taken by the socket followed by the output buffer are the messages sent while connected without a fault of the direct write, one after the other; and while not disconnected write interest is on exactly when the output buffer is non-empty |
| `TcpConnections.SendAddsWholeMessage` | muduo/net/TcpConnection.cc:139-192 | a send on a connected connection adds its message to the bytes on the wire and waiting, all of it or nothing; nothing exactly when the direct write meets EPIPE or ECONNRESET, or the message is empty |
| `TcpConnections.ShutOnceAndDrained` | muduo/net/TcpConnection.cc:194-213 | the write side is shut at most once, only after a shutdown or forceClose and with every byte of every message taken on the wire; once a shutdown of the run found the connection connected it is never connected again, no later message is taken on, and the write side is shut unless it was disconnected or output is left |
| `TcpConnections.PhaseExact` | muduo/net/TcpConnection.cc:194-421 | the phase after any run: disconnected exactly if it was closed, else disconnecting exactly if a shutdown or forceClose took effect, else connected exactly if it was established |
| `TcpConnections.ForceClosesQueued` | muduo/net/TcpConnection.cc:239-269 | the forceClose functors queued are those asked for on an open connection and not yet run |
| `TcpConnections.NoticesExact` | muduo/net/TcpConnection.cc:154-191 | exactly the drainings of the output and its upward crossings of the high-water mark are announced, with the new backlog |
| `TcpConnections.HighWaterSeparated` | muduo/net/TcpConnection.cc:177-186 | between two high-water notifications of any run the backlog was at the mark or above and then fell below it |
| `TcpConnections.StepKeepsInv` | muduo/net/TcpConnection.cc:139-421 | every event on the loop thread keeps the bytes in order, the write interest and the shutdown state |
| `TcpConnections.TcpConnection.SendInLoop` | muduo/net/TcpConnection.cc:139-192 | refines the machine step on a real output buffer |
| `TcpConnections.TcpConnection.WriteDirectly` | muduo/net/TcpConnection.cc:150-174 | the attempt to write past an empty output buffer |
| `TcpConnections.TcpConnection.AppendRest` | muduo/net/TcpConnection.cc:177-191 | the rest joins the output buffer, write interest goes on, and a crossing of the mark is announced |
| `TcpConnections.TcpConnection.HandleWrite` | muduo/net/TcpConnection.cc:368-406 | refines the machine step: retrieve what was written, and when drained stop writing, announce it and finish a pending shutdown |
| `TcpConnections.TcpConnection.RequestShutdown` | muduo/net/TcpConnection.cc:194-203 | refines the machine step of shutdown |
| `TcpConnections.TcpConnection.ShutdownInLoop` | muduo/net/TcpConnection.cc:205-213 | shuts the write side unless output is still being written |
| `TcpConnections.TcpConnection.RequestForceClose` | muduo/net/TcpConnection.cc:239-247 | refines the machine step of forceClose |
| `TcpConnections.TcpConnection.ForceCloseInLoop` | muduo/net/TcpConnection.cc:261-269 | refines the machine step of its functor |
| `TcpConnections.TcpConnection.HandleClose` | muduo/net/TcpConnection.cc:408-421 | disconnected, with no interest left |
| `TcpConnections.TcpConnection.ConnectEstablished` | muduo/net/TcpConnection.cc:323-332 | connected from connecting |
| `TcpConnections.TcpConnection.ConnectDestroyed` | muduo/net/TcpConnection.cc:334-345 | disconnected if it was connected, and otherwise as it was, from any state |
| `Codec.StreamRoundTrip` | muduo/net/protobuf/ProtobufCodecLite.cc:42-97 | any list of messages within the length limit, encoded and fed back in any chunks, is delivered exactly as far as the raw callback lets it through, with nothing left |
| `Codec.AllLetThrough` | muduo/net/protobuf/ProtobufCodecLite.cc:72-76 | without a raw callback that is the whole list |
| `Codec.CorruptionStopsThere` | muduo/net/protobuf/ProtobufCodecLite.cc:58-97 | with one byte of a frame's tag, payload or checksum changed, exactly the frames before it are delivered in any chunking, as far as let through, and the rest stays in the buffer |
| `Codec.ChunksDoNotMatter` | muduo/net/protobuf/ProtobufCodecLite.cc:58-97 | every byte string, good or bad, gives the same messages, leftover bytes and error in any chunks |
| `Codec.DecodeContinues` | muduo/net/protobuf/ProtobufCodecLite.cc:58-97 | decoding the leftover with what arrives next continues the decoding of the whole |
| `Codec.JudgeStable` | muduo/net/protobuf/ProtobufCodecLite.cc:62-96 | a decision once taken does not depend on later bytes |
| `Codec.ChecksumSeesOneByte` | muduo/net/protobuf/ProtobufCodecLite.cc:195-207 | one changed byte always changes the Adler-32 checksum |
| `Codec.FirstSum` | muduo/net/protobuf/ProtobufCodecLite.cc:195-199 | the first Adler-32 sum is one more than the sum of the bytes, modulo 65521 |
| `Codec.SecondSum` | muduo/net/protobuf/ProtobufCodecLite.cc:195-199 | the second one is the length plus each byte times its distance from the end, modulo 65521 |
| `Codec.CorruptBodyRefused` | muduo/net/protobuf/ProtobufCodecLite.cc:201-242 | any one byte of tag, payload or checksum changed is reported as a checksum error |
| `Codec.WrongTagRefused` | muduo/net/protobuf/ProtobufCodecLite.cc:217-234 | a well-formed frame of another tag is an unknown message type |
| `Codec.UnparsableRefused` | muduo/net/protobuf/ProtobufCodecLite.cc:222-229 | a well-formed frame whose payload does not parse is a parse error |
| `Codec.LengthLimitExact` | muduo/net/protobuf/ProtobufCodecLite.cc:64-69 | a length is invalid if and only if it is over 64 MiB or shorter than the tag and checksum |
| `Codec.FillEmptyBuffer` | muduo/net/protobuf/ProtobufCodecLite.cc:42-56 | an empty buffer then holds the length, tag, payload and checksum of one frame |
| `Codec.OnMessage` | muduo/net/protobuf/ProtobufCodecLite.cc:58-97 | the loop over the buffer refines the recursive decoder: messages, bytes left and error |
| `Codec.HandleFrame` | muduo/net/protobuf/ProtobufCodecLite.cc:62-96 | one round takes a whole good frame out, and leaves a bad or partial one |
| `Pollers.PollersAgree` | muduo/net/poller/EPollPoller.cc:107-170 | after any legal run poll looks at exactly the channels of non-empty interest, with their events; and if no channel of empty interest was updated to empty again, the epoll set is exactly those too |
| `Pollers.KernelExact` | muduo/net/poller/EPollPoller.cc:107-170 | after any legal run every epoll_ctl was an ADD of an absent or a MOD or DEL of a present descriptor, and a channel is in the epoll set, with its events, if and only if its empty updates since the last non-empty one are even in number |
| `Pollers.KernelIsInterestExactly` | muduo/net/poller/EPollPoller.cc:107-170 | the epoll set is exactly the channels of non-empty interest, with their events, if and only if every registered channel of empty interest has had an odd number of empty updates in a row |
| `Pollers.PollIndexesExact` | muduo/net/poller/PollPoller.cc:75-140 | after any legal run each index names its channel's slot, with its events, negated exactly when the interest is empty, and there are no other slots |
| `Pollers.PollAssertsHold` | muduo/net/poller/PollPoller.cc:112-122 | the asserts of removal hold for a channel of empty interest in every reachable state |
| `Pollers.PollRemoveCoupled` | muduo/net/poller/PollPoller.cc:123-139 | removal, with its swap with the last slot, keeps slots and indexes coupled |
| `Pollers.PollStepCoupled` | muduo/net/poller/PollPoller.cc:75-140 | every update and removal keeps slots and indexes coupled |
| `Pollers.EPollStepCoupled` | muduo/net/poller/EPollPoller.cc:107-170 | every update and removal keeps marks, kernel set and interest coupled |
| `Pollers.EmptyUpdateToggles` | muduo/net/poller/EPollPoller.cc:113-148 | an update with empty interest moves a registered channel into or out of the kernel set, every time |
| `Pollers.DisabledTwiceIsInKernel` | muduo/net/poller/EPollPoller.cc:113-148 | a run after which the descriptor of a channel with no interest is in the epoll set, so that its errors and hang-ups are reported, while poll looks at no slot of it |
| `Pollers.PollPoller.UpdateChannel` | muduo/net/poller/PollPoller.cc:75-110 | refines the slot update on real channels and slots |
| `Pollers.PollPoller.RemoveChannel` | muduo/net/poller/PollPoller.cc:112-140 | refines the removal on real channels and slots |
| `Pollers.EPollPoller.UpdateChannel` | muduo/net/poller/EPollPoller.cc:107-149 | refines the mark machine on real channels |
| `Pollers.EPollPoller.RemoveChannel` | muduo/net/poller/EPollPoller.cc:151-170 | refines the removal on real channels |
| `Pollers.EPollPoller.EpollCtl` | muduo/net/poller/EPollPoller.cc:172-192 | the effect of one system call on the kernel set |
| `Http.ChunksDoNotMatter` | muduo/net/http/HttpContext.cc:48-87 | for every byte string and every cutting into chunks, fed until everything is there or an error, the parser ends in the same state, request fields and leftover bytes as when fed whole |
| `Http.ParseContinues` | muduo/net/http/HttpContext.cc:48-87 | parsing goes on from the leftover exactly as if the bytes had come together |
| `Http.ParseSettled` | muduo/net/http/HttpContext.cc:48-87 | a call that wants more leaves no complete line behind |
| `Http.WellFormedRequestParsed` | muduo/net/http/HttpContext.cc:16-87 | every well-formed request, whatever follows, is parsed to exactly its method, target, query, version and trimmed headers, leaving what follows |
| `Http.RequestLineRead` | muduo/net/http/HttpContext.cc:16-45 | a well-formed request line is read back to its parts |
| `Http.AcceptedLineIsWellFormed` | muduo/net/http/HttpContext.cc:16-45 | only lines of a known method, a target and HTTP/1.0 or HTTP/1.1 with single spaces between are accepted, and the request holds exactly those parts |
| `Http.ParseKeepsReady` | muduo/net/http/HttpRequest.h:59-61 | until its first error the parser never finds a method set already, as setMethod asserts |
| `Http.ReadyAfterError` | muduo/net/http/HttpRequest.h:59-88 | after an error the assert of setMethod would hold at a further call if and only if the bad line had no space or began with an unknown method |
| `Http.BadLineBreaksAssert` | muduo/net/http/HttpRequest.h:59-61 | a bad line after which it would not hold |
| `Http.HeadersEndExactly` | muduo/net/http/HttpContext.cc:66-81 | the headers end at the first complete line that has no colon, and exactly what follows it is left |
| `Http.HeadersGoOn` | muduo/net/http/HttpContext.cc:66-81 | while all complete lines have a colon, the headers go on |
| `Http.EmptyLineEndsHeadersExactly` | muduo/net/http/HttpContext.cc:66-81 | the headers end at an empty line if and only if every line before it has a colon |
| `Http.BareLineEndsHeaders` | muduo/net/http/HttpContext.cc:69-77 | a non-empty line without a colon ends the headers, and a later header field is left as if it were the body |
| `Http.HeadersRead` | muduo/net/http/HttpContext.cc:66-81 | any list of well-formed header fields is read to the map of their trimmed values, up to the empty line |
| `Http.ValueTrimmed` | muduo/net/http/HttpRequest.h:141-155 | blanks around a field value are removed, and nothing else |
| `Http.HttpContext.ProcessRequestLine` | muduo/net/http/HttpContext.cc:16-45 | refines the request-line specification, partial fields included, under the assert of setMethod |
| `Http.HttpContext.AddHeader` | muduo/net/http/HttpRequest.h:141-155 | the two trimming loops refine the recursive specification |
| `Http.HttpContext.ProcessLine` | muduo/net/http/HttpContext.cc:52-78 | one line refines its specification |
| `Http.HttpContext.ParseNextLine` | muduo/net/http/HttpContext.cc:51-85 | one round of the loop; while it goes on the readable bytes decrease |
| `Http.HttpContext.ParseRequest` | muduo/net/http/HttpContext.cc:48-87 | from the request-line or header state the loop terminates, refines the recursive parser, and is ready for the next call unless it failed or is done |
| `Monitors.NoStrandedSleeper` | muduo/base/BoundedBlockingQueue.h:29-65 | in every interleaving with spurious wakeups, while a consumer sleeps the items number at most the woken consumers, and while a producer sleeps the free slots number at most the woken producers |
| `Monitors.ItemsLeaveInOrder` | muduo/base/BoundedBlockingQueue.h:29-65 | items taken and then those queued are exactly the items that the steps of the run put, in order, each by the producer that asked for it; and the queue never exceeds the capacity |
| `Monitors.NoDeadlock` | muduo/base/BoundedBlockingQueue.h:29-65 | producers and consumers are never all asleep together, for a capacity above zero |
| `Monitors.StopReleasesAll` | muduo/base/ThreadPool.cc:52-118 | once `stop` is in the run nobody is asleep, nobody falls asleep again, and a thread inside leaves at its next turn |
| `Monitors.RunningUntilStop` | muduo/base/ThreadPool.cc:52-59 | the monitor runs if and only if no step of the run was a stop |
| `Monitors.StepKeepsInv` | muduo/base/ThreadPool.cc:52-118 | every stay in the mutex, spurious wakeup and stop keeps the counts behind these results |
| `Monitors.Monitor.Put` | muduo/base/ThreadPool.cc:72-91 | refines one producer turn: wait, give up after stop, or push and notify, waking any sleepers that a signal may wake |
| `Monitors.Monitor.Take` | muduo/base/ThreadPool.cc:93-112 | refines one consumer turn: wait, leave empty-handed after stop, or pop and notify, waking any sleepers that a signal may wake |
| `Monitors.Monitor.PutAgain` | muduo/base/ThreadPool.cc:81-90 | refines the turn of a producer woken in its wait loop |
| `Monitors.Monitor.TakeAgain` | muduo/base/ThreadPool.cc:97-111 | refines the turn of a consumer woken in its wait loop |
| `RpcChannels.OutstandingIsUnanswered` | muduo/net/protorpc/RpcChannel.cc:50-115 | in every run of two endpoints, the outstanding ids are exactly those the run records less those whose response it takes off the wire, each response completes a call at once, and no call completes twice |
| `RpcChannels.CompletedWithOwnReply` | muduo/net/protorpc/RpcChannel.cc:79-183 | every completed call is the id-th one the run makes at its end; at the other end a service given just its payload under this id finished with the reply it completed with, or the request off the wire was refused with that error |
| `RpcChannels.OutstandingIsSomewhere` | muduo/net/protorpc/RpcChannel.cc:50-183 | an outstanding call is with its caller, on a wire, or being served |
| `RpcChannels.StepKeepsInv` | muduo/net/protorpc/RpcChannel.cc:50-183 | every step of either endpoint keeps each call in one place and each reply with its request |
| `RpcChannels.ReceiveKeeps` | muduo/net/protorpc/RpcChannel.cc:79-173 | so does the receipt of any message, whatever is decided about a request |
| `RpcChannels.RpcChannel.CallMethod` | muduo/net/protorpc/RpcChannel.cc:50-70 | the next id, recorded before the request is sent |
| `RpcChannels.RpcChannel.OnRpcMessage` | muduo/net/protorpc/RpcChannel.cc:79-173 | refines the receipt: a response completes its call if that is outstanding, a request is answered or dispatched, and an ERROR message is ignored |
| `RpcChannels.RpcChannel.DoneCallback` | muduo/net/protorpc/RpcChannel.cc:175-183 | refines the reply to a served request |
| `GapBuffer.Buffer.constructor` | muduo/net/Buffer.h:48-56 | an empty buffer with the prepend area in front |
| `GapBuffer.Buffer.Retrieve` | muduo/net/Buffer.h:113-124 | drops exactly the first bytes of the contents |
| `GapBuffer.Buffer.RetrieveAsString` | muduo/net/Buffer.h:164-170 | returns exactly the bytes it drops |
| `GapBuffer.Buffer.MakeSpace` | muduo/net/Buffer.h:390-409 | keeps the contents through growing and through moving, leaves the room asked for, and grows exactly when moving would not make it |
| `GapBuffer.Buffer.EnsureWritableBytes` | muduo/net/Buffer.h:194-201 | keeps the contents and leaves the room asked for |
| `GapBuffer.Buffer.Append` | muduo/net/Buffer.h:182-187 | the contents with the data behind |
| `GapBuffer.Buffer.Unwrite` | muduo/net/Buffer.h:215-219 | the contents without their last bytes |
| `GapBuffer.Buffer.Prepend` | muduo/net/Buffer.h:354-360 | the contents with the data in front |
| `GapBuffer.Buffer.Shrink` | muduo/net/Buffer.h:362-369 | keeps the contents, in an array of exactly the initial size or the size they need with the reserve, whichever is larger |
| `GapBuffer.Buffer.ReadFd` | muduo/net/Buffer.cc:25-57 | whatever the scatter read returns, exactly those bytes are appended; an error changes nothing |
| `GapBuffer.Buffer.AppendInt` | muduo/net/Buffer.h:224-249 | the contents with the big-endian bytes of an 8, 16, 32 or 64-bit integer behind |
| `GapBuffer.Buffer.PrependInt` | muduo/net/Buffer.h:328-352 | the contents with those bytes in front |
| `GapBuffer.Buffer.PeekInt` | muduo/net/Buffer.h:290-324 | the integer whose encoding the contents start with |
| `GapBuffer.Buffer.ReadInt` | muduo/net/Buffer.h:254-284 | that integer, taken off the front |
| `GapBuffer.IntsReadBack` | muduo/net/Buffer.h:224-284 | any mix of integer widths is read back in the order it was appended, leaving what followed |
| `GapBuffer.FindCRLFIsLeftmost` | muduo/net/Buffer.h:80-85 | the search answers the leftmost CR LF, and nothing exactly when there is none |
| `Bytes.DecodeEncodeInt` | muduo/net/Buffer.h:224-324 | decoding the big-endian bytes of an integer that fits gives it back |
| `Bytes.EncodeDecodeInt` | muduo/net/Buffer.h:224-324 | encoding a decoded integer gives the bytes back |
| `Calendar.NumberOfBrokenDay` | muduo/base/Date.cc:21-43 | every day number from -32044 on is broken into a valid date whose number it is |
| `Calendar.DateOfItsNumber` | muduo/base/Date.cc:21-43 | every valid Gregorian date from the origin on is recovered from its number |
| `Calendar.ConsecutiveDays` | muduo/base/Date.cc:21-28 | consecutive calendar days get consecutive numbers, across months, leap days and centuries |
| `Calendar.BrokenDayValidExactlyFromOrigin` | muduo/base/Date.cc:30-43 | a day number is broken into a valid date if and only if it is at least -32044 |
| `Calendar.JulianDayNumberInjective` | muduo/base/Date.cc:21-28 | two valid dates from the origin on never share a number |
| `Calendar.YearMonthDay32` | muduo/base/Date.cc:30-43 | while 4*(j+32044)+3 fits 32 bits, no intermediate of the conversion overflows, and it computes the unbounded result |
| `Calendar.JulianDayNumber32` | muduo/base/Date.cc:21-28 | likewise for the day number of the dates this yields |
| `Calendar.DayNumber32` | muduo/base/Date.cc:21-28 | on any three numbers for which no intermediate overflows, dates or not, the 32-bit computation is the unbounded one |
| `TimeZone.EpochDay` | muduo/base/Date.cc:45-45 | the constant is the number of 1 January 1970 |
| `TimeZone.RebuildBroken` | muduo/base/TimeZone.cc:285-312 | breaking any second from the origin on and rebuilding it gives that second |
| `TimeZone.BreakRebuilt` | muduo/base/TimeZone.cc:496-502 | every valid date and time is recovered from its second |
| `TimeZone.FromUtcTime32` | muduo/base/TimeZone.cc:496-502 | with 32-bit fields and day number and 64-bit seconds, wherever no intermediate overflows, the unbounded result |
| `TimeZone.BrokenFits` | muduo/base/TimeZone.cc:293-312 | whatever BreakTime makes, fromUtcTime can take without overflow |
| `TimeZone.SplitDay` | muduo/base/TimeZone.cc:293-303 | truncating division with the fix-up for negative remainders is flooring division |
| `TimeZone.BreakTime` | muduo/base/TimeZone.cc:293-312 | the step-by-step break-down is the flooring one, valid, and undone by fromUtcTime |
| `Zones.LocalReadingsClassified` | muduo/base/TimeZone.cc:356-428 | for every well-spaced table and every local second from the first transition's up to the last's: both answers are exactly the UTC seconds showing it, the earlier with false; or none shows it, the answers differ by the clock change that skipped it, and lie on the two sides of that transition |
| `Zones.AnswersRecoverSeconds` | muduo/base/TimeZone.cc:356-428 | a UTC second from the first transition on is one of the two answers for its reading if and only if that reading does not recur after the last transition |
| `Zones.RepeatAtLastIsLost` | muduo/base/TimeZone.cc:367-376 | such seconds exist: a table whose last transition turns clocks back loses the first of the repeated hours for both flags |
| `Zones.AnswersRecoverEarlySeconds` | muduo/base/TimeZone.cc:361-365 | before the first transition a second is recovered if and only if its reading is before the first transition's |
| `Zones.LocalTimeRoundTrip` | muduo/base/TimeZone.cc:459-489 | through break-down, both searches and rebuilding, one flag gives the second back if and only if it is not such a repeated one |
| `Zones.FixedOffsetExact` | muduo/base/TimeZone.cc:330-366 | a table without transitions is one offset, forwards and backwards and for both flags |
| `Zones.LocalTimeAndBack` | muduo/base/TimeZone.cc:459-489 | toLocalTime, then fromLocalTime with both flags, on a well-spaced table: one of the answers is the second if and only if it is not repeated at the last transition |
| `Zones.TablesAscending` | muduo/base/TimeZone.cc:337-340 | a well-spaced table is ascending in both columns, as the two binary searches need |
| `Zones.BinaryUpperBound` | muduo/base/TimeZone.cc:337-340 | the binary search finds the upper bound in an ascending table |
| `Zones.FindLocalTime` | muduo/base/TimeZone.cc:316-354 | the type in force at a UTC second |
| `Zones.TypeAtUtcInForce` | muduo/base/TimeZone.cc:316-354 | that type belongs to the segment of the table which contains the second |
| `Zones.FindLocalTimeOfLocal` | muduo/base/TimeZone.cc:356-428 | refines the case analysis of a local second |
| `Zones.ToLocalTime` | muduo/base/TimeZone.cc:459-476 | the broken-down local time, which with the offset returned names the second again |
| `Zones.FromLocalTime` | muduo/base/TimeZone.cc:478-489 | the answer for the local second named, computed with the 32-bit fields and day number of the source |
| `ZoneFile.ZoneFileRoundTrip` | muduo/base/TimeZone.cc:169-283 | for every version-2 file of RFC 8536, section 3, with both blocks encoded from their tables, the version-1 block is skipped exactly and the transitions, offsets, designations and footer of the second come back; leap seconds or a type index out of range are refused |
| `ZoneFile.OldZoneFileRoundTrip` | muduo/base/TimeZone.cc:270-275 | for every version-1 file the 4-byte transitions, offsets and designations come back, under the same refusals |
| `ZoneFile.FirstBlockSize` | muduo/base/TimeZone.cc:260-262 | the bytes skipped are exactly those of the version-1 block: times, indices, types, designations, leap seconds and indicators |
| `ZoneFile.ShortZoneFileRefused` | muduo/base/TimeZone.cc:169-283 | every prefix that stops before the designation bytes end is refused |
| `ZoneFile.TransitionsExact` | muduo/base/TimeZone.cc:218-222 | all transitions are added, in order and with their local times, if and only if every type index is in range |
| `ZoneFile.BlockEncoded` | muduo/base/TimeZone.cc:169-224 | an encoded data block of either width is read back whatever follows |
| `ZoneFile.BlockExtends` | muduo/base/TimeZone.cc:169-224 | a block that is read is read the same with more bytes behind it |
| `ZoneFile.ReadTimeZoneFile` | muduo/base/TimeZone.cc:238-283 | the cursor-moving reader computes the reader function on every byte string |
| `ZoneFile.ReadDataBlock` | muduo/base/TimeZone.cc:169-236 | likewise for one data block with its indicators and footer |
| `ZoneFile.ReadBlock` | muduo/base/TimeZone.cc:169-224 | likewise up to the designations, with the checks on the counts |
| `ZoneFile.ReadTypes` | muduo/base/TimeZone.cc:208-216 | the loop reads the types in order |
| `ZoneFile.ReadTimes` | muduo/base/TimeZone.cc:186-198 | the loop reads the transition times in order |
| `ZoneFile.AddTransitions` | muduo/base/TimeZone.cc:218-222 | the loop adds the transitions in order, or fails on a type that does not exist |
| `ZoneFile.File.ReadBytes` | muduo/base/TimeZone.cc:111-118 | the next bytes, all or nothing |
| `ZoneFile.File.Skip` | muduo/base/TimeZone.cc:159-162 | moves the cursor; before the start of the file it stays |

## Left out

- System calls themselves (sockets, epoll_wait, poll, timerfd, eventfd, files, threads): their results are parameters.
- `send`, `shutdown` and `forceClose` from other threads racing with the loop, `startRead` and `stopRead`, and direct edits of the output buffer: the source marks the races as open.
- `TcpServer`, `TcpClient`, `Connector`, `Acceptor`: lifetimes rest on shared_ptr details. The removal of the channel in `connectDestroyed`, which asserts that no interest is left, is outside the connection model.
- Handling of active channels in `EventLoop::loop` beyond the wakeup channel: handlers are steps that may queue functors.
- EventLoops.NoLostWakeup: at the first poll it asks for a functor queued since `loop` began, because functors queued by the loop thread before it wake nothing.
- `quit` before `loop`: the source overwrites the flag.
- TimerQueues.PendingTimerIsAwaited: times are unbounded integers and the interval is whole microseconds; double rounding of the interval is not modelled.
- The wakeup latency of the timerfd: a batch may begin at any time, whatever the deadline was.
- The order of `std::set` on addresses: addresses are numbers, all below the largest one, which `getExpired` uses as sentry.
- Re-registering a removed channel with PollPoller: the source leaves the index set.
- Pollers.PollIndexesExact: a channel's first registration has non-empty interest, as the source's own enable calls make it.
- `EPollPoller::poll`, `fillActiveChannels` and the growth of the event array.
- Codec.StreamRoundTrip: protobuf serialisation is a payload of bytes with a predicate for what parses; the raw callback and the parser are pure predicates.
- Codec.CorruptionStopsThere: the error callback takes nothing out of the buffer; the default one closes the connection.
- zlib: Adler-32 is defined from section 2.2 of RFC 1950.
- Http.HttpContext.ParseRequest: called in the states for the request line and headers only; in the other two the loop of the source does not end.
- The receive time of an HTTP request, the response side, and request bodies.
- Monitors.Monitor.Put: a pool without threads runs what it is given in the caller, which has no monitor step.
- `BoundedBlockingQueue` storage: the circular buffer is a sequence.
- RpcChannels.RpcChannel.OnRpcMessage: payloads and error codes are opaque numbers, so the parsing of a reply is not modelled.
- The ids of calls are unbounded, so the wrap-around of a 64-bit counter is not modelled.
- GapBuffer.Buffer.ReadInt: the four integer widths are one method with a width parameter.
- GapBuffer.Buffer.Append: sizes are unbounded, so vector reallocation failure is not modelled.
- Zones.ToLocalTime: seconds are unbounded integers, so 64-bit overflow is not modelled; a second whose day number leaves the 32-bit range of the calendar, on which C++ gives the source no meaning, is outside its precondition, and so outside `Zones.LocalTimeRoundTrip`.
- Zones.LocalReadingsClassified: for tables whose transitions are further apart than the clock changes at both ends, as all real ones are.
- The POSIX TZ footer: read but never used by the source.
- ZoneFile.ReadTimeZoneFile: a negative designation count, on which the source has undefined behaviour, is refused; the sum of the counts to skip is unbounded.
- Version-3 files take the version-1 path, as in the source.
- Log formatting, log file rolling and flushing, human-readable sizes, inspectors, singletons, latches and atomics: easy members.
