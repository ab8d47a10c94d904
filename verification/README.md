# A Dafny model of the muduo C++20 reactor library

The library runs one event loop per thread and builds timers, TCP connections, stream
decoders, RPC and asynchronous logging on it. This project models the parts whose
correctness depends on order, re-entrancy or arithmetic, and proves what their assertions
and comments take for granted. `dafny verify dfyconfig.toml` checks the whole project.

| file | models | main results |
|---|---|---|
| `ThreadPool.dfy`, `PoolProgress.dfy` | the sharded work-stealing pool, one program counter per producer and worker | no wake-up is lost, tasks are conserved, the bound is respected, in every interleaving; every schedule ends with every task taken; when `stop` leaves a producer waiting |
| `Timers.dfy` | the timer queue with its four indexes and the kernel timer | the indexes agree under re-entrant callbacks; run counts; never early, never missed; repeating timers last |
| `Lifecycle.dfy`, `LifecycleEnds.dfy` | connections, the server's map and the loops' functor queues | each connection lives its life once and in order; exactly what ends a life, and that it then runs its course; which assertions hold, exactly when |
| `Connection.dfy` | one connection: event dispatch, and the output path with half-close from any thread | the byte stream is conserved; exactly when a half-close is clean |
| `EventLoop.dfy` | the pending-functor queue and the eventfd, over any number of calls of loop() | FIFO, exactly once, everything can be run, and exactly when the loop sleeps on work |
| `Buffer.dfy`, `Bytes.dfy`, `Words.dfy` | the two-index buffer and the byte-order functions | refinement of a byte sequence; the bit expressions swap the bytes of the value |
| `Codec.dfy` | the length / tag / checksum codec | round trip and its converse under any chunking; the checksum is Adler-32; one changed byte is always caught |
| `Http.dfy` | the incremental request parser | chunk independence; parsing inverts rendering; which request lines are accepted and which inputs are complete, exactly |
| `Pollers.dfy` | the poll and epoll back ends | index bijection, legal kernel calls, agreement of the two, and where they differ |
| `AsyncLog.dfy`, `LogDesk.dfy`, `LogBook.dfy`, `Logger.dfy` | the sharded asynchronous logger: what its buffers hold, who owns each, the account of every byte, and the class over real buffers | no two places share a buffer; bytes are conserved per shard; what is dropped and when |
| `Rpc.dfy`, `RpcProgress.dfy` | RpcChannel between two ends | every call is answered once, with the body its service gave; every schedule ends with every call done |
| `Date.dfy` | the Julian day formula | it counts calendar days; exactly where it does not |

Objects that one thread updates are classes whose methods are proved against functions on
values: the buffer, the parser, the timer queue, the connection, the pollers, the logger and
the RPC channel. Protocols between threads are step relations on values: the pool, the
functor queue, the removal protocol, the timer queue with its clock, and the two RPC ends. A
step is one lock section, one atomic operation, one system call or one callback, and `IsRun`
and `After` range over every sequence of steps. The steps of a machine and the methods of the
class beside it use the same functions, so what is proved of runs is about what the methods do.

These properties one would expect are false of the code. Each has a lemma that shows the
failure and a lemma that gives the exact condition.

- The day number does not grow by one over every night. It fails exactly at the end of a
  February at or before year -4800 next to a leap year, because division truncates toward
  zero (`Date.SuccessionBreaks`, `Date.SuccessionExact`).
- The weekday is not always a number from 0 to 6. It is exactly from day number -1 on, and
  before that on Sundays only, because `%` truncates (`Date.WeekDayBreaks`,
  `Date.WeekDayExact`).
- The loop can sleep on queued functors. It does so exactly in the first poll of a call of
  `loop()`, when its own thread queued something outside `loop()` that was not yet swapped out
  and no wake-up is unread or on its way (`EventLoop.SleepsInFirstCall`,
  `EventLoop.SleepsInLaterCall`, `EventLoop.FunctorsRunInOrder`).
- The assertion in `handleClose` can fail. It does so exactly when a closing event reaches a
  connection that is closed already, for example one that an earlier callback of the same poll
  has closed, or when one event closes twice (`Lifecycle.StaleEventFails`,
  `Lifecycle.EventAssertions`).
- The assertion in `Channel::remove` can fail. It does so exactly if a `startRead` after the
  close is in force (`Lifecycle.LateReadFails`, `Lifecycle.AssertionsHold`).
- Bytes can wait behind a write side that is shut. They do so exactly if a message was sent
  after the shutdown and the kernel refused it otherwise than with EPIPE or ECONNRESET
  (`Connection.StrayBytes`, `Connection.CleanHalfClose`).
- `stop` does not always release every producer. Once no worker takes tasks any more, one at
  the semaphore never returns exactly if `stop` counted nobody as waiting and the queues are
  full, with what is about to be pushed (`PoolProgress.StopLeavesProducer`,
  `PoolProgress.LeftWaitingExactly`).
- A quit does not always end the loop. It ends exactly a call of `loop()` that has begun; one
  set outside `loop()` is cleared by the next call (`EventLoop.QuitOutsideIsLost`,
  `EventLoop.QuitEndsCall`).
- A cancel is not always final. It is exactly if the timer has been added; one that overtakes
  the queued add does nothing, and the timer runs (`Timers.CancelFinalExactly`).
- The header section does not always end at its empty line. It does exactly if every line
  before it has a colon; any other line ends it too (`Http.FieldsCutOff`,
  `Http.EndsAtBlankExactly`).
- The two pollers do not watch the same quiet descriptors for hang-up and error. They agree on
  one exactly if it has interest or is not registered, or has been updated without interest an
  odd number of times since it last had any, or, if it never had any, once or an even number of
  times (`Pollers.QuietDiffers`, `Pollers.AgreeExactly`).

## Model

| member | source | states |
|---|---|---|
| `ThreadPool.EveryRun` | muduo/base/ThreadPool.cc:57-216 | every step of producers, workers and `stop` keeps all of: no lost wake-up, no worker gone while running, permits of released workers, slot balance, the count of waiting producers, counter lag, conservation of tasks |
| `ThreadPool.WakeupNotLost` | muduo/base/ThreadPool.cc:126-216 | in every reachable state a worker that found its queue empty and checks, scans or sleeps, while that queue is not empty, has a permit or a producer about to give it one |
| `ThreadPool.QueuesBounded` | muduo/base/ThreadPool.cc:109-194 | the queues respect the bound; free slots + slots held by producers + queued tasks = the bound, and what `stop` has granted; `queuedTasks_` is short by exactly what was pushed and not yet counted |
| `ThreadPool.ExactlyOnePlace` | muduo/base/ThreadPool.cc:109-194 | a task submitted once is in exactly one place: a producer's hand, a queue, taken by a worker, or refused; while running none is refused |
| `ThreadPool.ReleasedForGood` | muduo/base/ThreadPool.cc:57-79 | once `stop` has released a worker, in no continuation does it sleep without a permit |
| `ThreadPool.NothingLeftBehind` | muduo/base/ThreadPool.cc:57-216 | in every reachable state with all producers idle and all workers asleep without a permit, every queue is empty and everything submitted was taken or refused; while running, everything was taken |
| `ThreadPool.PushWakes` | muduo/base/ThreadPool.cc:126-144 | a push keeps the wake-up invariant: if the queue was empty the producer is left about to signal |
| `ThreadPool.WorkWakes` | muduo/base/ThreadPool.cc:146-216 | a worker's pop, steal, failed scan or sleep keeps the wake-up invariant |
| `ThreadPool.PopPlaces` | muduo/base/ThreadPool.cc:151-194 | a pop from the front or a steal from the back moves one queued task to exactly one worker |
| `ThreadPool.HandedOn` | muduo/base/ThreadPool.cc:109-140 | a producer keeps its task in hand until it pushes it or has it refused |
| `PoolProgress.EverythingIsTaken` | muduo/base/ThreadPool.cc:109-216 | from every reachable state of a running pool, every schedule without new submissions has at most a known number of steps, and where it can go no further every producer is done, every worker asleep, every queue empty and everything submitted taken; some schedule gets there |
| `PoolProgress.ComesToRest` | muduo/base/ThreadPool.cc:57-216 | no schedule of producers, workers and a begun `stop` goes on for ever |
| `PoolProgress.TakesOwnFirst` | muduo/base/ThreadPool.cc:151-165 | a worker at the top of its loop takes, in two steps, the first task of its own queue |
| `PoolProgress.StealsFromNearest` | muduo/base/ThreadPool.cc:174-192 | a worker that found its queue empty, while tasks are counted, takes the last task of the nearest queue after its own that has one |
| `PoolProgress.PushesLast` | muduo/base/ThreadPool.cc:134-138 | a pushed task is the last of its queue, and will be signalled exactly if it is the only one |
| `PoolProgress.CountsAndSignals` | muduo/base/ThreadPool.cc:140-143 | what was pushed is counted, and its worker signalled or not |
| `PoolProgress.OneWorkerInOrder` | muduo/base/ThreadPool.cc:126-165 | with one worker, tasks taken ++ tasks queued = tasks pushed, in order, over every run |
| `PoolProgress.EveryWorkerInTurn` | muduo/base/ThreadPool.cc:131-133 | of as many picks in a row as there are workers, each worker is picked |
| `PoolProgress.TakesAtMostOneMore` | muduo/base/ThreadPool.cc:206-213 | after the flag, in every run, a worker takes at most one more task, and only if it had passed the test of the flag |
| `PoolProgress.StopEnds` | muduo/base/ThreadPool.cc:57-79 | after `stop` has begun every schedule ends with all workers gone, and all producers returned if permits were granted, or the queues are not full, or there is no bound |
| `PoolProgress.StopGrants` | muduo/base/ThreadPool.cc:63-68 | `stop` grants exactly as many permits as producers are at the semaphore when it reads the count |
| `PoolProgress.StopFreesAll` | muduo/base/ThreadPool.cc:63-68 | if anyone is at the semaphore then, in the end no producer is left waiting |
| `PoolProgress.LeftWaitingExactly` | muduo/base/ThreadPool.cc:109-124 | once no worker takes tasks any more, a producer at the semaphore returns in no continuation if and only if nobody was counted and the queues are full, with what is about to be pushed |
| `PoolProgress.StopLeavesProducer` | muduo/base/ThreadPool.cc:113-115 | a run in which a producer is counted only after `stop` has read the count, and waits for ever |
| `Timers.EveryRun` | muduo/net/TimerQueue.cc:92-225 | in every run, with adds and cancels between any two callbacks of a batch, entries, active set and owners agree, and between batches a non-empty queue has an unread expiry or a deadline no later than the earliest entry or 100 us after arming |
| `Timers.SizesAgree` | muduo/net/TimerQueue.cc:94-129 | the asserted equality of the two set sizes follows from the agreement |
| `Timers.ArmingArms` | muduo/net/TimerQueue.cc:26-57 | the timespec is legal and never zero, and the deadline is the later of the expiration and now + 100 us |
| `Timers.OneShotRunsOnce` | muduo/net/TimerQueue.cc:132-202 | a timer whose interval is not positive runs at most once in any run |
| `Timers.CancelIsFinal` | muduo/net/TimerQueue.cc:107-130 | after a cancel of an added timer it runs at most once more, only if it is in the batch at hand and has not started, and it is never active again |
| `Timers.CancelFinalExactly` | muduo/net/TimerQueue.cc:78-130 | in every reachable state, a cancel is final in all continuations if and only if the timer has been added; if not, some continuation runs it |
| `Timers.ResetAllResult` | muduo/net/TimerQueue.cc:175-193 | after reset exactly the timers of the batch with a positive interval that were not cancelled have become active, at now + interval; nothing else has changed |
| `Timers.RestartsKept` | muduo/net/TimerQueue.cc:175-193 | of the batch exactly those are still owned, each with an entry at now + interval |
| `Timers.RepeatingLasts` | muduo/net/Timer.h:17 | a timer with a positive interval that is not cancelled is in every run waiting, active or in the batch at hand |
| `Timers.RunsAnyNumber` | muduo/net/TimerQueue.cc:132-202 | and for every n some continuation runs it n times |
| `Timers.ExpiredExactly` | muduo/net/TimerQueue.cc:152-163 | a batch is exactly the entries at or before now, by time and then by sequence |
| `Timers.BatchBegins` | muduo/net/TimerQueue.cc:132-142 | a batch begins with the expiry read and nothing cancelled, and the owners kept |
| `Timers.NeverEarly` | muduo/net/TimerQueue.cc:132-150 | in every run no callback runs before its time |
| `Timers.NeverLate` | muduo/net/TimerQueue.cc:26-57 | in every run, between batches, a due entry 100 us after arming has an unread expiry |
| `Timers.TimerIsAdded` | muduo/net/TimerQueue.cc:78-105 | a new timer gets the next number, and once added is active and owned as it was made |
| `Timers.CollectedAgrees` | muduo/net/TimerQueue.cc:152-173 | taking the due entries off leaves the indexes in agreement, with the batch owned and not active |
| `Timers.FinishInv` | muduo/net/TimerQueue.cc:175-202 | reset re-arms so that no entry is missed, including entries at or before time 0, for which it does not re-arm |
| `Timers.AddInv` | muduo/net/TimerQueue.cc:92-105 | arming only when the earliest entry changes keeps every entry covered |
| `Timers.CancelInv` | muduo/net/TimerQueue.cc:107-130 | a cancel, which never re-arms, keeps every entry covered |
| `Timers.TimerQueue.Begin` | muduo/net/TimerQueue.cc:211-211 | the entry found is the least by time, then sequence |
| `Timers.TimerQueue.InsertTimer` | muduo/net/TimerQueue.cc:204-225 | both sets gain the timer, both insertions are new, the sets have equal sizes before and after, and the result says whether it is the earliest |
| `Timers.TimerQueue.AddTimerInLoop` | muduo/net/TimerQueue.cc:92-105 | the new queue and kernel timer; the indexes still agree and every assertion holds |
| `Timers.TimerQueue.CancelInLoop` | muduo/net/TimerQueue.cc:107-130 | the three cases of a cancel; the indexes still agree and every assertion holds |
| `Timers.TimerQueue.GetExpired` | muduo/net/TimerQueue.cc:152-173 | exactly the entries with expiration at or before now, in order, leave the sets and stay owned |
| `Timers.TimerQueue.Reset` | muduo/net/TimerQueue.cc:175-202 | the queue after the loop over the batch, and the timer re-armed for the earliest entry |
| `Timers.TimerQueue.HandleRead` | muduo/net/TimerQueue.cc:132-150 | every expired timer's callback runs, in order, whatever the callbacks before it added or cancelled and whenever the kernel timer elapses among them, and the final queue and timer |
| `Lifecycle.EveryRun` | muduo/net/TcpServer.cc:65-115 | every step, events for any registered channel included, keeps: one pending functor per connection in transit, in its own queue, and a state coherent with its history |
| `Lifecycle.LifeInOrder` | muduo/net/TcpServer.cc:65-115 | each connection is up, down, erased, destroyed, in this order and once each; it is referenced until destroyed; down means Disconnected, with empty interest unless a later startRead is in force |
| `Lifecycle.DrainedIsSettled` | muduo/net/TcpServer.cc:100-115 | with all queues empty a connection is open and listed, or has been up, down, erased and destroyed |
| `Lifecycle.AssertionsHold` | muduo/net/TcpConnection.cc:282-306 | the assertions of connectEstablished and removeConnectionInLoop always hold, that of Channel::remove exactly if no startRead after the close is in force |
| `Lifecycle.EventAssertions` | muduo/net/TcpConnection.cc:357-373 | in every run, for an event at any registered channel: the assertion of handleClose fails if and only if the connection is down and the event closes, or it is not and the event closes twice |
| `Lifecycle.StaleEventFails` | muduo/net/EventLoop.cc:90-94 | a run in which a callback closes another connection of the same poll, whose POLLIN then fails the assertion, with its interest empty |
| `Lifecycle.LateReadFails` | muduo/net/TcpConnection.cc:257-263 | a run in which a startRead after the close makes a closing event fail the assertion of handleClose, and the functor about to run that of Channel::remove |
| `LifecycleEnds.EventTakesDown` | muduo/net/TcpConnection.cc:308-323 | in every run, an event at a connection that is up takes it down if and only if it is a hang-up without POLLIN, or something to read that ends the stream or whose callback forces a close |
| `LifecycleEnds.LifeIsLived` | muduo/net/TcpServer.cc:65-115 | a connection that is down, or has a forceClose queued, has lived its whole life in every continuation that drains the queues; the functors alone can drain them |
| `LifecycleEnds.EndsIt` | muduo/net/TcpConnection.cc:211-244 | forceClose in any thread and each closing event end a life |
| `LifecycleEnds.NothingElseEndsIt` | muduo/net/TcpConnection.cc:192-373 | no other step does: the connection stays up, at most marked as disconnecting |
| `LifecycleEnds.ShutdownOnlyMarks` | muduo/net/TcpConnection.cc:192-202 | shutdown marks a connected one and ends nothing |
| `LifecycleEnds.ReadsWhileUp` | muduo/net/TcpConnection.cc:282-293 | in every run without a stopRead a connection that is up has read interest |
| `LifecycleEnds.InterestIsSet` | muduo/net/TcpConnection.cc:257-280 | startRead, stopRead and the output path set their own interest and change nothing else |
| `Connection.AssertionFailsExactly` | muduo/net/Channel.cc:51-88 | for every event mask and read result: the assertion of handleClose fails exactly on a double close of a live connection and on any close of one that is not live; otherwise the connection is unchanged or closed |
| `Connection.ClosesExactly` | muduo/net/Channel.cc:51-88 | a live connection is closed by an event, with its state, interest and report, if and only if the event is a hang-up without POLLIN, or something to read that ends the stream or whose callback forces a close |
| `Connection.DoubleClose` | muduo/net/Channel.cc:56-79 | a remark about masks: HUP with PRI and without POLLIN, and an end of stream, closes twice |
| `Connection.StreamConserved` | muduo/net/TcpConnection.cc:134-244 | over every sequence of sends, writable events, shutdown and forceClose in any thread, shutdownInLoop and closes: wire ++ waiting = the accepted messages in order |
| `Connection.CleanHalfClose` | muduo/net/TcpConnection.cc:192-209 | over every such sequence, while open, a shut write side has nothing waiting if and only if no message after the shutdown was refused otherwise than with EPIPE or ECONNRESET |
| `Connection.StrayBytes` | muduo/net/TcpConnection.cc:134-190 | a run in which such a message is left waiting behind the shut write side |
| `Connection.HalfCloseHappens` | muduo/net/TcpConnection.cc:204-209 | once shutdownInLoop has run, in every continuation an open connection with nothing waiting is shut |
| `Connection.WritableMoves` | muduo/net/TcpConnection.cc:325-355 | exactly the bytes the kernel takes go from the front of the buffer to the wire; when the half-close and write-complete follow |
| `Connection.SendMoves` | muduo/net/TcpConnection.cc:134-190 | what goes to the wire and what is buffered, for each answer of the kernel |
| `Connection.SendNotices` | muduo/net/TcpConnection.cc:150-182 | write-complete exactly for a message taken whole at once, high-water exactly when the mark is reached from below |
| `Connection.StateMoves` | muduo/net/TcpConnection.cc:192-244 | what shutdown, forceClose, shutdownInLoop and the close do to the state and the write side |
| `Connection.TcpConnection.SendInLoop` | muduo/net/TcpConnection.cc:134-190 | the message joins the stream whole or is dropped whole, exactly when disconnected or on EPIPE / ECONNRESET; write interest iff bytes wait; which callbacks are queued |
| `Connection.TcpConnection.HandleWrite` | muduo/net/TcpConnection.cc:325-355 | the front of the buffer goes to the wire; a drained buffer turns write interest off, queues write-complete and finishes a pending half-close |
| `Connection.TcpConnection.Shutdown` | muduo/net/TcpConnection.cc:192-202 | the state is set in the calling thread; the write side is shut at once in the loop thread exactly if nothing waits, and elsewhere shutdownInLoop is queued; the stream invariant is kept |
| `Connection.TcpConnection.ShutdownInLoop` | muduo/net/TcpConnection.cc:204-209 | the write side is shut exactly if nothing waits |
| `Connection.TcpConnection.ForceClose` | muduo/net/TcpConnection.cc:211-217 | the state is set in the calling thread; in the loop thread the connection closes at once, elsewhere that is queued; the stream is untouched |
| `Connection.TcpConnection.ForceCloseInLoop` | muduo/net/TcpConnection.cc:239-244 | closes exactly a live connection |
| `Connection.TcpConnection.HandleClose` | muduo/net/TcpConnection.cc:357-373 | state, interest and reports after a close; the stream is untouched |
| `Connection.TcpConnection.ConnectEstablished` | muduo/net/TcpConnection.cc:282-293 | state, interest and reports after establishing |
| `Connection.TcpConnection.ConnectDestroyed` | muduo/net/TcpConnection.cc:295-306 | closes a live connection first; says exactly when the assertion of Channel::remove holds |
| `EventLoop.EveryRun` | muduo/net/EventLoop.cc:76-127 | every step of loop and other threads, over any number of calls of loop(), keeps push order, the wake-up condition and the quit condition |
| `EventLoop.FunctorsRunInOrder` | muduo/net/EventLoop.cc:76-127 | executed ++ batch ++ pending is the push order; the loop sleeps on work if and only if it is in the first poll of a call, its own thread queued outside loop() since the last swap and no wake-up is unread or on its way; a quit set in the call is never slept through |
| `EventLoop.NeverSleepsOnWork` | muduo/net/EventLoop.cc:118-127 | with nothing queued by the loop thread outside loop(), blocking on a non-empty queue means a readable eventfd or a thread about to write it |
| `EventLoop.EarlyFunctorSleeps` | muduo/net/EventLoop.cc:118-127 | after any run that leaves loop() with no wake-up unread, a functor the loop thread queues is slept on in the next call |
| `EventLoop.SleepsInFirstCall` | muduo/net/EventLoop.cc:118-127 | such a run from the initial state |
| `EventLoop.SleepsInLaterCall` | muduo/net/EventLoop.cc:76-101 | such a run in which an earlier call of loop() has polled, quit and returned |
| `EventLoop.QuitEndsCall` | muduo/net/EventLoop.cc:76-109 | with quit set in a call of loop(), until the next call at most the poll in progress returns, and the call ends if and only if the loop has come to its test of quit_ |
| `EventLoop.EveryQuitEndsCall` | muduo/net/EventLoop.cc:103-108 | so does a quit from any thread, in whatever state of a call it comes |
| `EventLoop.EverythingIsRun` | muduo/net/EventLoop.cc:226-239 | from every reachable state the loop thread can go on so that everything pushed so far is executed |
| `EventLoop.EventfdCounts` | muduo/net/EventLoop.cc:208-224 | each wakeup adds one to the eventfd, and a read leaves it at zero |
| `EventLoop.QuitOutsideIsLost` | muduo/net/EventLoop.cc:76-84 | after any run that leaves loop(), a quit before the next call is cleared and that call polls |
| `NetBuffer.Buffer.constructor` | muduo/net/Buffer.h:28-34 | empty, with the given writable and 8 prependable bytes |
| `NetBuffer.Buffer.Retrieve` | muduo/net/Buffer.h:98-105 | drops exactly a prefix of the contents; an emptied buffer starts over at 8 |
| `NetBuffer.Buffer.RetrieveAsString` | muduo/net/Buffer.h:128-133 | result followed by what is left is the old contents |
| `NetBuffer.Buffer.Unwrite` | muduo/net/Buffer.h:186-189 | drops exactly a suffix of the contents |
| `NetBuffer.Buffer.MakeSpace` | muduo/net/Buffer.h:313-326 | contents kept and room made; the array is kept exactly when the free bytes on both sides suffice, and then the asserted 8 < readerIndex_ holds; where the indices are afterwards |
| `NetBuffer.Buffer.MoveDown` | muduo/net/Buffer.h:320-325 | the overlapping copy in place keeps the contents |
| `NetBuffer.Buffer.Grow` | muduo/net/Buffer.h:315-316 | the resized array keeps the contents and the prependable bytes |
| `NetBuffer.Buffer.EnsureWritableBytes` | muduo/net/Buffer.h:169-174 | room for len bytes, contents kept; nothing changes if there is room already |
| `NetBuffer.Buffer.Append` | muduo/net/Buffer.h:163-167 | contents followed by the bytes |
| `NetBuffer.Buffer.Prepend` | muduo/net/Buffer.h:285-289 | the bytes followed by the contents |
| `NetBuffer.Buffer.Shrink` | muduo/net/Buffer.h:291-296 | the contents do not change, and the writable room is the reserve, or what is left of 1024 bytes |
| `NetBuffer.Buffer.AppendInt` | muduo/net/Buffer.h:191-209 | the network-order bytes of the integer are appended, for any width and either host order |
| `NetBuffer.Buffer.PrependInt` | muduo/net/Buffer.h:261-279 | the network-order bytes of the integer are prepended |
| `NetBuffer.Buffer.PeekInt` | muduo/net/Buffer.h:235-259 | the integer whose network-order bytes come first |
| `NetBuffer.Buffer.ReadInt` | muduo/net/Buffer.h:211-233 | that integer, and exactly its bytes are dropped |
| `NetBuffer.Buffer.FindCrlf` | muduo/net/Buffer.h:69-79 | the first CR LF at or after the start, or none exactly if there is none |
| `NetBuffer.Buffer.ReadFd` | muduo/net/Buffer.cc:10-38 | exactly the bytes read are appended, in order, whichever segment they came in; on error nothing changes |
| `Words.Swaps16` | muduo/net/Endian.h:14-20 | the two-term expression reverses the octets, which is the byte swap of the value |
| `Words.Swaps32` | muduo/net/Endian.h:22-29 | the same of the four-term expression |
| `Words.Swaps64` | muduo/net/Endian.h:31-44 | the same of the eight-term expression |
| `Bytes.ByteSwapReverses` | muduo/net/Endian.h:14-44 | for every width, the byte swap is the number whose bytes are reversed |
| `Bytes.NetworkImageIsBigEndian` | muduo/net/Endian.h:46-65 | on either host order the memory image of the converted number is big-endian |
| `Bytes.NetworkValueIsBigEndian` | muduo/net/Endian.h:67-77 | on either host order the converted value of a memory image is its big-endian value |
| `Bytes.IntRoundTrip` | muduo/net/Buffer.h:191-259 | a signed integer of any width is the value of its network-order bytes |
| `Bytes.WrapInt32Is` | muduo/net/protobuf/ProtobufCodecLite.cc:40-57 | the cast to int32 keeps the value modulo 2^32, in the signed range |
| `FrameCodec.OnMessage` | muduo/net/protobuf/ProtobufCodecLite.cc:59-99 | messages, error and bytes left are those of `Decode` on the buffer's contents |
| `FrameCodec.Examine` | muduo/net/protobuf/ProtobufCodecLite.cc:63-97 | one pass of the loop: too little, a fault, or a whole frame |
| `FrameCodec.FillEmptyBuffer` | muduo/net/protobuf/ProtobufCodecLite.cc:40-57 | the buffer holds exactly the encoding of tag and payload, whose bytes `FrameLayout` gives |
| `FrameCodec.FrameLayout` | muduo/net/protobuf/ProtobufCodecLite.cc:40-57 | a frame byte for byte: the big-endian length of what follows, the tag, the payload, the big-endian checksum of these two |
| `FrameCodec.ChecksumIsAdler` | muduo/net/protobuf/ProtobufCodecLite.cc:185-189 | the checksum is Adler-32 of section 2.2 of RFC 1950, both sums in closed form with 65521 written out |
| `FrameCodec.FrontVerdict` | muduo/net/protobuf/ProtobufCodecLite.cc:59-99 | waiting, length error, skipping, parsing: which one, by the length and the announced length |
| `FrameCodec.ParseVerdict` | muduo/net/protobuf/ProtobufCodecLite.cc:228-247 | which error a body meets: the checksum first, then the tag, then the payload |
| `FrameCodec.DecodeResumes` | muduo/net/protobuf/ProtobufCodecLite.cc:59-99 | bytes arriving later change nothing an earlier call did, and decoding resumes from what it left |
| `FrameCodec.ChunkIndependent` | muduo/net/protobuf/ProtobufCodecLite.cc:59-99 | messages, last error and bytes left do not depend on how the bytes were cut |
| `FrameCodec.Receive` | muduo/net/protobuf/ProtobufCodecLite.cc:59-99 | the same of the buffer itself, with onMessage called after each chunk |
| `FrameCodec.RoundTripUnderChunking` | muduo/net/protobuf/ProtobufCodecLite.cc:40-99 | any payloads encoded, followed by a cut-short frame and cut anywhere, are delivered in order, once each, and exactly the cut-short frame is left |
| `FrameCodec.DecodedWereEncoded` | muduo/net/protobuf/ProtobufCodecLite.cc:59-99 | the converse: without a raw callback, the bytes consumed of any input are the encodings of exactly the messages delivered |
| `FrameCodec.ParsedWasBody` | muduo/net/protobuf/ProtobufCodecLite.cc:228-247 | a body parses only if it is tag, payload and the right checksum |
| `FrameCodec.ParseInvertsBody` | muduo/net/protobuf/ProtobufCodecLite.cc:228-247 | the body of any payload parses to that payload's message, or reports a parse error exactly if the payload has none |
| `FrameCodec.IncompleteFrameWaits` | muduo/net/protobuf/ProtobufCodecLite.cc:61-72 | a frame cut short anywhere is neither consumed nor reported |
| `FrameCodec.LengthLimitExact` | muduo/net/protobuf/ProtobufCodecLite.cc:63-67 | an encoded body below 4 GiB is refused for its length if and only if it is over 64 MiB |
| `FrameCodec.NothingPastABadFrame` | muduo/net/protobuf/ProtobufCodecLite.cc:59-99 | after a call reports an error nothing is delivered, whatever arrives |
| `FrameCodec.OneByteBreaksChecksum` | muduo/net/protobuf/ProtobufCodecLite.cc:185-212 | changing any one byte of a valid body, of any length, tag, payload or checksum, makes validation fail |
| `FrameCodec.CorruptionIsCaught` | muduo/net/protobuf/ProtobufCodecLite.cc:59-99 | in a stream, the frames before a one-byte change are delivered, the changed one is reported as a checksum error, nothing else is |
| `Http.HttpContext.ParseRequest` | muduo/net/http/HttpContext.cc:43-91 | state, request, result and bytes left are those of `Parse`; the receive time is set exactly with the request line |
| `Http.HttpContext.ReadLine` | muduo/net/http/HttpContext.cc:47-89 | one pass of the loop: the first line, if complete, is consumed unless refused |
| `Http.HttpContext.ProcessRequestLine` | muduo/net/http/HttpContext.cc:9-41 | the verdict and the fields set, also by a line that is refused |
| `Http.HttpContext.Reset` | muduo/net/http/HttpContext.h:35-39 | the initial state and an empty request |
| `Http.AcceptsExactly` | muduo/net/http/HttpContext.cc:9-41 | a line is accepted if and only if it is a known method, a target without spaces and HTTP/1.0 or 1.1, one space between |
| `Http.CompletesExactly` | muduo/net/http/HttpContext.cc:43-91 | a fresh parser completes a request on an input if and only if that begins with a legal request line, lines with a colon, and one line without a colon, which need not be empty |
| `Http.ParsePreamble` | muduo/net/http/HttpContext.cc:43-91 | and then the request has that line's method, path, query and version and those lines' trimmed fields, and exactly the bytes after are left |
| `Http.EndsAtBlankExactly` | muduo/net/http/HttpContext.cc:70-80 | of any lines up to an empty one, exactly what follows the empty line is left if and only if every one of them has a colon |
| `Http.FieldsCutOff` | muduo/net/http/HttpContext.cc:70-80 | after a line without a colon, all further field lines stay in the buffer and none is in the request |
| `Http.ChunkIndependent` | muduo/net/http/HttpContext.cc:43-91 | state, request, last result and bytes left do not depend on how the bytes were cut |
| `Http.ParseResumes` | muduo/net/http/HttpContext.cc:43-91 | parsing resumes from the state and the bytes an earlier call left, also after a refused line |
| `Http.ParseInvertsRender` | muduo/net/http/HttpContext.cc:9-91 | every well-formed request in the form of sections 3 and 5 of RFC 9112, cut anywhere, parses back to the same method, path, query, version and headers, and leaves the bytes after it |
| `Http.GetHeaderFindsLast` | muduo/net/http/HttpRequest.h:101-114 | of several fields with one name, getHeader gives the last, and an empty string for a name that does not occur |
| `Http.MethodRoundTrip` | muduo/net/http/HttpRequest.h:42-57 | setMethod recognises the name of every method |
| `Http.MethodsExactly` | muduo/net/http/HttpRequest.h:42-57 | setMethod recognises exactly the names GET, POST, HEAD, PUT and DELETE |
| `Http.NamesAre` | muduo/net/http/HttpContext.cc:9-41 | the method names, versions and separators are these characters |
| `Http.RefusedLeaves` | muduo/net/http/HttpContext.cc:9-41 | what a refused line leaves in the request, by how far it was read |
| `Http.Trim` | muduo/net/http/HttpRequest.h:101-109 | the two loops remove exactly the leading and trailing whitespace |
| `Pollers.PollPoller.UpdateChannel` | muduo/net/poller/PollPoller.cc:58-92 | the bijection of channels and entries is kept, and the interest of exactly this descriptor is set |
| `Pollers.PollPoller.RemoveChannel` | muduo/net/poller/PollPoller.cc:94-125 | the swap-remove keeps the bijection, and exactly this descriptor is gone |
| `Pollers.PollPoller.FillActiveChannels` | muduo/net/poller/PollPoller.cc:35-56 | the channels of the first numEvents fired entries, in array order, each registered |
| `Pollers.FiredIsComplete` | muduo/net/poller/PollPoller.cc:35-56 | with the count poll reports, every fired entry is listed, and no other |
| `Pollers.SlotReplaced` | muduo/net/poller/PollPoller.cc:118-124 | moving the last entry into a hole keeps the bijection and every other interest |
| `Pollers.PollPoller.MonitorsInterest` | muduo/net/poller/PollPoller.cc:58-92 | poll watches for events exactly the descriptors with non-empty interest, each for that interest |
| `Pollers.EPollPoller.UpdateChannel` | muduo/net/poller/EPollPoller.cc:79-110 | registration state and kernel set stay in step, the kernel refuses nothing, and the interest of exactly this descriptor is set |
| `Pollers.EPollPoller.RemoveChannel` | muduo/net/poller/EPollPoller.cc:112-132 | the same, and the channel can be registered again |
| `Pollers.EPollPoller.Update` | muduo/net/poller/EPollPoller.cc:134-154 | what epoll_ctl does to the kernel set, and when it refuses |
| `Pollers.EPollPoller.MonitorsInterest` | muduo/net/poller/EPollPoller.cc:79-110 | epoll watches for events exactly the descriptors with non-empty interest, each for that interest |
| `Pollers.InterestIsWatched` | muduo/net/poller/PollPoller.cc:58-125 | on any one history both back ends watch every descriptor with interest, and no unregistered one, for hang-up and error too |
| `Pollers.QuietDiffers` | muduo/net/poller/EPollPoller.cc:86-107 | a quiet channel updated once more is watched by epoll, which adds it again with no events, and not by poll |
| `Pollers.WatchedExactly` | muduo/net/poller/EPollPoller.cc:79-110 | after any history, with n updates without interest in a row: a quiet descriptor is watched by poll if and only if it never had interest and n = 1, by epoll if and only if n is odd exactly when it never had interest |
| `Pollers.AgreeExactly` | muduo/net/poller/PollPoller.cc:58-92 | after any history, both watch a descriptor or neither does if and only if n = 0, or n is odd after it had interest, or n is 1 or even and it never had any |
| `Pollers.DriveBoth` | muduo/net/poller/PollPoller.cc:58-125 | on any one history both back ends keep their invariants and watch the same descriptors for the same events; both or neither watch a descriptor exactly under the condition of `AgreeExactly` |
| `AsyncLog.FixedBuffer.Append` | muduo/base/LogStream.h:39-43 | as much of the text as fits follows the contents |
| `AsyncLog.KeptExactly` | muduo/base/AsyncLogging.cc:97-109 | what is kept of a line is the line truncated to one buffer if and only if it fits into the room left, or its size as int is more than that room, or the current buffer is empty; below 2 GiB always |
| `LogDesk.NothingShared` | muduo/base/AsyncLogging.cc:52-251 | on a desk in order no two of all the places that hold buffers (each shard's current, next and full ones, pool, spares, writer's list) hold the same buffer; every method below keeps the desk in order |
| `Logger.AsyncLogging.constructor` | muduo/base/AsyncLogging.cc:36-50 | nothing is appended and nothing is waiting; 16 buffers in the pool and 16 spares, and no two places share one |
| `Logger.AsyncLogging.AcquireBuffer` | muduo/base/AsyncLogging.cc:52-61 | the last buffer of the pool, or a new one exactly if the pool is empty; it is nobody else's, and empty whatever it held; no other buffer changes |
| `Logger.AsyncLogging.RecycleBuffer` | muduo/base/AsyncLogging.cc:63-72 | the buffer is emptied and pooled, or freed exactly if the pool has 64 |
| `Logger.AsyncLogging.TakeBuffer` | muduo/base/AsyncLogging.cc:162-169 | the last spare, or else as AcquireBuffer; empty whatever it held |
| `Logger.AsyncLogging.Rotate` | muduo/base/AsyncLogging.cc:102-107 | the current buffer joins the full ones and the next one takes its place, or else one from the spares or the pool, by who asks; every other shard and the writer's list hold what they held |
| `Logger.AsyncLogging.Append` | muduo/base/AsyncLogging.cc:92-115 | exactly the kept part of the line joins its shard; the others and the writer's list hold what they held; the writer is woken exactly if the line did not fit |
| `Logger.AsyncLogging.CollectShard` | muduo/base/AsyncLogging.cc:153-187 | the writer's list gains exactly the bytes the shard held, in order; both the shard's buffers are there and empty; the other shards hold what they held |
| `Logger.AsyncLogging.WriteRound` | muduo/base/AsyncLogging.cc:199-236 | with at most 25 buffers all are written; with more, a notice and the first two are, and the others are dropped whole; nothing is lost from the account |
| `AsyncLog.RoundWrites` | muduo/base/AsyncLogging.cc:203-224 | a round writes everything, or, of more than 25 buffers, a notice and then the first two |
| `Logger.AsyncLogging.Refill` | muduo/base/AsyncLogging.cc:227-236 | the first written buffers, as they are, join the spares up to 32; the others are freed |
| `Logger.AsyncLogging.WriteLast` | muduo/base/AsyncLogging.cc:239-250 | everything collected is written, whatever its amount; the writer's buffers are recycled and no shard changes |
| `Logger.RunAndStop` | muduo/base/AsyncLogging.cc:92-251 | over any interleaving of appends, collects and rounds, and the last write: per shard, the writer has dealt with exactly the first `mark` bytes appended, which are the lines that were there at the shard's last collect, in order; buffers are dropped exactly if a round had more than 25, and otherwise everything dealt with is written |
| `Logger.FinalPass` | muduo/base/AsyncLogging.cc:239-243 | wherever appends fall in the last pass of collects, everything appended before the pass is collected, and of what is appended during it a part, in order |
| `Rpc.CallsMatched` | muduo/net/protorpc/RpcChannel.cc:33-147 | in every run, for both ends: an id is in exactly one place (unsent, request, in service, response) or not in the table; every response finds its entry, every insertion is new; `done` runs at most once per id, for what was asked under it, with the answer given to it, an error exactly when the request meets that error; with nothing under way every call is done |
| `Rpc.RepliesAreTheServices` | muduo/net/protorpc/RpcChannel.cc:85-147 | in every run, at both ends: a call that finished with an answer finished with the very body that the other end's service completed its id with |
| `Rpc.CompleteSends` | muduo/net/protorpc/RpcChannel.cc:139-147 | a completed call leaves service and sends that body under its id |
| `Rpc.RefusalExactly` | muduo/net/protorpc/RpcChannel.cc:96-136 | which error a request meets, in the order of the lookups |
| `RpcProgress.EveryCallIsDone` | muduo/net/protorpc/RpcChannel.cc:33-147 | from every reachable state every schedule without new calls ends, one that can go no further has every call of both ends done, and some schedule gets there |
| `RpcProgress.ComesToRest` | muduo/net/protorpc/RpcChannel.cc:65-147 | no schedule without new calls goes on for ever |
| `RpcProgress.TakeAsks` | muduo/net/protorpc/RpcChannel.cc:33-41 | a new call takes the next id and is recorded with what it asks |
| `Rpc.DoneStays` | muduo/net/protorpc/RpcChannel.cc:72-94 | a call once done stays done, with the same reply |
| `Rpc.EveryRun` | muduo/net/protorpc/RpcChannel.cc:33-147 | every step of either end keeps both directions matched |
| `Rpc.OneLinkMoves` | muduo/net/protorpc/RpcChannel.cc:65-137 | every action is one step of one direction of calls and leaves the other as it is, though both share the FIFOs |
| `Rpc.ReturnMatched` | muduo/net/protorpc/RpcChannel.cc:72-94 | a response finds its entry, and removing it keeps the match |
| `Rpc.ReceiveMatched` | muduo/net/protorpc/RpcChannel.cc:96-136 | a request goes into service or is answered with the error it meets, and the match is kept |
| `Rpc.RpcChannel.CallMethod` | muduo/net/protorpc/RpcChannel.cc:33-58 | the id is new to the table, and the request goes out under it |
| `Rpc.RpcChannel.OnRpcMessage` | muduo/net/protorpc/RpcChannel.cc:65-137 | the end and its output after a message, error replies included |
| `Rpc.RpcChannel.DoneCallback` | muduo/net/protorpc/RpcChannel.cc:139-147 | one response under the id of the call, with the body given; `CompleteSends` says which |
| `Date.SuccessionExact` | muduo/base/Date.h:72-78 | for every valid date, the next day has number one more if and only if the date does not end a February at or before -4800 next to a leap year |
| `Date.SuccessionBreaks` | muduo/base/Date.h:72-78 | 29 February -4800 is followed by another number than the next |
| `Date.CountsDays` | muduo/base/Date.h:72-78 | from 1 March -4800 on, n calendar days are n day numbers |
| `Date.OrderPreserving` | muduo/base/Date.h:72-78 | from then on the formula orders dates as the calendar does and is injective |
| `Date.EveryNumberIsADate` | muduo/base/Date.h:72-78 | every number from then on is that of exactly one valid date |
| `Date.Reaches` | muduo/base/Date.h:72-78 | a later date is reached in exactly as many days as the numbers differ |
| `Date.WeekDayExact` | muduo/base/Date.h:60-62 | for every date, valid or not, the weekday is in 0..6 if and only if the day number is at least -1 or it is a Sunday |
| `Date.WeekDayMoves` | muduo/base/Date.h:60-62 | from 1 March -4800 on the weekday is one further each day and the same after any number of weeks, up to multiples of 7 |
| `Date.WeekDayBreaks` | muduo/base/Date.h:60-62 | 22 November -4713 has weekday -1 |
| `Date.WeekDayAdvances` | muduo/base/Date.h:60-62 | from day number -1 on the weekday is in 0..6, one further each day and the same after any number of weeks |
| `Date.Epoch` | muduo/base/Date.h:20-21 | 1 January 1970 has the number of the epoch constant, and is a Thursday |

## Left out

- C++ memory ordering and data races: every lock section, atomic operation or API call is one step.
- Sockets, epoll, poll, timerfd, eventfd, files and clocks: their results are parameters or steps of the environment. A write takes any part of what it is given, or fails with any error; it takes nothing once the write side is shut.
- Integer width of counters: `id_`, `nextConnId_`, `queuedTasks_`, timer sequences, the eventfd count and the date arithmetic are unbounded. Widths are modelled where they decide a result: the frame length and the log line length as int32, and integers in buffers.
- Callbacks: a timer callback is any sequence of adds and cancels, a message callback may force the connection closed, a raw codec callback is a predicate on the frame, and payload parsing is a function of the payload.
- Lifecycle.EveryRun: where an assertion fails the model makes no further move, and startRead and stopRead come between connectEstablished and connectDestroyed.
- ThreadPool, EventLoop and TcpServer as objects: their methods interleave with other threads, so they are step relations on values; update in place is a step.
- ThreadPool.EveryRun: a pop, its decrement of the counter and its slot release are one step; tasks still queued at `stop` are discarded, so that every task is taken is claimed while the pool runs.
- A pool with no threads, which runs tasks in the caller, and a pool that is not started.
- Delivery of a cross-thread `send` followed by `shutdown`: the stream is stated at `sendInLoop`.
- NetBuffer.Buffer.Append: the bytes are a value, so appending a span of the buffer itself is not modelled.
- `findEOL`, `retrieveUntil` and the character overloads of Buffer.
- Registering a channel again after `PollPoller::removeChannel`, whose index is not reset; `DriveBoth` uses a new channel for every registration.
- Pollers.PollPoller.FillActiveChannels: the events go with the channels in the result instead of into the channels.
- PoolProgress.EverythingIsTaken: a task ends; one that runs for ever keeps its worker.
- Rpc.CallsMatched: messages travel reliably and in order, a service completes a call once, and frames of other types, which are ignored, do not occur. Serialisation of messages is not part of this model.
- Logger.RunAndStop: that per-shard lines are the truncated lines is stated for lines below 2 GiB; `AsyncLog.KeptExactly` says what happens above. The last pass of collects is part of the interleaving, and the last write follows it.
- Log file rolling and flushing, the shard choice per thread, and the text of the drop notice.
- The default error callback of the codec, which closes the connection; an error ends the call of onMessage and leaves the buffer.
- HttpServer responses and pipelining, and request bodies, which the parser leaves in the buffer.
- TcpClient, Connector, Acceptor, destructors, Socket, InetAddress, BlockingQueue, Logger formatting, TimeZone, Gzip, Zlib and the inspectors: thin wrappers, or members that would only add easy statements.
