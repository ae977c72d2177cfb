# Verified model of the LLM gateway

The repository is a single-reactor gateway: one thread runs an epoll loop, a small thread pool runs
agents, and connections speak HTTP/1.1, server-sent events or a line protocol. This project models its
hard core in Dafny and proves what that core is for. Objects of the program that change in place are
classes whose methods are proved to do exactly what a function on values says; the laws are then
theorems about those functions, over every input, every run and every interleaving.

`dafny verify dfyconfig.toml` checks everything.

| part | files |
|---|---|
| reading a connection: detection, HTTP parser, line protocol | `ProtocolHandler`, `HttpParser`, `HttpChannel`, `LineProtocol`, `ReadPath`, `ConnectionReader`, `HttpRoundTrip` |
| timers with lazy deletion and re-entrant callbacks | `Timers`, `TimerManager` |
| worker threads, completions, the wakeup protocol | `Reactor`, `EventLoop` |
| writing: SSE, chunks, the send buffer | `Framing`, `EventStream`, `WritePath` |
| conversations, the agent, the provider's stream | `Sessions`, `SessionManager`, `Agent`, `AgentLoop`, `Conversation`, `Dialogue`, `Upstream` |
| several agents on one session, and cleanups | `Interleaving`, `RunScripts`, `Executions` |
| end to end: from requests to their replies, from an agent's run to its client | `HttpReplies`, `ChatStream` |
| shared | `Text`, `Lines`, `Limits` |

What the environment decides is a parameter: how TCP cuts a stream, what `recv`, `send` and the clock
answer, what a file lookup, a model call, a tool and a JSON text yield, when the cancel flag turns, in
which order a hash map is walked, and which thread moves next. Bytes are characters, the steady clock
counts milliseconds modulo 2^64, and the narrowing conversions of the source are written out.

Where a promise of the repository is not met on every input, the code was kept as it is, and the exact
condition is a theorem:

* The read path does not depend on the cut as long as no readable event takes the buffer over 2 MB;
  `ReadPath.LimitIsTheOnlyDifference` says that this is the only case, `ReadPath.LargeBurstDependsOnCut`
  gives a stream that one cut gets refused and another accepted, and `ReadPath.ShortStreamsAgree` that
  streams of at most 2 MB are safe.
* An SSE message arrives as it was sent, up to one trailing LF, if and only if its data contains no CR
  (`Framing.MessageSurvivesIffCrFree`, and for whole streams `ChatStream.ChatReachesTheClient`). So the client
  of a chat has the model's answer exactly when no streamed piece ends with an LF
  (`ChatStream.AnswerReachesTheClient`).
* A timer fires no earlier than asked if its deadline does not wrap around 2^64, and can fire at once if it
  does (`Timers.WrappedDelayFiresAtOnce`). Two firings of a periodic timer are its interval apart if re-arming
  it after the first does not wrap, and can coincide if it does (`Timers.WrappedIntervalFiresAgain`). After a
  cancel that returned true the callback still starts if and only if another thread's cancel fell between the
  locked check and the start of the callback (`Timers.CanceledTimerStartsIffChecked`, reached in
  `Timers.CancelCanComeTooLate`).
* The reactor's wait is short enough if and only if its timeout survives the conversion to `int`
  (`Reactor.ComputedWaitIsShortEnough`, reached in `Reactor.LongTimeoutOversleeps`).
* The repository's README (line 363) promises at most 100 messages per session. Trimming may leave more;
  `Sessions.TrimKeepsTheLimitIff` says exactly when, and `Sessions.LimitIsExceeded` gives two such histories.
* Conversations stay well formed over any number of runs one after the other, although trimming happens in
  the middle of groups of tool replies (`Agent.PromptsAlwaysWellFormed`). The source does not keep runs on
  one session apart, and cleans sessions up at any time. `Interleaving.InterleavedPrompts` and
  `Executions.OverlappingAgents` say, for every interleaving of any number of agents with cleanups, when the
  model is sent malformed conversations; `Interleaving.OverlapBreaksAPrompt` and
  `Executions.OverlapIsAnExecution` give two agents to which that happens whatever the limit.
* `Content-Length` is the leading number of its value, whatever follows it
  (`HttpRoundTrip.LengthIsLeadingNumber`), and only POST requests have bodies.

## Model

| member | source | states |
|---|---|---|
| ReadPath.SegmentationIndependent | src/core/ClientConnection.cpp:110-174 | any two cuts of the same byte stream leave a fresh connection in the same state: same handler, same requests or replies in order, same outcome, and while open the same parser state and unread bytes |
| ReadPath.FeedAllIsFeed | src/core/ClientConnection.cpp:63-183 | feeding any list of segments to a connection in any reachable state does what feeding their concatenation does |
| ReadPath.LimitIsTheOnlyDifference | src/core/ClientConnection.cpp:89-98 | the connection with its 2 MB limit behaves as the unlimited one if and only if no segment takes the buffer over the limit |
| ReadPath.LargeBurstDependsOnCut | src/core/ClientConnection.cpp:91-98 | for every 2 MB of data there is a stream that is refused when it arrives at once and accepted when it arrives in two events |
| ReadPath.CutsWithinLimitAgree | src/core/ClientConnection.cpp:89-98 | any two cuts of a stream that respect the limit leave the bounded connection in the same state |
| ReadPath.ShortStreamsAgree | src/core/ClientConnection.cpp:89-98 | so do any two cuts of a stream of at most 2 MB |
| ReadPath.StopKeepsWork | src/core/ClientConnection.cpp:70-182 | whether reading stopped because nothing was left, the peer closed or an error came, the same requests and replies result, an end the bytes cause stays, and a peer that closed always ends the connection |
| ReadPath.StopEnds | src/core/ClientConnection.cpp:63-182 | a peer that closed leaves at once if it never sent anything and otherwise asks for the close; a read error closes too, unless no protocol is known yet or every byte was taken by finished lines or requests |
| ReadPath.DetectStable | src/core/ClientConnection.cpp:110-136 | a protocol decided on a prefix of the stream is what every longer prefix decides |
| ReadPath.FirstLineDecides | src/core/ClientConnection.cpp:110-136 | however a stream is cut, the line protocol is chosen exactly if it starts with `PING` or `CHAT` and a bar, and otherwise HTTP exactly if its first line is a verb, a target and a version HTTP/1.x; a stream with any other first line is given up, with no request and no reply |
| ReadPath.UnfinishedLineWaits | src/core/ClientConnection.cpp:123-129 | while no line is complete a connection that did not start with `PING` or `CHAT` and a bar just keeps its bytes |
| ReadPath.ConsumeSplit | src/protocol/HttpChannel.cpp:375-459 | a call of the parser that waits can be resumed with more bytes as if they had been there, and one that ends is not changed by bytes behind it |
| ReadPath.DriveSplit | src/core/ClientConnection.cpp:138-174 | the driver loop run on two parts of a buffer dispatches and leaves what it does on the whole |
| ReadPath.DriveAccounts | src/core/ClientConnection.cpp:138-174 | bytes of dispatched requests, bytes held by the parser and bytes left over add up to the input; every dispatched request is within the limits and has a body of exactly the announced length |
| ReadPath.EveryRequestIsAnswered | src/protocol/HttpChannel.cpp:172-247 | on a connection each dispatched request gets exactly one reply before the next is looked at; only a final upgrade request gets none and only the parser's refusals stand alone |
| ReadPath.ConsumeAnswers | src/protocol/HttpChannel.cpp:375-459 | a call that continues dispatched one keep-alive request and replied 200; one that waits did neither; one that upgrades dispatched one request unanswered; one that closes replied at most once |
| ReadPath.MessagesInAnyCut | src/core/ClientConnection.cpp:110-174 | however a stream of line-protocol messages that starts with PING or CHAT is cut, a fresh connection takes it for the line protocol and answers every message once, in order |
| HttpParser.AdvanceKeeps | src/protocol/HttpChannel.cpp:377-451 | every step of the parser keeps its invariant (header count and bytes, body never longer than announced), takes bytes only from the front of the buffer, accounts for each of them, and makes progress |
| HttpParser.ConsumeAccounts | src/protocol/HttpChannel.cpp:375-459 | for arbitrary input, consumed and left bytes add up to the input, CONTINUE and UPGRADE_SSE strictly shrink the buffer and leave a reset parser, and a dispatched request has at most 100 headers, 8192 head bytes, and a body that is exactly as long as its recorded content-length announces, at most 1 MiB, for POST and empty otherwise |
| HttpChannels.HttpChannel.ExtractLine | src/protocol/HttpChannel.cpp:67-75 | takes the bytes before the first CRLF and erases them with it, or changes nothing when there is no CRLF |
| HttpChannels.HttpChannel.TakeRequestLine | src/protocol/HttpChannel.cpp:77-94 | sets method, path and query, or reports failure, exactly as the request-line grammar says |
| HttpChannels.HttpChannel.TakeHeaderLine | src/protocol/HttpChannel.cpp:96-142 | records the header and what content-length and connection say, or reports failure |
| HttpChannels.HttpChannel.TakeBody | src/protocol/HttpChannel.cpp:144-160 | moves exactly the missing body bytes out of the buffer, or all of it while too few are there |
| HttpChannels.HttpChannel.Reset | src/protocol/HttpChannel.cpp:360-373 | brings every parser field back to its initial value |
| HttpChannels.HttpChannel.Handle | src/protocol/HttpChannel.cpp:453-458 | dispatches the finished request and resets on every outcome but CLOSE |
| HttpChannels.HttpChannel.Process | src/protocol/HttpChannel.cpp:375-459 | the in-place parsing loop ends, and computes from the old fields and buffer the events, result, fields and buffer that the specification of a call gives |
| ConnectionReader.ClientConnection.ReceiveChunks | src/core/ClientConnection.cpp:70-101 | whatever the sizes of the single reads, the buffer grows by exactly the bytes read, and is reported too large if and only if old and new bytes together pass the limit |
| ConnectionReader.ClientConnection.DriveHttp | src/core/ClientConnection.cpp:138-174 | the driver loop ends and leaves the state, events and outcome that driving the buffer means |
| ConnectionReader.ClientConnection.OnReadable | src/core/ClientConnection.cpp:63-183 | one readable event, however its reading stopped, takes the connection to the state that receiving its bytes and that stop mean |
| HttpRoundTrip.PrintParse | src/protocol/HttpChannel.cpp:375-459 | every well-formed request, with headers repeated or not, printed and followed by anything, is dispatched as what it means, with the bytes behind it left; over the header limits it is answered 431, with too large a body 413 |
| HttpRoundTrip.MalformedHeaderIsRefused | src/protocol/HttpChannel.cpp:385-444 | a header line without a colon or a value is answered 400 and the call closes, behind any headers of any request, or 431 if it takes the head over a limit |
| HttpRoundTrip.PipelineIsDispatched | src/core/ClientConnection.cpp:138-174 | a concatenation of any served requests is dispatched as exactly that list in order, with nothing left |
| HttpRoundTrip.PipelineInAnyCut | src/core/ClientConnection.cpp:110-174 | and so it is on a fresh connection however the pipeline is cut into segments |
| HttpRoundTrip.ServedIff | src/protocol/HttpChannel.cpp:172-231 | the printed requests after which the connection goes on are exactly GETs of an existing file whose last accept header asks for no event stream and POSTs to the root, with every connection header that mentions close followed by one that asks to keep the connection |
| HttpRoundTrip.RequestLineRoundTrip | src/protocol/HttpChannel.cpp:77-94 | a printed request line gives back method, path and query, split at the first question mark |
| HttpRoundTrip.HeaderLineRoundTrip | src/protocol/HttpChannel.cpp:96-142 | a printed header line is applied under its lower-case name with its value as printed |
| HttpRoundTrip.HeaderMapIsExact | src/protocol/HttpChannel.cpp:140 | the dispatched header map holds the last header of each name under its lower-case name, and no other name |
| HttpRoundTrip.VersionDecides | src/protocol/HttpChannel.cpp:79-84 | a line of three fields with any white space around and between them is a request line if and only if the third is HTTP/1.1, whatever follows, and a line of fewer fields never is |
| HttpRoundTrip.KeptUnlessClosed | src/protocol/HttpChannel.cpp:128-138 | a connection is kept if and only if every connection header that mentions close is followed by one that mentions keep-alive and not close, in any case of letters |
| HttpRoundTrip.LengthIsLeadingNumber | src/protocol/HttpChannel.cpp:114-126 | an announced length is the leading number of the value, with white space before it and whatever text behind, and is refused exactly when it exceeds an int or is negative |
| HttpRoundTrip.AnnouncedIsBody | src/protocol/HttpChannel.cpp:409-419 | after any number of header lines of a POST the announced length is the length of its body, or zero while no content-length was seen |
| Text.CapitalsAreLowered | src/protocol/HttpChannel.cpp:104-132 | lowering a header name or a connection value changes the capital letters of ASCII, each to its small one, and no other byte |
| Text.ContainsIsInfix | src/protocol/HttpChannel.cpp:128-138 | a text is found in another exactly if the other is that text with something before and something behind it |
| LineProtocol.RepliesSplit | src/protocol/CustomLineHandler.cpp:8-27 | the replies to a buffer fed in two parts, and its unfinished line, are those of the whole |
| LineProtocol.OneReplyPerLine | src/protocol/CustomLineHandler.cpp:8-27 | any list of LF-terminated lines gets exactly one reply each, in order, and nothing stays buffered |
| LineProtocol.MessageRoundTrip | src/protocol/CustomLineHandler.cpp:64-85 | a message printed with either line end is parsed back, bars in its payload included |
| LineProtocol.RepliesAreMessages | src/protocol/CustomLineHandler.cpp:34-62 | every reply parses as a message: PONG or CHAT_ACK with the same payload, or ERR with the reason; only TOOL with payload time gets the time |
| LineProtocol.UnseparatedLine | src/protocol/CustomLineHandler.cpp:34-85 | a line without a bar is answered as a message of unknown type |
| LineProtocol.MessagesAreAnswered | src/protocol/CustomLineHandler.cpp:8-62 | messages printed one per line are answered one by one, each according to its type |
| LineProtocol.CustomLineHandler.ExtractLine | src/protocol/CustomLineHandler.cpp:64-75 | takes the bytes before the first LF without a final CR and erases them with it, or changes nothing |
| LineProtocol.CustomLineHandler.Process | src/protocol/CustomLineHandler.cpp:8-27 | the loop ends with one reply for every complete line, in order, and the unfinished line in the buffer, and reports CONTINUE exactly when none is left; on a connection that is gone it takes the first line and reports CLOSE |
| Timers.BookkeepingAlways | src/core/TimerManager.cpp:14-168 | in every reachable state, in the middle of a pass and of a callback too, the ids in heap, due list and running callback are distinct and are the disjoint union of the live and the cancelled ids |
| Timers.CleanLeavesOnlyLive | src/core/TimerManager.cpp:68-93 | cleaning leaves exactly the live nodes in the heap, no timer dies by it, and between passes no mark is left |
| Timers.PassFiresExactlyTheDue | src/core/TimerManager.cpp:100-168 | whatever callbacks and other threads do meanwhile, a pass gives a turn, once and in order of expiry, to exactly the timers due and not cancelled at entry; a turn is skipped exactly when its timer was cancelled since, and all others fire |
| Timers.PassIsBounded | src/core/TimerManager.cpp:100-168 | a pass makes no more callbacks than there were pending timers and fires only timers that were pending and live at entry |
| Timers.TurnDependsOnCancel | src/core/TimerManager.cpp:123-133 | at its turn a popped timer fails its check if and only if it was cancelled earlier in the pass |
| Timers.StepRefines | src/core/TimerManager.cpp:14-168 | every step of the heap with lazy deletion is a step of a plain map from ids to deadline and interval |
| Timers.RunRefines | src/core/TimerManager.cpp:14-168 | so is every run: marks and stale nodes are never visible to callers |
| Timers.DeadNeverFires | src/core/TimerManager.cpp:57-168 | a timer that is no longer live and has not passed its check never fires again |
| Timers.DeadStaysDead | src/core/TimerManager.cpp:57-168 | a timer that is no longer live never passes a check and is never cancelled again |
| Timers.CanceledTimerStartsIffChecked | src/core/TimerManager.cpp:125-138 | with any number of threads: after a cancel that returned true, a callback of the timer starts if and only if the timer's check came before the cancel and nothing started since |
| Timers.CancelCanComeTooLate | src/core/TimerManager.cpp:125-138 | such an interleaving exists: a cancel returns true and the callback starts afterwards |
| Timers.CanceledNeverFires | src/core/TimerManager.cpp:57-66 | in runs where every callback starts right after its check, as with one thread, no callback starts after a cancel that returned true |
| Timers.CanceledOnce | src/core/TimerManager.cpp:57-66 | with any number of threads no second cancel of a timer succeeds |
| Timers.OneShotFiresOnce | src/core/TimerManager.cpp:158-166 | a one-shot timer fires at most once in any run |
| Timers.FiresOnTime | src/core/TimerManager.cpp:106-111 | no callback starts before its node's expiry |
| Timers.FiresNoEarlierThanAsked | src/core/TimerManager.cpp:14-39 | a timer never fires before the time it was added plus its delay, if that does not wrap, whatever its later deadlines do; and it keeps its interval |
| Timers.PeriodicFiringsAreSpaced | src/core/TimerManager.cpp:158-162 | any two firings of a periodic timer start at least its interval apart, if the clock at the end of the first callback plus the interval does not wrap |
| Timers.WrappedDelayFiresAtOnce | src/core/TimerManager.cpp:24-26 | adding a timer and firing it in the same millisecond, although it has a delay, is possible if and only if its deadline wraps around 2^64 |
| Timers.WrappedIntervalFiresAgain | src/core/TimerManager.cpp:158-162 | a periodic timer firing twice in the same millisecond is possible if and only if the clock plus its interval wraps around 2^64 |
| TimerManagers.TimerManager.AddTimer | src/core/TimerManager.cpp:14-39 | takes the add step of the machine, and asks for a wakeup exactly when no node expires as early |
| TimerManagers.TimerManager.GetNextTimeout | src/core/TimerManager.cpp:41-55 | gives -1 for an empty heap and otherwise the time to the earliest expiry as a signed 64-bit number, which is negative if and only if every node is 2^63 ms away or more |
| TimerManagers.TimerManager.CancelTimer | src/core/TimerManager.cpp:57-66 | takes the cancel step, and succeeds exactly for live timers |
| TimerManagers.TimerManager.CleanCanceledTimers | src/core/TimerManager.cpp:68-93 | drops exactly the cancelled nodes from the heap together with their marks |
| TimerManagers.TimerManager.PopExpired | src/core/TimerManager.cpp:108-120 | takes exactly the expired nodes out of the heap; the unmarked ones are returned by expiry, the marked ones lose mark and id |
| TimerManagers.TimerManager.CollectDue | src/core/TimerManager.cpp:104-121 | takes the collecting step of the machine under the lock |
| TimerManagers.TimerManager.CheckTurn | src/core/TimerManager.cpp:125-133 | the locked check lets a node pass exactly when it is not marked as cancelled, and otherwise drops it with its mark |
| TimerManagers.TimerManager.TakeTurn | src/core/TimerManager.cpp:123-167 | a popped node is skipped or its callback runs, with any calls into the manager it makes, and is then re-armed or dropped, as steps of the machine |
| TimerManagers.TimerManager.FinishTurn | src/core/TimerManager.cpp:149-166 | after its callback a timer is dropped if it was cancelled, re-armed from the present time if periodic, and dropped otherwise |
| TimerManagers.TimerManager.ProcessExpiredTimers | src/core/TimerManager.cpp:100-168 | one call, with arbitrary re-entrant callbacks, is a pass of the machine in which every callback starts right after its check, and its callbacks are that pass's firings |
| Reactor.NoLostWakeup | src/core/EpollLoop.cpp:268-337 | for any number of workers and any interleaving: whenever the reactor may block, waiting completions have made the eventfd readable or a worker owes the wakeup, waiting fds have made it readable, and the ready list is duplicate-free and equals the ready set |
| Reactor.CompletionsStayNoticed | src/core/ThreadPool.cpp:51-90 | every single step keeps it that a non-empty completion queue has a wakeup coming |
| Reactor.CompletionsRunInPostingOrder | src/core/ThreadPool.cpp:51-90 | completions execute once each in posting order, fds are flushed once for each time they were scheduled and in order, and the reactor returns to waiting only when everything posted so far was executed |
| Reactor.TasksRunExactlyOnce | include/core/ThreadPool.hpp:58-90 | every task runs at most once, after acceptance and before its completion, tasks start in acceptance order, and once the pool is stopped and joined every accepted task has run, has posted its completion, and none is queued |
| Reactor.NothingIsDropped | src/core/EpollLoop.cpp:114-125 | in every interleaving the pool has accepted exactly the tasks offered before its stop, what is posted are the outputs and completions in their order, each fd is scheduled once between two takes of the ready list, and the heap holds the timers added and re-armed without those popped or dropped |
| Reactor.StoppedPoolDrains | src/core/ThreadPool.cpp:11-49 | whatever else happens, the workers of a stopped pool take at most four steps for each queued task, five for each worker and one for each output, and until all have left one of them can take a step |
| Reactor.TurnsEnd | src/core/EpollLoop.cpp:268-337 | the reactor is never stuck, and comes back to its wait within one step for each completion, ten for the turn itself and those that threads and callbacks give it meanwhile |
| Reactor.NothingAcceptedAfterStop | include/core/ThreadPool.hpp:81-88 | no run after stop changes the accepted tasks |
| Reactor.NeverOversleeps | src/core/EpollLoop.cpp:273-298 | in every interleaving, with timers added by other threads, re-armed without a wakeup and waits interrupted, the reactor's wait ends no later than every expiry, or the eventfd is readable, or a thread still owes the wakeup for an earlier timer |
| Reactor.ComputedWaitIsShortEnough | src/core/EpollLoop.cpp:273-274 | the wait the reactor computes respects every timer if and only if the timeout survives its conversion to int |
| Reactor.WaitEndsAtTheExpiry | src/core/EpollLoop.cpp:273-274 | the wait lasts exactly until the earliest expiry, or not at all when that has come, if and only if it is less than 2^31 ms away; without a timer it has no end |
| Reactor.LongTimeoutOversleeps | src/core/EpollLoop.cpp:273-274 | from the start, a thread adds one timer and wakes the reactor, which looks again and waits: this legal run ends in a wait that is short enough if and only if the timeout fits an int |
| EventLoop.WakeupFd.Write | src/core/EpollLoop.cpp:258-266 | a wakeup leaves the eventfd readable, at its maximum too |
| EventLoop.WakeupFd.Drain | src/core/EpollLoop.cpp:290-296 | reading until nothing is left ends with the counter at zero |
| EventLoop.ThreadPool.EnqueueWithCallback | include/core/ThreadPool.hpp:58-90 | takes the enqueue step: the task joins the queue's end unless the pool was stopped, and the caller learns which |
| EventLoop.ThreadPool.RequestStop | src/core/ThreadPool.cpp:17-24 | takes the stop step: the flag is set, once, and what is queued stays queued |
| EventLoop.ThreadPool.NextTask | src/core/ThreadPool.cpp:33-49 | a worker whose wait is over takes the oldest task, or leaves exactly when the pool is stopped and drained |
| EventLoop.ThreadPool.PostCompletion | src/core/ThreadPool.cpp:51-69 | queues a completion behind the others and asks for a wakeup exactly when the queue was empty |
| EventLoop.ThreadPool.ProcessCompletions | src/core/ThreadPool.cpp:71-90 | runs completions, with those they post themselves, as steps of the machine until the queue is empty |
| EventLoop.EpollLoop.ScheduleFlush | src/core/EpollLoop.cpp:114-125 | puts an fd on the ready list at most once and then wakes the reactor, as steps of the machine |
| EventLoop.EpollLoop.ProcessReadyFds | src/core/EpollLoop.cpp:237-256 | empties ready list and set together, flushes every connected fd that was on them in order, and queues for closing, in order, what each flush scheduled and each fd whose handler answered CLOSE; what a flush wants flushed again enters the new ready list, once, with its wakeup, as steps of the machine |
| WritePath.NothingLostOrReordered | src/core/ClientConnection.cpp:197-337 | under any mix of sends, partial writes, refusals and close requests the wire followed by the buffer is exactly the accepted data in order, the buffer keeps its bound, what is on the wire stays, and on an open connection non-empty buffer, registration flag and EPOLLOUT go together |
| WritePath.GracefulCloseFlushesAll | src/core/ClientConnection.cpp:222-243 | a connection that closed itself without error has put on the wire everything it accepted |
| WritePath.ClosingMakesProgress | src/core/ClientConnection.cpp:230-235 | asked to close, a connection shrinks its buffer by what each write event sends and closes gracefully when it is empty |
| WritePath.AskedToCloseCloses | src/core/ClientConnection.cpp:222-276 | after any operations with a close request, an unharmed connection has closed gracefully with all it accepted on the wire, or has bytes left and waits for a write event to send them |
| WritePath.CloseEndsSending | src/core/ClientConnection.cpp:278-282 | nothing sent behind the close request is taken on |
| WritePath.WhatCloses | src/core/ClientConnection.cpp:197-337 | a connection closes exactly by a send that does not fit, a failed send or write, the last byte after a close request, or that request with nothing to send, each with its cause |
| WritePath.OpAccepts | src/core/ClientConnection.cpp:278-296 | an operation adds to the accepted data exactly the data of a send on an open connection that was not asked to close and has room, and never takes bytes off the wire |
| WritePath.ConnectionWriter.SendData | src/core/ClientConnection.cpp:278-337 | takes the send operation, including every answer of the kernel and the overflow close |
| WritePath.ConnectionWriter.HandleWrite | src/core/ClientConnection.cpp:197-243 | takes the write-event operation for every answer of the kernel |
| WritePath.ConnectionWriter.RequestClose | src/core/ClientConnection.cpp:258-276 | takes the close request: at once with an empty buffer, after the last byte otherwise |
| WritePath.EventTable.RemoveWriteEvent | src/core/EpollLoop.cpp:355-369 | takes EPOLLOUT out of the interest set unless nothing else would remain |
| Framing.FormatSseMessage | src/protocol/SseHandler.cpp:19-58 | the loop writes event and id lines when present, one data line per line of the data, dropping one trailing LF, and an empty line |
| Framing.HexRoundTrip | src/protocol/SseHandler.cpp:65-66 | a chunk size printed in hexadecimal is read back by a client as the same number |
| Framing.ChunksDecode | src/protocol/SseHandler.cpp:60-79 | any payloads, chunked and ended by the last chunk, decode under section 7.1 of RFC 9112 to their concatenation and leave what follows; an empty payload never ends the body |
| Framing.TruncationIsDetected | src/protocol/SseHandler.cpp:60-79 | no proper prefix of a chunked stream decodes as a complete body |
| Framing.DataLinesDecode | src/protocol/SseHandler.cpp:35-52 | data lines fill an event-stream decoder's buffer with the data up to one trailing LF; no line of the data is taken for a boundary |
| Framing.MessageDecodes | src/protocol/SseHandler.cpp:19-58 | a formatted message with CR-free data, followed by anything, is one event of its type under section 9.2.6 of the WHATWG HTML Standard |
| Framing.FramesDecode | src/protocol/SseHandler.cpp:19-79 | a list of such messages, framed and ended, decodes through both layers to the same events in order |
| Framing.FramesSurviveIffCrFree | src/protocol/SseHandler.cpp:19-79 | and a list of messages does so if and only if none of its data contains a CR |
| Framing.MessageSurvivesIffCrFree | src/protocol/SseHandler.cpp:38-52 | a message arrives, up to one trailing LF, if and only if its data contains no CR |
| Framing.IdIsRead | src/protocol/SseHandler.cpp:29-33 | a message carries its id: the last id field a client reads in it has that value, whatever its data |
| Framing.DataSurvivesUnchanged | src/protocol/SseHandler.cpp:38-52 | its data arrives unchanged if and only if it contains no CR and does not end with LF |
| EventStreams.QueueReachesTheClient | src/protocol/SseHandler.cpp:119-253 | for any sequence of pushes, flushes, heartbeats and closes: what was sent is the head and chunks of a prefix of the queued events, each once and in order, which decode to them if and only if their data contain no CR; nothing queued is lost while neither the stream nor the connection is closing, at most 64 events wait, and the chat handler runs at most once; a chat has no heartbeat, and one without a handler is sent the fallback and then nothing |
| EventStreams.QueueIsWhatWasPushed | src/protocol/SseHandler.cpp:119-253 | after any calls the stream has queued exactly the events that were pushed or beaten while it was open and fewer than 64 waited, in order, has sent those of its last live flush, and is open, beating and waiting as tallying the calls says |
| EventStreams.PushedIsSent | src/protocol/SseHandler.cpp:119-141 | a pushed event is the last that waits, and the next live flush sends it as the last chunk on the wire |
| EventStreams.FallbackIsSeen | src/protocol/SseHandler.cpp:220-229 | a chat without a handler is decoded as one error event, one done event and the end of the stream |
| EventStreams.ProcessDelivers | src/protocol/SseHandler.cpp:232-252 | a flush with a live connection empties the queue and sends everything queued so far, except for the fallback of a chat, after which the connection was asked to close and drops it |
| EventStreams.ProcessReports | src/protocol/SseHandler.cpp:192-253 | a flush asks for the end of the connection exactly when the stream is closed, or the connection is gone while head or events wait to be sent |
| EventStreams.ClosedStays | src/protocol/SseHandler.cpp:162-180 | a closed stream never sends, queues or beats again |
| EventStreams.SseHandler.PushEvent | src/protocol/SseHandler.cpp:119-141 | takes the push, and answers true exactly when the stream is open, has room and still has its connection; then the event is the last that waits |
| EventStreams.SseHandler.OnHeartbeat | src/protocol/SseHandler.cpp:143-160 | takes the heartbeat: pushes an event, or closes the stream when it cannot |
| EventStreams.SseHandler.Process | src/protocol/SseHandler.cpp:192-253 | takes one flush, from the handshake over the chat handler, or its fallback with the close it asks for, to the last pending event, and reports CLOSE exactly when it could not go on |
| EventStreams.SseHandler.CloseStream | src/protocol/SseHandler.cpp:162-180 | closing empties the queue and disarms the heartbeat, once |
| Sessions.TrimKeepsASuffix | src/llm/SessionManager.cpp:74-98 | trimming keeps everything, or the leading system messages and a suffix that starts with a user message |
| Sessions.NewestSurvives | src/llm/SessionManager.cpp:17-29 | the message just appended is always the last one afterwards |
| Sessions.TrimCutsLeast | src/llm/SessionManager.cpp:80-97 | every user message that leaves at most the limit is still there afterwards with all that follows it, so no later cut is made than needed |
| Sessions.TrimKeepsTheLimitIff | src/llm/SessionManager.cpp:74-98 | a trimmed history has at most the limit of messages if and only if it had no more before, or the first user message it may start from leaves room for the leading system messages |
| Sessions.LimitIsExceeded | src/llm/SessionManager.cpp:74-98 | two histories that trimming leaves over the limit, and one of the same length that it does not |
| Sessions.TrimIsBounded | src/llm/SessionManager.cpp:74-98 | the result never has more than the limit plus the leading system messages, unless nothing was cut because no user message lies in the part that may be kept |
| Sessions.TrimIsIdempotent | src/llm/SessionManager.cpp:74-98 | trimming twice is trimming once |
| Sessions.ScanDecidesGrammar | src/llm/LLMService.cpp:66-115 | the one-pass scanner accepts exactly the conversations in which every call is followed by precisely its replies, ids in order, and no tool message is orphaned |
| Sessions.TrimKeepsScan | src/llm/SessionManager.cpp:74-98 | trimming, in the middle of a group of replies too, leaves the same replies outstanding |
| Sessions.AppendScans | src/llm/SessionManager.cpp:17-29 | appending a message that fits, with whatever trimming it causes, leaves the replies outstanding that the untrimmed conversation would |
| Sessions.AppendTrims | src/llm/SessionManager.cpp:17-29 | the comparison of sizes before the trim never goes wrong, for negative limits neither: an append is a push followed by a trim |
| Sessions.OnlyTheNextReplyFits | src/llm/SessionManager.cpp:17-29 | while replies are outstanding, an append with its trim leaves a conversation that can still become well formed if and only if it stores the next reply, or a user message with which the trim cuts everything before it; it is well formed again if and only if that was the last reply, or such a cut |
| Sessions.StrayCanCutAll | src/llm/SessionManager.cpp:17-29 | such a cut exists: with a limit of one a stray user message removes the unfinished call it would have broken |
| Interleaving.KeptDescribes | src/llm/SessionManager.cpp:17-98 | after any acts on a session the history is a well-formed beginning followed by exactly the messages of the most recent acts, from a position that cuts and cleanups determine |
| Interleaving.PromptIffUndisturbed | src/llm/LLMService.cpp:66-115 | after any interleaving of any number of runs and cleanups, with any limit, what the model is sent is well formed if, among the acts whose messages are still in the history, none stores inside another run's group or replies to a call that is gone and no run owes a reply; and only if, unless among those acts a reply whose call is gone carries an id that another run waits for |
| Interleaving.AccidentNeedsSharedIdAndCut | src/llm/SessionManager.cpp:17-98 | such a reply exists only when two runs share an id and messages were cut off or cleaned up |
| Interleaving.InterleavedPrompts | src/llm/AgentLoop.cpp:63-189 | every conversation sent in the course of an interleaving is well formed if every model call is made undisturbed in that sense, and, without such replies, only if |
| Interleaving.OwnIdsMeanNoAccidents | src/llm/AgentLoop.cpp:63-91 | runs that do not share ids store no such reply |
| Interleaving.UncutPrompts | src/llm/AgentLoop.cpp:63-189 | while nothing is trimmed or cleaned up that holds for the whole interleaving, whatever the ids |
| Interleaving.OverlapBreaksAPrompt | src/llm/AgentLoop.cpp:63-91 | whatever the session held and its limit, a run that asks while another has stored a call sends a malformed conversation |
| Interleaving.SharedIdHidesAStray | src/llm/SessionManager.cpp:17-29 | with a shared id a reply whose call was cut can answer another run's call, so that a disturbed conversation is well formed by accident |
| RunScripts.RunsAreScripted | src/llm/AgentLoop.cpp:63-189 | every run of the agent has a script, a list of legal acts: alone on its session they send its conversations, store its messages and leave its history |
| RunScripts.CleanupInsideGroupBreaksIt | src/llm/SessionManager.cpp:45-66 | with the session reset after any number of a round's appends, and trimming at any limit, what the next model call is sent is well formed if and only if the reset came before the round's call was stored or after its last reply |
| Executions.ScriptFitsEveryHistory | src/llm/AgentLoop.cpp:93-189 | with a model that does not look at its history, one script performs the run on every history |
| Executions.ExecutionIsLegal | src/llm/AgentLoop.cpp:63-189 | any number of agents that run on a session at once, each doing what it does when its model answers to the histories its calls find there, and cleanups between them, are legal acts |
| Executions.AloneIsAnExecution | src/llm/AgentLoop.cpp:93-189 | the script of every agent, whatever its model makes of the history, is such an execution when nobody else is on the session |
| Executions.OverlappingAgents | src/llm/AgentLoop.cpp:63-189 | whatever models, tools, cancel flags and scheduling do, every conversation that agents on one session send is well formed if every model call is made undisturbed, and only if, unless two agents share an id and a reply whose call is gone fits another's call |
| Executions.OverlapIsAnExecution | src/core/EpollLoop.cpp:188-200 | two agents really do what breaks a prompt, on every session and with every limit |
| SessionManagers.SessionManager.TrimHistory | src/llm/SessionManager.cpp:74-98 | the two index loops compute the trimmed history |
| SessionManagers.SessionManager.AppendMessage | src/llm/SessionManager.cpp:17-29 | changes only the named session, to its history with the message appended and trimmed, and its activity time |
| SessionManagers.SessionManager.CleanupExpired | src/llm/SessionManager.cpp:45-66 | forgets exactly the sessions idle for more whole seconds than allowed, and keeps the others unchanged |
| Agent.TraceGrammar | src/llm/AgentLoop.cpp:93-225 | whatever model, tools and cancel flag do, a run makes at most ten model calls and emits only outputs, followed by nothing if cancelled, one DONE if done, one ERROR and one DONE if failed |
| Agent.PromptsAlwaysWellFormed | src/llm/AgentLoop.cpp:63-189 | over any sequence of runs on a session, however each ended, every conversation sent to the model and every history left behind is well formed |
| Agent.StoredMatchesEmitted | src/llm/AgentLoop.cpp:63-91 | tool results emitted and tool messages stored agree one for one in order, the user message is stored at most once, and the history left is what appending the stored messages makes |
| Conversation.RunIsAConversation | src/llm/AgentLoop.cpp:93-189 | every run is a conversation in rounds: each model call gets exactly what was stored before it, the user message goes once, each round stores the call with its replies and shows what was streamed and the results, and the end is the one the last answer or the iteration limit calls for, with its final message and error text, or a cancel after a whole step with just what was stored and shown up to it |
| Dialogue.WhatIsStreamedIsSaid | src/llm/AgentLoop.cpp:93-189 | however a run ends, its content and reasoning events are the texts and thoughts that the model streamed in all its calls, each as its own kind, piece by piece and in order |
| Dialogue.RunsKeepRecords | src/llm/AgentLoop.cpp:63-172 | what a run stores, field by field: the question, each call with its reasoning, each tool's output under its call's id, and the final answer; each conversation sent is the history found with the record so far, the first one with the question behind it |
| Dialogue.RunsGoOn | src/llm/AgentLoop.cpp:93-189 | an uncancelled run ends done at the first answer without tool calls if fewer than ten rounds came before it, and in error after ten calls that all asked for tools, or at a failed call |
| Dialogue.ErrorsSayWhy | src/llm/AgentLoop.cpp:120-212 | a run that ends in error emits the exception's or the call's message, or that the limit was reached, and then DONE |
| Conversation.RunToolsIs | src/llm/AgentLoop.cpp:79-90 | executing calls stores one reply per call with its id and result and shows the results, in order |
| AgentLoops.AgentLoop.ExecuteTools | src/llm/AgentLoop.cpp:63-91 | stores the call, then runs, shows and stores each tool in turn, touching no other session |
| AgentLoops.AgentLoop.EmitTerminal | src/llm/AgentLoop.cpp:215-225 | posts the error if there is one and then DONE |
| AgentLoops.AgentLoop.ExecuteLoop | src/llm/AgentLoop.cpp:93-189 | the loop over the shared session ends and leaves the state, history and posted events of the specified run |
| AgentLoops.AgentLoop.RunOn | src/llm/AgentLoop.cpp:192-198 | a fresh agent's run on a session is the specified run on that session's history, and changes no other session |
| Lines.SplitInTwo | src/llm/LLMService.cpp:165-187 | splitting a buffer that grew in two parts gives the lines, and the unfinished line, of the whole |
| Lines.SplitConserves | src/llm/LLMService.cpp:165-187 | the lines with their line ends, followed by the unfinished line, are the bytes that were split |
| Upstream.ChunkingDoesNotMatter | src/llm/LLMService.cpp:158-211 | for any chunking the lines processed are those of the whole stream, each once and in order, the last one terminated or not |
| Upstream.EffectsMirror | src/llm/LLMService.cpp:318-338 | content and reasoning of the result are the concatenations of what was emitted as such |
| Upstream.EffectsEmit | src/llm/LLMService.cpp:318-338 | exactly the non-empty texts and thoughts are emitted, in order of arrival |
| Upstream.EffectsAccumulate | src/llm/LLMService.cpp:341-365 | each index accumulates its own fragments, names and arguments concatenated in order of arrival and the last id given, and exists exactly when it had a fragment |
| Upstream.PayloadIsText | src/llm/LLMService.cpp:272-301 | the payload of a data line is its JSON text, with or without the blank before it and with any blanks behind it |
| Upstream.OtherLinesMeanNothing | src/llm/LLMService.cpp:265-301 | a line that is not `data:` with the text of an object means nothing, [DONE] and empty lines among them |
| Upstream.PrintedStreamIsRead | src/llm/LLMService.cpp:158-301 | a provider's stream of JSON objects ended by [DONE], with LF or CRLF and in any chunking, yields exactly what its objects mean, in order |
| Upstream.MergeCalls | src/llm/LLMService.cpp:221-243 | in whatever order the hash map is walked, each index with a non-empty name yields exactly one call with its id and name, and its arguments as parsed or an empty object, and no other does |
| Upstream.StreamReader.OnChunk | src/llm/LLMService.cpp:163-187 | processes every line the chunk completes, once and in order, and keeps the unfinished rest |
| Upstream.CallDeepseek | src/llm/LLMService.cpp:135-246 | a whole transfer, in any chunks: answer and reasoning are what was emitted, the emissions are the stream's, and there is one call per named index, with the last id its fragments give, their names joined, and their arguments joined as parsed, or an empty object if they are empty or do not parse; it succeeds exactly if the transfer did and was not cancelled, and carries an error exactly if the transfer failed or there is no key |
| Upstream.Call | src/llm/LLMService.cpp:29-50 | no transfer is made when the call is cancelled already; a call that fails is cancelled or says why |
| WritePath.EverythingIsAccepted | src/core/ClientConnection.cpp:278-296 | a connection that is not closed by an error takes on every byte it is asked to send before the close, in order |
| HttpReplies.ReplyIsRead | src/protocol/HttpChannel.cpp:233-339 | a reply with well-formed headers that announce its body, followed by anything, is read by a client under section 6 of RFC 9112 as its status, its body and whether the connection closes |
| HttpReplies.ReplyIsSeparable | src/protocol/HttpChannel.cpp:233-339 | every reply to a request is such a reply: files, echoes, error pages and refused methods alike |
| HttpReplies.AllPartsArePrint | src/protocol/HttpChannel.cpp:293-301 | the parts that replies go out in, 64 KB blocks of files included, are their bytes, and none is empty |
| HttpReplies.FilesComeInBlocks | src/protocol/HttpChannel.cpp:296-301 | a file is sent as its head and then its content in blocks that join to it, all but the last, which is not empty, of 65536 bytes; any other reply in one piece |
| HttpReplies.RepliesReachTheClient | src/core/ClientConnection.cpp:138-180 | whatever a client sends in whatever segments, and whatever the kernel answers: from the bytes an unharmed connection takes on it reads exactly the answers it is due, in order and with nothing left over: for each request the status, its file, its body or the refusal, and whether the connection closes; closed by its handler, the connection is closed with all of them on the wire or waits to send the rest |
| HttpReplies.ClosesAreToldTruly | src/protocol/HttpChannel.cpp:172-247 | in any cut only the last reply of a connection says that it closes, and only if the handler then closes it |
| HttpReplies.ConsumeTells | src/protocol/HttpChannel.cpp:375-459 | every close of the parser is told by its reply, unless a malformed request line got none, and a call that continues says that the connection stays |
| HttpReplies.RefusedFileIsAnswered | src/protocol/HttpChannel.cpp:249-310 | the client of a GET for a file that is refused reads that status, for a missing file 404 with its page, is told of the close, and the connection closes |
| HttpReplies.PipelineIsAnswered | src/core/ClientConnection.cpp:110-180 | the client of any pipeline of served requests, in any cut, reads one answer for each request in order: a GET's file, a POST's body |
| ChatStream.ActsAreFrames | src/llm/AgentLoop.cpp:20-53 | what the completion callbacks of a finished run send is the framing of its events followed by the last chunk, and the close is asked for last |
| ChatStream.ChatReachesTheClient | src/llm/AgentLoop.cpp:13-54 | for every run that ends DONE or ERROR on a connection not closed by an error, the bytes accepted decode as chunks and then as events to exactly the emitted (type, data) trace with the end of the stream, if and only if no event contains a CR; and the connection has closed with all of it on the wire, or waits for a write event to send the rest |
| ChatStream.AnswerReachesTheClient | src/llm/AgentLoop.cpp:20-53 | the client's events of type content are the texts the model streamed in all calls, in order, and those of type reasoning its thoughts, each up to one trailing LF; joined, they are the model's answer if and only if no piece ends with an LF |
| ChatStream.CanceledStreamIsIncomplete | src/llm/AgentLoop.cpp:106-111 | the stream of a cancelled run never decodes as a complete body |
| ChatStream.EventsCrossTheThreads | src/core/ThreadPool.cpp:51-90 | for any interleaving of workers and reactor, the client has at every moment been sent a prefix of the run's events that it can tell from the whole, and all that were posted whenever the reactor goes back to waiting |

## Left out

- Sockets, epoll, eventfd and accept calls themselves; the connection limit, idle checks and `EPOLLERR`/`EPOLLHUP` removal; failing `epoll_ctl` calls are taken not to happen.
- A readable event that delivers no byte before any arrived, and does not report that the peer closed, for which the source has no handler to call.
- A connection is followed up to its first CLOSE or UPGRADE_SSE; the parser fields a CLOSE leaves behind are not described.
- ConnectionReader.ClientConnection.OnReadable: asks for at least one byte, or a closed peer, while no handler exists, for the reason above.
- Text of the SSE response head, path checks and the file system (an oracle from path to a refusal, or a file name and content), and JSON parsing of the chat body (an oracle).
- The standard priority queue is a set that gives out a node no other expires before; equal expiries come in any order.
- Timer and task ids do not wrap around.
- Condition variables are guards on steps, so missed notifications are not modelled; tasks and callbacks that throw are not modelled beyond what a timer or agent catches.
- Timers.FiresNoEarlierThanAsked: needs that the asked time does not wrap around 2^64; the wrapped case is in WrappedDelayFiresAtOnce.
- Timers.PeriodicFiringsAreSpaced: needs that the re-arming between two firings does not wrap; the wrapped case is in WrappedIntervalFiresAgain.
- Reactor.NeverOversleeps: needs that each computed timeout survives the conversion to int; what happens otherwise is in ComputedWaitIsShortEnough.
- Agent.PromptsAlwaysWellFormed: runs on one session follow each other, and no cleanup falls into one, since otherwise it is false; InterleavedPrompts says exactly when it is then true. Tools fail only with `std::exception`, and emitting does not throw.
- Interleaving.InterleavedPrompts: states the necessary half without replies that by accident fit another run's call, for which it is false (SharedIdHidesAStray).
- HttpReplies.RepliesReachTheClient: asks for a connection that no failed send and no full write buffer closed, as a file larger than the buffer can; a file that changes while it is sent is not modelled.
- Timers.CanceledNeverFires: speaks of runs in which a callback starts right after its check; what other threads can do in between is in CanceledTimerStartsIffChecked.
- ChatStream.EventsCrossTheThreads: takes the connection's operations to follow the executed completions; a connection that is gone drops its events.
- The unused `send_event` of the event stream.
- libcurl transfers (an arbitrary list of chunks), request headers, the value of the API key, the cancel poll inside a transfer (its outcome is a parameter), and the `call_llama` and WebSocket placeholders.
- The JSON form of a request beyond its list of messages, and tool definitions.
- An SSE id is read back from its message (IdIsRead), but a client's last-event-id across messages and reconnects is not followed.
- fd numbers reused within one turn of the loop, and `shared_ptr` lifetimes beyond whether a connection is alive.
