# A verified model of the day25 server

Day 25 of the repository is a small C++ network server: reactors in several threads that accept, serve and close
connections, an HTTP request parser and response printer, a byte buffer, a timer queue and an asynchronous log. Day 16
has a thread pool. This project models each of these parts in Dafny and proves what it is for. Components whose
difficulty lies in the order of steps of several threads are state machines (a `State`, an `Action`, `Enabled`,
`Next`) with invariants proved over every run; components that change arrays, maps and fields in place are classes
and loops with the same branches as the source, proved against a separate statement of their result.

| file | what it models |
|---|---|
| `Reactor.dfy`, `ReactorProgress.dfy`, `ReactorLife.dfy`, `TcpServer.dfy` | connections across the main loop and the IO loops, how the system winds down, one connection's life followed through, and the server object in it |
| `Epoller.dfy` | channels and the kernel's interest set, as objects |
| `EventLoop.dfy` | cross-thread task queue with its wake-up, as a machine and as an object |
| `HttpRequest.dfy`, `HttpContext.dfy` | the request object and the parsing loop |
| `HttpGrammar.dfy`, `HttpRoundTrip.dfy`, `HttpBody.dfy` | a grammar of requests, the equivalence of the parser with it, printing and parsing back, and when the body is kept |
| `HttpResponse.dfy` | the response printer, against a reader of response streams after RFC 9112 |
| `TcpConnection.dfy`, `Buffer.dfy` | non-blocking reads and writes over scripts of kernel answers; the growable byte queue |
| `TimerQueue.dfy` | the ordered timer set, arming, and the pass over the timers that are due |
| `AsyncLogging.dfy`, `LogStream.dfy` | the double-buffered log; the fixed buffer and the integer formatter |
| `ThreadPool.dfy` | the worker pool with its draining destructor |
| `Decimals.dfy`, `Basics.dfy` | decimal text of natural numbers; what several parts share |

How the model stands for the program:

- A `char` stands for one byte. Characters are classified as in the C locale; `atoi` is that of a 64-bit GNU system.
- Sockets answer from a script that the caller gives (`TcpConnections.Socket`); a script that is used up answers
  "would block". `fwrite` takes any positive part of what it is given. The one clock never goes back; how far it moves
  before each reading, and what timers each callback adds, are scripts too (`TimerQueues.TimerQueue`).
- Poll's report of the timerfd is a step of its own, so that other handlers of the same ready list can add timers, and
  arm the timerfd anew, before `HandleRead` (`TimerQueues.TimerQueue.Report`).
- Connections, log buffers and timers are known by an index or an address. An explicit heap maps addresses of log
  buffers and timers to what they hold, so that a buffer with two owners, a use after deletion, or a timer that is
  both stored and deleted would be visible.
- A block under a lock, and each effect outside of one, is one step. `HandleClose`'s test and set of the status is
  taken as one step (`code/day25/tcp/TcpConnection.cpp:62-71`).

What turned out not to hold, each with the exact condition and an input:

- A header whose colon is followed at once by CR makes the parser build a string from a range that ends before it
  begins: exactly the messages of the second kind in `HttpGrammar.AcceptsExactlyTheGrammar`; input
  `HttpRoundTrip.EmptyHeaderText`.
- A context used again keeps the parameters, headers and body of the last request, unless the message overrides them:
  `HttpRoundTrip.ReuseIsFreshExactlyWhen`; input `HttpRoundTrip.OldHeaderStays`.
- A body is dropped when the misspelt length header is not positive: `HttpRoundTrip.RoundTrip`; input
  `HttpRoundTrip.MisspeltLengthDropsBody`. For a number under that header `HttpBodies.NumberedRoundTrip` gives the
  condition on the number, which atoi cuts to 32 bits.
- A repeating timer with an interval below one second is due again at once: `TimerQueues.RestartIsLaterExactlyWhen`;
  input `TimerQueues.HalfSecondIsDueAtOnce`. A delay that is not negative loses its fraction of a second:
  `TimerQueues.DelayIsFullExactlyWhen`.
- A firing of the timerfd may run nothing. It runs a timer if the set was not empty at the report, and with nothing
  added before `HandleRead` only then: `TimerQueues.TimerQueue.Firing`; input `TimerQueues.FiringThatRunsNothing`.
- Negative integers are not formatted as such: `LogStreams.FormatsExactlyNaturals`; input `LogStreams.MinusThree`.
- A log message that fits exactly is dropped: `AsyncLoggings.AsyncLogging.Append`; input
  `AsyncLoggings.ExactFitIsDropped`.
- Some responses cannot be read back (a status never set, a body after 100, a second length, a transfer coding):
  `HttpResponses.MessageIsReadExactlyWhen`; input `HttpResponses.UnsetStatusIsUnreadable`.
- The channel's flag goes wrong when another channel is registered under the same descriptor:
  `Epollers.Epoller.UpdateChannel`, `Epollers.Epoller.DeleteChannel`. `Reactor.RegisteredDescriptorsDiffer` shows that
  connections never come to that.
- A pool without workers accepts tasks and never runs them: `ThreadPools.NoWorkersNoRuns`.
- `Buffer::RetrieveUtil` accepts a position before the unread bytes, and keeps the buffer well formed exactly when
  that lies behind the room in front: `Buffers.Buffer.RetrieveUtil`.

## Model

| member | source | states |
|---|---|---|
| Reactor.StepKeeps | code/day25/tcp/TcpServer.cpp:36-76 | every atomic step of any loop, and every destruction, keeps the invariant that ties status, map, interest sets, ready lists, task queues and references together |
| Reactor.RunKeeps | code/day25/tcp/EventLoop.cpp:33-90 | so does every run, whatever the interleaving |
| Reactor.MapIsSound | code/day25/tcp/TcpServer.cpp:36-61 | in every reachable state each key of the map leads to the one connection, not destroyed, that owns the descriptor |
| Reactor.DescriptorIsFree | code/day25/tcp/TcpConnection.cpp:30-33 | a connection newly built under a reused descriptor finds no entry for it: descriptors are closed after the erasure |
| Reactor.InsertNeverOverwrites | code/day25/tcp/TcpServer.cpp:53 | storing the connection never overwrites an entry |
| Reactor.DirectCloseFindsEntry | code/day25/tcp/TcpServer.cpp:68-72 | HandleCloseInLoop, called on the main loop, finds its own connection under the descriptor |
| Reactor.QueuedCloseFindsEntry | code/day25/tcp/TcpServer.cpp:64-72 | HandleCloseInLoop, run as a task, is on the main loop and finds its own connection: the assertion never fails |
| Reactor.UnreferencedWasRemoved | code/day25/tcp/TcpConnection.cpp:30-49 | the last reference goes only after the channel has left its interest set |
| Reactor.DispatchIsSafe | code/day25/tcp/EventLoop.cpp:36-38 | a plain channel pointer that a loop is about to follow belongs to a connection that is referenced and not destroyed |
| Reactor.ChannelsAreSound | code/day25/tcp/Epoller.cpp:38-61 | the channel's flag equals membership; everything in an interest set or ready list is alive; one addition, at most one deletion and one HandleCloseInLoop per connection, both before destruction |
| Reactor.RegisteredDescriptorsDiffer | code/day25/tcp/Epoller.cpp:38-61 | in every reachable state two connections whose channels are registered have different descriptors, which discharges the epoller's condition |
| Reactor.ClosesComplete | code/day25/tcp/TcpConnection.cpp:35-71 | no close is lost: when all loops are idle a connection is open and registered everywhere, or can be destroyed |
| ReactorProgress.WindingLowers | code/day25/tcp/EventLoop.cpp:33-90 | with no new connections, events or timers, every step of any loop that changes anything lowers one measure |
| ReactorProgress.SomeStepWinds | code/day25/tcp/EventLoop.cpp:33-90 | in every reachable state that is not at rest some such step is possible: no deadlock |
| ReactorProgress.WindingRunsAreShort | code/day25/tcp/EventLoop.cpp:33-90 | so every run of such steps ends, in any interleaving |
| ReactorProgress.WindsDown | code/day25/tcp/TcpServer.cpp:64-76 | from any reachable state they lead to rest |
| ReactorProgress.RestIsClean | code/day25/tcp/TcpConnection.cpp:30-71 | at rest a connection is open and registered everywhere, or destroyed |
| ReactorLife.AcceptedIsOpened | code/day25/tcp/TcpServer.cpp:36-61 | whenever the main loop is between handlers, a free descriptor can be accepted for any loop, and three steps later its connection is open, in the map and in that loop's interest set |
| ReactorLife.EventIsReported | code/day25/tcp/Epoller.cpp:25-36 | Poll can report any registered channels of the loop, and its report is the ready list |
| ReactorLife.EventsAreKept | code/day25/tcp/EventLoop.cpp:36-38 | a ready list changes only at Poll and, by its first, at a dispatch: no event is lost on the way |
| ReactorLife.EventIsHandled | code/day25/tcp/EventLoop.cpp:36-38 | a dispatched channel's handler runs, for the first of the ready list, as soon as the connection reads |
| ReactorLife.EventCanClose | code/day25/tcp/TcpConnection.cpp:62-79 | an event of an open connection gets to a handler that can close it |
| ReactorLife.TimerCanClose | code/day25/tcp/TcpConnection.cpp:62-71 | so does a timer of the main loop that holds a weak pointer |
| ReactorLife.TimerFindsOpen | code/day25/tcp/TcpConnection.cpp:35-42 | for an open connection the weak pointer locks |
| ReactorLife.TasksAreKept | code/day25/tcp/EventLoop.cpp:58-90 | queued tasks stay queued, in order, until the swap takes all, and swapped-out ones until they run |
| ReactorLife.EveryConnectionCanEnd | code/day25/tcp/TcpServer.cpp:64-76 | from every reachable state some run destroys any given connection and leaves no map entry for it |
| ReactorLife.ClosedIsDestroyed | code/day25/tcp/TcpConnection.cpp:44-71 | so for a closed one without any further event |
| ReactorLife.OnceInALife | code/day25/tcp/TcpConnection.cpp:30-71 | counted over the actions of any run, HandleCloseInLoop, ConnectionDestructor and the destructor each run once for a connection if they are behind it, and otherwise never |
| TcpServers.TcpServer.constructor | code/day25/tcp/TcpServer.cpp:14-23 | the server starts with an empty map and id 1 |
| TcpServers.TcpServer.StoreConnection | code/day25/tcp/TcpServer.cpp:53-58 | in any reachable state the descriptor has no entry, and gets the new connection's; the id wraps at 1000 |
| TcpServers.TcpServer.HandleCloseInLoop | code/day25/tcp/TcpServer.cpp:68-72 | in any reachable state the source's assertion holds, the entry found is the connection's own, and only it goes |
| Epollers.Epoller.UpdateChannel | code/day25/tcp/Epoller.cpp:38-53 | flags and registrations keep agreeing exactly when no other channel holds the descriptor; then the kernel has the channel's events |
| Epollers.Epoller.DeleteChannel | code/day25/tcp/Epoller.cpp:55-61 | likewise for the removal, which goes by descriptor |
| Epollers.Epoller.Poll | code/day25/tcp/Epoller.cpp:25-36 | the ready channels come back in the kernel's order, each with its events |
| EventLoops.StepKeepsOrder | code/day25/tcp/EventLoop.cpp:58-90 | every step keeps finished ++ running ++ rest of the batch ++ queue equal to everything queued |
| EventLoops.StepKeepsWake | code/day25/tcp/EventLoop.cpp:58-99 | every step keeps the wake-up invariant |
| EventLoops.QueuedIsPushed | code/day25/tcp/EventLoop.cpp:58-63 | the queue's history is what the actions of the run pushed, from whatever thread |
| EventLoops.FinishedIsBegun | code/day25/tcp/EventLoop.cpp:85-87 | what has finished or runs is what the thread was seen to begin |
| EventLoops.ExactlyOnceInOrder | code/day25/tcp/EventLoop.cpp:58-90 | over every run, the tasks pushed are those begun, the rest of the batch and the queue, in order: each runs once, also when tasks queue tasks |
| EventLoops.PushesArePossible | code/day25/tcp/EventLoop.cpp:58-63 | any thread can queue at any time, and so can handlers and running tasks |
| EventLoops.NoLostWakeUp | code/day25/tcp/EventLoop.cpp:33-73 | at Poll with tasks waiting, the eventfd is positive or a producer is between push and write |
| EventLoops.ReadSucceeds | code/day25/tcp/EventLoop.cpp:92-99 | HandleRead runs only with a positive counter, so its assertion holds |
| EventLoops.WaitingTasksCanRun | code/day25/tcp/EventLoop.cpp:33-90 | from Poll with tasks waiting and no write outstanding, the loop's own steps run all of them |
| EventLoops.EventLoop.QueueLocked | code/day25/tcp/EventLoop.cpp:58-63 | the locked block appends the task, whatever thread calls, and says whether a write is due |
| EventLoops.EventLoop.WriteWakeup | code/day25/tcp/EventLoop.cpp:67-72 | the write is the machine's write step |
| EventLoops.EventLoop.HandleRead | code/day25/tcp/EventLoop.cpp:92-99 | the read succeeds exactly when the counter is positive, and is the machine's read step |
| EventLoops.EventLoop.SetCalling | code/day25/tcp/EventLoop.cpp:75-79 | the flag goes up before the swap |
| EventLoops.EventLoop.SwapFunctors | code/day25/tcp/EventLoop.cpp:79-84 | the swap takes all queued tasks and leaves none |
| EventLoops.EventLoop.CallFunctor | code/day25/tcp/EventLoop.cpp:85-87 | the next swapped-out task is called |
| EventLoops.EventLoop.ReturnFunctor | code/day25/tcp/EventLoop.cpp:85-87 | and returns |
| EventLoops.EventLoop.ClearCalling | code/day25/tcp/EventLoop.cpp:89 | the flag goes down after the batch |
| HttpRequests.MethodTexts | code/day25/http/HttpRequest.cpp:41-56 | exactly five texts are methods, each of its own |
| HttpRequests.VersionTexts | code/day25/http/HttpRequest.cpp:13-21 | exactly two texts are versions |
| HttpRequests.HttpRequest.SetVersion | code/day25/http/HttpRequest.cpp:13-21 | sets the version of the text and nothing else |
| HttpRequests.HttpRequest.SetMethod | code/day25/http/HttpRequest.cpp:41-56 | sets the method of the text, and tells whether there is one |
| HttpRequests.HttpRequest.SetRequestParams | code/day25/http/HttpRequest.cpp:93-95 | binds the key to the value and leaves the other fields |
| HttpRequests.HttpRequest.AddHeader | code/day25/http/HttpRequest.cpp:112-114 | likewise for headers |
| HttpRequests.HttpRequest.GetHeader | code/day25/http/HttpRequest.cpp:115-122 | the bound value, or the empty string |
| HttpRequests.HttpRequest.SetUrl | code/day25/http/HttpRequest.cpp:86-88 | sets the path and nothing else |
| HttpRequests.HttpRequest.SetProtocol | code/day25/http/HttpRequest.cpp:105-107 | sets the protocol and nothing else |
| HttpRequests.HttpRequest.SetBody | code/day25/http/HttpRequest.cpp:128-130 | sets the body and nothing else |
| HttpContexts.HttpContext.constructor | code/day25/http/HttpContext.cpp:9-11 | a context begins at START with a fresh request |
| HttpContexts.StepKeepsOrdered | code/day25/http/HttpContext.cpp:41-272 | every turn keeps start <= end <= size + 1 and the order of the cursors that its state stands for |
| HttpContexts.EveryTurnIsOrdered | code/day25/http/HttpContext.cpp:34-41 | so the cursors are ordered after any number of turns |
| HttpContexts.TurnsEnd | code/day25/http/HttpContext.cpp:37-39 | the loop is over after size + 1 turns at most |
| HttpContexts.CursorsStayOrdered | code/day25/http/HttpContext.cpp:34-41 | the cursors are ordered when it is over |
| HttpContexts.RangesAreInside | code/day25/http/HttpContext.cpp:127-265 | at every turn of a parse from START, a stored parameter has start < colon and colon + 2 <= end, a stored header likewise, the body is the rest of the message, and the one ill-formed range is that of a header whose colon is followed by CR |
| HttpContexts.HttpContext.Turn | code/day25/http/HttpContext.cpp:41-272 | one turn of the loop with the setters called in place is one step of the pure machine, also where it leaves by an exception |
| HttpContexts.HttpContext.ParaseRequest | code/day25/http/HttpContext.cpp:32-276 | the loop ends, and leaves state, request and result of the pure machine, from any state it is entered in and also when it leaves by an exception |
| HttpContexts.HttpContext.ResetContextStatus | code/day25/http/HttpContext.cpp:21-23 | only the state goes back; the request is kept |
| HttpGrammar.TreesAreRead | code/day25/http/HttpContext.cpp:43-270 | every printed tree of the grammar is read whole and stored part by part |
| HttpGrammar.AcceptedIsPrinted | code/day25/http/HttpContext.cpp:43-270 | every message that is accepted, or that ends in the ill-formed range, is printed by a tree |
| HttpGrammar.TreeDecides | code/day25/http/HttpContext.cpp:44-265 | a tree fixes the outcome and every stored field; the body is the whole rest unless a misspelt length header is not positive |
| HttpGrammar.AcceptsExactlyTheGrammar | code/day25/http/HttpContext.cpp:32-276 | from START, true exactly for messages of the grammar with a blank line, the exception exactly for those with an empty header text; the sentinel decides nothing |
| HttpGrammar.ParaseMessage | code/day25/http/HttpContext.cpp:25-27 | the same for the string overload, with the request object as the tree stores it |
| HttpRoundTrip.RoundTrip | code/day25/http/HttpContext.cpp:32-276 | printing a well-formed request and parsing it afresh gives back method, path, parameters, version, headers (last of equal names) and, exactly unless the length header forbids it, the body |
| HttpBodies.OrdinaryRoundTrip | code/day25/http/HttpContext.cpp:245-265 | without the misspelt length header the request comes back whole, body and all |
| HttpBodies.NumberedRoundTrip | code/day25/http/HttpContext.cpp:238-243 | with a number under it the body comes back exactly when the number is below 2^63 and its low 32 bits, with a sign, are positive; so for 0 < n < 2^31, and not for 0 |
| HttpBodies.AtoiReads | code/day25/http/HttpContext.cpp:239 | white space, sign and digits give the number, brought within 64 bits and cut to 32 |
| HttpBodies.AtoiOfDecimal | code/day25/http/HttpContext.cpp:239 | a number below 2^31 is read as it is |
| HttpRoundTrip.CodesRoundTrip | code/day25/http/HttpRequest.cpp:13-56 | the four methods and two versions come back from their texts |
| HttpRoundTrip.StoreHeadersBinds | code/day25/http/HttpContext.cpp:188-204 | storing headers one by one is overriding with the map in which the last of equal names wins |
| HttpRoundTrip.StoreParamsBinds | code/day25/http/HttpContext.cpp:127-143 | likewise for parameters |
| HttpRoundTrip.ReuseIsFreshExactlyWhen | code/day25/http/HttpContext.cpp:21-23 | a context used again gives the fresh result exactly when the message names every old parameter and header, and its headers let its body be read or there was none before |
| HttpRoundTrip.EmptyHeaderText | code/day25/http/HttpContext.cpp:195-204 | "Host:" followed by CR leaves by an exception |
| HttpRoundTrip.OldHeaderStays | code/day25/http/HttpContext.cpp:21-23 | a request without headers after one with Host has that header |
| HttpRoundTrip.MisspeltLengthDropsBody | code/day25/http/HttpContext.cpp:238-243 | "Content-Lenght: 0" costs a request its body |
| HttpResponses.HttpResponse.constructor | code/day25/http/HttpResponse.cpp:4-5 | no status, no headers, no body |
| HttpResponses.HttpResponse.SetStatusCode | code/day25/http/HttpResponse.cpp:9-11 | sets the status and nothing else |
| HttpResponses.HttpResponse.SetStatusMessage | code/day25/http/HttpResponse.cpp:13-15 | sets the reason and nothing else |
| HttpResponses.HttpResponse.SetCloseConnection | code/day25/http/HttpResponse.cpp:17-19 | sets the closing flag and nothing else |
| HttpResponses.HttpResponse.SetContentType | code/day25/http/HttpResponse.cpp:21-23 | exactly the content type header is replaced or added |
| HttpResponses.HttpResponse.SetBody | code/day25/http/HttpResponse.cpp:29-31 | sets the body and nothing else |
| HttpResponses.HttpResponse.Message | code/day25/http/HttpResponse.cpp:37-58 | the growing string ends as the printed response |
| HttpResponses.HttpResponse.AddHeader | code/day25/http/HttpResponse.cpp:25-27 | exactly the header of that name is replaced or added, and the headers stay in order of their names |
| HttpResponses.PutReplaces | code/day25/http/HttpResponse.cpp:25-27 | insertion into the ordered map is replacement by name and keeps the order |
| HttpResponses.BeforeByFirstDifference | code/day25/http/HttpResponse.cpp:50-52 | the order of the headers is the lexicographic one |
| HttpResponses.MessageIsReadExactlyWhen | code/day25/http/HttpResponse.cpp:37-58 | a message in front of any bytes is read back by the RFC 9112 reader, leaving those bytes, exactly when a check of status, texts, headers and body passes |
| HttpResponses.MessageCarries | code/day25/http/HttpResponse.cpp:37-58 | a fit message carries the code of RFC 9110 for its status, the reason, the body, its length, the connection option and the headers |
| HttpResponses.UnsetStatusIsUnreadable | code/day25/http/HttpResponse.cpp:4-5 | a response whose status was never set cannot be read at all |
| HttpResponses.HeadersThatSpoil | code/day25/http/HttpResponse.cpp:50-52 | a transfer coding or another length among the headers makes a message unfit, in letters of either case |
| HttpResponses.StreamIsReadExactlyWhen | code/day25/http/HttpResponse.cpp:37-58 | a concatenation of keep-alive messages, with perhaps a closing one last, is split into the same statuses, fields and bodies exactly when each message passes the check |
| TcpConnections.TcpConnection.HandleClose | code/day25/tcp/TcpConnection.cpp:62-71 | the close callback is called at the first call only |
| TcpConnections.ReadingEndsAtFirst | code/day25/tcp/TcpConnection.cpp:115-133 | reading goes on over data and interruptions, ends at the first other answer, and closes exactly at end of file or failure |
| TcpConnections.ReadingEndsWithScript | code/day25/tcp/TcpConnection.cpp:115-133 | data and interruptions alone are read whole |
| TcpConnections.WritingEndsAtFirst | code/day25/tcp/TcpConnection.cpp:142-156 | writing ends at the first answer that is neither bytes taken nor an interruption, with what was taken so far, and closes exactly at a failure |
| TcpConnections.WritingEndsWhenAllIsOut | code/day25/tcp/TcpConnection.cpp:142-156 | once the kernel would take enough, all is out and the connection stays open |
| TcpConnections.TcpConnection.ReadNonBlocking | code/day25/tcp/TcpConnection.cpp:113-134 | for every script of kernel answers the read buffer gains the received chunks in order, and the connection closes exactly at end of file or error |
| TcpConnections.TcpConnection.Read | code/day25/tcp/TcpConnection.cpp:101-105 | the read buffer holds exactly what this call received |
| TcpConnections.TcpConnection.WriteNonBlocking | code/day25/tcp/TcpConnection.cpp:136-157 | the wire gains the prefix of the send buffer that the kernel's answers take |
| TcpConnections.TcpConnection.Write | code/day25/tcp/TcpConnection.cpp:107-110 | what was not taken is dropped |
| TcpConnections.TcpConnection.Send | code/day25/tcp/TcpConnection.cpp:96-99 | a send puts one prefix of its message on the wire and leaves the buffer empty |
| TcpConnections.WholeUnlessStopped | code/day25/tcp/TcpConnection.cpp:142-156 | a message goes out whole exactly when the kernel neither would block nor fails before its end; a close means it did fail |
| TcpConnections.SendAll | code/day25/tcp/TcpConnection.cpp:96-110 | over any run of sends the wire carries, in order, one prefix of each message |
| TcpConnections.EachWholeUnlessStopped | code/day25/tcp/TcpConnection.cpp:96-110 | each of them whole exactly when the kernel did not stop during it |
| Buffers.Buffer.constructor | code/day25/tcp/Buffer.cpp:5-8 | an empty queue of capacity 1024 |
| Buffers.Buffer.CopyDown | code/day25/tcp/Buffer.cpp:99 | the in-place copy to a lower address loses nothing |
| Buffers.Buffer.EnsureWritableBytes | code/day25/tcp/Buffer.cpp:93-105 | makes the room asked for, keeps the unread bytes, grows only when compaction is not enough, and the capacity stays within max(1024, 7 + 2 * peak) |
| Buffers.Buffer.Append | code/day25/tcp/Buffer.cpp:23-27 | the queue gains the bytes at its end |
| Buffers.Buffer.Retrieve | code/day25/tcp/Buffer.cpp:49-58 | the queue loses its first bytes; an emptied one starts at the front again |
| Buffers.Buffer.RetrieveAll | code/day25/tcp/Buffer.cpp:60-63 | empties the queue |
| Buffers.Buffer.RetrieveUtil | code/day25/tcp/Buffer.cpp:65-69 | unread bytes begin at the given position, which may lie before them; the buffer stays well formed exactly when it is not in the room in front |
| Buffers.Buffer.RetrieveAsString | code/day25/tcp/Buffer.cpp:71-77 | result and new queue together are the old queue |
| Buffers.Buffer.RetrieveUtilAsString | code/day25/tcp/Buffer.cpp:79-84 | result and new queue together are the old queue; a position before the unread bytes leaves by an exception and changes nothing |
| Buffers.Buffer.RetrieveAllAsString | code/day25/tcp/Buffer.cpp:86-91 | the result is the whole queue, which becomes empty |
| TimerQueues.AddTimeIsExact | code/day25/timer/TimeStamp.h:60-63 | the sum is exact for either sign: whole seconds, the fraction dropped toward zero |
| TimerQueues.RestartIsExact | code/day25/timer/Timer.cpp:10-12 | a restarted timer is due the whole seconds of its interval after now |
| TimerQueues.RestartIsLaterExactlyWhen | code/day25/timer/Timer.cpp:10-12 | a repeating timer is put off exactly when its interval is at least one second |
| TimerQueues.HalfSecondIsDueAtOnce | code/day25/timer/Timer.cpp:10-12 | with half a second it is due at the instant of its restart |
| TimerQueues.DelayIsFullExactlyWhen | code/day25/timer/TimeStamp.h:60-63 | adding a delay loses no time exactly when it is negative or a whole number of seconds |
| TimerQueues.PlaceIsSetInsertion | code/day25/timer/TimerQueue.cpp:76 | insertion keeps the set's order, adds the one entry, and moves the front only for an earlier one |
| TimerQueues.DueCount | code/day25/timer/TimerQueue.cpp:49 | the bound splits the set into entries not later than now and the first later one |
| TimerQueues.TimerQueue.ResetTimerFd | code/day25/timer/TimerQueue.cpp:98-117 | the deadline is the arming instant plus at least 100 microseconds, and never before the timer's expiration |
| TimerQueues.TimerQueue.Insert | code/day25/timer/TimerQueue.cpp:71-79 | stores the timer under its own expiration; true exactly when it is earlier than all others |
| TimerQueues.TimerQueue.AddTimer | code/day25/timer/TimerQueue.cpp:62-69 | keeps every key equal to its timer's expiration and the account of timers; arms the timerfd exactly when the timer is the earliest, so a set that is not empty stays armed for its first entry |
| TimerQueues.TimerQueue.TakeDue | code/day25/timer/TimerQueue.cpp:47-52 | splits off exactly the entries not later than now |
| TimerQueues.TimerQueue.RunActive | code/day25/timer/TimerQueue.cpp:53-56 | runs exactly the batch, in its order, and stores what timers the callbacks ask for |
| TimerQueues.TimerQueue.ResetTimers | code/day25/timer/TimerQueue.cpp:81-95 | one-shots are deleted, repeaters are due the whole seconds of their interval after a clock reading, all others untouched, and the timerfd is armed for the first |
| TimerQueues.TimerQueue.ReadTimerFd | code/day25/timer/TimerQueue.cpp:37-43 | the read takes the expiration, and fails when the timerfd has been armed anew since |
| TimerQueues.TimerQueue.HandleRead | code/day25/timer/TimerQueue.cpp:45-58 | after any report, whatever was added since: runs exactly the due prefix in order, which is not empty if the set was not at the report; settles each as above; the timers that callbacks ask for are stored; a set that is not empty is left armed for its first entry |
| TimerQueues.TimerQueue.Firing | code/day25/timer/TimerQueue.cpp:45-58 | report, timers added by other handlers, and pass: with none added, some timer runs exactly when the set was not empty |
| TimerQueues.FiringThatRunsNothing | code/day25/timer/TimerQueue.cpp:45-95 | a timer added between report and pass leaves an arming behind whose firing runs nothing |
| TimerQueues.TimerQueue.Serve | code/day25/timer/TimerQueue.cpp:45-95 | over any sequence of pauses, additions and firings no callback runs early, every timer is live or has run, a live one-shot has not run, and none runs twice |
| AsyncLoggings.LogFile.Write | code/day25/log/LogFile.cpp:27-46 | all bytes are written however little each fwrite takes, the counter follows, and the flush time moves after 3 seconds |
| AsyncLoggings.AsyncLogging.constructor | code/day25/log/AsyncLogging.cpp:9-15 | two buffers, each with one owner, nothing taken in |
| AsyncLoggings.AsyncLogging.Start | code/day25/log/AsyncLogging.cpp:62-73 | the consumer adds two buffers and a file of its own, whatever has been appended before |
| AsyncLoggings.AsyncLogging.Replace | code/day25/log/AsyncLogging.cpp:48-54 | the current buffer joins the full ones, an empty one takes its place, nothing stored is lost and each buffer keeps one owner |
| AsyncLoggings.AsyncLogging.WriteAll | code/day25/log/AsyncLogging.cpp:96-98 | the file gains the buffers' texts in order |
| AsyncLoggings.AsyncLogging.Append | code/day25/log/AsyncLogging.cpp:43-60 | a message is stored whole or dropped whole; dropped exactly when it equals the room left, or exceeds it and is at least a buffer long; one owner per buffer and the byte order are kept |
| AsyncLoggings.ExactFitIsDropped | code/day25/log/AsyncLogging.cpp:45-46 | a message of exactly the room left is lost, while a byte less or more is kept |
| AsyncLoggings.AsyncLogging.Recycle | code/day25/log/AsyncLogging.cpp:105-122 | the buffers taken back exist, are not in use elsewhere and are emptied; the rest are deleted; both spare pointers are set again |
| AsyncLoggings.AsyncLogging.Pass | code/day25/log/AsyncLogging.cpp:77-122 | after a pass everything taken in so far is in the files, in order; the file is changed exactly when 1 GiB or more is in it |
| AsyncLoggings.AsyncLogging.Run | code/day25/log/AsyncLogging.cpp:43-123 | over any sequence of appends and passes, with the consumer started at any point, the files hold what a plain log without buffers would, message by message |
| LogStreams.FixedBuffer.Append | code/day25/log/LogStream.h:151-157 | stores the bytes whole or not at all, and always leaves a byte free |
| LogStreams.FixedBuffer.Add | code/day25/log/LogStream.h:170-171 | takes in bytes already written behind the end; a byte is left free exactly when the length is below the room, which is not checked |
| LogStreams.FixedBuffer.Bzero | code/day25/log/LogStream.h:180-184 | zeroes every byte and empties the buffer |
| LogStreams.WriteDigits | code/day25/log/LogStream.h:85-89 | the do-while leaves the digits of the value, last one first, and touches nothing before them |
| LogStreams.Reverse | code/day25/log/LogStream.h:93 | the in-place reversal, and nothing outside its range |
| LogStreams.LowReversed | code/day25/log/LogStream.h:85-93 | digits last one first, reversed, are the digits first one first |
| LogStreams.FitsIn20 | code/day25/log/LogStream.h:81 | a 64-bit value takes at most 20 bytes, so the 48-byte guard suffices |
| LogStreams.LogStream.FormatInteger | code/day25/log/LogStream.h:79-96 | appends the text of the value, or nothing with less than 48 bytes free; the buffer never fills |
| LogStreams.FormatsExactlyNaturals | code/day25/log/LogStream.h:79-96 | that text is the usual one exactly for values that are not negative |
| LogStreams.RawOfNegative | code/day25/log/LogStream.h:85-92 | a negative value gets, for each digit, the character as far below '0' as the digit lies above, and no sign |
| LogStreams.MinusThree | code/day25/log/LogStream.h:85-92 | -3 becomes a lone minus sign, for the '-' branch is never reached |
| Decimals.DecimalReadsBack | code/day25/log/LogStream.h:85-93 | the usual text is canonical and reads back as the number |
| ThreadPools.StepKeeps | code/day16/tcp/ThreadPool.cpp:9-39 | every step of a worker, a caller or the destructor keeps the pool's invariant |
| ThreadPools.HistoriesAreTrue | code/day16/tcp/ThreadPool.h:48-56 | the histories are what the actions of the run offered before the stop, began and finished |
| ThreadPools.AcceptedRunOnceInOrder | code/day16/tcp/ThreadPool.cpp:15-23 | over every run the tasks offered are those begun, in order, and then the queue, and each begun one is finished once or in one worker's hands |
| ThreadPools.OwnStepSettles | code/day16/tcp/ThreadPool.cpp:12-24 | every step of workers and notifications lowers one measure |
| ThreadPools.SomeOwnStep | code/day16/tcp/ThreadPool.cpp:12-24 | as long as a task waits or runs, one is possible |
| ThreadPools.PoolSettles | code/day16/tcp/ThreadPool.cpp:12-24 | so the pool, left to itself, runs every accepted task |
| ThreadPools.NoTaskForgotten | code/day16/tcp/ThreadPool.h:48-57 | tasks never wait with every worker asleep and no notification pending |
| ThreadPools.StopSeals | code/day16/tcp/ThreadPool.h:51-53 | nothing is accepted after the stop |
| ThreadPools.JoinedMeansDone | code/day16/tcp/ThreadPool.cpp:29-39 | when all workers have left, and there was one, every task offered before the stop has been run |
| ThreadPools.NoWorkersNoRuns | code/day16/tcp/ThreadPool.cpp:9-10 | without workers none ever is |
| ThreadPools.DrainEnds | code/day16/tcp/ThreadPool.cpp:29-39 | after the stop some worker can always move until all have left, and each move brings the end nearer |
| ThreadPools.ThreadPool.AddTask | code/day16/tcp/ThreadPool.h:48-57 | the locked block appends the task, and refuses it after the stop |
| ThreadPools.ThreadPool.Take | code/day16/tcp/ThreadPool.cpp:14-22 | a worker's locked block: sleep, leave, or take the oldest task |
| ThreadPools.ThreadPool.SetStop | code/day16/tcp/ThreadPool.cpp:30-33 | the destructor's locked block |

## Left out

- Buffers.Buffer.Retrieve: takes `len <= readablebytes()`, as line 72 and the comment on the second branch of `code/day25/tcp/Buffer.cpp:49-58` intend; the assertion on line 50 also forbids to retrieve exactly all bytes.
- TcpConnections.TcpConnection.Send: starts from an empty send buffer, which every `Write` leaves; bytes that the kernel did not take are dropped by the program, so nothing is said about their delivery.
- TimerQueues.TimerQueue.AddTimer: called from within a callback it does not promise a timerfd armed for the first entry before the pass is over, since the program arms for timers that stay stored only in `ResetTimers`.
- EventLoops.NoLostWakeUp: the eventfd counter is unbounded; a write that would block at its maximum is not modelled.
- AsyncLoggings.AsyncLogging.Run: ends with one more pass; bytes still in memory when `Stop` comes between passes are lost by the program.
- AsyncLoggings.LogFile.Write: a stream that takes nothing forever would keep the loop from ending, and is not modelled; nor is a file that does not open.
- Reactor: `TcpConnection`, `Channel` and `EventLoop` objects are values in its `State`, so update in place and aliasing show only as far as indices and references express them; `TcpServer.dfy`, `Epoller.dfy`, `EventLoop.dfy` and `TcpConnection.dfy` hold the object forms.
- Channel events: which callback an event calls, edge against level triggering (`listen_events_` is a short and loses the edge bit), and `tied_`, which is never initialised.
- A race of two threads inside `HandleClose` between its test and its set.
- The acceptor, the address calls and the errors of `epoll_ctl` other than a descriptor present or absent.
- Reassembly of a request from several reads: the parser's cursors start anew at each call and `Read` drops old bytes.
- The parser's default branch: the states it is for are never assigned.
- `GetRequestValue`, which looks in the headers, and `kDelete`, which only the text "Delete" yields and the parser never produces, since it takes upper-case letters only.
- Overflow of 64-bit time stamps and of `int` lengths; microsecond counters and sizes are unbounded integers.
- Chunked transfer coding and requests by HEAD in the response reader: the printer makes neither.
- `EventLoopThreadPool`, connection ids, getters, floating-point output, date formatting, log levels, thread ids, the other days and the other programs of the repository: easy members, or not part of this model.
