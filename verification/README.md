# A verified model of the reactor HTTP server

The server reads bytes from a socket into a growing buffer, parses requests out of it as they
arrive, hands them to a thread pool, and sends responses back through an output buffer and an
event loop. Around that core it keeps an asynchronous log, a timer queue, a pool of database
connections, and login tokens, rate limits and cached profiles in Redis. This project models
the parts in which something subtle is decided, one module a component, and proves what they
promise.

Code that updates its fields in place is a class here. Its methods are proved against a value
or a step function, and the laws are lemmas about that function:

- **Parsing and printing** (`Buffer`, `HttpRequest`, `HttpContext`, `HttpResponse`, `Decimal`).
  The buffer is one array with two indices; every operation is proved against the plain byte
  sequence `Contents()`. `HttpContexts.Parse` is the meaning of one call of the parser on that
  sequence, and the parser loop is proved to compute it, so that independence from the chunks
  of the stream and the round trips are statements about the imperative code.
- **Step systems** (`ThreadPool`, `EventLoop`, `ConnectionPool`, `Logger`, `LogDelivery`,
  `LogRotation`, `SendPath`). A state, the events that can happen next (one lock region, one
  system call, one notification or one callback each), and a step. A condition variable is a
  set of sleeping threads that may also wake by themselves. The theorems hold after every
  sequence of enabled events. The methods of the class are the lock regions, each proved to
  take the step of its event. A method that spans several regions takes a script of what other
  threads do in between.
- **Timers** (`TimerQueue`, `TimerRuns`). The heap is a list with any earliest node on top. The
  sweep is proved against a relation, the runs are sequences of adds and sweeps.
- **Redis clients** (`Redis`, `TokenManager`, `RateLimiter`, `UserService`). Redis is a map with
  deadlines read under a clock that does not go back. Runs are sequences of whole calls.

Bytes are `char`. What the kernel, the clock, the database and the random generator decide are
parameters of the methods and parts of the events.

## What the code does not promise

Where a stronger statement would be false, the exact condition is proved, and for statements
about runs a run is given that fails it:

- One read event dispatches at most one request, so a pipelined request waits for another read
  event; nothing waits exactly when the bytes at hand make up at most one request
  (`NothingWaitsIff`, `TwoInOneSegment`).
- Work queued by the loop thread before `loop()` gets no wakeup; at poll it is announced exactly
  when another thread has queued something or quit (`WorkAtPollIsAnnouncedIff`,
  `EarlyWorkIsNotAnnounced`).
- A quit before `loop()` is forgotten (`LoopEndsIff`).
- An empty send the socket refuses leaves write interest without bytes to write, until the next
  writable event (`InterestBecomesExact`).
- A printed header is read back unchanged exactly when its name has no colon and its value is
  trimmed and not empty (`HeaderRoundTrip`); a whole response exactly when all headers are of
  that kind, without line ends, and the length agrees (`SerializeRoundTrip`).
- A deadline at the clock's epoch disarms the kernel timer instead of arming it, and an earlier
  one is refused (`SplitRecombines`, `ArmedAtTheTop`, `EpochTimerIsNotArmed`).
- A borrower whose dead connection cannot be reconnected frees a place and tells nobody; this is
  the only step after which a caller can sleep beside a pool with room (`FullUnlessStranded`,
  `FailedReconnectStrandsACaller`).
- `closeAll` sets the counter to zero; from then on the counter law holds exactly when nothing was
  lent at that moment (`CounterAfterClose`, `LateReturnWrapsCounter`).
- The logger's exit drain is lost when no file is open for the last write, and only then
  (`ExitDrainIsWrittenIff`, `ClosedFileLosesTheDrain`).
- A record whose producer had passed the test of the running flag before shutdown can be appended
  after the exit drain; it stays in a buffer. Calls made later add nothing
  (`LateRecordStaysInTheBuffer`, `LateCallsAddNothing`).
- A log roll under a stamp that is already taken replaces that archive, and what is written while no
  file is open goes to stderr; the files hold what was written exactly when every roll found its
  stamp free and a file was open for every write (`RotationLosesNothingIff`,
  `SameStampLosesRecords`).
- `removeAllTokensForUser` misses a token exactly when the user's index has lapsed since the token
  was created, as it does after a later token of shorter life (`LookupIsGranted`, `SweepMissesIff`,
  `ShorterLifetimeHidesAToken`).
- With a rate limit period that is not positive all requests pass or none
  (`NoPeriodNoLimit`).
- A user who was asked for just before being registered is reported missing exactly until the mark
  of that read ends, within a minute, or an update clears it (`ReadsAgreeIff`,
  `NewUserReportedMissing`).
- A request callback that throws, as when the thread pool is full, keeps the parser from being reset
  (`HandleRead`, `ThrowingCallbackRepeats`).

A comment in `queueInLoop` (src/net/EventLoop.cpp:115-117) hopes that a functor queued during a
drain runs in the same round; the code runs it in the next one, and so does the model.
The comments in src/http/HttpRequest.cpp:27-28 speak of names stored in lower case; the parser
stores them as they came, and so does the model.

## Model

| member | source | states |
|---|---|---|
| Decimal.StrtolOfInt | src/http/HttpRequest.cpp:17-23 | Reading back a printed number with strtol gives the number, saturated at the ends of long, and consumes the whole text. |
| Decimal.IntToStringInjective | src/auth/TokenManager.cpp:55 | Two numbers that print alike are equal, so keys made from user ids are distinct. |
| Decimal.DigitsAreDecimal | src/http/HttpRequest.cpp:17-18 | The digits 0 to 9 have their values, and digits read most significant first in base ten. |
| Buffers.FindCRLF | src/utils/Buffer.cpp:73-91 | The result is the first line end at or after the start, or there is none. |
| Buffers.FindCRLFStable | src/utils/Buffer.cpp:73-80 | Bytes that arrive later never move a line end already found. |
| Buffers.LineEndFound | src/utils/Buffer.cpp:73-80 | A line without a carriage return, followed by CR and LF, ends at its own end. |
| Buffers.CopyLeft | src/utils/Buffer.cpp:169-170 | A front to back copy to the left inside one array delivers the old range, though the ranges may overlap. |
| Buffers.Buffer.constructor | src/utils/Buffer.cpp:10-18 | A new buffer reads as empty, with the prepend area and the asked room free. |
| Buffers.Buffer.Retrieve | src/utils/Buffer.cpp:20-27 | Drops exactly the first bytes; an emptied buffer goes back to the front. |
| Buffers.Buffer.RetrieveAsString | src/utils/Buffer.cpp:34-38 | The returned bytes followed by what is left are what was there. |
| Buffers.Buffer.MakeSpace | src/utils/Buffer.cpp:161-175 | Contents unchanged and the room there; it grows exactly when the free bytes do not suffice, and a move always goes leftward, as the overlapping copy needs. |
| Buffers.Buffer.EnsureWritableBytes | src/utils/Buffer.cpp:44-48 | Contents unchanged and at least the asked room writable, after any history. |
| Buffers.Buffer.Append | src/utils/Buffer.cpp:50-54 | Contents become the old contents followed by the data. |
| Buffers.Buffer.Prepend | src/utils/Buffer.cpp:60-67 | Contents become the data followed by the old contents if the prepend area has room; otherwise they stay. |
| Buffers.Buffer.FindLineEnd | src/utils/Buffer.cpp:73-80 | The offset found is that of the first line end in the readable bytes. |
| Buffers.Buffer.ReadFd | src/utils/Buffer.cpp:93-117 | Everything the scattered read delivered, tail and stack part, is appended in order; an error changes nothing. |
| Buffers.Buffer.WriteFd | src/utils/Buffer.cpp:119-139 | Exactly the bytes the kernel took are dropped; an error or an empty buffer drops none. |
| Buffers.Buffer.Shrink | src/utils/Buffer.cpp:141-159 | Contents unchanged, and the capacity is the smaller of the old one and the one asked for. |
| HttpRequests.GetContentLength | src/http/HttpRequest.cpp:7-24 | The loop over white space and strtol compute the length a header map declares, -1 for any unacceptable text. |
| HttpRequests.LengthRoundTrip | src/http/HttpRequest.cpp:7-24 | A printed length is read back as itself if and only if it is at most INT_MAX (and not below -1); any other is refused as -1. |
| HttpRequests.LengthAcceptedIff | src/http/HttpRequest.cpp:7-24 | The texts accepted as a length n, said without strtol: white space, perhaps a sign (minus only before zero), digits of value n up to 2147483647, and the end of the C string; exactly these are read as n. |
| HttpRequests.GetHeader | src/http/HttpRequest.cpp:26-36 | The exact name wins, then its lower-case form, else empty. |
| HttpRequests.LetterByLetter | src/http/HttpRequest.cpp:30-32 | In lower case each of the 26 capital letters is the small letter of its place, and every other byte stays. |
| HttpContexts.ParseResumes | src/http/Context.cpp:6-57 | Parsing what has arrived, and later the unread rest with more bytes, equals parsing everything at once. |
| HttpContexts.ChunkIndependence | src/http/Context.cpp:6-57 | For every stream and every way to cut it, feeding the chunks with a parse after each gives the same state, request and unread bytes as one parse of the whole. |
| HttpContexts.ParseIdempotent | src/http/Context.cpp:6-57 | A second parse without new bytes changes nothing. |
| HttpContexts.TurnConsumes | src/http/Context.cpp:40-45 | From a fresh parser the branch for a body of no length is never taken: each turn that does not fail consumes bytes. |
| HttpContexts.ParseKeepsConsistent | src/http/Context.cpp:26-31 | The parser waits for a body only when a positive length was declared, on every stream; a completed request has consumed bytes. |
| HttpContexts.RequestLineAccepted | src/http/Context.cpp:59-93 | A request line is accepted if and only if it is the text of one of the six verbs, a target without spaces and one of two versions, joined by single spaces. |
| HttpContexts.RequestLineRecognised | src/http/Context.cpp:59-93 | For each of the six verbs, by its text, every target without spaces and anything after it: the line sets exactly that verb and the target, and is accepted if and only if the rest is one of the two versions. |
| HttpContexts.RefusedLineLeaves | src/http/Context.cpp:59-93 | A refused line leaves the request as it was, unless only its version is wrong: then it has set verb and target, and nothing else. |
| HttpContexts.RequestLineRoundTrip | src/http/Context.cpp:59-93 | A printed request line is read back field by field: the verb its text stands for, the target split at the first question mark, the version; without a query the old query stays. |
| HttpContexts.TurnFailsIff | src/http/Context.cpp:6-57 | The parser fails if and only if a complete line is there that is no request line, or a header line that is not blank and has no colon. |
| HttpContexts.TrimStrips | src/http/Context.cpp:101-106 | Trimming takes spaces and tabs off both ends, any number of them, and keeps a value that is nothing else. |
| HttpContexts.HttpContext.Reset | include/http/HttpContext.h:27-30 | The parser is again as new. |
| HttpContexts.HttpContext.AcceptRequestLine | src/http/Context.cpp:59-93 | The imperative line splitting computes the specified result, including the fields already set when the version is refused. |
| HttpContexts.HttpContext.AcceptHeader | src/http/Context.cpp:95-109 | Name and trimmed value are stored, the last of a name winning; a line without colon changes nothing. |
| HttpContexts.HttpContext.ParseBuffer | src/http/Context.cpp:6-57 | The loop over the mutable buffer terminates and leaves exactly the context and the unread bytes that Parse gives. |
| HttpContexts.HttpContext.ParseStream | src/http/Context.cpp:6-57 | Appending chunks to the real buffer with a parse after each ends where one parse of the stream ends. |
| HttpResponses.HttpResponse.SetHeader | src/http/HttpResponse.cpp:5-7 | The map has the new value under the key and is otherwise unchanged. |
| HttpResponses.MessageOfCode | src/http/HttpResponse.cpp:11-26 | Each of the twelve codes, by number and text, has its message, and no other code has one. |
| HttpResponses.HttpResponse.SetStatusCode | src/http/HttpResponse.cpp:9-27 | The code is stored with the message the table of twelve has for it, Unknown when it has none. |
| HttpResponses.HttpResponse.Serialize | src/http/HttpResponse.cpp:29-55 | For whatever order the map is walked in, the text is the status line, one line a header, the automatic headers that are missing, a blank line and the body. |
| HttpResponses.StatusLineRoundTrip | src/http/HttpResponse.cpp:30 | Split at its first two spaces, the status line gives version, number and message, spaces and all, and the number reads back as the code. |
| HttpResponses.PrintedValueKept | src/http/Context.cpp:101-106 | A value printed after a space survives the parser's trimming if and only if it is not empty and has no blanks at its ends. |
| HttpResponses.HeaderRoundTrip | src/http/HttpResponse.cpp:33-35 | A printed header is read back as its name and value if and only if the name has no colon and the value is trimmed. |
| HttpResponses.ParsedHeadersAreClean | src/http/Context.cpp:95-109 | No byte stream makes the parser store a name with a colon, or a line end in a name or value. |
| HttpResponses.ParserKeepsLastHeader | src/http/Context.cpp:95-109 | Of the header lines of one name, however many others stand between them, the parser keeps the trimmed value of the last. |
| HttpResponses.ParseBody | src/http/Context.cpp:24-54 | From the blank line on, exactly the body is recovered and nothing left over if and only if the declared length, none read as zero, is its length. |
| HttpResponses.BlockRoundTrip | src/http/Context.cpp:19-54 | A printed header list with distinct names and a body are read back exactly if and only if every header fits untouched on its line and the length is right. |
| HttpResponses.RequestRoundTrip | src/http/Context.cpp:6-109 | A printed request, its verb given as one of the six texts and its target without space or line end, is read back in all its fields from a fresh parser, the verb as the one of that text, and the bytes after it stay unread. |
| HttpResponses.SentHeaders | src/http/HttpResponse.cpp:33-50 | What a receiver gets: every header set, unchanged; with a body, Content-Length with its printed length and Content-Type text/plain unless they were set; Server MyCppServer/1.0 unless it was set; and no other name. |
| HttpResponses.AutomaticInOrder | src/http/HttpResponse.cpp:37-50 | The automatic headers come in the order length, type, server. |
| HttpResponses.SerializeRoundTrip | src/http/HttpResponse.cpp:29-55 | Behind the status line, the parser recovers exactly the headers set, the automatic ones and the body, consuming every byte, if and only if every header conforms and the length agrees. |
| HttpResponses.SerializeThenMore | src/http/HttpResponse.cpp:29-55 | Bytes after a conforming response stay unread. |
| Connections.ReadStepFollows | src/net/Connection.cpp:76-110 | A read event dispatches what the whole-stream parser meets next, and leaves the rest to be met. |
| Connections.DispatchIsPrefix | src/net/Connection.cpp:76-110 | For every sequence of segments, the requests dispatched, followed by those still obtainable from the unread bytes, are the requests of the whole stream. |
| Connections.SettlesAlike | src/net/Connection.cpp:76-110 | For every sequence of segments, parsing and restarting until no request completes ends in the same state, with the same request in progress or the same error, and the same bytes left over, as on the whole stream. |
| Connections.InputConserved | src/net/Connection.cpp:76-110 | After every sequence of read events, the bytes received are cut without rest into one piece for each dispatched request, which alone parses to exactly that request, the bytes of the request in progress, which alone lead to the parser's state, and the unread bytes; each event dispatches at most one request. |
| Connections.PipelinedRequestsWait | src/net/Connection.cpp:99-108 | Of the requests the bytes at hand make up, one read event dispatches the first and leaves exactly the others. |
| Connections.NothingWaitsIff | src/net/Connection.cpp:99-108 | No complete request waits unseen after a read event if and only if the bytes at hand make up at most one. |
| Connections.TwoInOneSegment | src/net/Connection.cpp:99-108 | Two requests printed into one segment: exactly the first is dispatched, with the verb of its text, and the second stays unread. |
| Connections.ErrorResponseReadsBack | src/net/Connection.cpp:55-74 | For 400, 404 and every other code, by its text: behind the status line with code and text, exactly the length and the closing header and the text as body are read back, and what follows stays unread. |
| Connections.SendKeepsInvariant | src/net/Connection.cpp:153-178 | After any send and any outcome of the write, bytes taken by the socket and the buffer are the messages in order; on an open connection a non-empty buffer has write interest. |
| Connections.WritableKeepsInvariant | src/net/Connection.cpp:112-136 | The same after any writable event, partial write, refusal or error. |
| Connections.SendWrites | src/net/Connection.cpp:153-178 | A send closes the connection if and only if it makes a write, because there is no write interest, and that write fails; the socket takes exactly what a write that was made reports. |
| Connections.WritableWrites | src/net/Connection.cpp:112-136 | The same for a writable event, which writes if and only if there is something to write. |
| Connections.InterestBecomesExact | src/net/Connection.cpp:112-178 | After every send of some bytes and every writable event, an open connection has write interest if and only if bytes are left; an empty send keeps that unless the socket refuses its empty write. |
| Connections.Connection.SendInLoop | src/net/Connection.cpp:153-178 | The imperative send over the real buffer is the send step, and closes only after a failed write. |
| Connections.Connection.HandleWrite | src/net/Connection.cpp:112-136 | The imperative writable event over the real buffer is the writable step, and closes only after a failed write. |
| Connections.SendAllKeepsInvariant | src/net/Connection.cpp:101-104 | Any sends the request callback makes on the loop thread keep the output law, and are counted in order. |
| Connections.SendAllClosesIff | src/net/Connection.cpp:101-104 | The sends of a callback close the connection if and only if one of their writes is made and fails. |
| Connections.ThrowingCallbackRepeats | src/net/Connection.cpp:99-108 | A request callback that throws leaves the parser with its request: the next event would dispatch the same request again. |
| Connections.Connection.HandleRead | src/net/Connection.cpp:76-110 | A failed or empty read closes; a parse error sends the 400 response and closes; otherwise it is the read step on the real buffer and parser, and a dispatch runs the sends of the request callback, in order, before the parser restarts; if the callback throws, the parser does not restart; the connection closes for these reasons or a failed write of those sends, and for no other. |
| EventLoops.EveryRunKeepsQueueOrder | src/net/EventLoop.cpp:110-150 | After every interleaving: what was queued is what was executed, the rest of the batch and what waits, in order; a finished round has run exactly what was queued before its swap. |
| EventLoops.EveryRunAnnouncesWork | src/net/EventLoop.cpp:52-67 | At poll with work waiting, the eventfd is readable, a foreign thread has yet to write it, or the work was queued before loop(). |
| EventLoops.WorkAtPollIsAnnouncedIff | src/net/EventLoop.cpp:52-79 | Over every run: work waiting at poll is announced by the eventfd or a coming write if and only if the loop thread queued none of it before loop(), or another thread has queued something or quit. |
| EventLoops.WorkAtPollIsAnnounced | src/net/EventLoop.cpp:110-137 | It always is when the loop thread queues only inside loop(). |
| EventLoops.EarlyWorkIsNotAnnounced | src/net/EventLoop.cpp:110-121 | A run in which it does. |
| EventLoops.EventfdCounts | src/net/EventLoop.cpp:123-137 | Over every run the eventfd holds the number of wakeups written since it was last read, up to the largest value it can hold. |
| EventLoops.LoopEndsIff | src/net/EventLoop.cpp:52-79 | Over every run the loop ends at its test if and only if quit was called after loop() began; a quit before that is forgotten. |
| EventLoops.EventLoop.PushFromLoop | src/net/EventLoop.cpp:110-114 | The lock region on the loop thread is the push step. |
| EventLoops.EventLoop.QueueFromLoop | src/net/EventLoop.cpp:110-121 | Whatever other threads do between push and wakeup, queueing on the loop thread adds one functor, and the eventfd is written exactly while functors are being run. |
| EventLoops.EventLoop.QueueFromElsewhere | src/net/EventLoop.cpp:110-114 | The lock region on another thread is the push step. |
| EventLoops.EventLoop.HandleWakeup | src/net/EventLoop.cpp:131-137 | Reading the eventfd is the step that clears it. |
| EventLoops.EventLoop.SwapPending | src/net/EventLoop.cpp:141-145 | The lock region of the drain is the swap step. |
| EventLoops.EventLoop.DoPendingFunctors | src/net/EventLoop.cpp:139-150 | Whatever other threads do between any two of its steps: the functors that waited run, in order, and no others; what waits afterwards is everything queued meanwhile, by whomever, in lock order, the loop's part being what the functors queue; and it is announced. |
| SendPath.SendsReachTheWireInOrder | src/net/Connection.cpp:36-42 | Over every interleaving of sends from any threads with partial writes, refusals and writable events: socket and buffer hold exactly the sends that ran, in order, the socket just the bytes the writes report; the connection is closed from this side if and only if a write that was made failed; an open one waits for the socket while bytes are left, and only then if no send was empty; and the sends of each thread keep its order. |
| SendPath.ClosedByFailedWritesOnly | src/net/Connection.cpp:112-178 | The same closing and counting law from any state the invariant allows. |
| ThreadPools.ExactlyOnceInOrder | include/threadpool/ThreadPool.h:109-120 | After every interleaving: accepted tasks are the started ones followed by the queue; every submission is started, queued or rejected, never two of them; a bounded queue keeps its bound. |
| ThreadPools.RefusedIff | include/threadpool/ThreadPool.h:109-120 | After every interleaving, a submission is refused if and only if the pool is stopping, or has a bound and exactly that many accepted tasks have not started; otherwise it is accepted. |
| ThreadPools.NoLostWakeup | src/threadpool/ThreadPool.cpp:28-47 | While tasks wait some worker is awake; while one sleeps each waiting task has an awake worker on its way; nobody sleeps after the final notification. |
| ThreadPools.WorkDecreases | src/threadpool/ThreadPool.cpp:25-48 | After stop and notification each worker event lowers a measure of queued tasks, running tasks and live workers, and nothing raises it. |
| ThreadPools.ShutdownIsBounded | src/threadpool/ThreadPool.cpp:50-63 | The number of worker events still possible is at most that measure, whatever else is tried. |
| ThreadPools.ShutdownCompletes | src/threadpool/ThreadPool.cpp:50-75 | Until all workers have left one can move; then the queue is empty, every accepted task has started and the final clearing finds nothing. |
| ThreadPools.ThreadPool.Submit | include/threadpool/ThreadPool.h:109-120 | The lock region is the submit step; it accepts exactly when not stopped and, with a maximum size, fewer tasks than that wait, and then queues the task last. |
| ThreadPools.ThreadPool.TakeTask | src/threadpool/ThreadPool.cpp:28-42 | The lock region is the worker step: the oldest task is taken when there is one, stopped or not; with none, the worker leaves if the pool is stopped and sleeps if not. |
| ThreadPools.ThreadPool.Cleanup | src/threadpool/ThreadPool.cpp:50-75 | Whatever submitters and workers do between stop and notification and after it: it terminates with all workers gone, no task left, nothing cleared, every task accepted before started, and every later submission refused. |
| ConnectionPools.PoolAccounting | src/db/MySQLConnectionPool.cpp:31-119 | After every run: each connection made is idle, lent or destroyed, once and in one place; until closeAll the counter is idle plus lent and within the limit; no idle connection is left unannounced while a caller sleeps. |
| ConnectionPools.LentIff | src/db/MySQLConnectionPool.cpp:44-83 | A borrow waits exactly at a full pool with nothing idle; it takes the longest idle connection, or a new one if there is room and it can be made; that one is lent if and only if it is connected or reconnects, and destroyed if and only if neither. |
| ConnectionPools.OnlyTheDeadAreDestroyed | src/db/MySQLConnectionPool.cpp:70-76 | Over every run until closeAll, exactly the connections that a borrow took and found neither connected nor able to reconnect are destroyed, in that order. |
| ConnectionPools.IdleIsAQueue | src/db/MySQLConnectionPool.cpp:57-119 | Over every run until closeAll, the connections idle at first and those returned are taken out again in that order, and what has not been taken is idle. |
| ConnectionPools.FullUnlessStranded | src/db/MySQLConnectionPool.cpp:70-76 | A step keeps the law that sleepers mean a full pool if and only if it is not a failed reconnect at a full pool with sleepers. |
| ConnectionPools.NobodyWaitsInVain | src/db/MySQLConnectionPool.cpp:44-83 | In runs without such a step, a sleeping caller means a full pool and someone notified, or someone whose return will notify. |
| ConnectionPools.FailedReconnectStrandsACaller | src/db/MySQLConnectionPool.cpp:70-76 | A run with it after which a caller sleeps beside an empty pool. |
| ConnectionPools.CounterAfterClose | src/db/MySQLConnectionPool.cpp:85-113 | From the last closeAll on, over every run: nothing is lent any more, and the counter is the number of connections still out less the number out at closeAll, modulo 2^64; so the counter law holds if and only if nothing was lent at closeAll. |
| ConnectionPools.LateReturnWrapsCounter | src/db/MySQLConnectionPool.cpp:85-113 | A run from init that takes the counter around the end of size_t. |
| ConnectionPools.MySQLConnectionPool.Init | src/db/MySQLConnectionPool.cpp:31-40 | The loop leaves one idle connection and one count for each attempt that succeeded, as many as there are successes. |
| ConnectionPools.MySQLConnectionPool.GetConnection | src/db/MySQLConnectionPool.cpp:44-83 | The imperative borrow is the borrow step: it waits exactly when nothing is idle in a full pool that is not stopped, and lends, the longest idle or else the new connection, exactly when that is connected or reconnects. |
| ConnectionPools.MySQLConnectionPool.ReturnConnection | src/db/MySQLConnectionPool.cpp:104-119 | The imperative return is the return step: last among the idle ones, or destroyed when stopped. |
| ConnectionPools.MySQLConnectionPool.Shutdown | src/db/MySQLConnectionPool.cpp:85-94 | closeAll destroys exactly the idle connections, in order. |
| Loggers.NothingLostOrReordered | src/utils/Logger.cpp:140-209 | After every interleaving: written, lost at a closed file on exit, held by the writer, next and current buffer are, in this order, the accepted records; each record that reached the lock was accepted or counted as dropped; while the logger runs the writer stays in its loop. |
| LogDelivery.DroppedIff | src/utils/Logger.cpp:140-165 | A record is dropped if and only if the current buffer has no room for it, cut to the size of a buffer, and the other one still waits; the buffers are swapped if and only if it has no room and the other is free; else it is appended. |
| LogDelivery.DroppedAreTheMisfits | src/utils/Logger.cpp:150-159 | Over every interleaving the drop count is the number of records that came when there was no room and a buffer was waiting. |
| LogDelivery.WaitingBufferIsFull | src/utils/Logger.cpp:150-153 | Over every interleaving, when headers fit, a buffer that waits for the writer is one the next record did not fit into. |
| LogDelivery.TakesTheOlder | src/utils/Logger.cpp:173-188 | The writer takes the buffer that waits, or else the current one, and leaves the other. |
| LogDelivery.TwoRoundsWriteEverything | src/utils/Logger.cpp:169-206 | From any reachable test of the flag, whatever producers do meanwhile, two rounds of the writer write everything accepted before. |
| Loggers.ShutdownSplitsTheRecords | src/utils/Logger.cpp:211-246 | When the writer is done, the records accepted before its drain are written or lost to a closed file, in order, and the later ones are still in the buffers. |
| Loggers.ShutdownWritesWhatCameBefore | src/utils/Logger.cpp:211-246 | Over every run in which the file opens whenever that is tried: when the writer is done, exactly the records accepted before its drain are written. |
| Loggers.ExitDrainIsWrittenIff | src/utils/Logger.cpp:227-236 | In every reachable state, the last write completes the records accepted before the drain if and only if there was nothing left to write or a file is open, after the roll that may come first. |
| Loggers.ClosedFileLosesTheDrain | src/utils/Logger.cpp:227-236 | A run from a failed open in init in which the drained record is lost. |
| Loggers.LateCallsAddNothing | src/utils/Logger.cpp:98-101 | Over every run after shutdown: only producers that had passed the test by then reach the lock. |
| Loggers.LateCallsComeOnce | src/utils/Logger.cpp:98-166 | And each of them at most once. |
| Loggers.LateRecordStaysInTheBuffer | src/utils/Logger.cpp:98-166 | A run in which such a producer appends after the exit drain, and its record stays in the buffer. |
| Loggers.WriterFinishes | src/utils/Logger.cpp:169-246 | After shutdown a writer step is always possible until it is done, and each takes it one nearer. |
| Loggers.RecordFits | src/utils/Logger.cpp:140-149 | A record takes exactly the reserved space if and only if header and newline fit into a buffer. |
| Loggers.RecordBytes | src/utils/Logger.cpp:140-165 | The bytes of a record: header, the whole message if everything fits into a buffer and else as much as there is room for, newline. |
| Loggers.BuffersKeepTheirSize | src/utils/Logger.cpp:141-165 | With headers that fit, no buffer exceeds its size, in any interleaving. |
| LogRotation.FilesHoldTheStreamIff | src/utils/Logger.cpp:68-96 | Over every run, whether the file opens or not: archives in order, then the current file, are what went to a file if and only if no roll took the name of an archive that held something, and all that was written if and only if nothing went to stderr either; what is missing is exactly what such rolls replaced and what went to stderr. |
| LogRotation.RunWrites | src/utils/Logger.cpp:196-203 | What was written went to a file or to stderr, every record to one of them. |
| LogRotation.RotationLosesNothingIff | src/utils/Logger.cpp:190-236 | With buffers under half the limit and headers that fit, every file holds whole records and fewer than 104857600 bytes, every archive at most two buffers less, and the files are exactly what was written, the exit drain included, if and only if every roll found its stamp free and a file was open for every write. |
| LogRotation.FileAppend | src/utils/Logger.cpp:190-203 | One append, rolling first when the limit would be reached, adds exactly its records to the files if one is open, less what its roll replaces. |
| LogRotation.WriteRollsIff | src/utils/Logger.cpp:190-203 | A write rolls first if and only if the file with it would reach 104857600 bytes: then the old file is the archive and the new one starts with this write; otherwise the write is appended. |
| LogRotation.RollKeepsFiles | src/utils/Logger.cpp:68-92 | A roll keeps every record on disk but those of the archive whose name it takes. |
| LogRotation.SameStampLosesRecords | src/utils/Logger.cpp:77-88 | A run with messages of at most 1023 bytes and headers of at most 255: two files fill up, both rolls take one stamp, and every record of the first file was written and is in no file. |
| Loggers.AsyncLogger.EnterLog | src/utils/Logger.cpp:98-101 | The test of the flag: a producer goes on exactly while the logger is running. |
| Loggers.AsyncLogger.CutToFit | src/utils/Logger.cpp:141-149 | The truncation computes the reserved length and the bytes of the record. |
| Loggers.AsyncLogger.Append | src/utils/Logger.cpp:140-165 | The lock region over bytes is the step over records, truncation, swap and drop included: a record is accepted exactly when there is room or the next buffer is empty, and the buffers swap exactly when there is no room and it is. |
| Loggers.AsyncLogger.Exchange | src/utils/Logger.cpp:173-188 | The writer's lock region is the step that takes the full buffer first, else the current one, and leaves the other. |
| Loggers.AsyncLogger.WriteOut | src/utils/Logger.cpp:190-206 | The writer's file region is the write step, file, archives and size included. |
| Loggers.AsyncLogger.DrainBuffers | src/utils/Logger.cpp:211-225 | The exit drain takes both buffers in order. |
| Loggers.AsyncLogger.WriteRemainder | src/utils/Logger.cpp:227-236 | The last write is the final step, file and archives included. |
| Loggers.AsyncLogger.ExitWriter | src/utils/Logger.cpp:208-246 | From a cleared flag, with late producers coming in before the drain, before the last write and after it, the writer ends with everything accepted before the drain written, or lost to a closed file, and the buffers holding exactly the rest. |
| TimerQueues.RenewedOnSchedule | src/net/TimerQueue.cpp:85-89 | A renewed deadline is the old one plus a positive number of periods, of 1000000 ns for each ms, and lies in (now, now + period]. |
| TimerQueues.SweepRunsTheDue | src/net/TimerQueue.cpp:80-93 | A sweep runs each timer exactly as often as it is there with a deadline at or before now, the earlier before the later. |
| TimerQueues.SweepLeavesNothingDue | src/net/TimerQueue.cpp:82-93 | After a sweep every deadline lies after now. |
| TimerQueues.SplitRecombines | src/net/TimerQueue.cpp:57-65 | The seconds and nanoseconds recombine exactly with nsec below 10^9; the timer is armed if and only if the deadline is after the epoch, disarmed at it. |
| TimerQueues.ArmedAtTheTop | src/net/TimerQueue.cpp:48-70 | For a queue: the kernel timer is armed exactly at the earliest deadline if and only if that is after the epoch, and disarmed if and only if it is the epoch. |
| TimerQueues.EpochTimerIsNotArmed | src/net/TimerQueue.cpp:42-46 | A negative delay back to the epoch, alone in the queue, leaves the kernel timer disarmed. |
| TimerQueues.TimerQueue.AddTimerInLoop | src/net/TimerQueue.cpp:42-46 | One timer more, and the kernel timer shows the earliest deadline. |
| TimerQueues.TimerQueue.ResetTimerFd | src/net/TimerQueue.cpp:48-70 | The kernel timer shows an earliest deadline, or is disarmed when there are no timers. |
| TimerQueues.TimerQueue.HandleRead | src/net/TimerQueue.cpp:72-93 | The pop and re-push loop terminates; each due timer runs exactly once, in order of deadline; periodic ones are back renewed, one-shots gone, the others untouched; the kernel timer is armed for the result. |
| TimerQueues.TimerQueue.SweepOne | src/net/TimerQueue.cpp:82-92 | One turn keeps the sweep's invariant and leaves fewer timers to run, though it pushes one back. |
| TimerRuns.PeriodicTimerLaw | src/net/TimerQueue.cpp:42-93 | Over every run of adds and sweeps, a periodic timer runs only for deadlines start + k * period, each at most once, in order, never early, at most floor((now - start) / period) times, and waits exactly once for a later one, which lies beyond every sweep made and at most a period ahead. |
| TimerRuns.OneShotTimerLaw | src/net/TimerQueue.cpp:90-92 | Over every run, a timer that does not repeat runs once, not before its deadline, and has run if and only if a sweep came at or after the deadline; until then it waits. |
| TimerRuns.SweepOfOne | src/net/TimerQueue.cpp:80-93 | A sweep treats the timer of one callback as if it were alone. |
| TokenManagers.LookupIsGranted | src/auth/TokenManager.cpp:48-130 | After every history of calls, with any lifetimes, a token stands for a user if and only if it was created for that user less than its lifetime ago and not taken back since: not removed, and not swept by a removal of all the user's tokens at a moment when the user's index had not lapsed since. |
| TokenManagers.LookupIsPlainlyGranted | src/auth/TokenManager.cpp:48-130 | When no token of a user ends before an earlier one, every removal of all tokens counts. |
| TokenManagers.SweepMissesIff | src/auth/TokenManager.cpp:112-125 | After every history, a removal of all tokens misses a token that stands if and only if, since its creation, some token of the user ended before the next was created or the removal came. |
| TokenManagers.OneLifetimeNeverShortens | src/auth/TokenManager.cpp:48-66 | Histories with one fixed lifetime are of that kind. |
| TokenManagers.ReplayIsIndexed | src/auth/TokenManager.cpp:55-59 | After every history each live token is stored for its user, each stored set ends with the user's last token, and a live token is in the set if and only if the index has covered it without a break. |
| TokenManagers.RevokesExactlyTheListed | src/auth/TokenManager.cpp:118-125 | In any store, removing all tokens of a user revokes exactly the tokens its set lists, and deletes the set. |
| TokenManagers.UnlistsExactly | src/auth/TokenManager.cpp:97-105 | Removing a token that stands takes it off its user's set and leaves every other member, set and token as it was, at any later time. |
| TokenManagers.MembersFollowTheCalls | src/auth/TokenManager.cpp:48-130 | After every history of calls, a token is in its user's set if and only if the set has not lapsed since the token was created, the token was not removed before its end, and not all tokens of the user were. |
| TokenManagers.ShorterLifetimeHidesAToken | src/auth/TokenManager.cpp:57-59 | With a later token of shorter life the first escapes a removal of all, exactly from the end of the second until its own end. |
| TokenManagers.TokenManager.CreateToken | src/auth/TokenManager.cpp:48-66 | The three Redis commands are the create step, the token under its key with the user and its lifetime; without Redis or with a lifetime that is not positive nothing is stored. |
| TokenManagers.TokenManager.VerifyToken | src/auth/TokenManager.cpp:68-89 | The user a token stands for, -1 when it stands for none, -2 without Redis. |
| TokenManagers.TokenManager.RemoveToken | src/auth/TokenManager.cpp:91-110 | The commands are the removal step; an empty token removes nothing. |
| TokenManagers.TokenManager.RemoveAllTokensForUser | src/auth/TokenManager.cpp:112-130 | The loop over the members deletes each token and then the set, and nothing else. |
| RateLimiters.KeepsFixedWindows | include/common/RateLimiter.h:13-25 | On any run with any mix of keys, the requests let through for a key are those that fixed windows over that key's own times let through: a window opens at the first request, lasts a period, and passes its first `limit` requests; windows follow each other without overlap. |
| RateLimiters.SpanBound | include/common/RateLimiter.h:19-25 | In any half-open span of k periods at most k + 1 limits pass for a key, whatever was counted before. |
| RateLimiters.AdmittedFits | include/common/RateLimiter.h:19-25 | What passes until a given time is at most what the open window has left and one limit for each window that can still open. |
| RateLimiters.RequestActs | include/common/RateLimiter.h:21-25 | A request counts in the open window of its key, or opens one that ends a period later; no other key's window changes. |
| RateLimiters.NoPeriodNoLimit | include/common/RateLimiter.h:22-25 | With a period that is not positive every request passes, or none when the limit is below one. |
| RateLimiters.RateLimiter.IsAllowed | include/common/RateLimiter.h:13-25 | The commands are the request step; without Redis everything passes. |
| UserServices.ClauseRoundTrip | src/service/UserService.cpp:295-299 | The generated assignments read back as exactly the columns they were built from, in order. |
| UserServices.ColumnsRead | src/service/UserService.cpp:301-303 | The columns of the inserted row are read back from the text of the statement, in order. |
| UserServices.StatementRead | src/service/UserService.cpp:295-303 | The whole statement is read back as the columns it inserts and those it assigns on an existing key. |
| UserServices.StatementPlaceholders | src/service/UserService.cpp:301-303 | The statement has five placeholders and one for each column. |
| UserServices.OverwritesPresent | src/service/UserService.cpp:318-328 | Applying the assignments with the bound values overwrites exactly the present fields of a row. |
| UserServices.StatementMeans | src/service/UserService.cpp:301-328 | For every set of present fields and every table: each placeholder is bound and nothing else, and executing the statement text, the columns it names for the inserted row and those it assigns, with its arguments by position, is the update: present fields of an existing row, or a new row with defaults. |
| UserServices.UserService.UpdateProfile | src/service/UserService.cpp:278-347 | The table becomes the updated one and the user's cache entry goes; an update without fields changes nothing. |
| UserServices.UserService.BuildStatement | src/service/UserService.cpp:295-303 | The loop builds the statement text. |
| UserServices.UserService.BindAll | src/service/UserService.cpp:311-330 | With the running index, placeholder k + 1 gets argument k: the row to insert, then the present values in the order of the columns. |
| UserServices.UserService.GetUserInfoJsonFromDB | src/service/UserService.cpp:200-233 | Field by field: the account columns of the user's row, each profile column of the joined row, empty where it is NULL or there is no row; the two errors for a missing user and a missing connection. |
| UserServices.UserService.GetUserInfoJson | src/service/UserService.cpp:147-198 | With Redis it is the read-through step, and a hit needs no database; without Redis it is the database read. |
| UserServices.UpdateThenRead | src/service/UserService.cpp:304-342 | In any state, whatever the cache held, the read after an update returns the present fields as updated and everything else as the tables had it. |
| UserServices.TablesFollowTheCalls | src/service/UserService.cpp:84-100 | From a registration on, over every run of calls for any users, the tables give the account data, and for each profile field what the last update that had it has set, or the default. |
| UserServices.RunTells | src/service/UserService.cpp:147-198 | After every run the cache holds for a user exactly what the calls say: a read of a registered user that finds nothing cached leaves the document for 3600 seconds and the drawn ones, a read of a missing user a mark for 60, an update with some field clears both; a cached document is what the tables hold. |
| UserServices.HitIff | src/service/UserService.cpp:147-198 | Over every run, by the calls alone: a read does without the tables if and only if such a document or mark has not ended, and then answers with it. |
| UserServices.ReadAgreesIff | src/service/UserService.cpp:147-173 | In every reachable state a read returns what the tables hold if and only if it does not hit such a mark of a user who is there. |
| UserServices.ReadsAgreeIff | src/service/UserService.cpp:147-198 | Over every run, by the calls alone: a read returns what the tables hold if and only if the user is not registered or no such mark is left. |
| UserServices.NewUserReportedMissing | src/service/UserService.cpp:167-170 | A run in which a new user is reported missing for that whole minute, and found at its end. |

## Left out

- Socket setup, accepting, epoll registration, address handling and the demo programs: system calls without an algorithm.
- The connection map of TcpServer and the lifetime of connections: decided by destruction order and reuse of descriptors; a connection after its close callback is only marked closed.
- Connection::shutdown and the idle check: shutdown does not wait for the output buffer, and there is nothing to keep.
- The bodies of the MySQL, Redis, bcrypt, OpenSSL and JSON libraries: Redis is a map with deadlines, the tables are maps of rows, a cached document is the document itself (dump and parse are inverses), tokens are fresh strings.
- Failing Redis and SQL calls, and calls of token, limit or cache methods that interleave: the code promises nothing there.
- Router, UserHandler, ResponseHelper and the error code tables: branch by branch checks and two map lookups.
- registerUser is in the runs only as its effect on the two tables; loginUser, changePassword and the username checks are not modelled.
- Log formatting (header text, vsnprintf, strftime) and the comparison of levels: a record arrives as its header and its message, and a call may return between the test of the flag and the lock.
- Log files that an earlier run of the server left behind: init is modelled in an empty directory.
- What becomes of an exception that leaves the event loop: nothing catches it, and the model ends there.
- Weak memory: every lock region and every atomic access is one step.
- The exception a task may throw and the future that carries it: a task in the model only starts and ends.
- The constructor's choice of a thread count from the hardware.
- A connection without a request callback, which drops the requests it parses.
- The heap layout of the timer queue: any earliest timer may be on top.
- abort() when the kernel refuses a deadline before its epoch is shown as the refused state only.
- UserServices.UserService.UpdateProfile: the statement is executed by a reading of this one form of statement, not of SQL in general.
