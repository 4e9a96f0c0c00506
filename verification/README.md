# MemoChat verification

Dafny 4.11 models of the parts of MemoChat that are state machines, codecs, queues and merges, with proofs of what they
keep over every run. Check everything with `dafny verify dfyconfig.toml`.

| file | what it models |
|---|---|
| `Common.dfy`, `Text.dfy` | what several modules share; byte strings: find, split, join, concatenation |
| `ChunkedCoding.dfy`, `StreamWriter.dfy` | the chunked server-sent-event writer of the HTTP connection: posted closures, a write queue, asynchronous completions, and the body format of section 7.1 of RFC 9112 |
| `ResponseHead.dfy` | the head of that response: header values made harmless, new ids, and the lines that a client reads |
| `UrlCodec.dfy` | the percent/plus codec and the query parser of the HTTP connection |
| `SseReader.dfy`, `SsePrinter.dfy` | the incremental event reader of the AI service client, and the printer it reads from |
| `WorkerPool.dfy` | the worker pool: a mutex, one condition variable, and a stop that drains |
| `Snowflake.dfy` | the id generator and its latch |
| `EmailTaskBus.dfy` | the mail delivery bus: its broker queues, one worker, retries, redelivery |
| `RetryLimits.dfy` | for which configurations that bus keeps its retry limit, its sends and its copies in bounds |
| `RedisPool.dfy` | the Redis connection pool: ownership, the checker's rotation, and closing |
| `Retrieval.dfy`, `RetrievalFusion.dfy`, `LexicalRanking.dfy`, `FusionScores.dfy` | candidates merged per key and sorted; the first file is the specification on values, the next two are the code on objects, the last has the scores as sums over the inputs |
| `LlmManager.dfy` | the fallback and retry chain over language-model backends |
| `QueryRewrite.dfy` | the rewrite that replaces a query's uid by the caller's |
| `ChatFrames.dfy` | chat frames under partial receives |
| `VerifyEmail.dfy` | the email recogniser |

Concurrent and distributed parts have one shape: a datatype for the state between two atomic steps, a datatype of
events, a function `Next` or `Step`, and `Run` over any sequence of events. An event that is not possible leaves the
state alone, so every event sequence is an interleaving and a lemma about `Run` is a claim about all of them. The classes
have the fields of the source and methods proved against those functions; history that the source does not keep is in
ghost fields or in fields of the state that say so.

The environment is a parameter or an event: which write fails and how much of it went out, how a body is cut into reads,
what the clock reads, how a publish ends, which connection answers, what a backend call ends in. The JSON parsers are
arbitrary functions.

Properties that do not hold as one would expect are stated with the condition under which they do:

- The mail worker acknowledges a delivery even when re-publishing it failed over an open connection, and so loses the
  task: `EmailTaskBus.CalmRunIsExact`, `EmailTaskBus.FailedRepublishLosesTask`.
- The configuration may let keys, exchanges and queues of the mail bus coincide. The retry limit is kept if and only if
  retries have a key of their own or the limit is odd, and it is not so that dead letters have the retry key while the
  delivery and the dead-letter queue are one, or while the two exchanges are one and dead letters have the delivery key:
  `RetryLimits.LimitIsKept`, `RetryLimits.KeepsLimitByNames`. Sends are bounded if and only if there are three queues and
  no two bindings coincide: `RetryLimits.SendsAreFewExactly`. The built-in names meet both conditions.
- PublishVerifyDeliveryTask returns true for a publish that was only claimed: `EmailTaskBus.FlagMeansQueued`.
- The Redis pool's checker and its callers share one condition variable, so a returned connection can wake the checker and
  leave a caller asleep; and Close sets its flag without the mutex, so a caller between its test and its wait sleeps on:
  `RedisPool.StepServes`, `RedisPool.CloseReachesAll`, with a run for each.
- Merging takes the larger of two fused scores, so an input that already carries one can replace the running sum:
  `Retrieval.EntryFusedIsSum`, `RetrievalFusion.TableSumsExactly`, `RetrievalFusion.ScoredInputBreaksSum`. The only caller
  (`apps/server/core/AIOrchestrator/rag/chain.py`, line 381) passes candidates that no fusion has scored yet, for which
  `RetrievalFusion.FusedScoreIsSum` holds.
- The comment at `AIRouteModules.cpp` line 276 says that "%55id" cannot pass the filter. Only unescaped characters are put
  into lower case, so it passes: `QueryRewrite.UidItemsAre`, `QueryRewrite.EscapedUpperCasePasses`. No item that an exact
  decoder reads as "uid" passes.
- Snowflake fields are recovered exactly when the time difference fits 42 signed bits: `Snowflakes.FieldsAreRecovered`.
- A response that ends in the bare end marker leaves the caller's result object unwritten:
  `SseReader.ResultIsStored`, `SsePrinter.DoneMarkerStoresNothing`.

## Model

| member | source | states |
|---|---|---|
| `StreamWriter.WireIsPrefix` | apps/server/core/GateShared/HttpConnection.cpp:485-569 | in every run of calls, closures, completions and failures: what is in flight is the front of the queue, or nothing; sent and queued bytes make up header, accepted chunks and at most one terminator; once closed the queue is empty and the request was finished exactly once |
| `StreamWriter.AcceptedWereOffered` | apps/server/core/GateShared/HttpConnection.cpp:173-216 | in every run, failures included, the accepted chunks are a prefix of the non-empty chunks offered between the first start and the first finish |
| `StreamWriter.FinishedStreamDelivers` | apps/server/core/GateShared/HttpConnection.cpp:162-216 | a failure-free run that asked for the finish and came to rest has closed once, and its body decodes by the chunked grammar to exactly the chunks offered |
| `StreamWriter.StepKeeps` | apps/server/core/GateShared/HttpConnection.cpp:485-569 | each single step keeps the relation between flags, queue, buffer in flight and bytes on the wire |
| `StreamWriter.RunCommits` | apps/server/core/GateShared/HttpConnection.cpp:173-216 | in a failure-free run what is queued or pending is exactly what was offered, chunk by chunk |
| `StreamWriter.ClosureUsesWork` | apps/server/core/GateShared/HttpConnection.cpp:180-195 | running a posted closure lowers the measure of work left |
| `StreamWriter.CompletionUsesWork` | apps/server/core/GateShared/HttpConnection.cpp:547-568 | so does a completion, whether it succeeds or fails |
| `StreamWriter.RestIsNear` | apps/server/core/GateShared/HttpConnection.cpp:538-568 | once nothing more is called, the stream comes to rest within as many steps as the measure says |
| `StreamWriter.QuietIsClosed` | apps/server/core/GateShared/HttpConnection.cpp:538-568 | a non-empty queue always has a write in flight; a stream at rest with a requested finish is closed |
| `StreamWriter.HeadedStreamDelivers` | apps/server/core/GateShared/HttpConnection.cpp:502-525 | for every request, whatever its header values: the body starts behind the first blank line of the response and decodes to exactly the chunks offered |
| `StreamWriter.HttpConnection.TakeRequest` | apps/server/core/GateShared/HttpConnection.cpp:235-255 | the ids of a request, given or new, and the head its stream will begin with |
| `StreamWriter.HttpConnection.StartSseStream` | apps/server/core/GateShared/HttpConnection.cpp:162-171 | sets the streaming flag and posts the start closure |
| `StreamWriter.HttpConnection.WriteStreamChunk` | apps/server/core/GateShared/HttpConnection.cpp:173-196 | posts the chunk only while streaming |
| `StreamWriter.HttpConnection.FinishStream` | apps/server/core/GateShared/HttpConnection.cpp:198-216 | posts the finish only while streaming |
| `StreamWriter.HttpConnection.RunNextClosure` | apps/server/core/GateShared/HttpConnection.cpp:166-215 | the executor runs the closure at the front |
| `StreamWriter.HttpConnection.RunChunkClosure` | apps/server/core/GateShared/HttpConnection.cpp:181-195 | the closure of a chunk |
| `StreamWriter.HttpConnection.RunFinishClosure` | apps/server/core/GateShared/HttpConnection.cpp:206-215 | the closure of the finish |
| `StreamWriter.HttpConnection.EnsureSseStreamStarted` | apps/server/core/GateShared/HttpConnection.cpp:485-526 | the head is queued once |
| `StreamWriter.HttpConnection.QueueStreamWrite` | apps/server/core/GateShared/HttpConnection.cpp:528-536 | appends and tries to write, unless closed |
| `StreamWriter.HttpConnection.DoStreamWrite` | apps/server/core/GateShared/HttpConnection.cpp:538-549 | hands over the front only when nothing is being written |
| `StreamWriter.HttpConnection.OnWriteComplete` | apps/server/core/GateShared/HttpConnection.cpp:549-568 | the completion handler: pop, then close on error or last write, else go on |
| `ResponseHead.NoLineIsInjected` | apps/server/core/GateShared/HttpConnection.cpp:502-525 | for every request and every body: split at line feeds the head is exactly its lines and the blank one, and its first blank line is its end |
| `ResponseHead.HeadSplitsIntoLines` | apps/server/core/GateShared/HttpConnection.cpp:504-524 | lines without breaks come apart again exactly as they were put together |
| `ResponseHead.HeadEndsAtBlankLine` | apps/server/core/GateShared/HttpConnection.cpp:504-524 | the first blank line of a head of such lines is its end |
| `ResponseHead.HeadNamesCoding` | apps/server/core/GateShared/HttpConnection.cpp:504-509 | for every request the head begins with the status line and has the content type and the chunked transfer coding |
| `ResponseHead.HeadNamesOrigin` | apps/server/core/GateShared/HttpConnection.cpp:101-115 | for every request and text: an origin line with this text stands in the head if and only if the request has an origin that cleans to it, it is not empty, and it is allowed |
| `ResponseHead.HeadNamesTrace` | apps/server/core/GateShared/HttpConnection.cpp:516-519 | the trace id has a line of its own: the given one, cleaned, when something is left of it, else the new one |
| `ResponseHead.HeadNamesRequest` | apps/server/core/GateShared/HttpConnection.cpp:520-523 | so has the request id |
| `ResponseHead.KeptSplits` | apps/server/core/GateShared/HttpConnection.cpp:45-56 | each character of a value is kept or dropped by itself |
| `ResponseHead.TrimmedParts` | apps/server/core/GateShared/HttpConnection.cpp:26-39 | trimming cuts off blanks only, and all of them at both ends |
| `ResponseHead.NewIdIs` | apps/server/core/common/logging/TraceContext.hpp:77-93 | a new id has one lower-case digit for each of its numbers |
| `ResponseHead.SanitizedIsHeaderValue` | apps/server/core/GateShared/HttpConnection.cpp:41-58 | a sanitised value has no control character but tabs inside, and no blank at its ends; values that are like that, and no others, stay as they are |
| `ResponseHead.SanitizeHttpHeaderValueLocal` | apps/server/core/GateShared/HttpConnection.cpp:41-58 | the loop drops exactly the control characters other than tab, then trims |
| `ResponseHead.TrimAsciiLocal` | apps/server/core/GateShared/HttpConnection.cpp:26-39 | the two loops leave what lies between the blanks at both ends |
| `ResponseHead.AllowedCorsOrigin` | apps/server/core/GateShared/HttpConnection.cpp:101-115 | the sanitised origin if the request has one that is allowed, else none |
| `ResponseHead.GivenId` | apps/server/core/GateShared/HttpConnection.cpp:236-255 | the sanitised id of the request, or a new one when nothing is left of it |
| `ResponseHead.NewId` | apps/server/core/common/logging/TraceContext.hpp:77-93 | generated ids are hexadecimal text and so fit for a header line |
| `ResponseHead.BuildHead` | apps/server/core/GateShared/HttpConnection.cpp:502-525 | the head made of the sanitised values |
| `ChunkedCoding.DecodeInvertsFrames` | apps/server/core/GateShared/HttpConnection.cpp:188-194 | decoding the framed non-empty chunks and the terminator (section 7.1 of RFC 9112) gives the chunks put together and leaves the rest |
| `ChunkedCoding.HexValueInvertsPrintHex` | apps/server/core/GateShared/HttpConnection.cpp:192-193 | the printed chunk size reads back as the size |
| `ChunkedCoding.FrameIs` | apps/server/core/GateShared/HttpConnection.cpp:192-194 | on the wire: size, CR LF, chunk, CR LF, and the terminator |
| `ChunkedCoding.PrintHexIs` | apps/server/core/GateShared/HttpConnection.cpp:192-193 | sizes are printed in lower-case hexadecimal digits |
| `ChunkedCoding.EmptyFrameEndsBody` | apps/server/core/GateShared/HttpConnection.cpp:188-191 | why empty chunks are dropped: an empty frame would end the body and hide what follows |
| `UrlCodec.DecodeInvertsEncode` | apps/server/core/GateShared/HttpConnection.cpp:276-347 | UrlDecode(UrlEncode(s)) == s for every byte string |
| `UrlCodec.QueryRoundTrip` | apps/server/core/GateShared/HttpConnection.cpp:349-386 | parsing path, question mark and encoded pairs gives back the path and the map of the pairs |
| `UrlCodec.PairMapLastWins` | apps/server/core/GateShared/HttpConnection.cpp:363-385 | of pairs with one key the last one decides |
| `UrlCodec.PairMapKeeps` | apps/server/core/GateShared/HttpConnection.cpp:363-385 | keys that no pair names keep their earlier value |
| `UrlCodec.EncodedAlphabet` | apps/server/core/GateShared/HttpConnection.cpp:299-311 | encoded text holds none of the delimiters |
| `UrlCodec.PlainAre` | apps/server/core/GateShared/HttpConnection.cpp:299-303 | which bytes are not encoded |
| `UrlCodec.EncodeByteIs` | apps/server/core/GateShared/HttpConnection.cpp:299-311 | these stay, a space is a plus, and all others are two upper-case digits |
| `UrlCodec.EscapeIsRead` | apps/server/core/GateShared/HttpConnection.cpp:281-291 | an escape stands for its byte, whether its digits are upper or lower case |
| `UrlCodec.OthersAreRead` | apps/server/core/GateShared/HttpConnection.cpp:317-347 | a plus is a space, other characters stand for themselves, and a percent sign with too little behind it ends the text |
| `UrlCodec.PlainTarget` | apps/server/core/GateShared/HttpConnection.cpp:353-357 | a target without a question mark is the whole path and adds no parameter |
| `UrlCodec.TargetWithQuery` | apps/server/core/GateShared/HttpConnection.cpp:349-362 | the path ends before the first question mark, and the rest is cut at every ampersand |
| `UrlCodec.PieceIs` | apps/server/core/GateShared/HttpConnection.cpp:363-385 | a piece adds what stands before and behind its first equals sign, decoded; without one it adds nothing |
| `UrlCodec.UrlEncode` | apps/server/core/GateShared/HttpConnection.cpp:293-315 | the loop computes the encoding function |
| `UrlCodec.UrlDecode` | apps/server/core/GateShared/HttpConnection.cpp:317-347 | the loop with its three-byte steps and early end computes the decoding function |
| `UrlCodec.Request.PreParseGetParam` | apps/server/core/GateShared/HttpConnection.cpp:349-386 | the erasing loop adds exactly the pairs of the split query, in order |
| `SseReader.Reader.PostJsonSse` | apps/server/core/AIServer/AIServiceClient.cpp:452-477 | for every way the body is cut into reads, with or without a read error: state, callbacks, stored result and status are those of folding the whole body at once |
| `SseReader.Reader.ConsumeBody` | apps/server/core/AIServer/AIServiceClient.cpp:414-439 | the carry-over buffer keeps the open line, and complete lines are folded up to the one that ends the stream |
| `SseReader.Reader.ParseAndEmit` | apps/server/core/AIServer/AIServiceClient.cpp:327-395 | one line: prefix, end marker, undecodable lines, and the effect of a chunk |
| `SseReader.Reader.TrimLine` | apps/server/core/AIServer/AIServiceClient.cpp:397-412 | removes exactly the trailing trim characters |
| `SseReader.OutcomeFoldsAllLines` | apps/server/core/AIServer/AIServiceClient.cpp:452-477 | without a read error every line counts, an unterminated last one included |
| `SseReader.ResultIsStored` | apps/server/core/AIServer/AIServiceClient.cpp:472-477 | the result object stays unwritten if and only if the first line that ends the stream is the bare end marker |
| `SseReader.BrokenReadStoresNothing` | apps/server/core/AIServer/AIServiceClient.cpp:462-465 | after a read error the call is unavailable and stores nothing, unless a complete line has ended the stream before |
| `SseReader.ConsumeOn` | apps/server/core/AIServer/AIServiceClient.cpp:414-439 | folding can be resumed after any split of the body |
| `SsePrinter.HopDeliversChunks` | apps/server/core/AIOrchestrator/api/chat_router.py:97-104 | print and read back, cut anywhere: one callback per chunk up to the first final one; stored are their text, their last token count, and the trace id, skill and feedback of the final one |
| `SsePrinter.PrintedStreamIsRead` | apps/server/core/AIOrchestrator/api/chat_router.py:97-98 | the reader folds exactly the payloads the printer framed |
| `SsePrinter.PayloadsAreTaken` | apps/server/core/AIServer/AIServiceClient.cpp:327-395 | folding payloads takes the chunks up to and including the first final one |
| `SsePrinter.TakenChunksAreEmitted` | apps/server/core/AIServer/AIServiceClient.cpp:359-379 | callbacks carry the id and token count in force at their chunk; text is accumulated in order |
| `SsePrinter.RaisedTurnIsFinal` | apps/server/core/AIOrchestrator/api/chat_router.py:100-104 | a turn that raises ends in a final chunk at the reader; it is the error payload if no earlier chunk is final |
| `SsePrinter.DoneMarkerStoresNothing` | apps/server/core/AIServer/AIServiceClient.cpp:332-336 | a stream that only has the end marker leaves the result object untouched |
| `SsePrinter.EventGenerator` | apps/server/core/AIOrchestrator/api/chat_router.py:93-107 | frames in order, one error frame after an exception, success only without one |
| `WorkerPool.TasksBeginInOrder` | apps/server/core/GateShared/GateWorkerPool.cpp:142-163 | in every interleaving tasks begin in acceptance order, each once, and a begun task has finished or runs on exactly one worker |
| `WorkerPool.NoPostAfterStop` | apps/server/core/GateShared/GateWorkerPool.hpp:27-39 | once stopping is set it stays set and no post is accepted |
| `WorkerPool.PostIsTaken` | apps/server/core/GateShared/GateWorkerPool.hpp:27-39 | at every state of a run: a post is queued and counted if and only if the pool has started and is not stopping, and else changes nothing |
| `WorkerPool.OpenPostsAreAccepted` | apps/server/core/GateShared/GateWorkerPool.hpp:27-39 | in every run exactly the posts that find the pool open are accepted, each as one task |
| `WorkerPool.StartIsTaken` | apps/server/core/GateShared/GateWorkerPool.cpp:31-77 | at every state of a run: a start leaves as many ready workers as threads, unless the pool has started or stopped before |
| `WorkerPool.StopDrains` | apps/server/core/GateShared/GateWorkerPool.cpp:92-140 | when the joining Stop returns, the queue is empty and every accepted task has finished |
| `WorkerPool.ThreadCount` | apps/server/core/common/runtime/ExplicitThread.hpp:195-204 | as many threads as asked for, or as processors are counted, and never none |
| `WorkerPool.ShutdownStepUsesWork` | apps/server/core/GateShared/GateWorkerPool.cpp:92-163 | every step of a shutdown lowers a measure over queued tasks, running tasks and live workers |
| `WorkerPool.ShutdownIsShort` | apps/server/core/GateShared/GateWorkerPool.cpp:92-163 | whatever the interleaving, a shutdown takes at most as many steps as the measure says when it begins |
| `WorkerPool.ShutdownGoesOn` | apps/server/core/GateShared/GateWorkerPool.cpp:107-127 | until Stop returns some shutdown step is possible |
| `WorkerPool.QueuedTaskIsServed` | apps/server/core/GateShared/GateWorkerPool.hpp:35-37 | no wake-up is lost: while a task is queued some worker can move without a spurious wake-up |
| `WorkerPool.QueuedTaskBegins` | apps/server/core/GateShared/GateWorkerPool.cpp:142-163 | in every run, posts and shutdown included, an accepted task begins after a bounded number of moves of workers |
| `WorkerPool.StepKeeps` | apps/server/core/GateShared/GateWorkerPool.cpp:92-163 | every step keeps order, accounts, flags and the wake-up condition |
| `WorkerPool.GateWorkerPool.Start` | apps/server/core/GateShared/GateWorkerPool.cpp:9-78 | started, stopped and failing starts |
| `WorkerPool.GateWorkerPool.PushTask` | apps/server/core/GateShared/GateWorkerPool.hpp:27-39 | a post is accepted exactly when started and not stopping |
| `WorkerPool.GateWorkerPool.Notify` | apps/server/core/GateShared/GateWorkerPool.hpp:37 | the notify_one of an accepted post makes one sleeper ready, if there is one |
| `WorkerPool.GateWorkerPool.FinishTask` | apps/server/core/GateShared/GateWorkerPool.cpp:161 | the worker comes back to its loop, and its task counts as finished |
| `WorkerPool.GateWorkerPool.TakeOrWait` | apps/server/core/GateShared/GateWorkerPool.cpp:148-160 | the critical section of a worker: sleep, exit, or take the front |
| `WorkerPool.GateWorkerPool.MarkStopped` | apps/server/core/GateShared/GateWorkerPool.cpp:98-106 | only the first Stop goes on |
| `WorkerPool.GateWorkerPool.NotifyAll` | apps/server/core/GateShared/GateWorkerPool.cpp:107 | every sleeper wakes |
| `WorkerPool.GateWorkerPool.ReturnFromStop` | apps/server/core/GateShared/GateWorkerPool.cpp:123-127 | threads are cleared and the pool is no longer started |
| `Snowflakes.IdsIncrease` | apps/server/core/common/snowflake.hpp:71-112 | over any sequence of calls with steady-clock readings in range, ids strictly increase and at most 4096 carry one millisecond |
| `Snowflakes.ReadingsAreSteady` | apps/server/core/common/snowflake.hpp:97-102 | the millisecond readings never decrease, whatever the system clock does |
| `Snowflakes.PackIsMixedRadix` | apps/server/core/common/snowflake.hpp:92-93 | the shifted and or-ed 64-bit fields are a mixed-radix number |
| `Snowflakes.FieldsAreRecovered` | apps/server/core/common/snowflake.hpp:23-32 | all four fields are recovered if and only if the time difference fits 42 signed bits |
| `Snowflakes.NodesNeverCollide` | apps/server/core/common/snowflake.hpp:54-69 | nodes with different ids never share an id |
| `Snowflakes.InitialisedNodesNeverCollide` | apps/server/core/common/snowflake.hpp:54-69 | two generators initialised with different pairs in range never issue the same id, over any two sequences of calls and whatever their clocks read |
| `Snowflakes.IdIsSum` | apps/server/core/common/snowflake.hpp:92-93 | the id in plain arithmetic |
| `Snowflakes.CallIsIssued` | apps/server/core/common/snowflake.hpp:71-90 | a call spins on if and only if its millisecond is used up and no later reading has been made |
| `Snowflakes.IssuedCallIs` | apps/server/core/common/snowflake.hpp:71-90 | the reading, the sequence number and the node that an issued call carries |
| `Snowflakes.EveryMillisecondYields` | apps/server/core/common/snowflake.hpp:71-90 | with a new millisecond at every reading each reading yields an id |
| `Snowflakes.MillsecondCounts` | apps/server/core/common/snowflake.hpp:97-102 | a reading is the start plus the whole milliseconds since |
| `Snowflakes.FirstInitDecides` | apps/server/core/common/SnowflakeUtil.hpp:15-23 | the first init in range decides the node, whatever is called before and after it |
| `Snowflakes.CallsFollow` | apps/server/core/common/snowflake.hpp:77-90 | each call of a run comes later in time or further in the sequence than every earlier one |
| `Snowflakes.LatchHolds` | apps/server/core/common/SnowflakeUtil.hpp:15-23 | after the first successful init no later init changes the node |
| `Snowflakes.Snowflake.Initialize` | apps/server/core/common/snowflake.hpp:54-69 | out-of-range ids are refused and change nothing |
| `Snowflakes.Snowflake.SpinUntilAfter` | apps/server/core/common/snowflake.hpp:104-112 | reads the clock up to the first reading past the last one |
| `Snowflakes.Snowflake.Advance` | apps/server/core/common/snowflake.hpp:75-90 | the new timestamp and sequence, wrap and spinning included |
| `Snowflakes.Snowflake.Next` | apps/server/core/common/snowflake.hpp:71-94 | one call and its id |
| `Snowflakes.SnowflakeUtil.Initialize` | apps/server/core/common/SnowflakeUtil.hpp:15-23 | the latch |
| `Snowflakes.SnowflakeUtil.NextId` | apps/server/core/common/SnowflakeUtil.hpp:25-28 | a call of the latched generator |
| `EmailTaskBus.PublishedTaskIsKept` | apps/server/core/VarifyServer/EmailTaskBus.cpp:404-454 | over every run with crashes, dropped links and closed connections in which no re-publication of the task fails while its delivery is acknowledged: queued copies, held deliveries and sends are at least its publications |
| `EmailTaskBus.CalmRunIsExact` | apps/server/core/VarifyServer/EmailTaskBus.cpp:504-573 | in calm runs over bindings that copy each publication once: copies, held deliveries and sends equal the publications of a task if and only if no step of the run is such a failed re-publication of it; else they are fewer |
| `EmailTaskBus.FailedRepublishLosesTask` | apps/server/core/VarifyServer/EmailTaskBus.cpp:530-551 | a run that loses a task: the send fails, re-publishing fails over an open connection, and the worker acknowledges |
| `EmailTaskBus.RetriesAreBounded` | apps/server/core/VarifyServer/EmailTaskBus.cpp:443-448 | in every run over three queues with distinct bindings each queue holds its own key only, retry counts are within bounds, and the dead-letter queue holds exhausted tasks only |
| `RetryLimits.LimitIsKept` | apps/server/core/VarifyServer/EmailTaskBus.cpp:524-548 | for every configuration and limit: no run lets a copy exceed max_retries if and only if dead letters do not come back under the retry key, and retries have a key of their own or the limit is odd |
| `RetryLimits.KeepsLimitByNames` | apps/server/core/VarifyServer/EmailTaskBus.cpp:228-278 | that condition in the configured names of exchanges, keys and queues |
| `RetryLimits.OverrunningRun` | apps/server/core/VarifyServer/EmailTaskBus.cpp:443-446 | for every other configuration and limit, a run that exceeds it |
| `EmailTaskBus.SendsAreBounded` | apps/server/core/VarifyServer/EmailTaskBus.cpp:524-548 | over three queues with distinct bindings: in a calm run a task is sent at most max_retries + 1 times per publication |
| `RetryLimits.SendsAreFewExactly` | apps/server/core/VarifyServer/EmailTaskBus.cpp:228-278 | for every configuration: all calm runs keep to that bound if and only if there are three queues and no two bindings coincide |
| `RetryLimits.EndlessSends` | apps/server/core/VarifyServer/EmailTaskBus.cpp:524-551 | for every other configuration and limit, a calm run with one publication and too many sends |
| `RetryLimits.CopiesAreExactly` | apps/server/core/VarifyServer/EmailTaskBus.cpp:228-278 | for every configuration: the calm balance is exact in all runs that lose nothing if and only if each publication reaches one queue only |
| `EmailTaskBus.FlagMeansQueued` | apps/server/core/VarifyServer/EmailTaskBus.cpp:284-305 | what PublishVerifyDeliveryTask returns tells whether the task is queued, except exactly when the publish was only claimed |
| `EmailTaskBus.CalmStepUsesWork` | apps/server/core/VarifyServer/EmailTaskBus.cpp:524-551 | over distinct bindings, between publications, every calm step lowers a measure |
| `EmailTaskBus.RetryingEnds` | apps/server/core/VarifyServer/EmailTaskBus.cpp:504-557 | so a calm run without new publications ends within as many steps as the measure says |
| `EmailTaskBus.RestMeansDone` | apps/server/core/VarifyServer/EmailTaskBus.cpp:504-557 | a bus at rest has only its dead-letter queue left |
| `EmailTaskBus.StepBalances` | apps/server/core/VarifyServer/EmailTaskBus.cpp:307-351 | no step makes a task disappear from the books |
| `EmailTaskBus.BreaksAre` | apps/server/core/VarifyServer/EmailTaskBus.cpp:184-196 | a dropped link or a crash gives the delivery back to its queue |
| `EmailTaskBus.EmailTaskBus.PublishMessage` | apps/server/core/VarifyServer/EmailTaskBus.cpp:307-351 | connect on demand, and the endings of a publish: queued, claimed, closed, failed |
| `EmailTaskBus.EmailTaskBus.CloseConnection` | apps/server/core/VarifyServer/EmailTaskBus.cpp:184-196 | the envelope is dropped and the broker takes the delivery back |
| `EmailTaskBus.EmailTaskBus.Enqueue` | apps/server/core/VarifyServer/EmailTaskBus.cpp:232-278 | a direct exchange copies the message to each queue bound with its key |
| `EmailTaskBus.EmailTaskBus.PublishTask` | apps/server/core/VarifyServer/EmailTaskBus.cpp:284-305 | a first publication has retry count zero and the delivery key, and returns what publishing says |
| `EmailTaskBus.EmailTaskBus.Consume` | apps/server/core/VarifyServer/EmailTaskBus.cpp:404-454 | malformed bodies are acknowledged away; a delivery under the retry key counts as one more retry |
| `EmailTaskBus.EmailTaskBus.AckLast` | apps/server/core/VarifyServer/EmailTaskBus.cpp:563-573 | acknowledges only over a connection and with an envelope |
| `EmailTaskBus.EmailTaskBus.HandleFailedSend` | apps/server/core/VarifyServer/EmailTaskBus.cpp:522-550 | retry below the limit, else dead-letter; the result of publishing is ignored |
| `EmailTaskBus.EmailTaskBus.WorkerTurn` | apps/server/core/VarifyServer/EmailTaskBus.cpp:504-557 | one round of the worker loop |
| `RedisPool.RunKeepsOwned` | apps/server/core/VarifyServer/VarifyRedisMgr.cpp:90-170 | in every run each connection is in exactly one place: idle, borrowed, freed, or in the hands of a returning call |
| `RedisPool.ClosedPoolFreesAll` | apps/server/core/VarifyServer/VarifyRedisMgr.cpp:127-148 | after Close and the return of all borrowed connections each one has been freed exactly once |
| `RedisPool.CheckKeepsLiveOnes` | apps/server/core/VarifyServer/VarifyRedisMgr.cpp:150-170 | whatever runs between its steps, a finished check leaves exactly the connections that answered, in their old order |
| `RedisPool.ChecksSoFar` | apps/server/core/VarifyServer/VarifyRedisMgr.cpp:150-170 | the state after any number of replies: unseen ones, then live ones; the dead are freed in order |
| `RedisPool.FirstChecked` | apps/server/core/VarifyServer/VarifyRedisMgr.cpp:154-169 | a connection that answers goes to the back of the queue, one that does not is freed |
| `RedisPool.ContextsArePooledOrFreed` | apps/server/core/VarifyServer/VarifyRedisMgr.cpp:21-48 | every context that was opened is pooled if it is usable and else freed, as often as it was opened |
| `RedisPool.StoppedPoolGivesNothing` | apps/server/core/VarifyServer/VarifyRedisMgr.cpp:98-125 | in every run after the flag is set, no connection is lent or kept, except by one call or return that had read the flag before |
| `RedisPool.StepServes` | apps/server/core/VarifyServer/VarifyRedisMgr.cpp:115-125 | a sleeping call is left behind by exactly one kind of step: a notification that goes to the checker |
| `RedisPool.RunServes` | apps/server/core/VarifyServer/VarifyRedisMgr.cpp:90-125 | at no state of a run does a call sleep while a connection has nobody to take it, if and only if the run has no such step |
| `RedisPool.WakeupCanBeLost` | apps/server/core/VarifyServer/VarifyRedisMgr.cpp:60-76 | a run where that happens: the returned connection stays idle and the call asleep |
| `RedisPool.CloseReachesAll` | apps/server/core/VarifyServer/VarifyRedisMgr.cpp:127-133 | Close wakes every call except one between its test and its wait |
| `RedisPool.RunReachesAll` | apps/server/core/VarifyServer/VarifyRedisMgr.cpp:127-133 | at no state of a run does a call sleep once Close has notified, if and only if no notification fell into that gap |
| `RedisPool.ClosingStepUsesWork` | apps/server/core/VarifyServer/VarifyRedisMgr.cpp:127-170 | after the flag is set every step but a new call lowers a measure |
| `RedisPool.ClosingIsShort` | apps/server/core/VarifyServer/VarifyRedisMgr.cpp:127-170 | so closing takes at most that many steps |
| `RedisPool.ClosingGoesOn` | apps/server/core/VarifyServer/VarifyRedisMgr.cpp:127-148 | and until Close returns one of them is possible |
| `RedisPool.CloseCanStrandACall` | apps/server/core/VarifyServer/VarifyRedisMgr.cpp:93-97 | a run where Close sets its flag in that gap and leaves the call asleep |
| `RedisPool.VarifyRedisConPool.constructor` | apps/server/core/VarifyServer/VarifyRedisMgr.cpp:15-83 | usable contexts are pooled in order, all others freed; ready if there is one and the checker starts |
| `RedisPool.VarifyRedisConPool.GetConnection` | apps/server/core/VarifyServer/VarifyRedisMgr.cpp:90-103 | one pass under the mutex: waits, gives nothing, or gives the front |
| `RedisPool.VarifyRedisConPool.CheckerWaits` | apps/server/core/VarifyServer/VarifyRedisMgr.cpp:60-69 | the checker tests the flag and waits, or ends |
| `RedisPool.VarifyRedisConPool.CheckerTimesOut` | apps/server/core/VarifyServer/VarifyRedisMgr.cpp:64-74 | after its wait a check is due, or the checker ends |
| `RedisPool.VarifyRedisConPool.JoinChecker` | apps/server/core/VarifyServer/VarifyRedisMgr.cpp:134-141 | Close goes on once the checker has ended, or if there is none |
| `RedisPool.VarifyRedisConPool.ReturnConnection` | apps/server/core/VarifyServer/VarifyRedisMgr.cpp:115-125 | frees after the stop, else appends and notifies: the two steps of the run model |
| `RedisPool.VarifyRedisConPool.BeginClose` | apps/server/core/VarifyServer/VarifyRedisMgr.cpp:127-133 | only the first Close sets the flag and notifies all |
| `RedisPool.VarifyRedisConPool.CheckThreadProc` | apps/server/core/VarifyServer/VarifyRedisMgr.cpp:150-170 | the rotation loop leaves the live connections in order and frees the others |
| `RedisPool.VarifyRedisConPool.Drain` | apps/server/core/VarifyServer/VarifyRedisMgr.cpp:142-147 | frees every idle connection once, in order |
| `RetrievalFusion.FuseCandidates` | apps/server/core/AIOrchestrator/rag/retrieval.py:535-581 | new objects, one per key, whose values are the merged entries; no entry is behind one with a smaller fused, then dense, then lexical score |
| `RetrievalFusion.FusionReturnsInputKeys` | apps/server/core/AIOrchestrator/rag/retrieval.py:544-567 | the returned keys are exactly the keys of the inputs, each once |
| `RetrievalFusion.FusedScoreIsSum` | apps/server/core/AIOrchestrator/rag/retrieval.py:547-577 | on fresh inputs and non-negative weights a key's score is exactly the sum of weight times penalty over (rrf_k + rank) |
| `FusionScores.FusedScoreFormula` | apps/server/core/AIOrchestrator/rag/retrieval.py:544-577 | the same written out: the sum, over all positions of candidates with the key, of the weight of the route times the penalty of the candidate over rrf_k plus rank |
| `FusionScores.ReturnedScoreFormula` | apps/server/core/AIOrchestrator/rag/retrieval.py:544-581 | and so is the score of every entry returned |
| `FusionScores.GainsSum` | apps/server/core/AIOrchestrator/rag/retrieval.py:545-577 | for any inputs the gains of a key add up to that sum |
| `FusionScores.PenaltyIs` | apps/server/core/AIOrchestrator/rag/retrieval.py:267-275 | 0.08 for a text that mentions one of the patterns, else 0.15 for one with both words, else 1, whatever the case of its letters |
| `Retrieval.KeyIs` | apps/server/core/AIOrchestrator/rag/retrieval.py:278-283 | which fields make up the key |
| `Retrieval.EntryFusedIsSum` | apps/server/core/AIOrchestrator/rag/retrieval.py:209 | for any inputs: the score equals that sum if and only if no later input carries a larger fused score; otherwise it is larger |
| `RetrievalFusion.TableSumsExactly` | apps/server/core/AIOrchestrator/rag/retrieval.py:547-577 | the same in the table of all keys: an entry's score is that sum if and only if no later occurrence of its key carries a larger fused score than was summed so far |
| `RetrievalFusion.ScoredInputBreaksSum` | apps/server/core/AIOrchestrator/rag/retrieval.py:209 | a call where that fails: two routes with one candidate each, of one id, the second with a fused score above 1 |
| `RetrievalFusion.RankedKeysRank` | apps/server/core/AIOrchestrator/rag/retrieval.py:579-581 | the result has every key, sorted by the three scores, equal scores in insertion order |
| `Retrieval.EntryScoresAreMaxima` | apps/server/core/AIOrchestrator/rag/retrieval.py:207-208 | dense and lexical scores are maxima over all occurrences |
| `Retrieval.EntryRoutesAreUnions` | apps/server/core/AIOrchestrator/rag/retrieval.py:212 | routes are unions |
| `Retrieval.EntryRanksAreMinima` | apps/server/core/AIOrchestrator/rag/retrieval.py:213-216 | ranks are minima over the ranks given or carried |
| `Retrieval.EntryRerankIsMaximum` | apps/server/core/AIOrchestrator/rag/retrieval.py:210-211 | the rerank score is the maximum of those given, with zero as one more when the first occurrence has none |
| `Retrieval.EntryTextIsFirst` | apps/server/core/AIOrchestrator/rag/retrieval.py:198-205 | text fields keep the first non-empty value |
| `Retrieval.EntryIdIsFirst` | apps/server/core/AIOrchestrator/rag/retrieval.py:551-552 | the id is that of the first occurrence |
| `Retrieval.EntryMetadataElseLast` | apps/server/core/AIOrchestrator/rag/retrieval.py:241-246 | a metadata key that is always blank keeps its last value, one that nobody has does not appear |
| `Retrieval.EntryMetadataIsFirst` | apps/server/core/AIOrchestrator/rag/retrieval.py:241-246 | a metadata key keeps its first value that is not blank |
| `Retrieval.TableHoldsEntries` | apps/server/core/AIOrchestrator/rag/retrieval.py:542-577 | merging in place gives each key the entry of its own occurrences |
| `Retrieval.KeysAreInOrder` | apps/server/core/AIOrchestrator/rag/retrieval.py:542-579 | the keys, which break ties, stand in the order in which they are first seen |
| `Retrieval.SortIsStable` | apps/server/core/AIOrchestrator/rag/retrieval.py:580 | the sort is a sorted permutation that keeps ties in order |
| `RetrievalFusion.RoutesAt` | apps/server/core/AIOrchestrator/rag/retrieval.py:544-548 | each route's list contributes its candidates at ranks 1, 2, and so on |
| `RetrievalFusion.RetrievalCandidate.MergeWith` | apps/server/core/AIOrchestrator/rag/retrieval.py:197-216 | the in-place merge |
| `RetrievalFusion.RetrievalCandidate.TouchWith` | apps/server/core/AIOrchestrator/rag/retrieval.py:569-577 | what each occurrence adds to its entry |
| `RetrievalFusion.MergedMetadata` | apps/server/core/AIOrchestrator/rag/retrieval.py:241-246 | the merging loop over metadata, in any order of keys |
| `RetrievalFusion.MergedRanks` | apps/server/core/AIOrchestrator/rag/retrieval.py:213-216 | the loop over ranks, in any order of routes |
| `RetrievalFusion.AddOccurrence` | apps/server/core/AIOrchestrator/rag/retrieval.py:549-577 | start an entry for a new key, else merge into the one there is; input objects are untouched |
| `RetrievalFusion.SortEntries` | apps/server/core/AIOrchestrator/rag/retrieval.py:579-580 | the entries in the order of the sort |
| `LexicalRanking.RankLexicalCandidates` | apps/server/core/AIOrchestrator/rag/retrieval.py:503-532 | new copies, field by field, with penalised scores and ranks from 1; better scores first, then longer content, then input order; nothing without candidates or tokens |
| `LexicalRanking.SortRanks` | apps/server/core/AIOrchestrator/rag/retrieval.py:529 | the ranking uses every position once, better scores first, then longer content, then input order |
| `LlmManager.Achat` | apps/server/core/AIOrchestrator/llm/manager.py:137-205 | for all backends: the reply is the first success in candidate-then-attempt order, the calls are exactly the attempts up to it, the delays exactly those between them, and failure means no attempt would have succeeded; if the preferred or else the default backend is loaded and answers at once, that is the reply, after one call |
| `LlmManager.TryCandidate` | apps/server/core/AIOrchestrator/llm/manager.py:156-203 | exactly the attempts up to the first that may not be retried, at most retry_count + 1, and exactly one delay between any two of them |
| `LlmManager.CandidatesAre` | apps/server/core/AIOrchestrator/llm/manager.py:145-149 | a loaded preference comes first and its configured fallbacks follow in order; else the default and its fallbacks |
| `LlmManager.AnswersAre` | apps/server/core/AIOrchestrator/llm/manager.py:151-203 | which attempts answer: a loaded candidate, within retry_count, after timeouts and rate limits only |
| `LlmManager.LoadedOnesAre` | apps/server/core/AIOrchestrator/llm/manager.py:151-154 | the candidates tried are the loaded ones, in order |
| `LlmManager.DelaysDouble` | apps/server/core/AIOrchestrator/llm/manager.py:191-198 | as many delays as retries, the first as configured, each twice the one before |
| `LlmManager.SleepsStand` | apps/server/core/AIOrchestrator/llm/manager.py:151-198 | the delays of a candidate stand where it stands among those tried |
| `LlmManager.BackOffSum` | apps/server/core/AIOrchestrator/llm/manager.py:191-192 | the delays before n retries sum to delay * (2^n - 1) |
| `LlmManager.SleepIsBounded` | apps/server/core/AIOrchestrator/llm/manager.py:191-198 | a position sleeps at most delay * (2^retry_count - 1) |
| `LlmManager.SleepsPerTried` | apps/server/core/AIOrchestrator/llm/manager.py:154-156 | there is one list of delays for every candidate tried |
| `LlmManager.Astream` | apps/server/core/AIOrchestrator/llm/manager.py:207-247 | the output is what the failed candidates yielded, followed by the first complete stream; if that of the preferred or else the default backend is complete, it is all of the output |
| `LlmManager.YieldedIsConcat` | apps/server/core/AIOrchestrator/llm/manager.py:232-235 | that output, piece by piece |
| `QueryRewrite.RewriteParts` | apps/server/core/AIGatewayService/domain/AIRouteModules.cpp:280-314 | the path stays; the new items are the non-empty items that pass the filter, in order, and then the caller's uid |
| `QueryRewrite.OnlyTrustedUid` | apps/server/core/AIGatewayService/domain/AIRouteModules.cpp:292-303 | only the last item has the key uid, whether the filter or an exact decoder reads it |
| `QueryRewrite.LastItemNamesCaller` | apps/server/core/AIGatewayService/domain/AIRouteModules.cpp:303 | behind "uid=" the last item reads, as a decimal number, as exactly the uid of the caller |
| `QueryRewrite.DecimalIsRead` | apps/server/core/AIGatewayService/domain/AIRouteModules.cpp:303 | a printed number reads back as itself, sign included, without leading zeros |
| `QueryRewrite.OtherItemsStay` | apps/server/core/AIGatewayService/domain/AIRouteModules.cpp:286-297 | every non-empty item whose decoded key is not uid in any case stays |
| `QueryRewrite.KeptAre` | apps/server/core/AIGatewayService/domain/AIRouteModules.cpp:286-297 | the items are judged one by one, in order |
| `QueryRewrite.PlainUidIsCaught` | apps/server/core/AIGatewayService/domain/AIRouteModules.cpp:272-278 | without escapes exactly the three letters are caught, in any case, with or without a value |
| `QueryRewrite.PlainKeyIsLowered` | apps/server/core/AIGatewayService/domain/AIRouteModules.cpp:267 | a key without escapes is only put into lower case |
| `QueryRewrite.EscapesAreRead` | apps/server/core/AIGatewayService/domain/AIRouteModules.cpp:246-266 | an escape is its byte, whatever the case of its digits |
| `QueryRewrite.NoQuery` | apps/server/core/AIGatewayService/domain/AIRouteModules.cpp:282-284 | a target without a question mark is all path |
| `QueryRewrite.RewriteAgain` | apps/server/core/AIGatewayService/domain/AIRouteModules.cpp:280-314 | rewriting again replaces the uid; with the same uid nothing changes |
| `QueryRewrite.ExactUidIsCaught` | apps/server/core/AIGatewayService/domain/AIRouteModules.cpp:272-278 | every item whose percent-decoded key is uid is removed |
| `QueryRewrite.UidItemsAre` | apps/server/core/AIGatewayService/domain/AIRouteModules.cpp:240-278 | exactly which keys are removed: uid in any case with no escaped upper-case letter |
| `QueryRewrite.EscapedUpperCasePasses` | apps/server/core/AIGatewayService/domain/AIRouteModules.cpp:276-277 | "%55id" passes, against the comment |
| `QueryRewrite.PercentDecodeAsciiKey` | apps/server/core/AIGatewayService/domain/AIRouteModules.cpp:240-270 | the loop computes the decoding of the tokens |
| `QueryRewrite.KeptItems` | apps/server/core/AIGatewayService/domain/AIRouteModules.cpp:286-301 | the scan visits every piece of the query once and terminates |
| `QueryRewrite.PrefixProxyTargetWithTrustedUid` | apps/server/core/AIGatewayService/domain/AIRouteModules.cpp:280-314 | scan and joining loop compute the rewrite |
| `ChatFrames.EncodedFrameIsReadBack` | tools/scripts/dev/runtime_smoke_full_chat.py:394-398 | exactly frames whose id and length fit sixteen bits are encoded, and each is read back, whatever follows it |
| `ChatFrames.WireIs` | tools/scripts/dev/runtime_smoke_full_chat.py:394-398 | on the wire: id and length in two bytes each, high byte first, then the payload |
| `ChatFrames.FrameAheadIs` | tools/scripts/dev/runtime_smoke_full_chat.py:411-417 | a frame can be read once its header and as many bytes as that says are there |
| `ChatFrames.FrameReadIsOnWire` | tools/scripts/dev/runtime_smoke_full_chat.py:411-417 | what is read is exactly the encoding at the front of the stream |
| `ChatFrames.Socket.RecvExact` | tools/scripts/dev/runtime_smoke_full_chat.py:401-408 | however the bytes are cut, exactly the next size bytes, or the failure after the last one |
| `ChatFrames.Socket.RecvFrame` | tools/scripts/dev/runtime_smoke_full_chat.py:411-417 | reads the frame at the front of the stream |
| `ChatFrames.Socket.RecvMatching` | tools/scripts/dev/runtime_smoke_full_chat.py:420-440 | computes the scan of the stream |
| `ChatFrames.MatchIsFound` | tools/scripts/dev/runtime_smoke_full_chat.py:420-440 | if frames that do not match lead to one that does, the skipped list is exactly those and the stream stands behind the match |
| `ChatFrames.EncodedMatchIsFound` | tools/scripts/dev/runtime_smoke_full_chat.py:420-440 | the same from the sender's side: of frames encoded back to back the first that matches is the result, with the id and the payload that were encoded, an empty payload as the empty object; what was skipped are the messages of the frames before it |
| `ChatFrames.DeadlinePasses` | tools/scripts/dev/runtime_smoke_full_chat.py:429-440 | as many frames that do not match as there are rounds: the deadline passes, and nothing more is read |
| `ChatFrames.FailureIsReported` | tools/scripts/dev/runtime_smoke_full_chat.py:432-436 | frames that do not match and then a failure: it is reported, with what was skipped |
| `ChatFrames.ConsumedIsPrefix` | tools/scripts/dev/runtime_smoke_full_chat.py:420-440 | conversely a match and the skipped list are precisely the prefix of frames consumed |
| `ChatFrames.WireDelivers` | tools/scripts/dev/runtime_smoke_full_chat.py:394-398 | frames encoded back to back are delivered in order |
| `ChatFrames.DeliveredIsWire` | tools/scripts/dev/runtime_smoke_full_chat.py:411-417 | whatever is delivered was encoded back to back |
| `VerifyEmail.AcceptsExactlyAddresses` | apps/server/core/VarifyServer/VerifyCodePolicy.cpp:26-76 | accepts exactly the strings that split as local characters, at sign, domain characters, dot, and 2 to 63 letters |
| `VerifyEmail.TextsAre` | apps/server/core/VarifyServer/VerifyCodePolicy.cpp:26-76 | which characters each part may have |
| `VerifyEmail.AddressIsAccepted` | apps/server/core/VarifyServer/VerifyCodePolicy.cpp:28-50 | the scans for the only at sign and the last dot are complete |
| `VerifyEmail.AcceptedIsAddress` | apps/server/core/VarifyServer/VerifyCodePolicy.cpp:45-75 | and sound |
| `VerifyEmail.AddressPartsAreUnique` | apps/server/core/VarifyServer/VerifyCodePolicy.cpp:28-50 | a string splits in one way only |

## Left out

- HTTP connection: reading requests, other responses, deadlines and tracing. Which origins are allowed is a parameter; so are the digits of generated ids.
- Chunked coding: chunk extensions and trailer fields, which the writer never produces.
- UrlCodec: `isalnum` is that of the C locale, and strings are byte strings.
- AI service client: connecting, sending the request, and the status check before the body; the JSON parser and the values it finds are an arbitrary function.
- Event printer: JSON printing. Payloads are single lines that do not end in white space, as JSON objects are.
- WorkerPool: a join that fails, Start overlapping with other calls (it is one step here), Stop called from a worker, and the error texts.
- WorkerPool.GateWorkerPool.Start: the threads that did start before one failed are already gone again when the step ends.
- Snowflake: several threads on the default lock, which does not lock. The steady clock is a sequence of ticks, a million to the millisecond, that never decreases.
- SnowflakeUtil: `formatPublicId`, which takes ids modulo 10^9 and so is not injective.
- EmailTaskBus: the build without RabbitMQ, thread start and stop, health flags, metrics and mail sending itself. The source registers no consumer; deliveries are broker steps here. A dropped link is seen by the broker at once. A configuration that gives the retry queue the name of another queue is refused by the broker, because the two are declared with different arguments, and is not modelled.
- RedisPool: the commands run on a borrowed connection, a checker join that fails, and the contents of replies.
- RedisPool.VarifyRedisConPool.GetConnection: one pass under the mutex, in which nothing else happens; waiting, and steps in between, are in the run model. The same holds for the other methods of the class.
- Retrieval: floating-point rounding (scores are reals), BM25 scoring and normalisation (scores are given), tokenising, cross-encoder reranking, and case folding beyond ASCII.
- RetrievalFusion.FuseCandidates: requires that no rank makes `rrf_k + rank` zero, where the source raises a division error.
- LlmManager: setting the model name on a backend, tracing, and cancellation. Retry delays are whole numbers of a unit.
- AI routes: the rewrite of request bodies, and forwarding.
- ChatFrames: JSON, the kinds of error that encoding raises, and the clock, which is the number of rounds before the deadline. A timeout loses the bytes of an unfinished frame, as in the source.
- Email policy: the random verification code, and the load-test suffix.
- The rate limiter, the agent harness, clients, deployment scripts and the other routers: no state of their own here, or glue around foreign calls.
