# A verified model of the benchmark's concurrent and wire code

The repository measures a key-value and vector engine. What its own code decides is modelled here in
Dafny and proved for every input, every run and every interleaving:

- **The pipelined connection** (`Pipeline*.dfy`): many calls share one connection. Under a mutex each pushes
  a one-slot result channel on a bounded fifo and writes its frame; one read loop matches answers to slots;
  failure may begin on either side. A run is a list of atomic steps of callers, read loop, server and the
  engine's `close()`; the CompareAndSwap on `dead` and the socket's `Close` are two steps. `PipelineProgram.dfy`
  has `call`, `fail` and `readLoop` themselves, each action of theirs among arbitrary actions of the others.
- **The sharded-lock dispatcher and its read-modify-write ops** (`Dispatcher*.dfy`, `HandlerSpec.dfy`, `HandlerMeaning.dfy`,
  `BenchServer.dfy`, `Folds.dfy`, `ConcurrentOps.dfy`): every mutex operation and every single cache access is
  a step. Handlers are automata over what their accesses told them, and separately imperative methods proved to
  do the same.
- **The optimistic increment loop** (`CasLoop.dfy`, `CasClient.dfy`): K clients against one key as a state
  machine, and one client's loop as a method.
- **The vector-benchmark adapter** (`Json.dfy`, `RvWire.dfy`, `Adapter*.dfy`): both binary
  wires against the JSON they replace, the fallback state machine, and the client object itself against a
  server that records what it applied and what it was asked.
- **Three smaller cores**: the bulk loader's work queue (`Bulk.dfy`, `BulkProgram.dfy`), label spacing in the charts
  (`Decollide.dfy`), and the stream and file readers (`Framing.dfy`, `Fvecs.dfy`).

Integers are explicit: `int64` is `Bytes.i64` with `Bytes.Wrap` for its arithmetic, lengths on wires are 32-bit,
vector components are opaque 32-bit words, and label positions are exact reals.

## Hypotheses

- The server at the far end of a pipelined connection answers each complete request once, in order; `window`
  is at least 1. When a write or flush fails it may have delivered any part; a `bufio.Writer`'s error is sticky.
  Nothing is delivered on a closed socket. A read may fail at any time.
- The cache's `Get` and `Put` are atomic, a failed access changes nothing, and the standard key extractor reads
  `[keyLen u16][key]`, as the handlers and the client's key prefix do.
- A load or search request is answered with a status or raises; only status 200 applies a chunk, and a request
  that raises may or may not have applied its chunk. Ids handed to `insert_embeddings` fit 64 unsigned bits, and
  rows are as many as ids and of one dimension.
- `runBulk`'s theorems about what is staged are for a chunk of at least 1; with a chunk of 0, workers and something
  to stage its runs have no bound (`Bulk.RunsBoundedIff`).

## Results worth knowing

- The read loop's bound `5+plen` is 32-bit arithmetic. For the five largest declared lengths it wraps and the
  slice panics, which takes the process down; exactly then (`PipelineTheorems.BodyParsed`, `WrapExample`).
- The engine's `close()` takes `dead` without the mutex. Overlapping a live call it can strand that call for
  good, exactly when some call stands between its second check of `dead` and its push on a live connection whose
  writer has not failed (`PipelineClose.CloseIsSafeExactly`). The benchmark closes after its workers return, which
  is always safe.
- A call that gives up with "too many retries" has seen 1000 increments by others; a transport error
  leaves open whether its own increment happened (`CasClient.CasIncr`).
- `prepare_filter` raising leaves the previous filter in force, blob and object alike.
- With no worker and something to stage, `runBulk` hangs; with a worker it never does (`Bulk.NoDeadlock`).
- Labels always end up at least the gap apart and in order, but they lie inside the plot only if the spread of the
  placed labels fits (`Decollide.InsideIff`, `OutsideExample`).
- The Python stream client ignores the payload length that the Go client checks and cuts at; on some bodies they
  disagree (`Framing.ReadersAgreeIff`, `DisagreeExample`).
- Ops that take no mutex see only values of the serial order, as long as handlers put last, which the four here do
  (`DispatcherReads.ReadsAreSerial`).

## Model

| member | source | states |
|---|---|---|
| PipelineInvariant.InvKept | netkv/pipeline.go:60-125 | every step, by anyone, keeps the alignment of fifo, written, unanswered and answered-but-unpopped requests, the slot count, the lock, the sticky error and the death argument |
| PipelineTheorems.OwnAnswer | netkv/pipeline.go:69-83 | in every reachable state a call that returned a status and payload returned the server's answer to its own frame |
| PipelineTheorems.FramesNeverMix | netkv/pipeline.go:69-78 | all that has been delivered is the header and body of each pushed call in push order, so the server's next two pieces are one request; what it has answered is a prefix of the pushes |
| PipelineTheorems.NoLostWaiter | netkv/pipeline.go:60-125 | no run reaches a state in which the read loop has exited and a call waits on an empty slot |
| PipelineTheorems.FilledOnce | netkv/pipeline.go:113-120 | each slot is filled at most once, so the read loop's send never blocks |
| PipelineTheorems.WindowKept | netkv/pipeline.go:43-78 | at most `window` delivered requests are unmatched; after the drain at most one slot is left, and a call about to push finds room |
| PipelineTheorems.BodyParsed | netkv/pipeline.go:106-114 | a body panics the loop iff its declared length is one of the five that wrap, is accepted iff it holds the declared payload, and yields exactly that payload |
| PipelineTheorems.BodyReadsBack | netkv/pipeline.go:106-114 | a response built from a status and a payload below 2^32-5 bytes reads back as that status and payload |
| PipelineTheorems.WrapExample | netkv/pipeline.go:109-114 | five concrete bytes that panic the read loop |
| PipelineTheorems.CrashNeedsWrap | netkv/pipeline.go:109-114 | a run in which the loop crashed contains a server answer whose length wraps |
| PipelineTheorems.StepDescends | netkv/pipeline.go:60-125 | every step decreases a measure |
| PipelineTheorems.RunsEnd | netkv/pipeline.go:60-125 | every run with n calls has at most 16n+6 steps |
| PipelineTheorems.NoDeadlock | netkv/pipeline.go:60-125 | a run that cannot go on has returned every call, unless the read loop crashed |
| PipelineTheorems.NextStep | netkv/pipeline.go:60-125 | unless the read loop has crashed, while a call has not returned some step of the program or the server is enabled |
| PipelineHealth.HealthyAnswers | netkv/pipeline.go:60-125 | in a run in which no read, write or flush fails, nobody closes and every response holds its declared payload, a call that has returned has returned an answer: its own |
| PipelineHealth.AllAnswered | netkv/pipeline.go:60-125 | and when such a run cannot go on, every call has |
| PipelineHealth.AnswerIsBody | netkv/pipeline.go:98-114 | a status and payload a call returns are, byte for byte, those of the response whose number is that of the call's push |
| PipelineHealth.TurnedAway | netkv/pipeline.go:61-73 | on a dead connection a call that has not passed its second check never pushes and can only return errPConnDead; one that has not begun never waits for the mutex |
| PipelineHealth.ClosedOnce | netkv/pipeline.go:88-92 | in any run, close() overlapping anything or not, the socket is closed at most once, whoever fails |
| PipelineHealth.WindowFills | netkv/pipeline.go:43-78 | with enough calls a whole window of requests is delivered before any is answered |
| PipelineProgram.PConn.Call | netkv/pipeline.go:60-84 | call() in its own order, everybody else interleaving anywhere: a run of the machine; a status and payload it returns are the server's answer to its own frame; it stops short only if the process crashed, the mutex is held, the fifo is full or its slot is empty; while nothing goes wrong it returns the answer or is so blocked |
| PipelineProgram.PConn.WriteFrame | netkv/pipeline.go:75-79 | two writes, flush and unlock happen unless the process crashed, and then the call waits iff none of the three errors occurred |
| PipelineProgram.PConn.FailCall | netkv/pipeline.go:88-92 | a caller's fail() goes through unless the process crashed: the call has returned errPConnDead, the connection is dead, and closed if this caller won the CompareAndSwap |
| PipelineProgram.PConn.RunReadLoop | netkv/pipeline.go:94-125 | readLoop() in its own order, everybody else interleaving anywhere: a run of the machine after which no call waits on a slot that stays empty; it stops short only if the process crashed or there is no response to read; while nothing goes wrong it is never over and matches every response there is |
| PipelineProgram.PConn.Fill | netkv/pipeline.go:113-120 | the loop's sends never wait: unless the process crashed the slot is filled, whatever the others did |
| PipelineProgram.PConn.SlotAtHand | netkv/pipeline.go:113 | nor does the loop's receive from the fifo: a slot is there for every response |
| PipelineClose.CloseIsSafeExactly | netkv/pipeline.go:60-92 | from a reachable state, taking close() can never lose a waiter iff no call is about to push on a live connection with a working writer |
| PipelineClose.UnsafeReached | netkv/pipeline.go:60-74 | and one call on a fresh connection gets to where it is not safe |
| PipelineClose.QuietCloseIsSafe | netkv/pipeline.go:88-92 | closing while no call is live is safe |
| DispatcherLocks.HeldRange | netkv/rostam_server/main.go:91-107 | in every reachable state the mutexes an op owns are exactly a contiguous range: a prefix while acquiring, a suffix while releasing |
| DispatcherLocks.MutualExclusion | netkv/rostam_server/main.go:91-107 | two running read-write handlers share no shard, so none runs beside a barrier |
| DispatcherLocks.NoDeadlock | netkv/rostam_server/main.go:91-107 | while an op is unfinished some op can move |
| DispatcherLocks.ShardsIndependent | netkv/rostam_server/main.go:91-97 | an op on one shard holds no other mutex and is kept waiting only by an op that holds that shard's |
| DispatcherLocks.StepDescends | netkv/rostam_server/main.go:85-109 | every step decreases a measure |
| DispatcherLocks.RunsEnd | netkv/rostam_server/main.go:85-109 | with handlers of at most L accesses no schedule is longer than 2*shards + L + 3 steps per op |
| DispatcherSerial.ExecFrame | netkv/rostam_server/main.go:91-97 | a handler neither sees nor changes what its mutexes do not cover |
| DispatcherSerial.InvKept | netkv/rostam_server/main.go:85-109 | every interleaved step keeps: each op in mid-handler will end as if run alone on the committed cache |
| DispatcherSerial.Serializable | netkv/rostam_server/main.go:85-109 | any finished run, Get and Put separate, any mix of shard and barrier ops, has the final cache and per-op results of a serial run of its read-write ops |
| DispatcherSerial.RealTimeOrder | netkv/rostam_server/main.go:85-109 | an op that was back before another took its first mutex precedes it in that serial order |
| DispatcherSerial.QuietKeys | netkv/rostam_server/main.go:85-109 | at any moment a key no running handler covers holds its committed value |
| DispatcherReads.ReadsAreSerial | netkv/rostam_server/main.go:90-108 | at any moment every key, busy or not, holds its value after some prefix of the final serial order no shorter than what is committed, for handlers that put last |
| DispatcherReads.LoneGet | netkv/rostam_server/main.go:108 | so an op without a mutex that gets a key is told what it would be told after those ops and no others |
| DispatcherReads.HandlersPutLast | netkv/rostam_server/main.go:120-267 | the four handlers put last |
| HandlerSpec.SameKey | netkv/rostam_server/main.go:91-97 | whenever a handler accepts its arguments, the router extracted the same key |
| HandlerSpec.HandlersRouted | netkv/rostam_server/main.go:85-109 | so every access of the four handlers is covered by the mutex their route takes |
| HandlerSpec.ExecIsOutcome | netkv/rostam_server/main.go:120-267 | the access-by-access automaton, run alone, has the result and cache of the whole handler |
| HandlerSpec.RecordReadsBack | netkv/rostam_server/main.go:133-160 | the packed 24-byte record decodes to what was encoded |
| HandlerSpec.CounterReadsBack | netkv/rostam_server/main.go:249-265 | the 8-byte counter decodes to what was encoded |
| HandlerSpec.KeyArgsReadBack | netkv/main.go:418-422 | router and handler decode the key the client encoded, and the rest of the arguments |
| HandlerSpec.PairArgsReadBack | netkv/main.go:474-482 | both int64 arguments, negative ones included, arrive as the client encoded them |
| HandlerMeaning.Refused | netkv/rostam_server/main.go:121-144 | arguments too short for their key or payload, and a failing Get, return an error and change nothing |
| HandlerMeaning.AruMeans | netkv/rostam_server/main.go:120-161 | for all other arguments, caches and failures, in terms of the bytes: what aru writes and returns |
| HandlerMeaning.CaswMeans | netkv/rostam_server/main.go:168-202 | the same of casw: 1 and a write exactly if the counter, missing or short counting as 0, is the expected one, else 0 and nothing |
| HandlerMeaning.AppMeans | netkv/rostam_server/main.go:206-233 | of app: the value grows by all that follows the key |
| HandlerMeaning.ShftMeans | netkv/rostam_server/main.go:238-267 | of shft: v<<1 or 1 in 64 bits, whatever follows the key |
| HandlerMeaning.RouteMeans | netkv/rostam_server/main.go:91-107 | the mutex of the key's shard whenever the arguments hold a key, all of them only otherwise |
| HandlerMeaning.ClientShift | netkv/main.go:421-423 | the benchmark's bitmask request names its key and never fails on its own: it leaves 1 on a fresh key and shifts in a bit on any other |
| HandlerMeaning.ClientAppend | netkv/main.go:417-420 | its append request leaves the value and the suffix |
| HandlerMeaning.ClientCaswFresh | netkv/main.go:450-459 | its conditional write of a fresh key succeeds exactly if 0 is expected |
| HandlerMeaning.ClientAruFresh | netkv/main.go:474-482 | its first match on a key leaves one game, the streak if positive, and the points |
| BenchServer.HandleAtomicRecordUpdate | netkv/rostam_server/main.go:120-161 | result and cache are those of the aru specification, for every argument string and every cache failure |
| BenchServer.HandleCASWrite | netkv/rostam_server/main.go:168-202 | result and cache are those of the specification of casw: writes and answers 1 iff the current value equals the expected one; argument and cache errors included |
| BenchServer.HandleAppend | netkv/rostam_server/main.go:206-233 | result and cache are those of the specification of app: the value grows by the suffix; argument and cache errors included |
| BenchServer.HandleShift | netkv/rostam_server/main.go:238-267 | result and cache are those of the specification of shft: the counter shifts in a one bit, modulo 2^64; argument and cache errors included |
| BenchServer.FoldMatch | netkv/rostam_server/main.go:133-156 | the new record encodes one more game, the greater streak and the wrapped sum |
| BenchServer.BenchDispatcher.Call | netkv/rostam_server/main.go:85-109 | result and cache are those of the op of that name, "aru", "casw", "app" or "shft", and an error for any other; mutexes are free when taken and free again afterwards |
| BenchServer.BenchDispatcher.Handle | netkv/rostam_server/main.go:96-108 | the handler may be entered only with just its key's mutex held, or with all of them if there is no key |
| ConcurrentOps.SucceedsIff | netkv/rostam_server/main.go:120-267 | in a finished run of any mixture of ops an aru, app or shft returned Ok iff its arguments hold a key and neither of its accesses failed |
| ConcurrentOps.ConcurrentFold | netkv/rostam_server/main.go:120-267 | after any run, with any ops on any keys and any failures, a key's value is the fold of exactly the requests on it that returned Ok, in the order their handlers returned |
| ConcurrentOps.ConcurrentRecord | netkv/rostam_server/main.go:120-161 | where the requests on a key are aru, its record is the count, maximum and sum modulo 2^64 of those that returned Ok, listed in any order, whatever else runs or fails |
| ConcurrentOps.ClientMatch | netkv/main.go:474-482 | and the match a request reports is the one its client encoded |
| ConcurrentOps.ConcurrentShift | netkv/rostam_server/main.go:238-267 | where the requests on a key are shft and n returned Ok, v becomes v*2^n + 2^n - 1 modulo 2^64, all ones from n = 64 |
| ConcurrentOps.ClientShifts | netkv/main.go:421-423 | if the requests on a key are the benchmark's own and none of their accesses fails, all n succeed and the counter is that closed form |
| ConcurrentOps.AllOnes | netkv/rostam_server/main.go:260-262 | that closed form has every bit set from n = 64 |
| ConcurrentOps.ConcurrentAppend | netkv/rostam_server/main.go:206-233 | where the requests on a key are app, its value has grown by the suffix of each that returned Ok, once each, in the order their handlers returned |
| ConcurrentOps.ClientSuffix | netkv/main.go:417-420 | and the suffix is the one its client appended to the key prefix |
| Folds.Rearrange | netkv/rostam_server/main.go:147-151 | commuting steps give one result in every order, which is why aru's order does not matter |
| CasLoop.AnswerMeans | netkv/rostam_server/main.go:181-201 | casw on the client's encoded cur and cur+1 accepts iff cur is current (absent and short values reading 0), and then the counter is cur+1 wrapped |
| CasLoop.AttemptMeans | netkv/main.go:450-467 | an answered attempt with the current value adds one and ends the call; any other changes nothing, is one more failed try, and is followed by the current value |
| CasLoop.AloneIncrements | netkv/main.go:445-462 | a call begins with a read and no failed try, and left alone succeeds with its first attempt |
| CasLoop.LossMeans | netkv/main.go:446-467 | a lost request or reply is reported as an error, and a request lost on its way changes nothing |
| CasLoop.GivesUpAt | netkv/main.go:450-469 | a call gives up when it has made 1000 attempts, not before |
| CasLoop.InvKept | netkv/main.go:445-470 | every step of every client keeps the counter equation and the staleness budget |
| CasLoop.NoLostUpdates | netkv/main.go:431-470 | in every reachable state the counter is the seed plus the accepted writes, modulo 2^64 |
| CasLoop.ContentionBound | netkv/main.go:445-470 | over any run of K clients, rejected writes number at most K-1 times the accepted ones |
| CasLoop.GivesUpOnlyUnderLoad | netkv/main.go:450-469 | "too many retries" means at least 1000 increments of other clients were accepted between that call's start and its end |
| CasLoop.OwnCounted | netkv/main.go:450-469 | where the increments of others are all accepted ones less the client's own, counted over the run |
| CasClient.CasIncr | netkv/main.go:445-470 | one call adds exactly one increment on success, none when it gives up, which takes 1000 attempts, at most one after a transport error, which it reports iff a request failed, its last; undisturbed it succeeds with two requests; nobody's increment is lost |
| CasClient.Server.GetI64 | netkv/main.go:431-440 | reads the counter, absent and short values as 0, and fails iff its request does |
| Json.PrintReadsBack | vectordbbench/rostam/rostam.py:222-226 | what json.dumps prints for integers, strings and objects reads back as the same value, by that part of RFC 8259's grammar |
| Json.NumReadsBack | vectordbbench/rostam/rostam.py:336-339 | a printed decimal integer reads back, followed by anything that is not a digit |
| Json.TextReadsBack | vectordbbench/rostam/rostam.py:219-226 | any string survives escaping and reading |
| RvWire.BlobIsPayload | vectordbbench/rostam/rostam.py:336-337 | the formatted payload text is the compact printing of the metadata object the JSON body carries |
| RvWire.BlobReadsBack | vectordbbench/rostam/rostam.py:336-350 | and reads back as that object for every 64-bit id |
| RvWire.BulkReadsBack | vectordbbench/rostam/rostam.py:318-340 | decoding an RVB1 body from its layout gives the ids, rows, payloads and flags it was built from, for all four flag combinations |
| RvWire.BulkLength | vectordbbench/rostam/rostam.py:263-269 | the body is 16 + n(8+4 dim) bytes plus the payload region |
| RvWire.BulkLayout | vectordbbench/rostam/rostam.py:263-333 | "RVB1", a flag bit each for payloads and upserts, count, dim, rows, payloads |
| RvWire.QueryLayout | vectordbbench/rostam/rostam.py:288-310 | "RVQ1", the filter flag, k, dim, twelve zero bytes, the query, and the filter with its length |
| RvWire.WiresAgree | vectordbbench/rostam/rostam.py:318-359 | the RVB1 bytes decode to the points and payloads of the dict that the JSON body is made from |
| RvWire.BuildBinaryBody | vectordbbench/rostam/rostam.py:318-340 | the loop builds exactly that body |
| RvWire.QueryReadsBack | vectordbbench/rostam/rostam.py:304-310 | an RVQ1 body decodes to the query, k and filter it was built from |
| RvWire.BlobOf | vectordbbench/rostam/rostam.py:201-227 | the filter blob is empty exactly when there is no filter |
| Adapter.LoadsOnce | vectordbbench/rostam/rostam.py:155-185 | for every reply sequence: completing applies the rows once each in order, stopping at c exactly the rows before c, an exception some prefix |
| Adapter.FallsBackFirst | vectordbbench/rostam/rostam.py:160-181 | a load resends a chunk iff it turns binary off, and then only its first; a proven wire or one already off stays so |
| AdapterMeaning.FallsBackOn | vectordbbench/rostam/rostam.py:168-182 | an unproven binary wire answered by 400, 404 or 415 is off from then on and the same rows go out as JSON next |
| AdapterMeaning.StopsOn | vectordbbench/rostam/rostam.py:175-184 | any other status but 200, or one of these three on a proven or JSON wire, ends the load at that row |
| AdapterMeaning.GoesOn | vectordbbench/rostam/rostam.py:156-181 | after a 200 the load goes on a thousand rows further on the same wire, a binary one being proven, or is complete |
| AdapterMeaning.ChunksGoOut | vectordbbench/rostam/rostam.py:155-184 | if all is well, exactly one request per thousand rows, in order, all on one wire |
| AdapterMeaning.OldServer | vectordbbench/rostam/rostam.py:152-182 | a server without the binary wire costs one request; every chunk then goes out as JSON and the load completes |
| AdapterMeaning.SearchMeans | vectordbbench/rostam/rostam.py:229-259 | which requests a search makes, by status codes; it returns the ids of its last reply unless that is an error or unreadable; when the wire is proven and when it is off |
| AdapterMeaning.FilterSelects | vectordbbench/rostam/rostam.py:219-223 | the filter sent selects, among the payloads a load stores, exactly the ids not below its value |
| AdapterMeaning.FilterBytes | vectordbbench/rostam/rostam.py:219-226 | the filter blob byte for byte |
| Adapter.EventKeeps | vectordbbench/rostam/rostam.py:137-259 | one load, search or filter change, raising or not, keeps proven-implies-on, the blob in step with the filter, and bulk clients filterless |
| Adapter.LifeKeeps | vectordbbench/rostam/rostam.py:65-259 | over any sequence of them also: neither wire comes back, and each costs exactly one repeated request if it is ever turned off, none otherwise |
| Adapter.InsertsAlone | vectordbbench/rostam/rostam.py:65-74 | loads behave as if no search or filter event had happened |
| Adapter.QueriesAlone | vectordbbench/rostam/rostam.py:65-74 | searches and filters behave as if no load had happened |
| Adapter.HalvesIndependent | vectordbbench/rostam/rostam.py:65-74 | both together, for one client |
| AdapterClient.Rostam.constructor | vectordbbench/rostam/rostam.py:47-80 | a new client is sound: nothing proven, no filter |
| AdapterClient.Rostam.SendChunk | vectordbbench/rostam/rostam.py:160-182 | one chunk: flags, requests spent and last reply as specified, and the server's points whichever wire carried it |
| AdapterClient.ChunkMeans | vectordbbench/rostam/rostam.py:160-184 | a chunk takes a second request iff the binary wire is on, unproven and answered by 400, 404 or 415, which turns it off; a 200 proves it; nothing else changes the flags |
| AdapterClient.Rostam.SendRows | vectordbbench/rostam/rostam.py:156-182 | one turn of the load: the next chunk's rows are in and the load goes on from there, or it is over as promised |
| AdapterClient.Rostam.InsertEmbeddings | vectordbbench/rostam/rostam.py:137-185 | (n, None) means the server gained every row once in order with its own id, vector, payload (except on "bulk") and by upsert (only on "batch"); (c, error) exactly the rows before c; (0, exception) some prefix; requests, flags and end are those of the load specification |
| AdapterClient.Rostam.PrepareFilter | vectordbbench/rostam/rostam.py:201-227 | sets filter and blob together, or raises and changes nothing; it raises exactly for an unknown filter and for NumGE on "bulk" |
| AdapterClient.Rostam.SearchEmbedding | vectordbbench/rostam/rostam.py:229-259 | every request asks the server for the caller's query and k under the filter in force; the result is the ids of the last reply unless it is missing, an error or unreadable; a second request follows 400, 404 or 415 on an unproven wire only; none is made only if the binary body cannot hold it |
| AdapterClient.BuildQueryBody | vectordbbench/rostam/rostam.py:304-310 | the body built from the cached blob decodes to the filter object |
| AdapterClient.ChunkTaken | vectordbbench/rostam/rostam.py:156-159 | what the server takes from a chunk are the wanted rows of that slice |
| Bulk.ListJobs | netvec/main.go:257-263 | the producer's loop: every id below total is in exactly one job, no other id in any |
| Bulk.JobsPartition | netvec/main.go:257-263 | the same from any starting point, with job sizes between 1 and chunk summing to the rest |
| Bulk.HandsOutJobs | netvec/main.go:229-263 | the channel carries exactly that list in order |
| Bulk.InvKept | netvec/main.go:219-265 | every interleaved step keeps every weighing of jobs: given = posted + held, counters = posted less pending |
| Bulk.Conservation | netvec/main.go:212-265 | after the wait every id has been posted once, staged + failed = total, and an error is reported iff something failed |
| Bulk.AllStagedOnce | netvec/main.go:212-265 | no failure counted means every id was in exactly one successful post |
| Bulk.CountersMean | netvec/main.go:239-254 | staged and failed are the sizes of the jobs whose posts succeeded and failed, as the steps of the run have it |
| BulkProgram.BulkRun.Run | netvec/main.go:208-289 | the producer in its own order, workers interleaving anywhere: when it comes to report, exactly the list of jobs was handed out, staged + failed = total, an error is noted iff something failed, and without failure every id is in exactly one successful post; it does not come to report only if no worker comes for a job or some worker does not return |
| BulkProgram.BulkRun.HandleJob | netvec/main.go:229-254 | one turn of a worker: a job it takes is posted, counted by its size on the side of the outcome, and a failure noted; without one it has none to take, or the channel is closed and it is over |
| BulkProgram.BulkRun.PostJob | netvec/main.go:239-254 | a post succeeds iff it gets a response with a status below 300 |
| BulkProgram.BulkRun.Work | netvec/main.go:219-256 | a worker stops only when the channel is closed, or open with no job to take |
| BulkProgram.BulkRun.Send | netvec/main.go:257-263 | hands exactly the next job to a worker at the channel, and nothing only if none comes |
| Bulk.StepDescends | netvec/main.go:219-265 | every step decreases a measure |
| Bulk.RunsEnd | netvec/main.go:219-265 | with a positive chunk every run is at most 5 steps per job and one per worker, plus two |
| Bulk.RunsBoundedIff | netvec/main.go:219-265 | for every chunk from 0 on, run lengths are bounded iff the chunk is positive, nothing is to be staged, or there is no worker |
| Bulk.Spin | netvec/main.go:257-263 | with a chunk of 0 there are runs of any length that hand out an empty job over and over |
| Bulk.NoDeadlock | netvec/main.go:219-265 | the run can always go on iff there is a worker or nothing to stage |
| Decollide.OrderSorted | netkv/charts/mkcharts.py:96 | the order is by label, equal labels by index |
| Decollide.OrderHolds | netkv/charts/mkcharts.py:96 | and holds every index |
| Decollide.TopDown | netkv/charts/mkcharts.py:98-100 | the first loop leaves Up along the order |
| Decollide.BottomUp | netkv/charts/mkcharts.py:101-104 | the second loop leaves Down along the order, for any labels |
| Decollide.UpIsMax | netkv/charts/mkcharts.py:98-100 | the first pass puts label k at the maximum over j <= k of y_j + (k-j)*gap |
| Decollide.LeastSpaced | netkv/charts/mkcharts.py:98-100 | and that is spaced, above the inputs, and below every other such placement |
| Decollide.DownIdle | netkv/charts/mkcharts.py:101-104 | the second pass leaves spaced labels alone |
| Decollide.DownIsMin | netkv/charts/mkcharts.py:101-104 | on any line the second pass puts label k at the minimum over j >= k of z_j - (j-k)*gap |
| Decollide.Settles | netkv/charts/mkcharts.py:98-105 | so after both passes the labels stand where the first put them, the ends of the order being the least and greatest |
| Decollide.Spread | netkv/charts/mkcharts.py:88-106 | the whole function: an error iff there is no label, else every label at its place plus one shift |
| Decollide.NeverOverlap | netkv/charts/mkcharts.py:88-106 | of any two labels the lower, or of equals the one given first, stays so, by at least the gap, whatever the gap's sign |
| Decollide.Moves | netkv/charts/mkcharts.py:105-106 | all placed labels move alike: not at all if they lie inside, just to hi or just to lo if one end sticks out, and if both do the overhangs change places |
| Decollide.LeastMove | netkv/charts/mkcharts.py:105-106 | no smaller move would put them inside |
| Decollide.InsideIff | netkv/charts/mkcharts.py:105-106 | all labels land in [lo,hi] iff the spread of the placed labels fits there |
| Decollide.OutsideExample | netkv/charts/mkcharts.py:105-106 | three equal labels and a plot one gap high: some label ends up outside |
| Decollide.Untouched | netkv/charts/mkcharts.py:88-106 | labels already spaced and inside are returned unchanged |
| Framing.SearchReadsBack | sift1m/rostam_py_client.py:57-65 | a request, all four nested lengths checked, decodes to the query and k it was built from |
| Framing.RecvN | sift1m/rostam_py_client.py:68-77 | however the socket splits the stream, exactly its next n bytes, or an error iff it ends before |
| Framing.ReadIds | sift1m/rostam_py_client.py:84-93 | the body loop returns what decoding the layout gives, status errors and short bodies included |
| Framing.Search | sift1m/rostam_py_client.py:80-93 | one exchange takes exactly one response frame off the stream |
| Framing.SearchEach | sift1m/rostam_py_client.py:96-104 | m whole responses on the stream, split anyhow, give their m id lists in order and leave what follows |
| Framing.ResponsesReadBack | sift1m/rostam_py_client.py:80-93 | the same as a statement about byte strings |
| Framing.BodyDecodes | sift1m/rostam_py_client.py:84-93 | a response body decodes to the ids of its hits |
| Framing.DecodeMeans | sift1m/rostam_py_client.py:84-93 | a body decodes to ids iff its status is 0, its count is theirs and they stand 12 bytes apart from byte 9; to a status error iff its status is that one |
| Framing.TakeMeans | sift1m/rostam_py_client.py:80-85 | a stream that ends inside the next frame is a closed connection, and no other is |
| Framing.ReadersAgreeIff | netkv/pipeline.go:98-114 | for an arbitrary body: the Go loop accepts it and Python makes the same of it as of Go's payload, iff it holds the declared payload, the length does not wrap, and the status is an error, the payload holds all that Python reads, or the body does not either |
| Framing.DisagreeExample | netkv/pipeline.go:98-114 | nine bytes that Go accepts and the two read differently |
| Framing.ResponsesAgree | sift1m/rostam_py_client.py:80-93 | so both read every response a server frames as its hits |
| Fvecs.ReadFvecs | sift1m/rostam_server/main.go:100-123 | the loop is the specification, for every byte string |
| Fvecs.ReadVector | sift1m/rostam_server/main.go:115-118 | the inner loop reads one vector's words |
| Fvecs.ReadInvertsWrite | sift1m/rostam_server/main.go:100-123 | a file reads as vs iff it is vs as written, each shorter than 2^32 |
| Fvecs.FailsOnlyTruncated | sift1m/rostam_server/main.go:105-113 | it is refused iff a truncated header or vector follows whole vectors, at the offset the error names |
| Fvecs.ReadSplits | sift1m/rostam_server/main.go:100-123 | every byte string is some vectors as written and a tail at which reading stops |
| Fvecs.ReadersAgreeIff | sift1m/rostam_py_client.py:38-41 | on a file the Go reader accepts, the reshape reader returns the same iff there are vectors and all have one dimension below 2^31 |
| Fvecs.ReshapeMeans | sift1m/rostam_py_client.py:38-41 | on any file: the reshape reader returns rows iff the file's words are those rows, of one width below 2^31, each behind a dropped word, the first naming the width |
| Fvecs.LowFirst | sift1m/rostam_server/main.go:108-117 | the low byte comes first |

## Left out

- Redis, Memcached and Aerospike drivers, gRPC stubs and generated code: thin wrappers over libraries.
- The engine's cache, index, replication, and its `ops`, `wire` and `server` packages: not in the repository; they appear as the hypotheses above.
- `route` and topology refresh of the pipelined engine: dialling, timers and lazy replacement.
- Timing, warm-up windows, throughput and percentile reporting, and chart drawing other than label spacing.
- HTTP sessions, retries while creating collections, configuration classes, and the point body of `runBulk` (its vectors are drawn at random).
- Floating-point rounding: labels are exact reals, and vector components are opaque words.
- Fair scheduling in PipelineProgram and BulkProgram: a thread waits a given number of turns and then reports what it is waiting for; that waits end is shown of the state machines (NoDeadlock, RunsEnd).
- Buffer sizes and aliasing: the 64 KiB buffers of a connection and the reuse of one request buffer per bulk worker.
- Builtin ops: an op in flight may be any handler, but the builtins' own code is not in the repository; an op without a mutex may get several keys, and only each get by itself is placed in the serial order.
- RvWire.WiresAgree: compares with the dict that _json_body builds, not with its text, because the decimal text of a float is not modelled; the decimal ids and payloads of the binary body are.
- A negative chunk of runBulk, whose loop variable would wrap around 64 bits.
- Framing.Search: the distances in a response are skipped, as the client skips them.
