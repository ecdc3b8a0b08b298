# Log pipeline and customer cache: a verified model

The repository is a small CRM server with two protocols worth a proof. One ships container logs: a
node agent tails append-only files, batches complete messages, sends each batch until the server
acknowledges it and then saves a checkpoint per file; the server queues entries and a pool of workers
writes them in batches. The other is a cache-aside customer service: a table in Postgres, copies in
Redis with a time to live.

The project models both in Dafny and proves what their comments and tests promise, over every input,
every run or every reachable state. Where the code promises more than it does, the model follows the
code, exhibits a run that breaks the promise and proves exactly when it holds.

## How it is built

| files | what they hold |
|---|---|
| `wrappers.dfy`, `entities.dfy` | shared values: options and results, entries, positions, settings |
| `cri.dfy`, `decoder.dfy`, `chunks.dfy` | the line format; `Scan`, the meaning of a log file; chunked messages |
| `positions.dfy`, `tailer.dfy`, `shipper.dfy`, `backoff.dfy` | the agent's objects as classes, each method proved against a specification function |
| `polling.dfy` | what many passes of the tailer send of one file, and where a cancellation cuts a pass |
| `pipeline.dfy`, `fifo.dfy`, `at_least_once.dfy` | the whole agent as interleaved steps, its invariant, and at-least-once delivery |
| `abandonment.dfy`, `exactly_once.dfy`, `shutdown.dfy` | lost batches, duplicates, backpressure and the order of shutdown |
| `steps.dfy`, `shipper_refinement.dfy`, `refinement.dfy` | commit, flush, final, the shipper's Run, readFile and a round of the tailer's Run are runs of those steps, each among the steps of the other goroutine |
| `progress.dfy` | from every state a live agent can be in, everything still gets through |
| `ingestion.dfy`, `ingester.dfy`, `log_handler.dfy` | the server's ingester as interleaved steps and as a class; the receive loop |
| `accounting.dfy` | agent and server composed |
| `email.dfy`, `customers.dfy`, `customer_service.dfy`, `staleness.dfy` | the customer service, sequentially and under concurrency |

Conventions. A string is a sequence of bytes. A file's content belongs to a pair of path and inode
and only grows; a path can name a new inode at any time. What the environment decides (when a read fails,
what the server answers, when a context is cancelled, which ready case a `select` takes, when the process
dies) is an action or a parameter, never an assumption. A message is *delivered* when a receipt for
its batch has come back; an entry has *arrived* when a copy of it reached the server, receipt or not. A failed
BulkInsert stores nothing, and a repository call that fails changes nothing.

## Findings

- **An abandoned batch can be lost.** The comment at `internal/logagent/shipper.go:79-81` says a batch that
  `flush` gives up on is not lost, because its positions were never saved. `Run` clears that batch
  (`internal/logagent/shipper.go:62-63`, `67-68`), goes on collecting, and `final` can save later positions of the
  same file. `AbandonedBatchIsLost` builds such a run for every configuration, file and pair of lines; `AtLeastOnceExactly` shows the
  promise holds in a run exactly when no position is saved past an abandoned, undelivered entry of
  its file; `OnlyFinalSkips` shows only the shutdown send can do that; `RepairedAtLeastOnce` shows that keeping the
  batch repairs it for all runs.
- **One buffer of partial chunks per file, not per stream** (`internal/logagent/tailer.go:164-169`). Chunks of one
  message are joined correctly exactly when no full line of the other stream arrives in between
  (`OneBufferPerFile`, which also says what an exclusion pattern then does); `StderrTakesStdoutsText` is the
  input that fails: a chunk on stdout, then a full line on stderr.
- **Invalidating after the write leaves a window too.** The comment at `internal/service/customer.go:90-92` explains
  why Update does not invalidate first: a reader could then fill the cache with the old row before the write. Writing
  first leaves another such window, for a reader that read before the write and fills after the
  invalidation: `UpdateThenStaleHit` is a run, `CoherentExactly` names the schedules for which the cache agrees with
  the table, `HitsAreRecent` bounds how old a hit can be.

## Model

| member | source | states |
|---|---|---|
| Cri.GlueSplit | internal/logagent/cri.go:28 | splitting a line at its first three spaces loses nothing, and no piece but the last holds a space |
| Cri.ParseExactlyPrinted | internal/logagent/cri.go:26-51 | a raw line parses to l if and only if it is l printed, or l printed without the trailing space of an empty message |
| Cri.TagsAndStreams | internal/logagent/cri.go:26-51 | F is a full line, P a partial one, stdout and stderr are the streams; of a line that is refused the first wrong part is reported |
| Decoder.ScanBounds | internal/logagent/tailer.go:157-185 | messages end inside what was consumed, at strictly increasing offsets |
| Decoder.ScanGrow | internal/logagent/tailer.go:142-191 | scanning what is left plus newly written bytes, from where the last scan stopped, is scanning everything |
| Decoder.ScanConsumed | internal/logagent/tailer.go:149-152 | a line without its newline changes nothing |
| Decoder.DecodeWithin | internal/logagent/tailer.go:157-185 | the messages of a content that end within n are exactly those of its first n bytes |
| Decoder.MessageEndsAtBoundary | internal/logagent/tailer.go:122-131 | at every emitted offset nothing is pending, the prefix decodes to the messages so far, and resuming there yields the uninterrupted continuation |
| Decoder.ResumeIsFreshScan | internal/logagent/tailer.go:122-131 | scanning from an offset is a fresh scan of the remaining bytes, relocated |
| Chunks.ScanPieces | internal/logagent/tailer.go:148-173 | printed lines, with malformed lines between them, scan to the joining of their texts |
| Chunks.ChunkingRoundTrip | internal/logagent/tailer.go:148-173 | messages cut anywhere into P lines ending in an F line, printed contiguously with malformed lines anywhere, decode to exactly those messages in order minus the excluded ones |
| Chunks.OneBufferPerFile | internal/logagent/tailer.go:164-173 | before exclusion the decoder recovers what each stream wrote if and only if no F line arrives while the other stream has text pending; an exclusion pattern then filters that |
| Chunks.StderrTakesStdoutsText | internal/logagent/tailer.go:164-169 | for any non-empty stdout chunk and stderr line the decoder reports the chunk's text as the beginning of the stderr message |
| PositionStore.Positions.Load | internal/logagent/positions.go:34-47 | a missing file is an empty start, an unreadable one a read error and a corrupt one a parse error |
| Shipping.RestartReadsLastSave | internal/logagent/positions.go:34-55 | after any shipments, a restart loads the positions that were in memory at the last save that reached the disk |
| PositionStore.Positions.Set | internal/logagent/positions.go:58-62 | only that file's position changes, in memory only |
| PositionStore.Positions.Retain | internal/logagent/positions.go:66-74 | the positions of the files to keep remain as they were, and no other is left |
| PositionStore.Positions.Save | internal/logagent/positions.go:79-95 | the disk holds all the positions in memory, or what it held before |
| Tailing.Tailer.ReadFile | internal/logagent/tailer.go:109-192 | the new point of the file, the entries sent and how the pass ended are those of the specification, for any read failure and any number of sends before cancellation; each entry carries its message's text and time, the level of the text, the container of the file name, and file, inode and offset |
| Tailing.Tailer.ReadOn | internal/logagent/tailer.go:146-191 | the line loop, from the recorded point of the file, with the same entries |
| Tailing.Tailer.Poll | internal/logagent/tailer.go:71-106 | one pass over the listed files: only files of other containers in the agent's namespace are shipped; those of them not listed are forgotten with their positions, unless a send, an open or a read fails under a finished ctx, which ends the pass |
| Tailing.OpenFailureEndsPass | internal/logagent/tailer.go:84-87 | a file that cannot be opened under a finished ctx ends the pass |
| Tailing.ReadFailureEndsPass | internal/logagent/tailer.go:84-87 | so does a new file whose read fails, and no later one is looked at |
| Tailing.Tailer.Run | internal/logagent/tailer.go:49-62 | passes, one after another, until one is cancelled or the pause after it sees ctx done |
| Tailing.PassIsScan | internal/logagent/tailer.go:147-191 | a pass is the scan of the lines it consumed; a cancelled pass has read one message more than it sent |
| Tailing.RotatedOrTruncatedIsReadWhole | internal/logagent/tailer.go:133-138 | a rotated or truncated file is read from the top |
| Tailing.ResumedPassContinues | internal/logagent/tailer.go:122-131 | a pass resumed at a saved boundary of the same inode emits exactly the messages after it |
| Tailing.PollOnlyWanted | internal/logagent/tailer.go:78-106 | every entry is of a file whose name tells a container other than the agent's own, in its namespace if it has one; states of all other files are untouched |
| Polling.ListedFileIsSent | internal/logagent/tailer.go:78-106 | of every listed, readable such file a live pass sends all messages not read before, each with its own text, time, level, container and offset |
| Polling.FirstReadShips | internal/logagent/tailer.go:164-185 | for printed chunked messages, read for the first time, the times and texts on the wire are exactly those kept, with the level of the text and the container of the file |
| Polling.FirstPassShips | internal/logagent/tailer.go:71-192 | the same through a whole pass among other files |
| Polling.CancelCutsPass | internal/logagent/tailer.go:186-190 | a pass whose ctx ends after k sends has sent exactly the first k of what it would have sent, and was cancelled if and only if there were more |
| Polling.PassesRefineDecode | internal/logagent/tailer.go:109-192 | for any growth between and during passes, any number of passes, any read errors and any boundary resumed from, the point and the concatenated messages are Decode's on the bytes consumed |
| Polling.RunSendsTheFile | internal/logagent/tailer.go:49-192 | what a live Run sends of one file, among any other files and failing opens, is without gap or repetition what Decode emits on the bytes read, from where it resumed, each entry with its message's text, time, level and container |
| Polling.RoundTripUnderPolling | internal/logagent/tailer.go:148-173 | the chunking round trip under any poll schedule |
| Shipping.Shipper.Commit | internal/logagent/shipper.go:147-160 | every entry's position is set in order, then saved if the disk allows it, whatever count was accepted |
| Shipping.LastEntryWins | internal/logagent/shipper.go:152-155 | the last entry of each file decides its position |
| Shipping.OthersKept | internal/logagent/shipper.go:152-155 | files without an entry in the batch keep their position |
| Shipping.Shipper.Flush | internal/logagent/shipper.go:82-99 | retries until the first receipt or a cancellation during a wait, commits in the first case only, and waits the doubling sequence |
| Shipping.Shipper.Final | internal/logagent/shipper.go:103-115 | one attempt on a non-empty batch, committed only on a receipt |
| Shipping.Shipper.Run | internal/logagent/shipper.go:46-77 | over any select events, the shipments are those of the specification and the positions, in memory and on disk, those of the committed ones |
| Shipping.RunKeepsOrder | internal/logagent/shipper.go:52-76 | what arrived is the batches handed on, one after another, and then the batch held: nothing lost, repeated or reordered |
| Shipping.NothingStaysBehind | internal/logagent/shipper.go:55-69 | a tick of a live loop and the close of the channel hand on all that has arrived |
| Shipping.RunBatches | internal/logagent/shipper.go:60-69 | no batch is empty, flush never gets more than a full batch, less than one is held while ctx is live; without ticks only full batches are flushed |
| Shipping.LiveExactly | internal/logagent/shipper.go:61-68 | every flush before the last one committed its batch, and so did the last one of a loop that counts ctx as live |
| Shipping.NoFlushAfterCancel | internal/logagent/shipper.go:43-45 | once ctx is cancelled, also if a flush noticed it and gave up, flush is not called again and at most the shutdown send follows |
| Backoff.LoopWaits | internal/logagent/shipper.go:83-97 | the k-th wait of a doubling loop is min(100 * 2^k, 5000) ms |
| Backoff.TotalWait | internal/ingest/ingester.go:172-202 | n waits sum to 100 * (2^n - 1) ms up to six, and to 6300 + 5000 * (n - 6) ms from six on |
| FifoInvariant.NextLine | internal/logagent/tailer.go:157-185 | reading a line moves from one consistent point to the next, and what it emits is what the file says at that offset |
| AtLeastOnce.StepKeepsInv | internal/logagent/shipper.go:46-160 | every step of the agent, the server or the environment keeps the delivery invariant, unless it saves a position past an abandoned entry |
| AtLeastOnce.PositionCovered | internal/logagent/shipper.go:152-155 | all messages up to the next position to be saved are delivered if and only if no abandoned entry is skipped |
| AtLeastOnce.AtLeastOnceExactly | internal/logagent/shipper.go:46-160 | in every run, no position in memory or on disk ever gets ahead of delivery if and only if no position is saved past an abandoned, undelivered entry of its file |
| AtLeastOnce.RepairedAtLeastOnce | internal/logagent/shipper.go:60-69 | at-least-once in all runs when Run keeps an uncommitted batch, and in all runs of the original that abandon none |
| Abandonment.OnlyFinalSkips | internal/logagent/shipper.go:43-45 | in every reachable state, only the shutdown send of a cancelled, unrepaired agent can save past an abandoned entry |
| Abandonment.FifoPrefixClosure | internal/logagent/shipper.go:152 | while no position was saved past an abandoned entry, for every entry between tailer and receipt each earlier message of its file is delivered, was given up in this process, or is ahead of it |
| Abandonment.AbandonedBatchIsLost | internal/logagent/shipper.go:79-115 | for every configuration, wanted file and two lines that each emit a message, a reachable run ends with a saved position beyond an undelivered message |
| Abandonment.LostReceiptDuplicates | internal/logagent/shipper.go:27-29 | for every configuration, wanted file and line that emits a message, a lost receipt makes a reachable run deliver the same entry twice |
| ExactlyOnce.DuplicatesWereInFlight | internal/logagent/shipper.go:20-29 | while saves succeed, ctx is live and files stay, whatever arrived twice was in a batch of at most batchSize entries in flight at a crash or at a send that failed half-way |
| ExactlyOnce.ExactlyOnceWhenUndisturbed | internal/logagent/shipper.go:20-29 | if no batch in flight is interrupted, every checkpointed message has arrived exactly once |
| Shutdown.MemoryIsBounded | internal/logagent/tailer.go:68-70 | in every run the channel holds at most a batch, and a live agent at most two in all, however long the server is down |
| Shutdown.ShutdownIsOrderly | internal/logagent/agent.go:12-32 | the channel closes only after the tailer stopped, and the shutdown send starts only on a closed, empty channel |
| Refinement.PassIsReadLines | internal/logagent/tailer.go:146-191 | one pass of the class method over a backlog of any size is a run of single-line steps, the shipper taking entries when the channel is full; a cancelled one ends by dropping a line, and the tailer has then stopped |
| Refinement.RoundIsSteps | internal/logagent/tailer.go:49-99 | a round of the tailer's Run, however much it reads, is a run of steps: files opened, read and closed, the pass ended, the tailer stopped if ctx ended the round; what it sends goes through the channel in order |
| Refinement.RoundAfterCatchUp | internal/logagent/tailer.go:49-99 | the same from any state of a live agent between two passes, the shipper first saving all it has |
| ShipperRefinement.CommitIsSteps | internal/logagent/shipper.go:147-160 | the bookkeeping of the class method is what the single steps after a receipt reach |
| ShipperRefinement.FlushIsSteps | internal/logagent/shipper.go:82-99 | flush is a run of failed sends, then a receipt with its bookkeeping or a cancellation with an abandoned batch |
| ShipperRefinement.ShipperRunIsSteps | internal/logagent/shipper.go:46-77 | whatever tailer and environment do between its selects, the shipper's Run is a run of the agent's steps with the same batches, positions, disk, acknowledged and abandoned entries, through the shutdown send |
| ShipperRefinement.LedgerIsBooks | internal/logagent/shipper.go:46-77 | if no pass ends in between, memory and disk are those of the class method |
| ShipperRefinement.ShutdownIsPlayable | internal/logagent/shipper.go:43-59 | while Run collects and the tailer pauses, such a run leads on to the shutdown send of all that is held and queued |
| Progress.EverythingGetsThrough | internal/logagent/tailer.go:64-70 | from every reachable state of a live agent in which no position skipped an abandoned entry, some further reads, sends, receipts and saves deliver every complete message of every file it follows; if saves succeeded and files stayed, the saved positions cover them |
| Ingestion.StepInv | internal/ingest/ingester.go:110-204 | every step of submitters, workers, cancellation and close keeps conservation, the memory bounds, the loss bound and the order |
| Ingestion.RunInv | internal/ingest/ingester.go:110-204 | in every reachable state, accepted equals queue plus batches plus stored plus given up as multisets, nothing is given up before a cancellation, queue and batches keep their limits, stored batches have 1 to BatchSize entries, and one worker keeps order |
| Ingestion.OnlyFullBatches | internal/ingest/ingester.go:141-144 | in every run in which no worker sees a tick, the close or a cancellation, each batch stored or being inserted has exactly BatchSize entries |
| Ingestion.Drained | internal/ingest/ingester.go:132-144 | without cancellation, when all workers returned, queue and batches are empty and exactly what was accepted is stored, in order with one worker |
| Ingestion.CancellationLoss | internal/ingest/ingester.go:149-151 | after a cancellation at most BufferSize + Workers * BatchSize entries, plus those accepted later, are not stored |
| Ingestion.CountedAtCancel | internal/ingest/ingester.go:149-151 | in every run the loss is measured against what had been accepted when ctx was first cancelled |
| Ingestion.StepReducesWork | internal/ingest/ingester.go:126-204 | every worker step reduces an explicit measure, except an idle tick and, under a live ctx, a failed insert |
| Ingestion.NeverStuck | internal/ingest/ingester.go:126-204 | after close or cancellation a worker that has not returned can take a reducing step, after a cancellation without the database |
| Ingestion.CancelledStepsBounded | internal/ingest/ingester.go:187-197 | from any reachable cancelled state, whether inserts fail or not, the workers take a bounded number of steps, plus a bounded number per entry still submitted |
| Ingestion.CancelledWorkersExit | internal/ingest/ingester.go:156-204 | after a cancellation, with no insert ever succeeding, the workers stop only when all have returned |
| Ingesting.FlushKeepsInv | internal/ingest/ingester.go:156-204 | a whole flush keeps the invariant, however its attempts go |
| Ingesting.FlushIsAtomic | internal/ingest/ingester.go:156-204 | a flush stores its batch whole, gives it up whole on a cancellation, or still holds it whole |
| Ingesting.Ingester.constructor | internal/ingest/ingester.go:68-102 | a started ingester has the given limits where they are positive, the defaults elsewhere, and satisfies the invariant |
| Ingesting.Ingester.Submit | internal/ingest/ingester.go:110-119 | never blocks: accepted exactly when there is room and select does not pick a finished ctx, otherwise nothing changes |
| Ingesting.Ingester.Flush | internal/ingest/ingester.go:167-204 | the flush of the specification, waiting the doubling sequence |
| Ingesting.Ingester.RunWorker | internal/ingest/ingester.go:126-154 | over any select events one worker takes the steps of the specification, keeps the invariant and, while nothing is given up, neither loses, repeats nor reorders an entry |
| Ingesting.TurnMeans | internal/ingest/ingester.go:132-152 | with a working database an entry joins the batch, which is inserted once it is full and not before; a tick inserts what there is; the closed queue and the end of ctx insert it and end the worker |
| Ingesting.CollectsUntilFull | internal/ingest/ingester.go:141-144 | as long as the batch is not full the entries received are held in order and nothing is stored |
| Ingesting.Ingester.Stop | internal/ingest/ingester.go:206-222 | under every schedule and a cancellation at any point all workers return, with finitely many failures per flush while ctx is live and with the database down for good once it is not; then everything accepted is stored, or the loss is bounded |
| LogHandling.ReceiptIsHonest | internal/adapter/grpc/log_handler.go:64-71 | the entries a receipt counts are those of its stream that entered the queue, in the order sent, among what other streams submitted |
| LogHandling.RoomIsUsed | internal/adapter/grpc/log_handler.go:64-71 | with a live context, whatever workers and other streams do, either every message enters or what entered has filled the room |
| LogHandling.LiveTakesFirst | internal/adapter/grpc/log_handler.go:64-71 | with a live context and nothing else going on the requests that enter are the first ones, as many as there is room |
| LogHandling.LogHandler.IngestLogs | internal/adapter/grpc/log_handler.go:30-73 | with workers and other streams going on between messages, the receipt counts exactly this stream's entries that entered the queue; dropped ones do not end the stream; a broken stream gives no receipt |
| Accounting.EveryCheckpointedMessageIsAccounted | internal/logagent/shipper.go:118-160 | with agent, handler and ingester composed, every message at or before a position is in the server's queue, a worker's batch, the table, a receipt's dropped entries or, once the server was cancelled, among what its workers gave up |
| Accounting.StreamKeeps | internal/adapter/grpc/log_handler.go:35-72 | a finished stream delivers its batch, which is exactly what its receipt counts as taken and what was dropped; a broken one delivers nothing and leaves no receipt, its copies stay with the server and its batch is sent again unless this was the shutdown send |
| Email.NewEmailIsIdempotent | internal/domain/email.go:18-33 | an accepted email is its own normal form |
| Email.AcceptedShape | internal/domain/email.go:24-30 | accepted exactly when the text without the blanks around it has something before its first at sign and after it, and no space or tab |
| Email.AcceptedIsTheText | internal/domain/email.go:18-19 | an accepted email is its raw text but for letter case and surrounding blanks, with no upper-case letter and no blank around it |
| Email.CaseAndBlanksIgnored | internal/domain/email.go:12-19 | letter case and surrounding blanks change neither acceptance nor the email |
| Email.SameEmailExactly | internal/domain/email.go:14-17 | two texts give the same email if and only if they differ in letter case and surrounding blanks at most |
| Customers.DoKeepsCoherent | internal/service/customer.go:31-129 | every operation keeps each cached copy equal to its row, except exactly a write that changes a cached row and whose invalidation fails |
| Customers.CacheIsTransparent | internal/service/customer.go:31-129 | over every history whose invalidations work, with any evictions and failing cache reads and fills, the cached service leaves the same table and gives the same replies as the one without a cache |
| Customers.NoTwoRowsSameEmail | internal/service/customer.go:35-46 | in every reachable table the raw emails of two rows differ in more than letter case and surrounding blanks, and each row's email is its raw one but for those, in lower case |
| Customers.InsertIsFresh | internal/adapter/postgres/customer_repository.go:45-67 | a row under an id that was not there, every other row as it was, emails pairwise distinct; refused as a duplicate exactly when some row has the email |
| Customers.IdsAreNeverReused | db/migrations/0001_create_customers.sql:6 | over every history a later customer has a greater id, deletes or not |
| Customers.ReadsSeeLastWrite | internal/adapter/postgres/customer_repository.go:70-85 | over every history whose invalidations work, cached or not, a read replies what the last successful write of its id replied, or not found |
| Customers.FillServesOutage | internal/service/customer.go:53-71 | after a read that filled the cache the next one replies the same customer though the database is down |
| Customers.UpdateIsLocal | internal/adapter/postgres/customer_repository.go:92-114 | the row reads as written with its creation time kept, every other row as it was; refused as a duplicate exactly when another row has the email |
| Customers.DeleteForgets | internal/adapter/postgres/customer_repository.go:153-166 | the row is not found afterwards, every other row as it was, and exactly its email is free again |
| CustomerServing.CustomerCache.Set | internal/adapter/redis/customer_cache.go:102-111 | stores the copy under its id, to be hit for the time to live and no longer, or nothing |
| CustomerServing.CustomerCache.Invalidate | internal/adapter/redis/customer_cache.go:121-126 | removes that copy only, or silently nothing |
| CustomerServing.CustomerService.Create | internal/service/customer.go:31-49 | exactly blank names are refused, then emails that are none, then ones that some row has; otherwise one row appears, under a new id with that name and the accepted email; the cache stays coherent |
| CustomerServing.CustomerService.GetByID | internal/service/customer.go:53-71 | cache-aside read; while the database works the reply is the row, and a miss leaves a copy to be hit for the time to live |
| CustomerServing.CustomerService.Update | internal/service/customer.go:75-95 | the same refusals, and not found; otherwise that row has the name and the accepted email, id and creation time kept; the cache is coherent afterwards exactly unless the invalidation fails on a copy the write changed |
| CustomerServing.CustomerService.Delete | internal/service/customer.go:122-129 | exactly an existing row goes, and no other; the cache is coherent afterwards exactly unless the invalidation fails on a cached copy |
| Staleness.HitsAreRecent | internal/adapter/redis/customer_cache.go:31-37 | in every interleaving, with invalidations failing at will, a hit at t returns a row the table held at some r with t - r at most the time to live plus the longest reader gap |
| Staleness.CoherentExactly | internal/service/customer.go:89-92 | in every interleaving each copy that can be hit agrees with the table, but for rows still to be invalidated, if and only if for each fill the writes of its row since the reader's repository read cancel out or one is still to be invalidated, and each failed invalidation had nothing stale to remove or is followed by another |
| Staleness.UpdateThenStaleHit | internal/service/customer.go:90-93 | for any update a run exists in which a later read hits the old row with no write in progress |

## Left out

- Timestamps, the exclusion pattern, GuessLevel and ParseFileName: parameters of the model (`Rules`, `Config`); a timestamp is any string the parameter accepts. The handler's fallback to the current time for a timestamp it cannot parse is not modelled.
- Bytes and text: one `char` per byte; email and name trimming and lowercasing cover ASCII only.
- `agent.go` Run: its goroutines are the actions of module Pipeline (Crash reloads the saved positions, StopTailing, CloseChannel, Finish), not a method; an agent that refuses to start on a corrupt positions file only appears in `PositionStore.Positions.Load`.
- Tailing.Tailer.Poll: the directory listing and what each open finds are parameters; positions are fixed during one call, the interleaving with the shipper is in module Pipeline.
- Shipping.Shipper.Run: the count for the minute report is not in its contract; it takes its select events and the answers to its sends as a finite sequence, and reports a flush that is still retrying at its end.
- Ingesting.Ingester.RunWorker: one worker alone over a finite sequence of events; interleaving with others is in module Ingestion and in `Ingesting.Ingester.Stop`.
- Ingesting.Ingester.Stop: while ctx is live, fairness is not modelled beyond finitely many failures per flush; that sync.Once makes a second call harmless is not modelled.
- LogHandling.LogHandler.IngestLogs: what workers and other streams do between two messages is a finite sequence of steps per message, without Stop.
- Refinement.RoundIsSteps: the directory and the contents stand still during the round, and entries of files that the tailer has forgotten are not under way; `Refinement.RoundAfterCatchUp` lifts the latter for a live agent.
- ShipperRefinement.ShipperRunIsSteps: the steps of the others are played between two selects; those during a flush come after it.
- Progress.EverythingGetsThrough: says that such steps exist, not that a scheduler takes them.
- Accounting.EveryCheckpointedMessageIsAccounted: leaves out server crashes; the server's copies are identified with the entries they came from.
- Lines written to a file after its last pass and before its rotation: never read, as the code documents; all claims are about the content of a path and inode pair that is read.
- Truncating a file in place: contents only grow in the run theorems, because the code notices a truncation only when the file is shorter than its offset; the branch itself is `Tailing.RotatedOrTruncatedIsReadWhole`.
- List and its limit, error codes, protobuf mapping, both config loaders and the health service: single-branch code.
- Submit after Stop: a send on a closed channel; the model submits only before the close.
- Customers.CacheIsTransparent: sequential histories with a working Invalidate; failing invalidations are in `Customers.DoKeepsCoherent`, and with concurrency in module Staleness.
- Customers.ReadsSeeLastWrite: the same.
