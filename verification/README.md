# LogFoundry, modelled and verified in Dafny

LogFoundry moves log events from an SDK buffer through an API and Kafka into a partitioned
PostgreSQL table, with a dead-letter topic on the side and a rate limiter and a cached query
endpoint in front. This project models its protocols and its windowed and cached structures,
and proves what they promise over all runs.

`dafny verify dfyconfig.toml` checks everything.

## How it is modelled

- Every protocol is a machine: a `State`, an `Event` per atomic effect carrying the outcome the
  environment chose, `Enabled` and `Apply`, and `Run`/`Exec` for sequences of events. Theorems
  quantify over every run. Crashes, ambiguous failures (an effect that raises after it has been
  applied), signals, clock ticks and other threads are events like any other.
- The code that updates state step by step is also written as classes and loops
  (`LogWriterLoop`, `BaseConsumer.Consumer`, `Metrics.MetricsConsumer`, `RateLimiter.RateLimiter`,
  `SdkBuffer.LogFoundryHandler`, `Tail.Tail`, `Partitions.Database`, `Query.BuildQuery`,
  `QueryCache.BuildCacheKey`, `Replay.ReplayDlq`). A method is given how the calls it makes turn
  out (each works, or raises before or after taking effect) and its contract gives the state it
  leaves for every such outcome; that state is reached by a run of the machine.
- Library code is a parameter: JSON, UUID and ISO-8601 parsing, which rows PostgreSQL accepts,
  text search, and `LogEvent` validation. Bytes are split only by whether they decode as UTF-8.
- History variables (`abandoned`, `accepted`, `admitted`, `tables`, ...) record what happened and
  are never read by a step's outcome.
- Instants are integers. In the partition modules they are numbered in order with the month as
  the high part, so that only order and month boundaries matter.

| file | what it models |
|---|---|
| Events, Kafka | messages, rows, parsing, dead-letter envelopes; positions and committed offsets |
| LogWriter, LogWriterSafety, LogWriterOnce, LogWriterLoop | the delivery protocol, its safety, effectively-once storage, the code itself |
| BaseConsumer, Metrics | retries, the shared loop, shutdown; the counters |
| RateLimiter | the sliding window under skewed clocks |
| SdkBuffer | the SDK's buffer, threads and shutdown |
| Tail | the command line's polling loop |
| Partitions, Query, QueryCache | storage and maintenance, query compilation, the cache |
| Replay, Pipeline | dead-letter replay; compositions |

## Where the code does not do what is said of it

- At-least-once delivery (consumers/log_writer.py:4-7) fails when acquiring or releasing the
  fallback's connection raises: the handler goes on polling without seeking back, and the next
  commit covers the messages passed over. `EarlyExitAbandons` is such a run; `CommitSafeExactly`
  says exactly when a commit is safe, and `AtLeastOnce` holds for every run up to that set.
- "Poison pills and unprocessable JSON structures are safely quarantined" (README.md:46) fails for
  messages whose key or value is not UTF-8: the envelope cannot be built, the exception is logged,
  and the offset is committed. `QuarantineExactly` says that these are the only ones,
  `UnroutableIsLost` is such a run.
- The sliding window is not quite a window when callers' clocks lag Redis's: `RateBound` holds for
  windows shorter by the lag, and `RateBoundExactly` shows that one millisecond more can hold twice
  the limit.
- "Offsets are committed before the consumer stops" (consumers/base_consumer.py:150-152) holds
  if and only if the one commit left does not fail, or there is nothing to commit
  (`ShutdownDrains`); `ShutdownMayNotCommit` is a run that stops with a processed message
  uncommitted.
- A service:level pair with a colon in either name is left out of `/metrics`, although the
  counters of the service and of the level are shown (`PairShownExactly`).
- Cached results may be older than the 30 seconds of the entry, by the time a miss takes:
  `StalenessExactly` gives the exact bound, `HitsOutliveTtl` a hit that answers the request on no
  table of the last 30 seconds.
- Partition maintenance that returns normally may leave expired partitions, because a DROP that
  raises is logged and passed over (scripts/manage_partitions.py:89-98). `RetentionExactly` says
  when, `RetentionFails` gives such runs.
- Replay ends with an unhandled exception of its own if and only if a record without a value, one
  that is not UTF-8, or JSON other than an object comes before the limit is reached
  (`RaisesExactly`); `UndecodableRaises` is such a topic.
  The consumers never write one (`RoundTrip`).

## Model

| member | source | states |
|---|---|---|
| Kafka.AdvancePolls | consumers/log_writer.py:157-159 | A poll moves the in-memory position over exactly the messages it hands out, per partition |
| Events.ParseExactly | consumers/log_writer.py:173-186 | Which documents describe a row, exactly, and which entry becomes which of its seven fields |
| Events.EventRoundTrip | api/models.py:78-80 | What the API publishes for an event parses back to that event's row, all seven fields; it fails only on a bad id or timestamp |
| Events.EnvelopeTells | consumers/base_consumer.py:230-238 | An envelope carries the message's topic, partition, offset, key and value |
| LogWriterSafety.ParseBatchOk | consumers/log_writer.py:168-196 | The parse loop splits a batch into rows with their messages, in offset order, and the unparseable rest; nothing is lost or invented |
| LogWriterSafety.StepKeepsInv | consumers/log_writer.py:155-253 | Every effect, failed or ambiguous or a crash, keeps: each polled message is dealt with, pending, or skipped; each committed one is dealt with |
| LogWriterSafety.AtLeastOnce | consumers/log_writer.py:246-253 | Over every run and any partitions, a committed message is stored, dead-lettered, lost in a refused send, or abandoned by an early exit; the last never if no commit follows a skip |
| LogWriterSafety.CommitSafeExactly | consumers/log_writer.py:246-253 | A commit leaves every covered message accounted for if and only if all skipped and abandoned messages already are |
| LogWriterSafety.EarlyExitAbandons | consumers/log_writer.py:217-253 | For any two storable messages, the run in which the first ends up committed yet neither stored, dead-lettered nor lost |
| LogWriterSafety.QuarantineExactly | consumers/base_consumer.py:229-262 | With a working producer, a committed message without a row is dead-lettered if and only if key and value are UTF-8, and lost otherwise |
| LogWriterSafety.UnroutableIsLost | consumers/base_consumer.py:229-262 | For any such message without a row, a run with a working producer that commits it, neither stored nor dead-lettered |
| LogWriterOnce.EffectivelyOnce | consumers/log_writer.py:38-42 | After a caught-up commit the table equals the insert-if-absent fold of one failure-free pass, despite ambiguous failures, fallbacks and redelivery |
| LogWriterOnce.StepKeepsTableOk | consumers/log_writer.py:198-228 | Every stored row comes from the log, and on one partition it is the first acceptable one with its key |
| LogWriterOnce.FallbackEquivalence | consumers/log_writer.py:168-232 | A partition's turn stores exactly the acceptable rows and sends every other message once, also when the failed batch had been applied |
| LogWriterOnce.OwedAreTheUnacceptable | consumers/log_writer.py:171-232 | The messages sent are those of the batch without an acceptable row, none twice |
| LogWriterLoop.LogWriterConsumer.ParseAll | consumers/log_writer.py:168-196 | The loop computes the specified split of the batch |
| LogWriterLoop.LogWriterConsumer.InsertRows | consumers/log_writer.py:199-228 | Transaction, then fallback: table, missed messages and exception for every outcome of the calls; if those of the fallback work, exactly the acceptable rows are stored |
| LogWriterLoop.LogWriterConsumer.InsertEach | consumers/log_writer.py:220-228 | The row-by-row loop stores each acceptable row whose call takes effect and misses the messages of those that raise; without faults, exactly the acceptable rows are stored |
| LogWriterLoop.LogWriterConsumer.InsertSingly | consumers/log_writer.py:218-228 | The fallback raises exactly when its connection cannot be taken or returned, and stores the rows in between |
| LogWriterLoop.LogWriterConsumer.RouteAll | consumers/log_writer.py:230-232 | One send per failed message, in order; delivered unless refused or undecodable |
| LogWriterLoop.LogWriterConsumer.CommitOffsets | consumers/log_writer.py:246-249 | The commit covers every position, or raises with or without having done so |
| LogWriterLoop.LogWriterConsumer.ProcessPartition | consumers/log_writer.py:161-244 | One iteration over the polled partitions leaves the specified state for every outcome |
| LogWriterLoop.LogWriterConsumer.PollOnce | consumers/log_writer.py:155-253 | One turn of the loop is a run of the machine; if the fallback's calls work, every acceptable row is stored, one send made for each other message, and the poll committed |
| LogWriterLoop.QuietPoll | consumers/log_writer.py:161-244 | After such a turn each polled message has its key in the table if acceptable, and else has been sent |
| LogWriterLoop.QuietTurn | consumers/log_writer.py:199-228 | However the transaction turned out, a fallback whose calls work leaves the acceptable rows and misses the others |
| LogWriterLoop.PollIsRun | consumers/log_writer.py:155-253 | For every outcome of every call, the state after a turn of the loop is reached by a run of the machine |
| BaseConsumer.RunWithRetry | consumers/base_consumer.py:187-219 | First success at s: s+1 calls, 2^s-1 seconds, no send; none in n: n calls, 2^(n-1)-1 seconds, one send |
| BaseConsumer.EveryCommittedMessageAccounted | consumers/base_consumer.py:157-185 | Over every run, a committed message was processed, dead-lettered, or its send was refused |
| BaseConsumer.ShutdownDrains | consumers/base_consumer.py:146-155 | A signal during a poll lets every message of it be dealt with before exit, with no further poll; the offsets are committed if and only if the last commit does not fail or there was nothing to commit |
| BaseConsumer.ShutdownMayNotCommit | consumers/base_consumer.py:157-185 | A run that exits after the signal with a processed message uncommitted |
| BaseConsumer.Consumer.HandleMessage | consumers/base_consumer.py:187-262 | A message is processed if one of its three attempts succeeds, and else sent once |
| BaseConsumer.Consumer.PollOnce | consumers/base_consumer.py:164-185 | One turn of the loop is a run of the machine: each message processed or sent, once and in order, signals notwithstanding, then one commit |
| BaseConsumer.QueueInOrder | consumers/base_consumer.py:169-171 | The nested loops take each partition's messages in offset order |
| Metrics.MetricsConsumer.Process | consumers/metrics_consumer.py:64-88 | A successful call applies all four increments, a failed one the given part of them, none without labels |
| Metrics.CountsMessage | consumers/metrics_consumer.py:78-88 | One message adds one to the total, its service, its level and their pair, with the defaults for missing fields, and to nothing else |
| Metrics.CounterMarginals | consumers/metrics_consumer.py:78-88 | With atomic pipelines, after any run all families have one total, and the counter of a service, or of a level, is the sum of its pair counters |
| Metrics.CountersNeverUndercount | consumers/metrics_consumer.py:78-88 | Under partial pipelines, retries and redelivery every counter is at least the committed, processed messages it describes |
| Metrics.RedeliveryCountsTwice | consumers/base_consumer.py:169-177 | A crash before the commit counts one message twice |
| Metrics.PairKeyInjective | consumers/metrics_consumer.py:87-87 | Pairs with colon-free levels share a counter only if equal |
| Metrics.PairShownExactly | api/routers/query.py:265-275 | A pair's counter is shown, with its own labels, if and only if both are colon-free |
| RateLimiter.RateLimiter.Check | api/middleware/rate_limiter.py:59-110 | The check performs the atomic script: expiry, prune, count, add, expire |
| RateLimiter.RateLimiter.GetRemaining | api/middleware/rate_limiter.py:112-130 | The quota read prunes and returns what is left of the limit, never negative |
| RateLimiter.RateBound | api/middleware/rate_limiter.py:59-68 | With clocks at most d behind, no interval of length window-d ever holds more admissions than the limit, over any history |
| RateLimiter.RateBoundExactly | api/middleware/rate_limiter.py:92-101 | That bound is exact: for a positive limit, it holds of intervals of a length if and only if the length is at most window-d (or 0) |
| RateLimiter.CheckExact | api/middleware/rate_limiter.py:59-76 | On one monotone clock a check admits if and only if fewer than limit of all past admissions lie in the last window |
| RateLimiter.RemainingExact | api/middleware/rate_limiter.py:112-130 | On one monotone clock the quota read returns the limit minus the admissions of the full history in the last window, never cut at zero |
| RateLimiter.CheckUnderLag | api/middleware/rate_limiter.py:59-110 | Under any lag an admitted check found fewer than limit admissions in the last window on Redis's clock, a refused one at least limit since the caller's window start |
| RateLimiter.RemainingUnderLag | api/middleware/rate_limiter.py:112-130 | Under any lag the quota read lies between the limit less these two counts |
| RateLimiter.IdleKeyExpires | api/middleware/rate_limiter.py:66-66 | A key without requests for a window is gone |
| RateLimiter.ReadsChangeNoVerdict | api/middleware/rate_limiter.py:72-76 | Leaving all quota reads out of a run leaves the same admissions |
| SdkBuffer.StepKeepsInv | sdk/logger.py:141-183 | Mutual exclusion, conservation, the bound, wake-up, shutdown and the flusher's life are kept by every step of every thread |
| SdkBuffer.BufferConserves | sdk/logger.py:141-183 | In every interleaving accepted entries are the batches in swap order followed by the buffer, which stays within its maximum |
| SdkBuffer.NoLostWakeUp | sdk/logger.py:158-164 | With the lock free and a full batch buffered, the event is set or the flusher is between its wait and its swap |
| SdkBuffer.FlusherFlushes | sdk/logger.py:231-236 | After any history, open and with the lock free, at most five steps of the flusher put the whole buffer into a batch |
| SdkBuffer.FlusherEnds | sdk/logger.py:231-236 | After any history, closed and with the lock free, at most six steps of the flusher end it |
| SdkBuffer.SyncSendsAtOnce | sdk/logger.py:158-161 | In synchronous mode the buffer is empty whenever the lock is free |
| SdkBuffer.SealedForever | sdk/logger.py:251-260 | After a closing flush's critical section nothing is accepted, the buffer stays empty and every accepted entry is in a batch |
| SdkBuffer.ShutdownLosesNothing | sdk/logger.py:244-260 | The same after any history in which a closing flush has swapped |
| SdkBuffer.LogFoundryHandler.EmitEntry | sdk/logger.py:141-167 | An undisturbed emit accepts exactly when open and not full, sends or signals as the mode says, and is a run of the machine |
| SdkBuffer.LogFoundryHandler.FlushBuffer | sdk/logger.py:169-183 | An undisturbed flush is a run of the machine, empties the buffer and sends what was in it |
| SdkBuffer.LogFoundryHandler.CloseAndFlush | sdk/logger.py:257-260 | Closing marks, flushes and seals |
| SdkBuffer.LogFoundryHandler.FlushLoopOnce | sdk/logger.py:231-236 | From one test to the next: exits exactly when closed, and else clears the event and sends the whole buffer |
| Tail.Tail | sdk/cli.py:178-217 | No id is printed twice although ids are evicted, every returned id is printed, in the order of timestamps over all polls, every poll asks from the newest printed, and the dictionary stays bounded |
| Tail.FreshNotPrinted | sdk/cli.py:191-198 | An id not in the dictionary was never printed |
| Tail.EvictionKeepsRecent | sdk/cli.py:213-215 | Cutting the dictionary to 5000 ids keeps all ids printed at the cursor's timestamp |
| Tail.FilterNew | sdk/cli.py:191-197 | The filter loop collects each unseen id once, in reply order |
| Tail.PrintAll | sdk/cli.py:199-208 | Entries are printed in reverse reply order, position by position, and the cursor ends at the newest |
| Partitions.AddMonthsMoves | scripts/manage_partitions.py:21-25 | The result is the month n further on and exists exactly within years 1 to 9999 |
| Partitions.AddMonthsAdditive | scripts/manage_partitions.py:21-25 | Adding months is additive and undone by the opposite number |
| Partitions.NameRoundTrip | scripts/manage_partitions.py:47-94 | The name written when creating reads back as the same month when dropping |
| Partitions.NameReads | scripts/manage_partitions.py:47-47 | The name is logs_, four digits of the year and two of the month |
| Partitions.ExpiredIs | scripts/manage_partitions.py:82-97 | A month's table expires exactly when the month is before the cutoff; the default table never does |
| Partitions.InsertRefinesTable | db/schema.sql:17-49 | Checking the key in the routed partition is checking it in the whole table |
| Partitions.PruningIsSound | api/routers/query.py:94-104 | After any history of inserts, creations and drops, scanning default and overlapping partitions finds what scanning all finds |
| Partitions.Database.ManagePartitions | scripts/manage_partitions.py:28-105 | The two loops compute the specified result, in any listing order, whichever statements raise before or after taking effect |
| Partitions.ManageResult | scripts/manage_partitions.py:40-100 | A run that returns has a table per month from now on and adds only those; it keeps every unexpired old table with its rows, an expired one if and only if its DROP raised, and leaves default alone |
| Partitions.RetentionExactly | scripts/manage_partitions.py:89-98 | A run that returns leaves no expired table if and only if no DROP of one raised |
| Partitions.RaisingDropKeepsExpired | scripts/manage_partitions.py:89-98 | Wherever a run returns, it does so too when an expired table's DROP raises, and keeps the table; a later run without fault drops it |
| Partitions.RetentionFails | scripts/manage_partitions.py:89-98 | Stores and runs on which that happens |
| Partitions.ManageFailure | scripts/manage_partitions.py:28-67 | A run that raises, for whatever reason, has dropped nothing and changed no existing table |
| Partitions.ManageReturns | scripts/manage_partitions.py:28-100 | If the database refuses nothing but DROPs, a run returns if and only if the arguments are not negative, the cutoff is in the calendar, and each month exists already or fits beside the ranges and default rows |
| Partitions.ManageCovers | scripts/manage_partitions.py:42-62 | Every instant of the created months lies in exactly one range partition |
| Partitions.ManageAgain | scripts/manage_partitions.py:40-100 | A second run in the same month at most drops expired tables whose DROP had raised; it changes nothing if and only if it raises or drops none of those |
| Partitions.ManageIdempotent | scripts/manage_partitions.py:40-100 | After a run without raising DROPs, a second one in the same month changes nothing |
| Query.BuildQuery | api/routers/query.py:58-117 | Placeholders are exactly 1..len(params), and executing the statement on any table answers the filters: matching rows, newest first, up to the limit |
| Query.AnswersExist | api/routers/query.py:106-115 | Every query has an answer |
| Query.QueryMayPrune | api/routers/query.py:94-104 | A query has the same answers on the default and overlapping partitions as on the whole table |
| QueryCache.BuildCacheKey | api/routers/query.py:48-54 | The loops drop absent parameters and rewrite dates |
| QueryCache.KeysDistinguish | api/routers/query.py:41-55 | Two requests have one key if and only if they are equal |
| QueryCache.CacheAgreement | api/routers/query.py:158-192 | Every response answers the parameters of its own request on a table current less than 30 seconds plus the fetch-to-store delay before |
| QueryCache.AnsweredOnce | api/routers/query.py:158-192 | No request is answered twice |
| QueryCache.MissIsCached | api/routers/query.py:192-192 | A miss leaves its result in the cache for the TTL |
| QueryCache.EntryServes | api/routers/query.py:158-172 | Until it expires, an entry answers every request with its parameters, however the table changes |
| QueryCache.HitsOutliveTtl | api/routers/query.py:158-192 | For any request and row it selects, a hit that answers on no table of the last TTL + delay - 1 seconds |
| QueryCache.StalenessExactly | api/routers/query.py:158-192 | All responses answer a table younger than an age if and only if it is at least TTL + delay; so within the TTL if and only if misses take no time |
| Replay.ReplayDlq | scripts/replay_dlq.py:43-84 | Consumes nothing after the limit, publishes exactly the valid originals of the prefix consumed, says why it stopped, and stops early only where a call of the client says so |
| Replay.OutcomeDetermined | scripts/replay_dlq.py:43-84 | Undisturbed by the client and the timeout, what is published, consumed and raised is determined |
| Replay.RaisesExactly | scripts/replay_dlq.py:54-82 | An undisturbed run ends with its own unhandled exception if and only if a record without value, not text, or not an object comes before the limit is reached |
| Replay.UndecodableRaises | scripts/replay_dlq.py:54-82 | A single undecodable record makes every undisturbed run raise |
| Replay.GarbagePassedOver | scripts/replay_dlq.py:82-84 | An envelope behind any number of records that are not JSON is replayed |
| Replay.RoundTrip | consumers/base_consumer.py:229-244 | Replaying dead-lettered messages publishes the valid originals in order, byte for byte, undisturbed all of them up to the limit, and raises nothing of its own |
| Pipeline.RunAgrees | consumers/log_writer.py:198-228 | The partitioned store that a run writes holds the rows of the flat table outside dropped ranges, whatever failed and whatever was created or dropped meanwhile |
| Pipeline.IngestToQuery | consumers/log_writer.py:38-42 | A pruned query on the store a caught-up run has written answers as if every acceptable published row had been stored once, outside dropped ranges |
| Pipeline.EventIsFound | api/routers/query.py:72-117 | A published, acceptable event is among the rows that a query for its service and level selects, with all its fields, and is returned unless the limit cuts the answer |
| Pipeline.DeadLettersReplay | scripts/replay_dlq.py:43-84 | Replaying the dead letters of any run of the writer publishes their valid originals and raises nothing of its own |
| Pipeline.QuarantinedIsReplayed | scripts/replay_dlq.py:43-84 | Every dead-lettered message that is a valid log event is among these originals |

## Left out

- HTTP, FastAPI and Pydantic wiring, health checks, tracing, configuration, logging and log texts: plumbing.
- Kafka, Redis and PostgreSQL internals: only the effects named above; consumer-group rebalancing is not part of this model.
- The alert consumer (regular expressions of a library over one message at a time, one counter), the ingest routes and the API's producer queue (one check before one append): none has a state or a loop whose runs could go wrong in more than one step.
- Redis counting the fallbacks (consumers/log_writer.py:212-216): a best-effort counter that nothing depends on.
- SDK warnings about a full buffer, the order in which batches reach the server, and its response: sending happens outside the lock.
- SdkBuffer.LogFoundryHandler.EmitEntry: the method describes one thread alone; interference is in the machine, whose steps are the shared accesses.
- Several rate-limited clients: each has its own key, and the model is of one key.
- RateLimiter.RateBound: member suffixes are taken to be fresh, so that no two admissions share a sorted-set member.
- LogWriterOnce.EffectivelyOnce: takes a single-row insert that raises without effect to have been of an unacceptable row, and an early exit to be followed by a restart; a transient failure of one row dead-letters the message instead, which AtLeastOnce covers.
- Tail.Tail: takes at most K entries to share a timestamp, with limit + K at most 5000, and the server's replies to be sorted and to start at the cursor.
- QueryCache.KeysDistinguish: SHA-256 and the JSON text are identified with the dictionary they are computed from.
- Metrics.CounterMarginals: hashes that are only incremented by one are multisets of the names incremented.
- Query.BuildQuery: conditions are syntax trees with numbered placeholders rather than SQL text.
- Partition names with Unicode digits or a trailing line break, which the regular expression also lets through.
- Replay's committed offsets, and runs after a crash: its consumer also commits automatically, so nothing is promised there.
- Pipeline.IngestToQuery: PostgreSQL accepts a row independently of the partition it goes to, and partitions are created and dropped between statements, not inside a transaction.
