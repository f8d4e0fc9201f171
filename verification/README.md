# shortn: a verified model

Six stateful parts of the `shortn` URL shortener, modelled in Dafny and proved over whole runs:

| files | part of the system |
|---|---|
| `RateLimit.dfy`, `BucketRuns.dfy` | the token bucket that all API instances share in Redis, the 429 answer, and runs of the bucket |
| `Snowflake.dfy`, `Lease.dfy`, `Fleet.dfy` | the id generator, the worker-id lease, and both together across a fleet of pods |
| `Clicks.dfy`, `MixedPolls.dfy`, `ClickStats.dfy` | the click consumer from the log to Postgres, what a mixed poll can do to it, per-link order and statistics |
| `Cache.dfy` | the read-through cache over a store that changes |
| `Idempotency.dfy` | creates that carry an Idempotency-Key |
| `CreateLink.dfy` | one create through the service loop, the cache, the breaker and the table |
| `Basics.dfy` | what the parts share: optional values and the fate of one network command |

Each part has two layers. Code that updates state in place is a class whose methods follow the
source statement by statement; their contracts equate the new state with a specification function.
The same functions are the atomic steps of a transition system in which everything that runs
concurrently interleaves freely: a Redis script, a Postgres transaction, a poll or a callback is one
step. The theorems are about every run of that system. `ValidRun` says that a sequence of steps is
possible, `Reached` is the state it ends in.

Clocks, generator readings, network faults and the choices of other processes are inputs or steps.
A command, commit or insert that takes effect although its answer is lost is among them, and so are scripts that
arrive after the pod that sent them has stopped. A key with a
TTL is taken to be gone once the TTL has elapsed.

Check everything with `dafny verify dfyconfig.toml`.

## What the proofs found

- **A released or lost worker id can repeat ids.** Whatever happens to the leases, all ids are distinct if and
  only if no two pods that held one slot mint in the same millisecond (`DistinctExactly`). `FleetUnique` names
  two facts about the leases that imply this; the code enforces neither, and `LostLeaseClashes` and
  `QuickReuseClashes` give a run without each in which two ids are equal. Of the clocks it is assumed that a
  sleep leaves its millisecond: `StuckClockRepeats` shows why, and for one generator `StrictlyIncreasing` is an
  equivalence.
- **Two missed renewals are not tolerated**, although the comment at `internal/idgen/lease.go:23-25` and
  ADR 0014 say so: three ticks are exactly one TTL. `MissBoundary` gives the exact boundary, for the slot in Redis.
- **A deleted code does not always stop resolving at once**, as the comment at
  `internal/cache/store.go:84-87` has it: a load that read the row before the delete can put it back
  (`StaleLoadPutsBack`). `DeleteIsFinal` and `DeleteClearsCache` are the exact conditions, for any answer and for
  answers out of the cache.
- **A stored offset can move backwards** when a stale consumer commits a record again (`OffsetMovesBack`), so
  exactly-once is proved with a high-water mark and not with the stored offset. `OffsetRegresses` says exactly
  which steps do it and that nothing is lost by it.
- **Retries with one key can be answered with different links** after a Redis fault, although
  `internal/idempotency/idempotency.go:1-3` promises the same link back. `RetryRepeats` gives the guard of the
  handler that decides it, `ConvergesExactly` the condition for any interleaving. A first GET that fails does no harm.
- **A retried create can leave two links** when the first attempt stored its row and its answer was lost.
  `SequentialRetries` accounts for every link and says exactly when there is one.
- **A poll that mixes errors and records can have clicks passed over**: the error path drops the whole poll while
  the client has moved on. `MixedPollBoundary` says exactly when that can happen.

## Model

| member | source | states |
|---|---|---|
| `TokenBucket.Redis.Allow` | internal/ratelimit/ratelimit.go:16-50 | The script's decision, its new hash and its new expiry are those of `Script` on that key, an admission advises no wait, and no other client's bucket changes |
| `TokenBucket.RetryAfterSeconds` | internal/http/ratelimit.go:65-72 | The least whole number of seconds, at least one, that covers the advised wait |
| `TokenBucket.Serve` | internal/http/ratelimit.go:19-39 | 429 with Retry-After exactly when the script rejects and its answer arrives; any Redis error lets the request pass, and the bucket changes exactly if the script ran |
| `BucketRuns.RefillComposes` | internal/ratelimit/ratelimit.go:33-34 | Refilling in two legs, capped each time, is refilling once: the law the run theorems rest on |
| `BucketRuns.ExpiryUnobservable` | internal/ratelimit/ratelimit.go:25-47 | For every request sequence, reclaiming idle keys makes the same decisions and gives the same advice as keeping every key for ever |
| `BucketRuns.TokensStayInRange` | internal/ratelimit/ratelimit.go:28-45 | After every run the stored tokens are between 0 and burst |
| `BucketRuns.KeptUntilFull` | internal/ratelimit/ratelimit.go:45-47 | A key is kept for one second past the least whole number of milliseconds in which burst tokens flow in |
| `BucketRuns.AdmitsExactly` | internal/ratelimit/ratelimit.go:16-50 | The whole limiter without a bucket: in any run, expiry included, a request is admitted if and only if, with it, no window that ends at it holds more than burst + rps*d admissions |
| `BucketRuns.WindowBound` | internal/ratelimit/ratelimit.go:16-50 | In any run, expiry included, any window of length d admits at most burst + rps*d requests |
| `BucketRuns.RejectedInvisible` | internal/ratelimit/ratelimit.go:33-45 | Deleting any of the rejected requests from a run leaves every other decision and advice as it was |
| `BucketRuns.Maximal` | internal/ratelimit/ratelimit.go:33-45 | No choice of requests that keeps every window within burst + rps*d is ahead of the limiter at any prefix |
| `BucketRuns.OwnChoiceConforms` | internal/ratelimit/ratelimit.go:33-45 | The limiter's own admissions are such a choice, so they are the most there can be |
| `BucketRuns.RetryAdvice` | internal/ratelimit/ratelimit.go:36-49 | After any rejection in any run, everything up to retry_ms - 1 ms later is rejected, and a request that waits retry_ms or the Retry-After seconds is admitted if nothing was admitted in between |
| `BucketRuns.ClientsIndependent` | internal/ratelimit/ratelimit.go:25-45 | In any interleaving of clients, each client's decisions are those of its own requests alone |
| `Bits.OrDisjoint` | internal/idgen/snowflake.go:90-93 | Merging values in disjoint bits with or is adding them, for any shift |
| `Snowflake.NewSnowflakeGenerator` | internal/idgen/snowflake.go:42-50 | Refuses exactly the worker ids above 1023; a new generator stands at sequence 0 of millisecond 0 |
| `Snowflake.SnowflakeGenerator.Generate` | internal/idgen/snowflake.go:58-100 | New fields and answer are those of `Next`, in the regressed, same-millisecond, exhausted, new-millisecond and encode-failure cases |
| `Snowflake.PackIsSum` | internal/idgen/snowflake.go:90-93 | For every timestamp, negative and oversized ones included, the shifts and ors give (ms mod 2^42)*2^22 + worker*2^12 + sequence |
| `Snowflake.Unpacks` | internal/idgen/snowflake.go:90-93 | The id splits back into the low 42 bits of the timestamp, the worker and the sequence |
| `Snowflake.TimestampFits` | internal/idgen/snowflake.go:17-25 | The timestamp survives packing if and only if it is in [0, 2^42) |
| `Snowflake.PackOrder` | internal/idgen/snowflake.go:90-93 | Ids of one worker compare as (millisecond, sequence) pairs |
| `Snowflake.PackInjective` | internal/idgen/snowflake.go:90-93 | Equal ids have equal millisecond, worker and sequence |
| `Snowflake.IdsCarryReadings` | internal/idgen/snowflake.go:58-93 | Over any calls, told from the clock and the earlier ids alone: a call is refused exactly when its reading is behind the last id's, and otherwise its id carries that reading (the one after the sleep exactly if the millisecond's 4096 ids are spent), the worker and the next sequence number, 0 in a new millisecond |
| `Snowflake.NextIncreases` | internal/idgen/snowflake.go:66-88 | A minted id exceeds the one before it if and only if the call did not sleep or the sleep left the millisecond |
| `Snowflake.StrictlyIncreasing` | internal/idgen/snowflake.go:58-93 | Over any calls, refused and exhausting ones included, a generator's ids strictly increase if and only if every reading after a sleep is later than `lastMs` |
| `Snowflake.StuckClockRepeats` | internal/idgen/snowflake.go:72-83 | 4097 calls in any one millisecond whose sleep ends inside it: the last id equals the first |
| `WorkerLease.Redis.AcquireWorkerID` | internal/idgen/lease.go:64-86 | The scan takes the lowest slot not held at its turn and changes nothing else; it errs when Redis errs before that, leaving a claim exactly if that command was applied to a free slot, or when no command errs and all 1024 slots are held |
| `WorkerLease.Redis.Heartbeat` | internal/idgen/lease.go:90-111 | The renewal loop's whole effect on the slots, up to the stop signal |
| `WorkerLease.Redis.Release` | internal/idgen/lease.go:115-121 | Frees the slot exactly if the script is applied and the slot is still owned; only an answered script reports success |
| `WorkerLease.NonOwnerHarmless` | internal/idgen/lease.go:32-46 | A renew or release by anyone but the recorded owner changes nothing, and no script revives a slot |
| `WorkerLease.OwnerScripts` | internal/idgen/lease.go:32-46 | An owner's renewal holds its slot for exactly 30 s; its release removes that slot and no other, and anyone can claim it at once |
| `WorkerLease.ClaimExactly` | internal/idgen/lease.go:64-86 | A SETNX succeeds exactly on a slot that no one holds, and holds it for exactly 30 s |
| `WorkerLease.StopEnds` | internal/idgen/lease.go:93-97 | Once stopped, a heartbeat touches Redis no more, whatever ticks are pending |
| `WorkerLease.BeatsOnlyExtend` | internal/idgen/lease.go:90-111 | However long it beats, a heartbeat creates no slot, changes no owner and touches no slot its pod does not own |
| `HeartbeatTiming.SlotFollowsTiming` | internal/idgen/lease.go:90-111 | The slot that the heartbeat loop maintains in Redis is still owned when the last attempt is over if and only if the tick arithmetic has the lease alive, and then expires exactly when it says |
| `HeartbeatTiming.OneMissTolerated` | internal/idgen/lease.go:23-29 | With 10 s ticks and 1 s attempts, no two consecutive failures mean that the slot never lapses, over any number of ticks |
| `HeartbeatTiming.MissBoundary` | internal/idgen/lease.go:23-29 | Between two renewals the slot in Redis survives up to one miss always, two if and only if the later renewal is strictly quicker than the earlier one, three never |
| `Fleet.FreshPodOwnsSlot` | internal/idgen/lease.go:64-121 | In every reachable state a running pod within a TTL of its last known renewal is the live recorded owner of its slot |
| `Fleet.FreshPodRenews` | internal/idgen/lease.go:90-111 | In every reachable state a pod within its TTL can renew, which makes it fresh for exactly 30 s from sending and touches no other pod or slot |
| `Fleet.Exclusive` | internal/idgen/lease.go:64-121 | Two running pods share a worker id only if one of them has gone a whole TTL without renewing |
| `Fleet.DistinctExactly` | internal/idgen/snowflake.go:58-93 | In every run, whatever happens to the leases, all ids minted anywhere are distinct if and only if no two pods that held one slot mint in the same millisecond; assumed is only that sleeps leave their millisecond and timestamps fit |
| `Fleet.FleetUnique` | internal/idgen/snowflake.go:58-93 | In every run of pods claiming, renewing, losing, releasing, crashing and reusing slots that keeps the hypotheses of `MayMint`, no two ids minted anywhere are equal |
| `Fleet.CodesUnique` | internal/idgen/snowflake.go:94-98 | Nor are two codes, for any encoder with a left inverse |
| `Fleet.LostLeaseClashes` | internal/idgen/lease.go:104-107 | A run in which a pod that lost its lease and the slot's next holder mint the same id |
| `Fleet.QuickReuseClashes` | internal/idgen/lease.go:113-121 | A run in which a slot is released and reclaimed within a millisecond and mints the same id twice |
| `ClickStore.Postgres.Process` | cmd/analytics/main.go:267-291 | Click and next offset land together or not at all, at each point of failure; a row that is there stays as it is; a lost commit answer lands and reports failure |
| `ClickStore.Postgres.OnAssigned` | cmd/analytics/main.go:133-154 | The seek map holds exactly the assigned partitions with a stored offset whose load did not fail, at that offset |
| `ClickStore.Postgres.Consume` | cmd/analytics/main.go:221-239 | The record loop commits records in order and stops at the first failure; the tables are those of the records passed, plus the failed one exactly if its commit landed |
| `ClickConsumer.ConsumeIsRun` | cmd/analytics/main.go:221-239 | The whole loop, the iteration that fails included, is a run of the protocol and leads to the tables that `Consume` promises |
| `ClickConsumer.AssignmentIsRun` | cmd/analytics/main.go:133-154 | An assignment callback is a run of the protocol after which each assigned partition is fetched from its entry in the seek map that `OnAssigned` promises, or from the start, and nothing else has changed |
| `ClickConsumer.RestartCatchesUp` | cmd/analytics/main.go:209-252 | From any state that keeps the invariant, a consumer that starts up and meets no fault brings a partition without malformed records fully up to date, going by the stored offset alone |
| `ClickConsumer.ReplayKeeps` | internal/store/analytics.go:13-36 | Committing a record below the mark changes no row and keeps the invariant, wherever it moves the stored offset |
| `ClickConsumer.OffsetRegresses` | internal/store/analytics.go:25-36 | Of all steps exactly a commit of a record whose next offset is below the stored one moves it back, and every record it moves back over has its row |
| `ClickConsumer.OffsetMovesBack` | internal/store/analytics.go:25-36 | A run from the start in which two consumers hold the same records and the stored offset ends up back at 1 with both clicks stored |
| `ClickConsumer.ExactlyOnce` | cmd/analytics/main.go:209-252 | After any run of any number of consumers, with crashes, lost commit answers, rebalances, stale holders and failed offset loads, click_events is exactly the records below a mark per partition, one row each, and no stored offset or pending record is past its mark |
| `ClickConsumer.NeverPassed` | cmd/analytics/main.go:222-237 | If no transaction on a record ever commits, over any restarts and consumers neither the mark nor the stored offset nor a pending batch of its partition gets past it |
| `ClickConsumer.PoisonPill` | cmd/analytics/main.go:270-276 | A malformed record stops its partition for good |
| `MixedPolls.MixedPollBoundary` | cmd/analytics/main.go:214-219 | After a dropped mixed poll some continuation moves the stored offset past a click without a row if and only if the poll carried a click that is not stored and the record after the poll is not malformed |
| `MixedPolls.MixedPollLosesClick` | cmd/analytics/main.go:214-219 | A run with one such poll in which the stored offset passes a click without a row while the next click is recorded |
| `ClickStats.StatsComplete` | internal/store/analytics.go:55-61 | The buckets start on whole hours in strictly ascending order, none is empty, each counts the code's clicks in [hour, hour + 1 h), every click of the code is in one, and together they count each once |
| `ClickStats.GetStats` | internal/store/analytics.go:55-78 | Without a fault the total is the number of rows of the code and the sum of the returned series, which has the hours of `StatsComplete`; it fails exactly on a query, scan or cursor fault |
| `ClickOrder.RecordedIsPrefix` | internal/events/events.go:53-64 | After every run of the pipeline the recorded clicks of a code are a prefix of its published order, one row each, and as many as the statistics count |
| `CacheStore.RoundTrip` | internal/cache/store.go:124-131 | What is cached for a link or its absence reads back as that, since the tombstone is no http(s) URL |
| `CacheStore.CachingStore.LoadAndCache` | internal/cache/store.go:133-153 | Answers what the store holds; after an applied SET the entry says just that, live for exactly the configured TTL for a link and 30 s for an absence; a store failure caches nothing |
| `CacheStore.CachingStore.GetByCode` | internal/cache/store.go:98-122 | A live entry answers alone; a miss or a Redis failure answers from the store and caches it for the TTL of its kind |
| `CacheStore.CachingStore.Invalidate` | internal/cache/store.go:155-165 | Drops that entry alone if the command is applied, and reports success only if it is answered |
| `CacheStore.CachingStore.Delete` | internal/cache/store.go:84-96 | The row goes first; a missing code or an error of the store, whether or not the row went, leaves the cache untouched; a failed invalidation does not fail the delete |
| `CacheProtocol.BoundedStaleness` | internal/cache/store.go:98-153 | Under every interleaving of creates, deletes, loads, Redis failures and expiries on any number of instances, each answer was the store's own at an instant no older than one load, plus, out of the cache, the configured TTL for a link and 30 s for an absence |
| `CacheProtocol.ServedForItsTtl` | internal/cache/store.go:133-153 | In every continuation a cached answer is served until exactly its TTL has passed, unless its entry is dropped or written again |
| `CacheProtocol.AnswersAreCreated` | internal/cache/store.go:17-19 | If codes are never reissued, every positive answer is the URL the code was created with |
| `CacheProtocol.DeleteIsFinal` | internal/cache/store.go:84-96 | Once a deleted code's entry is dropped, the code never resolves again in any continuation if and only if no load that read it before the delete is still in flight |
| `CacheProtocol.DeleteClearsCache` | internal/cache/store.go:84-96 | Once a deleted code's entry is dropped, the code never comes out of the cache again in any continuation if and only if no load that read it before the delete has yet to write to the cache |
| `CacheProtocol.StaleLoadPutsBack` | internal/cache/store.go:133-153 | A run from the start in which a load writes a deleted link back after its entry was dropped, and the next request is answered with it from the cache |
| `LinkService.Normalize` | internal/shortener/shortener.go:148-192 | Succeeds exactly on a parsed http(s) URL with a host that is not blocked; the result starts with http:// or https:// and is the URL with scheme and host in lower case |
| `LinkService.NormalizedStays` | internal/shortener/shortener.go:148-192 | Normalizing a normalized URL gives it back, if the parser reads back what was rendered |
| `LinkService.Store.PostgresCreate` | internal/store/postgres.go:38-57 | Inserts exactly if the code is new, whatever becomes of the answer |
| `LinkService.Store.ResilientCreate` | internal/resilience/resilience.go:67-85 | A write is refused without a call, and only that is reported as unavailable, or made exactly once |
| `LinkService.Store.CachingCreate` | internal/cache/store.go:63-68 | The cache adds nothing to a create |
| `LinkService.Store.Create` | internal/shortener/shortener.go:88-123 | The loop's answer, table and every row its inserts changed, colliding attempts included, are those of `Attempts`, with other requests changing the table between attempts |
| `LinkService.AtMostOneRow` | internal/shortener/shortener.go:99-123 | One call changes at most one row, counted over all its attempts, under any interference and any lost answer: a collision changed nothing, so continuing is safe. A success means exactly that row, and a row without a success means an insert whose answer was lost |
| `LinkService.InsertedIsStored` | internal/shortener/shortener.go:108-112 | On return the table maps the inserted code, one the generator drew and free at its turn, to the normalized URL, under any interference |
| `LinkService.AloneAddsExactly` | internal/shortener/shortener.go:99-123 | With no one else writing, the table afterwards is the old one plus that row, under a code that was free |
| `LinkService.RunsOutOnlyOnCollisions` | internal/shortener/shortener.go:99-123 | Under any interference the call gives up if and only if each of its five codes was taken in the table at its turn |
| `LinkService.FirstFreeDecides` | internal/shortener/shortener.go:99-123 | Under any interference, attempts that find their code taken leave no trace, and the first that does not decides answer and table, in each of its outcomes |
| `IdempotentCreate.KeyStays` | internal/idempotency/idempotency.go:39-44 | The first code recorded for a key is never replaced |
| `IdempotentCreate.Converges` | internal/http/links.go:104-146 | If the SETNX and the GET after it are answered, all 201s for a key carry one code, in any interleaving of requests; first GETs may fail |
| `IdempotentCreate.RecordedAgree` | internal/http/links.go:104-146 | Through any Redis faults, the 201s that went through the key map still agree |
| `IdempotentCreate.ConvergesExactly` | internal/http/links.go:104-146 | From any reachable state on, all 201s of a key agree as long as Redis answers after a create, if and only if each 201 already sent names the recorded code; otherwise one more request without any fault gets another code |
| `IdempotentCreate.FailOpenDiverges` | internal/http/links.go:134-137 | A run in which a SETNX fails open and the retry is answered with another link |
| `IdempotentCreate.LateCreatesNothing` | internal/http/links.go:104-113 | Once a key is recorded, a request that arrives later with it inserts a row only if its first GET failed, under any faults |
| `IdempotentCreate.SequentialRetries` | internal/http/links.go:104-146 | Over sequential retries a key's links are exactly the one it is recorded with (or about to be) and those stranded by requests that stored a row and never recorded it; after a 201 the key has just the link that 201 names if and only if nothing was stranded |
| `IdempotentCreate.StrandedDuplicates` | internal/http/links.go:115-130 | A run in which a create's answer is lost and the retry leaves the key with two links |
| `IdempotentCreate.Api.CreateLink` | internal/http/links.go:104-146 | The handler's key map, links and answer in each combination of faults, lost answers included; every recorded code stays a link; without a key the answer is the call's own link and no key is touched |
| `IdempotentCreate.KeylessStandsAlone` | internal/http/links.go:104-146 | After any calls, a create without a key leaves the key map as it was, adds exactly its own link, and is answered with that code and the URL it carried |
| `IdempotentCreate.AnswersOwnLink` | internal/http/links.go:104-146 | After any calls under any faults, a 201 names the link this call stored with the URL it carried, or one that an earlier call with the same key stored with the URL that one carried |
| `IdempotentCreate.RedisNeverRefuses` | internal/http/links.go:107-139 | Once a link is reported stored, no Redis fault makes the answer an error, and a handler that fails open answers with that link |
| `IdempotentCreate.RetryRepeats` | internal/http/links.go:104-146 | After any 201 for a key and any calls since, a retry that reaches Redis and the store gets the very same 201, code and URL, and changes nothing, if and only if the first answer did not fail open |
| `IdempotentCreate.HandlerIsRun` | internal/http/links.go:104-146 | The handler run by itself, with any answer lost, is a run of the protocol with the same key map, links and answer |

## Left out

- DistinctExactly: assumes of each generator's clock that a sleep leaves its millisecond; without that a generator may or may not repeat its own ids, as `StuckClockRepeats` shows.
- ExactlyOnce: assumes that no poll mixes errors and records, that the log loses nothing to retention, and that event ids are unique (they are UUIDs); one consumer group and one topic.
- BoundedStaleness: takes the longest duration of a load as a parameter; the request timeout is what bounds it in the service.
- Converges: keys do not expire within a run; their TTL is a day. Links are not deleted within a run either; a replay may fail to resolve its code at any time.
- Exclusive: an owner name is not claimed again while a script sent under it may still arrive; pod names are unique.
- Normalize: parsing, trimming and the blocked address ranges are the Go library's and enter as parameters.
- `resilience.retryRead`, `GetByCode`, `GetStats` and `List` through the breaker: reads that are retried change nothing, so they would only add easy members.
- gobreaker's counting and backoff's intervals: a write through the breaker is refused or made once, as an input.
- sqids: any encoder, with a left inverse where distinct codes are claimed.
- Floating-point rounding in the Lua script: tokens and times are reals.
- Kafka group membership, replication and compaction: assignments, revocations and polls are arbitrary steps.
- The publisher's delivery: a click that never reaches the log is not in the model.
- Redis losing keys on a restart: keys vanish by TTL or deletion alone.
- Liveness: nothing is said about progress, such as every record being processed in the end.
- Client address extraction, routing, JSON, the admin key, listing, tracing, metrics, configuration and the web dashboard.
- Random base-62 codes: their only claim of interest is probabilistic.
