# Verified model of the REST starter's stateful protocols

Behind its handlers the service runs six small protocols: a rate limiter, a
background-job queue, a read-through user cache, session tokens with a
self-pruning blacklist, an idempotency-key store and an event outbox. This
project models each of them in Dafny and proves what they promise, for every
input and every run.

`dafny verify dfyconfig.toml` checks everything.

## How the model is built

- Objects that the service updates in place are classes (`InMemoryLimiter`,
  `LuaLimiter`, `MemoryQueue`, `DeadLetter`, `Registry`, `RedisQueue`,
  `MemoryUserStore`, `MemoryCache`, `CachedUserStore`, `Blacklist`,
  `AuthHandler`, `MemoryStore`, `InMemoryOutbox`, `DBOutbox`). Each method is
  one lock section or one sequential call, and its contract equates the new
  state with a specification function of the old one.
- Concurrency is a state machine over those lock sections (`JobRuns`, `JobPool`,
  `Staleness`, `SessionRuns`, `IdempotencyRuns`, `Outbox`, `DbOutbox`): an
  action list is a run, and theorems quantify over all legal runs. Workers,
  callers and dispatchers are unbounded in number. The steps apply the classes'
  own specification functions, and lemmas tie uninterrupted calls to methods.
- Clock readings, handler outcomes, publish results, random ids, crashes and
  the moment at which Redis drops a key are parameters, hence arbitrary.
- Times are integer nanoseconds, except in the limiter, where times and tokens
  are reals. `exp` is in whole seconds, as in section 4.1.4 of RFC 7519.

| file | protocol |
|---|---|
| `TokenBucket`, `SlidingWindow`, `LuaBucket` | rate limiter, in memory and in Redis |
| `JobQueue`, `JobRuns`, `JobDrain`, `JobPool`, `RedisJobs` | job queue, worker pool, dead letters |
| `UserStore`, `MemoryCache`, `ExpiringMap`, `UserCaching`, `Staleness` | user store and its cache |
| `SessionTokens`, `SessionRuns` | JWTs, blacklist, refresh rotation |
| `Idempotency`, `IdempotencyRuns` | idempotency keys |
| `Outbox`, `DbOutbox` | event outbox and dispatchers |

## Where a promise fails, and exactly when it holds

- **Rate limiter, small bursts.** The window law holds of a limiter if and only
  if `burst >= 1`; below that, only the first call ever is granted.
- **Rate limiter, Redis.** The comment at `internal/ratelimit/limiter.go:10-11`
  promises one contract for both limiters. They answer every run alike if and
  only if `60 * rate >= burst >= 1`: the Redis key is forgotten after a minute.
- **User emails.** `Update` stops scanning at the user it changes, so it misses
  a duplicate held by a later user. Emails are distinct throughout a run if and
  only if no update of it takes an email that a later user holds.
- **Revocation.** A revoked token with a jti is accepted again if and only if
  one request reads its claims before `exp` and asks the blacklist after it.
- **Refresh rotation.** A refresh token with a jti has at most one successor in
  every run in which its own refreshes do not overlap, nor straddle `exp` once
  it is revoked, whatever happens to other tokens. Letting a refresh past the check is safe if
  and only if no other refresh of the token is in flight and it was not traded
  in before. From any state in which a token is accepted, an overlap, a
  straddling request or a missing jti gives a run with two successors. With the
  Go version of `go.mod` the random source never fails, so a missing jti can
  only come from a token that was signed without that claim.
- **Redis jobs.** The Redis queue counts every failure twice. A job that always
  fails reaches the dead-letter list if and only if its retries are even.
- **Idempotency.** Calls on one key that overlap can all run the request. Letting a
  call in keeps executions a ttl apart if and only if it is answered from the
  store or no call on the same key is in flight.
- **Table outbox, reused ids.** A newly accepted event can be lost if and only
  if a dispatcher still holds an event under the same id, other than one that
  holds this very event and has yet to publish it: its late delete removes the
  new row. This counts per acceptance, so a publish before the acceptance does
  not count. Ids that are never reused are always safe.
- **Table outbox, foreign rows.** `Dequeue` decodes the payload over the row's
  columns and then deletes by the decoded id, so a payload that does not decode
  can delete the row it names, and stay itself, although the comment at
  `internal/events/outbox.go:280-282` says that the entry is skipped. A row
  written by someone else is safe if and only if it names itself or nothing, or
  its id is taken.
- **Cache under concurrency.** A slow reader can put back a value that was
  invalidated. An invalidation keeps the cache fresh until the next write if and
  only if no reader that is still to write back holds a value since replaced. In
  every run there is a bound on when a served value was written.

## Model

| member | source | states |
|---|---|---|
| TokenBucket.InMemoryLimiter.constructor | internal/ratelimit/limiter.go:67-83 | a non-positive rate becomes 1, a non-positive burst becomes the rate, so both are positive |
| TokenBucket.InMemoryLimiter.Allow | internal/ratelimit/limiter.go:87-110 | the map and the answer after a call are those of the single-bucket step; other keys are untouched |
| TokenBucket.InMemoryLimiter.RetryAfter | internal/ratelimit/limiter.go:114-132 | the wait is what the refilled, unwritten bucket is short of, in whole nanoseconds plus one millisecond |
| TokenBucket.KeysAreIndependent | internal/ratelimit/limiter.go:87-110 | in any interleaving over keys, a call is answered as in the run of its own key alone |
| TokenBucket.NoWaitIffGranted | internal/ratelimit/limiter.go:114-132 | no wait is returned iff a call would be granted now |
| SlidingWindow.GrantedIffEveryWindowHasRoom | internal/ratelimit/limiter.go:87-110 | on a forward clock a call is granted iff every window ending now keeps its grants within burst plus refill |
| SlidingWindow.GrantedIffWindowsOnAnyClock | internal/ratelimit/limiter.go:98-103 | the same law on any clock, over the running maximum of the observed times |
| SlidingWindow.SmallBurstGrantsOnce | internal/ratelimit/limiter.go:92-108 | with burst below one only the first call of a key is granted |
| SlidingWindow.WindowLawIffBurstAtLeastOne | internal/ratelimit/limiter.go:60-63 | the window law holds of a limiter iff its burst is at least one |
| SlidingWindow.NoWindowOverGrants | internal/ratelimit/limiter.go:87-110 | no window of any run on any clock holds more than max(burst, 1) plus refill grants |
| SlidingWindow.GrantsAreMaximal | internal/ratelimit/limiter.go:85-110 | on a forward clock no policy that respects the windows has granted more calls at any point of any run |
| SlidingWindow.GrantsAreMaximalOnAnyClock | internal/ratelimit/limiter.go:85-110 | the same on any clock, for policies that respect the windows over the running maximum of the observed times |
| SlidingWindow.RetryAfterSuffices | internal/ratelimit/limiter.go:33-36 | after a denial, once the returned wait has passed the next call is granted, whatever denied calls came between |
| SlidingWindow.RetryAfterIsTight | internal/ratelimit/limiter.go:112-132 | every call more than a millisecond before the end of the returned wait is still denied |
| LuaBucket.LuaLimiter.Eval | internal/ratelimit/limiter.go:166-194 | one run of the script takes from the client's live bucket, or from a fresh one if the key is gone, renews the deadline and leaves every other client's bucket alone |
| LuaBucket.KeysAreDistinct | internal/ratelimit/limiter.go:198-200 | different clients have different keys |
| LuaBucket.ClientsAreIndependent | internal/ratelimit/limiter.go:198-206 | in any interleaving over clients, a call is answered as in the run of its own client alone |
| LuaBucket.ForgettingIsInvisible | internal/ratelimit/limiter.go:173-194 | if a minute refills the bucket, the Redis bucket equals the in-memory one after every call of every run |
| LuaBucket.RedisAnswersAsMemory | internal/ratelimit/limiter.go:10-11 | if a minute refills the bucket, every call of every interleaving is answered as by the in-memory limiter |
| LuaBucket.AgreementNeedsAFullRefill | internal/ratelimit/limiter.go:177-192 | if the two limiters agree on every run, a minute refills a whole bucket |
| LuaBucket.AgreeIffMinuteRefillsBucket | internal/ratelimit/limiter.go:10-11 | the two limiters answer all runs alike iff 60 * rate >= burst >= 1 |
| JobQueue.Backoff | internal/jobs/queue.go:152-161 | the doubling loop stays within int64 and yields min(2^(n-1), 60) seconds |
| JobQueue.DelayDoubles | internal/jobs/queue.go:152-161 | the first wait is a second and each next one is doubled, up to a minute |
| JobQueue.MemoryQueue.Enqueue | internal/jobs/queue.go:75-84 | appends unless the queue is closed |
| JobQueue.MemoryQueue.DequeueLocked | internal/jobs/queue.go:86-113 | one lock section: a closed queue delivers nothing, an empty one waits, a head that is not due goes to the back, else it is delivered |
| JobQueue.MemoryQueue.Nack | internal/jobs/queue.go:119-133 | puts the job back due exactly its backoff after the failure, unless its retries are used up or the queue is closed |
| JobQueue.MemoryQueue.Close | internal/jobs/queue.go:141-150 | closes and keeps what is queued |
| JobQueue.DeadLetter.Add | internal/jobs/deadletter.go:16-24 | appends the job with its error, dated by its enqueue time |
| JobQueue.Registry.Enqueue | internal/jobs/registry.go:40-50 | queues a fresh job with no attempts and two retries |
| JobQueue.Registry.RunJob | internal/jobs/registry.go:96-150 | a success changes neither queue nor list; a failure is counted and buries the job with its error or puts it back due after its backoff |
| JobRuns.DequeueIsTheQueues | internal/jobs/queue.go:98-111 | a dequeue step of a run is one lock section of the queue |
| JobRuns.FinishIsTheRegistrys | internal/jobs/registry.go:121-149 | a finish step of a run changes the queue as RunJob does |
| JobRuns.FinishIsExact | internal/jobs/registry.go:96-150 | what the end of a job does to the whole state: acknowledged, buried, dropped or queued again with its exact due time |
| JobRuns.AcceptedIsOffered | internal/jobs/queue.go:75-84 | in every run exactly the jobs offered before close are accepted, in order |
| JobRuns.ClosedQueueIsFrozen | internal/jobs/queue.go:86-92 | after close nothing is added, delivered or put back; workers only finish what they had |
| JobRuns.NoJobIsLost | internal/jobs/registry.go:72-150 | in every run each accepted job is in exactly one of queued, running, acked, dead, dropped; none is dropped before close |
| JobRuns.ExactAttemptCount | internal/jobs/registry.go:121-149 | in every run a dead-lettered job was delivered exactly as often as allowed, MaxRetries + 1 times if accepted with no attempts, and records that; no job is delivered more often |
| JobRuns.FailingJobsAreBuried | internal/jobs/registry.go:121-149 | in every run on an open queue, a job that always fails and is no longer queued or running has every acceptance dead-lettered, after exactly the attempts allowed |
| JobRuns.SucceedingJobsRunOnce | internal/jobs/registry.go:121-126 | in every run a job that succeeds is delivered at most once, never buried or dropped, and ends acknowledged |
| JobRuns.AckedIsFinal | internal/jobs/registry.go:123-126 | what was acknowledged is never delivered again |
| JobRuns.TotalDelayInSeconds | internal/jobs/queue.go:152-161 | the first k waits add up to 2^k - 1 seconds up to six, then 60 more each |
| JobRuns.RetriesAreSpaced | internal/jobs/queue.go:98-133 | in every run no job starts before it is due and attempt k + 1 starts at least those waits after the first |
| JobDrain.Pass | internal/jobs/registry.go:72-94 | each pass of a worker uses up attempts or leaves fewer jobs not yet due, and acknowledges nothing when the handler fails |
| JobDrain.Drain | internal/jobs/registry.go:72-150 | one worker on an open queue terminates, with every job acknowledged or dead-lettered exactly once; all acknowledged if every handler succeeds, all dead-lettered if every handler fails |
| JobPool.EveryRunEnds | internal/jobs/registry.go:72-94 | with any number of workers on an open queue, every run has at most a computed number of steps, whatever schedule, clock and handlers do |
| JobPool.StuckIffAllParked | internal/jobs/queue.go:86-113 | a pool can take no step iff all its workers wait for a signal |
| JobPool.PoolDrains | internal/jobs/registry.go:72-150 | in every interleaving the pool ends, and then every job was acknowledged or dead-lettered exactly once, the dead ones after exactly the attempts allowed |
| JobPool.PoolSortsByOutcome | internal/jobs/registry.go:121-149 | any number of workers leave every job acknowledged if all handlers succeed, and every job dead-lettered if none does |
| RedisJobs.RedisQueue.Nack | internal/jobs/redis.go:157-169 | counts a second attempt, then re-adds the job or drops it silently |
| RedisJobs.MemoryAttemptCount | internal/jobs/queue.go:119-133 | on the memory queue a job that always fails runs m + 1 times and is dead-lettered |
| RedisJobs.RedisAttemptCount | internal/jobs/redis.go:157-169 | a job that always fails runs m/2 + 1 times and is dead-lettered for even m, (m+1)/2 times and vanishes for odd m |
| RedisJobs.DeadLetteredIffEvenRetries | internal/jobs/registry.go:45-45 | it is dead-lettered iff its retries are even, so the registry's two always are |
| UserStore.MemoryUserStore.GetByID | internal/store/user_store.go:46-57 | the first user with the id, or not found |
| UserStore.MemoryUserStore.GetByEmail | internal/store/user_store.go:59-70 | the first user with the email, or not found |
| UserStore.MemoryUserStore.Create | internal/store/user_store.go:72-93 | succeeds iff nobody holds the email, and appends under the next id |
| UserStore.MemoryUserStore.Update | internal/store/user_store.go:95-112 | changes name and email of the first user with the id, unless a user stored before it holds the email; each error exactly when |
| UserStore.MemoryUserStore.Delete | internal/store/user_store.go:114-126 | removes exactly the first user with the id, or reports that there is none |
| UserStore.MemoryUserStore.UpdatePassword | internal/store/user_store.go:128-139 | changes only that user's hash |
| UserStore.ExecKeepsRep | internal/store/user_store.go:72-139 | in every run ids increase along the slice and stay below the counter |
| UserStore.IdsAreNeverReused | internal/store/user_store.go:82-90 | in every run a created id is above every id of any earlier state |
| UserStore.LookupFinds | internal/store/user_store.go:46-57 | a lookup returns a stored user with the id iff there is one |
| UserStore.WritesAreSeen | internal/store/user_store.go:72-139 | a created user is found, a deleted one is not, an update shows in name and email only, a password change in the hash only |
| UserStore.OtherOpsKeepEmailsDistinct | internal/store/user_store.go:72-139 | create, delete and password change keep emails distinct |
| UserStore.UpdateKeepsEmailsDistinctIff | internal/store/user_store.go:99-109 | an update keeps emails distinct iff no later user holds the new email |
| UserStore.EmailsStayDistinctIff | internal/store/user_store.go:72-139 | emails are distinct throughout a run iff every update of it finds its email free behind the user |
| UserStore.UpdateCanDuplicateEmail | internal/store/user_store.go:99-109 | three operations that leave two users with one email |
| ExpiringMap.LazyExpiryIsInvisible | internal/idempotency/memory.go:91-142 | runs that differ only in reads and sweeps answer later reads alike, by the last put iff it has not expired |
| MemoryCache.MemoryCache.Get | internal/cache/memory.go:42-56 | a fresh copy of the live value; an expired entry is removed |
| MemoryCache.MemoryCache.Set | internal/cache/memory.go:58-68 | stores a private copy until now + ttl; a non-positive ttl stores nothing |
| MemoryCache.MemoryCache.Delete | internal/cache/memory.go:70-75 | removes the entry |
| MemoryCache.CallersNeverReachIn | internal/cache/memory.go:42-68 | whatever a caller writes, in any order, to the buffer it passed in and to all buffers it was given, every fetch returns the bytes that were set |
| UserCaching.CachedUserStore.GetByID | internal/store/cached_user_store.go:28-55 | the cache's answer without a hash, else the store's, written back; over a coherent cache the store's user in every field but the hash |
| UserCaching.CachedUserStore.Create | internal/store/cached_user_store.go:61-68 | the store's answer; on success the new id is dropped from the cache |
| UserCaching.CachedUserStore.Update | internal/store/cached_user_store.go:70-77 | the store's answer; on success the id is dropped from the cache |
| UserCaching.CachedUserStore.UpdatePassword | internal/store/cached_user_store.go:79-85 | the store's answer; on success the id is dropped from the cache |
| UserCaching.CachedUserStore.Delete | internal/store/cached_user_store.go:87-93 | the store's answer; on success the id is dropped from the cache |
| UserCaching.OthersUntouched | internal/store/cached_user_store.go:61-100 | a write changes nobody's lookup, found or not, except for the id it drops from the cache |
| UserCaching.ReadIsRemembered | internal/store/cached_user_store.go:28-55 | a user that was read is served from the cache until the ttl has passed and not longer |
| UserCaching.OtherHitsSurviveReads | internal/store/cached_user_store.go:28-55 | a read does not disturb what is cached of others, and drops its own expired entry |
| UserCaching.WritesForgetOne | internal/store/cached_user_store.go:61-100 | a successful write makes the cache forget exactly its user; a failed one changes nothing |
| UserCaching.CacheIsTransparent | internal/store/cached_user_store.go:11-13 | every request sequence gets the bare store's answers on id, name and email |
| UserCaching.FreshCacheIsTransparent | internal/store/cached_user_store.go:20-22 | in particular from an empty cache over any store |
| Staleness.ReadIsTheCaches | internal/store/cached_user_store.go:28-55 | a read that nothing interrupts does and answers what GetByID does |
| Staleness.WriteIsTheCaches | internal/store/cached_user_store.go:61-100 | a successful write that nothing interrupts is a write of its one user and that user's invalidation |
| Staleness.FetchOrigin | internal/store/cached_user_store.go:39-42 | under any interleaving a call's profile is what the store held when that call read it |
| Staleness.EntryOrigin | internal/store/cached_user_store.go:44-53 | under any interleaving a cache entry was written by a call exactly ttl before it expires |
| Staleness.BoundedStaleness | internal/store/cached_user_store.go:28-100 | a served profile was the store's when some call read it, and that call wrote it less than ttl ago |
| Staleness.StaysFreshIff | internal/store/cached_user_store.go:28-55 | every continuation without a write serves only the store's profile iff that is served now and no call holds an outdated one |
| Staleness.InvalidationWorksIff | internal/store/cached_user_store.go:95-100 | a successful invalidation keeps the cache fresh until the next write iff no call holds an outdated profile or the ttl disables the cache |
| Staleness.InvalidatedYetStale | internal/store/cached_user_store.go:95-100 | a run in which a successful invalidation is undone by a slow reader |
| SessionTokens.Issue | internal/auth/jwt.go:76-96 | the token carries the issuer's kind, the subject and the jti, and expires at now plus ttl, cut to whole seconds |
| SessionTokens.Blacklist.Revoke | internal/auth/blacklist.go:49-56 | records the jti with its expiry; an empty jti is a no-op |
| SessionTokens.Blacklist.IsRevoked | internal/auth/blacklist.go:58-73 | revoked until the recorded expiry has passed, after which the entry is dropped |
| SessionTokens.RevokedAcceptedIffStraddling | internal/server/auth_middleware.go:31-45 | a remembered or expired revocation lets the token through iff the two clock readings straddle exp |
| SessionTokens.RequireAuth | internal/server/auth_middleware.go:31-48 | accepts iff the token is signed, of the issuer's kind, unexpired and not revoked |
| SessionTokens.AuthHandler.Logout | internal/handler/auth.go:256-268 | revokes a valid access token until its own expiry |
| SessionTokens.AuthHandler.RefreshTokens | internal/handler/auth.go:304-347 | trades an accepted refresh token for a new pair if the user exists; either way it is revoked until its expiry and unacceptable from then on |
| SessionRuns.TradeInWorks | internal/handler/auth.go:304-347 | a refresh that nothing interrupts leaves the blacklist and hands out the pair as RefreshTokens does |
| SessionRuns.RevocationIsPermanent | internal/auth/blacklist.go:49-73 | in every run a revoked token with a jti is accepted iff the readings straddle exp, hence never at one instant |
| SessionRuns.AcceptedIff | internal/server/auth_middleware.go:31-45 | in every run a token handed out with a jti is accepted iff the issuer is of its kind, it has not expired, and it was not revoked or the readings straddle exp |
| SessionRuns.PairIsGood | internal/handler/auth.go:304-347 | a login or refresh hands its user, resp. the user of the token given, one access and one refresh token, accepted at once; nothing else hands out tokens |
| SessionRuns.TokensBelongToLogins | internal/handler/auth.go:304-347 | in every run every token's subject is a user that logged in |
| SessionRuns.OnlyRefreshTokensHaveSuccessors | internal/handler/auth.go:304-347 | in every run only refresh tokens get a successor |
| SessionRuns.OneSuccessor | internal/handler/auth.go:304-347 | a token with a jti has at most one successor in every run in which its own refreshes do not overlap, nor straddle exp once it is revoked |
| SessionRuns.CheckIsSafeIff | internal/handler/auth.go:304-320 | passing the check keeps one successor in every careful continuation iff no other refresh of the token is in flight and it was not traded in; if it was, the readings straddle exp |
| SessionRuns.LiveWithinGrants | internal/handler/auth.go:282-347 | in every run in which no token's refreshes overlap, nor straddle exp once it is revoked, and refresh tokens have a jti, live refresh tokens are at most logins and registrations |
| SessionRuns.OverlapGivesTwoSuccessors | internal/handler/auth.go:314-320 | from any state, two overlapping refreshes of an accepted token both succeed |
| SessionRuns.EmptyJtiGivesTwoSuccessors | internal/auth/blacklist.go:49-52 | from any state, an accepted token without a jti can be traded in twice |
| SessionRuns.StraddlingGivesTwoSuccessors | internal/handler/auth.go:304-320 | from any state, an accepted token can be traded in again by a request that straddles exp |
| Idempotency.MemoryStore.Lookup | internal/idempotency/memory.go:91-109 | not found, conflict or the stored entry; an expired entry is removed |
| Idempotency.MemoryStore.Save | internal/idempotency/memory.go:111-128 | stores the entry until now + ttl; an empty key stores nothing |
| Idempotency.MemoryStore.Gc | internal/idempotency/memory.go:130-142 | removes exactly the expired entries and returns their number |
| Idempotency.MemoryStore.Run | internal/idempotency/memory.go:148-177 | replays, reports a conflict, or runs the request and saves it unless it failed |
| IdempotencyRuns.CallIsTheStoresRun | internal/idempotency/memory.go:148-177 | a call that nothing interrupts changes the store as Run does |
| IdempotencyRuns.AnswersAsTheLogDemands | internal/idempotency/memory.go:91-177 | in every run the answer follows from the last saved execution: run, replay or conflict; the last two change nothing |
| IdempotencyRuns.ExecutionsAreTtlApart | internal/idempotency/memory.go:1-5 | in every run without overlap on this key, an execution starts at least ttl after any earlier one was saved, and so does a call still running |
| IdempotencyRuns.BeginIsSafeIffIdle | internal/idempotency/memory.go:148-177 | letting a call in keeps every further run without overlap a ttl apart iff it is answered from the store or no call on the key is in flight |
| IdempotencyRuns.OverlapRunsTwice | internal/idempotency/memory.go:151-168 | from any state in which the key may run, two overlapping calls both run the request |
| Outbox.InMemoryOutbox.Enqueue | internal/events/outbox.go:72-88 | fills in id and time and appends, unless closed |
| Outbox.Filled | internal/events/outbox.go:73-78 | kind, topic, key and payload are the caller's; id and time are too unless they are missing |
| Outbox.InMemoryOutbox.DequeueLocked | internal/events/outbox.go:90-103 | hands out the head, also after close; waits only while empty and open |
| Outbox.Dispatch | internal/events/outbox.go:139-171 | one dispatcher hands every queued event to the publisher once, in order; a refused one is not tried again |
| Outbox.DeliveredIff | internal/events/outbox.go:158-167 | exactly the events whose publish succeeded count as published, in order |
| Outbox.HandedInOrder | internal/events/outbox.go:72-103 | in every run accepted = handed to the publisher, then queued, in order |
| Outbox.AcceptedIsOffered | internal/events/outbox.go:72-88 | in every run exactly the events offered before close are accepted, filled in, in order |
| Outbox.HandingDrains | internal/events/outbox.go:90-103 | handing out often enough hands the publisher everything accepted, also after close |
| DbOutbox.DBOutbox.Enqueue | internal/events/outbox.go:237-253 | inserts a row under the event's id, which is the primary key |
| DbOutbox.DBOutbox.Dequeue | internal/events/outbox.go:255-301 | returns the decoded event and keeps the row; for a row that does not decode, deletes by the decoded id |
| DbOutbox.DBOutbox.MarkPublished | internal/events/outbox.go:303-307 | deletes the row by id |
| DbOutbox.AtLeastOnce | internal/events/outbox.go:288-307 | under any dispatchers, failures and crashes, each time an event is accepted it is afterwards published or still a row, in every run whose inserts find their id free and whose foreign rows are harmless |
| DbOutbox.UniqueIdsAreDeliveredAtLeastOnce | internal/events/outbox.go:294-296 | runs whose ids are never offered twice and whose foreign rows name themselves are such runs |
| DbOutbox.InsertIsSafeIffIdIsFree | internal/events/outbox.go:303-307 | an insert keeps every proper continuation safe iff it is refused or whoever holds an event under its id holds this one, unpublished |
| DbOutbox.IntrudeIsSafeIffHarmless | internal/events/outbox.go:279-307 | a foreign row keeps every proper continuation safe iff it names itself or nothing, or its id is taken |
| DbOutbox.UndecodableRowCanLoseAnother | internal/events/outbox.go:279-286 | a three-step run in which an undecodable row deletes an accepted event's row and stays |

## Left out

- Floating point: the limiter is proved over reals, so float64 rounding is not modelled.
- `RedisLimiter`: client errors (it then fails open), timeouts and its `RetryAfter`, which repeats the in-memory formula on the stored hash; the script is modelled for successful calls and one clock.
- The Redis key space: the global and the auth limiter build the same key for one client; one limiter per key space is modelled.
- JWT signing, bcrypt, SHA-256 and random ids: only signed tokens parse, issued jtis are new or empty, and the request hash is injective where a replay is concerned.
- JSON: the cache codec is a parameter that decodes what it encodes; an outbox payload is the event or the id that decoding it leaves behind.
- The user cache's key format: `user:<id>` is injective, so ids are the keys.
- Redis and Postgres back ends of the blacklist, cache, idempotency store, dead-letter list and user store.
- The Redis job worker beyond Nack: delivery, acknowledgement and the idle poll that ends a worker.
- The order in which the outbox query picks rows: any unlocked row may be picked, which covers it.
- Liveness of the dispatchers: `Run` returns on an empty table, so only safety is claimed for the table outbox.
- JobDrain.Drain: is for a registry with a dead-letter list and an open queue; without a list a used-up job is dropped, as `JobRuns` records.
- JobPool.PoolDrains: the same, and nobody adds jobs meanwhile; a step is one lock section, so fairness between workers is not needed.
- Idempotency.MemoryStore.Lookup: returns the body by value; the service hands out the stored slice itself (`internal/idempotency/memory.go:108`), so a caller that wrote to it would change later replays. The middleware only sends it.
- The stores' `List` operations and the dead-letter `List`: plain copies.
- Password-reset tokens, HTTP plumbing, configuration, validation, logging and metrics: no state worth proving here.
