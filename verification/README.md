# Infrastructure core: models and proofs

Dafny models of the stateful core of the MITA backend, with proofs of what that core promises.
Each source class is a Dafny class whose methods change the same fields, proved against a
specification function on a value that is the whole state; the theorems about runs and
interleavings are lemmas about those functions.

| file | models |
|---|---|
| `MemoryCache.dfy` | the in-process cache: dict, recency list, TTL, tags, eviction loop |
| `LruStack.dfy` | the LRU stack property of that cache under read-and-on-a-miss-write |
| `RedisCache.dfy` | the Redis tier: values with expiry, tag sets with an expiry of their own |
| `MultiTierCache.dfy` | memory in front of Redis: promotion, freshness, reach of an invalidation |
| `Memoisation.dfy` | the `cached` decorator under interleaved calls |
| `CircuitBreaker.dfy` | the three-state breaker under overlapping calls, and its retry loop |
| `DailyPlanMerge.dfy` | migration 0035: normalise, aggregate into the first row, delete the rest |
| `BulkInsert.dfy`, `TransactionRetry.dfy` | savepoint batches with record-by-record fallback; retries with back-off |
| `AuditQueue.dfy` | the bounded security event queue and its batch tasks |
| `MigrationLock.dfy` | the database-row lock of several processes whose statements interleave |
| `ReceiptCategorizer.dfy`, `KeywordTables.dfy` | weighted keyword scores and the first maximum |
| `Prelude.dfy` | optional values, list operations and powers used above |

`dafny verify dfyconfig.toml` checks the whole project.

Main results, each over all inputs, runs or interleavings:

- Cache: the LRU stack theorem and inclusion; reads at most 300 s staler than the TTL, with the
  bound attained at every capacity; completeness of the tag index, for TTLs at most 3600 s apart and
  for no others; a tag clear leaves a key readable exactly when a promotion put its memory copy there;
  transparency of the decorator.
- Breaker: counters are functions of the outcome history; opening and closing happen exactly at
  the stated histories; the opening rate bound, attained; recovery without overlap, and with overlap
  exactly when an episode closes early or its first failure reopens.
- Merge: uniqueness, conservation for every user, day and category, idempotence.
- Bulk insert: refinement of the plain loop, with the exact settings in which it holds; the
  counters always add up exactly in the sessions whose savepoint releases never fail.
- Audit queue: nothing is lost or reordered but the recorded drops; exactly where a ready queue is
  left without a task.
- Migration lock: mutual exclusion, and of the conditions on its users exactly those that ensure it.
- Categoriser: the merchant decides for up to three items and, with the service's tables, for no more.

Where the code and its description differ, the models follow the code:

- A TTL of 0 means the default (`ttl or self.default_ttl`). A negative TTL means "never expires" in
  memory, while Redis refuses it, so the older Redis value stays (`StaleAfterNegativeTtl`).
- Promotion writes the memory copy without tags, so clearing a tag does not reach it
  (`PromotedCopySurvivesClear`).
- The breaker does not reset its streaks when its state changes, so successes recorded by calls
  that outlive an opening count towards the next episode (`EarlyCloseIsExact`) and a first failure
  need not reopen (`FirstFailureExactly`).
- With `max_retry_attempts` of 0 or less, `call` records a success without calling the function.
- `max_retries` of 0 means 3; `retry_delay` of 0 means 0.5 s.
- A migration process whose INSERT conflicts and whose SELECT then finds no row goes on into the body.

## Model

| member | source | states |
|---|---|---|
| MemoryTier.MemoryCache.constructor | app/core/caching.py:76-81 | A new cache is empty, with list and dict in step |
| MemoryTier.MemoryCache.Get | app/core/caching.py:86-106 | A live entry is returned, counted and moved to the recent end; an expired one is removed and missed; the representation invariant is kept |
| MemoryTier.MemoryCache.Set | app/core/caching.py:108-140 | The entry (with the effective TTL, none when negative) goes to the recent end and exactly the `max_size` most recently used keys remain; the invariant is kept |
| MemoryTier.MemoryCache.Delete | app/core/caching.py:142-145 | Exactly the key leaves dict and list, and the answer says whether it was there; the invariant is kept |
| MemoryTier.MemoryCache.ClearByTags | app/core/caching.py:147-156 | A key stays if and only if its entry carries none of the tags, and what stays is unchanged; the invariant is kept |
| MemoryTier.MemoryCache.RemoveKeys | app/core/caching.py:155-156 | The loop of single removals drops the whole set at once, whatever the order of removal |
| MemoryTier.MemoryCache.RemoveKey | app/core/caching.py:158-165 | The dict entry and the first list occurrence go; answers whether the key was present |
| MemoryTier.MemoryCache.EvictIfNecessary | app/core/caching.py:167-172 | The eviction loop terminates because list and dict agree, and leaves exactly the `max_size` most recently used keys |
| MemoryTier.MemoryCache.CleanupExpired | app/core/caching.py:174-187 | One round of the background task removes exactly the expired entries; the invariant is kept |
| MemoryTier.MemoryCache.MoveToEnd | app/core/caching.py:134-137 | The recency update shared by reading and writing |
| MemoryTier.GetKeepsInv | app/core/caching.py:86-106 | Reading keeps: no duplicates in the list, exactly the keys of the dict, sorted by last access, size within capacity |
| MemoryTier.SetKeepsInv | app/core/caching.py:108-140 | Writing keeps the same invariant, at a clock that does not run backwards |
| MemoryTier.DropKeepsInv | app/core/caching.py:147-187 | Removing any set of keys keeps the invariant; deletion, tag clearing and clean-up are such removals |
| MemoryTier.RemoveIsDrop | app/core/caching.py:158-165 | Removing one key is removing the set of that key |
| MemoryTier.InsertKeepsInStep | app/core/caching.py:129-137 | Writing an entry at the recent end keeps list and dict in step and the list sorted by last access |
| MemoryTier.PopKeepsLists | app/core/caching.py:170-172 | One turn of the eviction loop removes one key and keeps list and dict in step, although `_remove_key` no longer finds the key in the list |
| MemoryTier.EvictLoopKeepsMostRecent | app/core/caching.py:167-172 | The loop of single evictions equals keeping the last `max_size` keys at once |
| MemoryTier.EvictionKeepsInv | app/core/caching.py:167-172 | After eviction the whole invariant holds and the size is the smaller of old size and capacity |
| MemoryTier.EvictionDropsLeastRecent | app/core/caching.py:167-172 | Whatever eviction drops was last used no later than whatever it keeps |
| MemoryTier.SetThenGet | app/core/caching.py:58-62 | A written value is read back exactly until its TTL has passed, for ever when the effective TTL is negative |
| MemoryTier.GetMeaning | app/core/caching.py:86-106 | A read finds exactly an entry whose expiry has not passed, counts it and moves it to the recent end; an expired one leaves |
| MemoryTier.SetMeaning | app/core/caching.py:113-140 | The entry written carries value and tags and expires after the given TTL, or the default when it is missing or 0; the others are as they were |
| MemoryTier.SetSize | app/core/caching.py:139-140 | A write adds a key until the cache is full and then keeps the size |
| MemoryTier.ClearMeaning | app/core/caching.py:151-156 | Exactly the entries that carry none of the tags stay, unchanged |
| MemoryTier.CleanupMeaning | app/core/caching.py:180-187 | Exactly the entries without an expiry, or with one that has not passed, stay, unchanged |
| MemoryTier.DropKeepsOrder | app/core/caching.py:158-165 | Removing keys leaves the recency order of the rest |
| LruStack.StackTheorem | app/core/caching.py:569-578 | For every trace of read-and-on-a-miss-write, every clock and TTL, the recency list of capacity m is the last m of the distinct keys in last-use order |
| LruStack.SmallerCapacityIsTail | app/core/caching.py:86-140 | Inclusion property: on traces with the same keys, a smaller capacity holds a suffix of the list, and a subset of the keys, of a larger one |
| LruStack.KeepsMostRecentlyUsed | app/core/caching.py:167-172 | Read off the trace alone: every key kept was used after every used key that is gone, and nothing goes before the cache is full |
| LruStack.MruIsLastUseOrder | app/core/caching.py:101-104 | The reference list holds exactly the used keys, once each, ordered by the position of the last use |
| LruStack.LastUseIsLast | app/core/caching.py:101-104 | The reference position is that of a use of the key, and no later use is of it |
| LruStack.UseTouches | app/core/caching.py:86-140 | Hit, expired entry, cached None and miss all change the recency list in the same way |
| RedisTier.RedisCache.constructor | app/core/caching.py:213-216 | Connected or not, to a server that holds whatever earlier processes stored; default TTL 300 |
| RedisTier.RedisCache.Get | app/core/caching.py:266-287 | The stored value while it is alive, otherwise None; None always without a connection |
| RedisTier.RedisCache.Set | app/core/caching.py:289-315 | Value with expiry, and every tag set extended; a TTL that is not positive makes SETEX fail and changes nothing |
| RedisTier.RedisCache.IndexUnder | app/core/caching.py:311-312 | SADD then EXPIRE for one tag |
| RedisTier.RedisCache.Delete | app/core/caching.py:317-327 | The value goes, the tag index stays; answers whether a live value was there |
| RedisTier.RedisCache.ClearByTags | app/core/caching.py:329-349 | Tag by tag, the indexed keys and the tag set go |
| RedisTier.IndexAllMeaning | app/core/caching.py:309-312 | The loop over tags: each written tag holds its live members and the key until now + ttl + 3600, all other tag sets are untouched |
| RedisTier.ClearAllMeaning | app/core/caching.py:335-347 | The loop over tags removes exactly the keys that are live members of a cleared tag, and drops a tag set only when all its keys are gone |
| RedisTier.StoredWasWritten | app/core/caching.py:297-306 | In every reachable state each stored value, tag list and expiry is that of one write of the run |
| RedisTier.RunCovered | app/core/caching.py:297-312 | Invariant over every run whose TTLs under one tag differ by at most 3600 s: a live key is indexed under each of its tags at least until it expires |
| RedisTier.StoredIsLast | app/core/caching.py:297-327 | What is stored under a key is exactly its last accepted write with no deletion since, read off the history: value, tags and expiry |
| RedisTier.IndexIsComplete | app/core/caching.py:309-312 | In those runs every unexpired key is in the unexpired set of every tag of its last write, that write read off the history |
| RedisTier.ClearRemovesTagged | app/core/caching.py:329-347 | In those runs clearing any tag that the last write in the history gave a key removes the key |
| RedisTier.IndexWasWritten | app/core/caching.py:309-312 | In every run a tag set holds only keys to which some write gave the tag |
| RedisTier.ClearLeavesUntagged | app/core/caching.py:329-347 | In every run a clear leaves alone each key to which no write ever gave one of the cleared tags |
| RedisTier.LongKeyIsMissed | app/core/caching.py:308-312 | Counterexample for every pair of TTLs further apart: the tag set expires first and clearing leaves the long-lived key |
| RedisTier.SpreadBoundIsExact | app/core/caching.py:308-312 | For any set of permitted TTLs: no run misses a key if and only if any two positive ones differ by at most 3600 s |
| MultiTier.MultiTierCache.constructor | app/core/caching.py:384-387 | Memory empty with capacity 1000 and default TTL 300, in front of whatever the server holds |
| MultiTier.MultiTierCache.Get | app/core/caching.py:389-406 | Memory first; a Redis hit is promoted without tags for 300 s; hits and misses are counted; the memory invariant is kept |
| MultiTier.MultiTierCache.Set | app/core/caching.py:408-423 | Writes the requested levels, both when none are given |
| MultiTier.MultiTierCache.Delete | app/core/caching.py:425-428 | The key leaves both tiers |
| MultiTier.MultiTierCache.ClearByTags | app/core/caching.py:430-433 | Both tiers clear by their own tag bookkeeping; memory keeps exactly the entries that carry none of the tags |
| MultiTier.RunFresh | app/core/caching.py:389-433 | Invariant over every run with positive effective TTLs, restarts of the process included: each copy in either tier is the last write, never a deleted one, and expires within ttl (Redis) or ttl + 300 (memory) |
| MultiTier.ReadsAreFresh | app/core/caching.py:389-428 | In every such run a value read at time t is that of the latest write not deleted since, and t is at most write time + ttl + 300 |
| MultiTier.SlackIsReached | app/core/caching.py:402 | The bound is attained at every capacity and for every TTL: pushed out by as many other keys as there is room for, promoted as its Redis copy expires, read 300 s later |
| MultiTier.StaleAfterNegativeTtl | app/core/caching.py:297-306 | At every capacity: a write with a negative TTL never reaches Redis, and once memory has dropped it the value it should have replaced is read |
| MultiTier.NegativeTtlsStayInMemory | app/core/caching.py:113-116 | With negative TTLs only, Redis stays empty and every memory entry is the last write |
| MultiTier.SameSignIsExact | app/core/caching.py:113-116 | At every capacity and for any set of permitted TTLs: no run reads an overwritten or deleted value if and only if no positive TTL meets a negative one |
| MultiTier.SetThenRead | app/core/caching.py:389-423 | A write to both tiers is read back exactly until its TTL has passed |
| MultiTier.DeleteThenRead | app/core/caching.py:425-428 | After a delete the key is missed, from any state |
| MultiTier.DeleteLeavesOthers | app/core/caching.py:425-428 | Deleting a key leaves every other key readable as before |
| MultiTier.LevelsMeaning | app/core/caching.py:417-423 | A write reaches exactly the levels named, and both when none is named |
| MultiTier.GetCounts | app/core/caching.py:389-406 | Each read is counted once: as a miss if and only if it returns None, as a memory hit if and only if memory had the value |
| MultiTier.CleanupIsInvisible | app/core/caching.py:174-187 | The background task leaves nothing expired in memory, and no later read can tell |
| MultiTier.UntaggedIsRead | app/core/caching.py:147-156 | A live memory copy that carries none of the cleared tags is read after the clear as before |
| MultiTier.ClearLeavesOthers | app/core/caching.py:430-433 | In every run a clear leaves the read of a key unchanged when no write ever gave the key one of the cleared tags |
| MultiTier.RedisSeesProjection | app/core/caching.py:389-433 | The Redis tier inside a two-tier run is in the state of a Redis run of the writes, deletes and clears alone |
| MultiTier.ClearMissesOnlyUntagged | app/core/caching.py:430-433 | After clearing a tag that the history's last write gave a key, the key is still found if and only if memory holds a live copy without the tags cleared |
| MultiTier.RunTagsFit | app/core/caching.py:389-423 | In every run each memory copy carries the tags of its key's last write, or, when a later read promoted it, none |
| MultiTier.ClearMissesOnlyPromoted | app/core/caching.py:402 | With positive TTLs, over the history: after clearing a tag of its last write a key is still found if and only if its memory copy is live and was put there by a promotion |
| MultiTier.PromotedCopySurvivesClear | app/core/caching.py:402 | At every capacity a run in which that happens: written with a tag, pushed out, read back, cleared by the tag, still read |
| MultiTier.ProjectKeepsLast | app/core/caching.py:408-433 | With positive TTLs the last write of a two-tier run and of the Redis run inside it are one |
| Memoisation.DecoratorIsTransparent | app/core/caching.py:552-584 | In every interleaving of wrapper calls, evictions, expiries, promotions, deletions, clears and losses in Redis, on a server that holds the decorator's earlier results, a returned call has returned the function's own result |
| Memoisation.RunHolds | app/core/caching.py:562-584 | Invariant over every interleaving: both tiers and every call in progress hold function results only |
| Memoisation.ActKeepsMemory | app/core/caching.py:389-423 | No action puts anything but a function result into memory, not even a promotion of a value read earlier |
| Memoisation.ActKeepsRedis | app/core/caching.py:408-433 | No action puts anything but a function result into Redis |
| Memoisation.ActKeepsCalls | app/core/caching.py:562-584 | No action makes a call carry anything but its function's result |
| Memoisation.CallCached | app/core/caching.py:562-584 | One wrapper call run to completion on the two-tier cache returns the function's result, leaves result-only tiers, and writes only on a miss |
| Memoisation.CallAloneMeaning | app/core/caching.py:562-584 | The steps of one call with nothing in between do to the tiers what a two-tier read and, on a miss, a two-tier write of the function's result do |
| CircuitBreaker.CircuitBreaker.constructor | app/core/circuit_breaker.py:72-77 | Closed, all counters zero |
| CircuitBreaker.CircuitBreaker.CheckState | app/core/circuit_breaker.py:92-108 | Admits if and only if it is not open or the timeout has passed since the last change; admission from open leaves it half-open as of now; otherwise nothing changes |
| CircuitBreaker.CircuitBreaker.RecordSuccess | app/core/circuit_breaker.py:110-125 | Counts, resets the failure streak, closes a half-open breaker at the threshold |
| CircuitBreaker.CircuitBreaker.RecordFailure | app/core/circuit_breaker.py:127-145 | Counts, resets the success streak, opens at the threshold |
| CircuitBreaker.CircuitBreaker.ChangeState | app/core/circuit_breaker.py:147-152 | State, time and number of changes; no counter is reset |
| CircuitBreaker.CircuitBreaker.Retry | app/core/circuit_breaker.py:160-199 | Stops at the first attempt that is not a trigger failure or after the last; the sleeps add up to the powers of the factor; n <= 0 ends normally without an attempt |
| CircuitBreaker.CircuitBreaker.Call | app/core/circuit_breaker.py:158-199 | A call to a breaker open for less than the timeout is rejected and changes nothing; any other records exactly the one outcome its retry loop ends with |
| CircuitBreaker.CountersRefineHistory | app/core/circuit_breaker.py:110-134 | In every interleaving the totals count the recorded outcomes, total = successful + failed, and the two streaks are the trailing runs of the history |
| CircuitBreaker.TimesRefineHistory | app/core/circuit_breaker.py:117-134 | The last success and failure times are those of the last such outcomes |
| CircuitBreaker.TrailIsTheTrailingRun | app/core/circuit_breaker.py:114-134 | The reference streak is the maximal run at the end of the history |
| CircuitBreaker.OnlyFourEdges | app/core/circuit_breaker.py:92-152 | Only CLOSED to OPEN, OPEN to HALF_OPEN, HALF_OPEN to CLOSED and HALF_OPEN to OPEN occur, and only these are timed and counted |
| CircuitBreaker.ClosesExactly | app/core/circuit_breaker.py:119-124 | It closes if and only if it is half-open and a success makes the trailing successes of the whole history reach the threshold |
| CircuitBreaker.OpensExactly | app/core/circuit_breaker.py:136-142 | It opens if and only if it is not open and a trigger failure makes the trailing failures reach the threshold |
| CircuitBreaker.ClosedIsBelowThreshold | app/core/circuit_breaker.py:136-142 | Closed implies fewer trailing failures than the threshold, for thresholds of at least 1 |
| CircuitBreaker.OpeningsApart | app/core/circuit_breaker.py:97-108 | In every interleaving with a clock that does not run backwards, openings are at least the timeout apart |
| CircuitBreaker.NoAdmissionBeforeTimeout | app/core/circuit_breaker.py:97-108 | Nothing is admitted before the timeout has passed since every opening |
| CircuitBreaker.AdmissionExactly | app/core/circuit_breaker.py:92-108 | In every interleaving a call is admitted if and only if the breaker is not open or the timeout has passed since the last opening of the history |
| CircuitBreaker.HalfOpensExactly | app/core/circuit_breaker.py:97-101 | In every interleaving it goes half-open if and only if it is open and a call comes the timeout or more after the last opening |
| CircuitBreaker.NothingElseChanges | app/core/circuit_breaker.py:79-108 | A rejected entry, an entry when not open and an exception that is no trigger change nothing |
| CircuitBreaker.RecordedExactly | app/core/circuit_breaker.py:84-90 | The history gains a success or a failure exactly when a block ends normally or with a trigger exception |
| CircuitBreaker.OpeningRateBound | app/core/circuit_breaker.py:92-152 | A run of length T opens at most 1 + T / timeout times |
| CircuitBreaker.OpeningRateIsAttained | app/core/circuit_breaker.py:92-152 | For every n, timeout and threshold some well-formed run without overlap opens n times in (n - 1) * timeout |
| CircuitBreaker.OneOutcomePerCall | app/core/circuit_breaker.py:79-90 | However calls overlap, each admitted call records at most one outcome and a rejected one none |
| CircuitBreaker.SequentialRecovery | app/core/circuit_breaker.py:110-125 | Without overlap, the successes that close the breaker all belong to the current half-open episode |
| CircuitBreaker.FirstFailureReopens | app/core/circuit_breaker.py:136-142 | Without overlap, a failure as the first recorded outcome of an episode reopens at once |
| CircuitBreaker.RecordedSplits | app/core/circuit_breaker.py:110-145 | The outcomes recorded before an episode and in it make up the history |
| CircuitBreaker.ClosesEarlyExactly | app/core/circuit_breaker.py:119-124 | In every interleaving it closes with fewer episode successes than the threshold if and only if the episode has successes only, too few, and those at the end of the history before it make up the rest |
| CircuitBreaker.EarlyCloseIsExact | app/core/circuit_breaker.py:119-124 | At the beginning of an episode some continuation closes it early if and only if the success counter is above 0 and the threshold above 1 |
| CircuitBreaker.NeverClosesEarlyExactly | app/core/circuit_breaker.py:119-124 | Of all configurations, those in which no interleaving closes early are the ones with a success threshold of at most 1 |
| CircuitBreaker.FirstFailureExactly | app/core/circuit_breaker.py:136-142 | In every interleaving a failure as the first recorded outcome of an episode reopens if and only if the failures at the end of the history are at most one short of the threshold |
| CircuitBreaker.FirstFailureAlwaysReopensExactly | app/core/circuit_breaker.py:136-142 | Of all configurations, those in which it reopens in every interleaving are the ones with a failure threshold of at most 1 |
| CircuitBreaker.OverlapCarries | app/core/circuit_breaker.py:110-145 | For every configuration an overlapping run begins an episode with a success recorded while open, and no failures |
| CircuitBreaker.TotalDelay | app/core/circuit_breaker.py:179 | The sleeps form a geometric sum, 2^n - 1 at factor 2 |
| CircuitBreaker.CallIsBounded | app/core/circuit_breaker.py:158-199 | At most n attempts and 2^(n-1) - 1 seconds; success if and only if some attempt returns after trigger failures only, failure if and only if all n raise them |
| DailyPlanMerge.DailyPlan.constructor | alembic/versions/0035_daily_plan_unique_user_day_category.py:33-34 | The table before the migration |
| DailyPlanMerge.DailyPlan.RunUpgrade | alembic/versions/0035_daily_plan_unique_user_day_category.py:33-96 | The statements in order leave the specified table, the constraint is created as no two rows collide, the total of the recorded amounts is unchanged and the row count reported is the number removed |
| DailyPlanMerge.DailyPlan.CreateUniqueConstraint | alembic/versions/0035_daily_plan_unique_user_day_category.py:91-96 | Succeeds if and only if no two rows with a category share user, date and category |
| DailyPlanMerge.RankedFirstIsEarliest | alembic/versions/0035_daily_plan_unique_user_day_category.py:44-47 | Row number 1 is exactly the row before all others of its group by created_at, NULLs last, then id |
| DailyPlanMerge.FirstExists | alembic/versions/0035_daily_plan_unique_user_day_category.py:44-47 | Every group has a first row |
| DailyPlanMerge.FirstIsUnique | alembic/versions/0035_daily_plan_unique_user_day_category.py:44-47 | No group has two first rows |
| DailyPlanMerge.MergeKeepsRanking | alembic/versions/0035_daily_plan_unique_user_day_category.py:61-84 | The UPDATE leaves groups and row numbers alone, so the DELETE ranks as the UPDATE did |
| DailyPlanMerge.FirstSurvives | alembic/versions/0035_daily_plan_unique_user_day_category.py:66-86 | A row with a category survives if and only if it ranked first, and the survivor is the row that received the aggregate |
| DailyPlanMerge.SurvivorExactly | alembic/versions/0035_daily_plan_unique_user_day_category.py:44-47 | On the columns: a row with a category survives if and only if every other row of its user, day and category was created later, has no creation time while it has one, or has the same and a larger id |
| DailyPlanMerge.EveryGroupSurvives | alembic/versions/0035_daily_plan_unique_user_day_category.py:74-88 | No user, day and category loses its last row, and no row is new |
| DailyPlanMerge.UpgradeIsUnique | alembic/versions/0035_daily_plan_unique_user_day_category.py:91-96 | For every table the constraint can be created afterwards |
| DailyPlanMerge.UniqueMeaning | alembic/versions/0035_daily_plan_unique_user_day_category.py:92-96 | The constraint holds if and only if no two rows agree on user, date and a category that is not NULL |
| DailyPlanMerge.TotalMeaning | alembic/versions/0035_daily_plan_unique_user_day_category.py:54 | The reference total: 0 for no rows, an amount for its row, nothing for NULL, and sums for separate rows |
| DailyPlanMerge.SurvivorsConserve | alembic/versions/0035_daily_plan_unique_user_day_category.py:51-86 | Any set of survivors totals what the rows it stands for totalled |
| DailyPlanMerge.TotalIsConserved | alembic/versions/0035_daily_plan_unique_user_day_category.py:51-62 | The reference total of the table is unchanged |
| DailyPlanMerge.GroupIsConserved | alembic/versions/0035_daily_plan_unique_user_day_category.py:51-86 | For every user, day and category (NULL included) the reference total is unchanged |
| DailyPlanMerge.MergedGroup | alembic/versions/0035_daily_plan_unique_user_day_category.py:61-64 | A merged row keeps all other columns; its spent amount is the reference total of its user, day and category, its other two amounts their maxima, and all other rows of these are gone |
| DailyPlanMerge.MaxMeaning | alembic/versions/0035_daily_plan_unique_user_day_category.py:54-55 | The aggregate ignores NULLs, bounds every value and is one of them |
| DailyPlanMerge.LoneRowOnlyNormalized | alembic/versions/0035_daily_plan_unique_user_day_category.py:36-86 | Rows without a category and rows alone in their group change in their date only |
| DailyPlanMerge.UpgradeIsIdempotent | alembic/versions/0035_daily_plan_unique_user_day_category.py:36-88 | Running the data statements twice equals running them once |
| DailyPlanMerge.TruncIsMidnight | alembic/versions/0035_daily_plan_unique_user_day_category.py:37 | Truncation gives the midnight at or before, and two instants share it exactly when they are on one day |
| DailyPlanMerge.TruncTwice | alembic/versions/0035_daily_plan_unique_user_day_category.py:37 | Truncating twice is truncating once |
| DailyPlanMerge.UpgradeRowCount | alembic/versions/0035_daily_plan_unique_user_day_category.py:74-89 | The rows deleted are the rows missing afterwards |
| BulkInsert.BulkOperationManager.constructor | app/core/database_transactions.py:196-198 | Any batch size, a session on a table, no savepoint used yet |
| BulkInsert.BulkOperationManager.Savepoint | app/core/database_transactions.py:64-72 | One savepoint block commits if and only if all records are sound, no key is stored or met twice and the release succeeds; otherwise the table is as before |
| BulkInsert.BulkOperationManager.HandleIndividualInserts | app/core/database_transactions.py:309-329 | The record-by-record fallback moves table and counters as specified |
| BulkInsert.BulkOperationManager.InsertBatchOf | app/core/database_transactions.py:237-290 | One batch with all its error paths |
| BulkInsert.BulkOperationManager.Insert | app/core/database_transactions.py:200-307 | The whole loop over slices of the batch size, for every input: stored rows stay as they are, new rows are those of sound records, the successes are the rows gained when releases succeed; a size of 0 raises before anything is done and a negative one inserts nothing |
| BulkInsert.BulkRefinesPlainLoop | app/core/database_transactions.py:229-290 | While savepoint releases succeed and conflicts are the only errors, for every batch size of at least 1 the final table and both counters are those of inserting each record in order and skipping what cannot go in |
| BulkInsert.AgreementIsExact | app/core/database_transactions.py:229-290 | While savepoint releases succeed, agreement with that loop on every input holds if and only if batches are of one, or larger with conflicts not ignored and no record that raises another error |
| BulkInsert.PairIsLost | app/core/database_transactions.py:269-275 | In every other setting with larger batches a batch of two loses its good record with the bad one |
| BulkInsert.FlushIsPlain | app/core/database_transactions.py:237-247 | A flush that succeeds is the plain loop in which every record goes in |
| BulkInsert.FlushExactly | app/core/database_transactions.py:237-245 | A flush goes through if and only if every record is sound, no key is in the table and none is met twice |
| BulkInsert.BulkStores | app/core/database_transactions.py:229-290 | In every session and setting rows already stored stay as they are and every new row is that of a sound record; when releases succeed the successes are the rows gained |
| BulkInsert.FirstSoundWins | app/core/database_transactions.py:229-290 | With conflicts as the only errors, and not ignored, each new key gets the payload of the first sound record with it |
| BulkInsert.EachIsPlain | app/core/database_transactions.py:309-329 | While savepoint releases succeed, the fallback is the plain loop |
| BulkInsert.CountersAddUp | app/core/database_transactions.py:247-270 | For every session: successful + failed = total on all tables, data and settings if and only if no savepoint release of the session ever fails (the count is bumped before the release) |
| BulkInsert.LostIsMiscounted | app/core/database_transactions.py:247-270 | In one call the counters add up if and only if no release failed after its flush |
| BulkInsert.ErrorsExactlyOnFailure | app/core/database_transactions.py:254-278 | While savepoint releases succeed, an error is reported if and only if some record was not inserted |
| TransactionRetry.TransactionManager.ExecuteWithRetry | app/core/database_transactions.py:88-168 | Every attempt before the last failed retryably; the last one succeeded, failed for good or used up the retries; the sleeps are those of the failures |
| TransactionRetry.RetryIsBounded | app/core/database_transactions.py:106-168 | At most n + 1 attempts; returns if and only if some attempt succeeds after retryable failures only; exhausted if and only if all n + 1 fail retryably; sleeps at most the longer delay times 2^n - 1 |
| TransactionRetry.SleepBound | app/core/database_transactions.py:134-145 | After k failures the total sleep is at most the longer delay times 2^k - 1, in any mix of deadlocks and others |
| TransactionRetry.SleepBoundIsMet | app/core/database_transactions.py:134-145 | That bound is met with equality when every failure waits the longer delay |
| TransactionRetry.SleepAfter | app/core/database_transactions.py:134-140 | After attempt k a deadlock waits 2^k seconds and any other failure the delay times 2^k |
| TransactionRetry.NegativeRetriesNeverRun | app/core/database_transactions.py:106-111 | The operation is never run if and only if the number of retries given is negative |
| AuditQueue.SecurityEventQueue.constructor | app/core/audit_logging.py:113-117 | Empty queue, flag clear |
| AuditQueue.SecurityEventQueue.Enqueue | app/core/audit_logging.py:119-130 | Appends, dropping the oldest event of a full queue, and spawns a task when a batch is ready and none is processing |
| AuditQueue.SecurityEventQueue.Begin | app/core/audit_logging.py:132-137 | A task ends at once when the flag is set, otherwise sets it |
| AuditQueue.SecurityEventQueue.Extract | app/core/audit_logging.py:140-146 | The batch is the front of the queue, of ten events or all there are, and the rest stays |
| AuditQueue.SecurityEventQueue.End | app/core/audit_logging.py:148-154 | The batch is done with and the flag cleared |
| AuditQueue.OneBatchInFlight | app/core/audit_logging.py:132-154 | In every interleaving at most one batch is in flight, of 1 to 10 events, and the queue is within its bound |
| AuditQueue.TookTakes | app/core/audit_logging.py:140-149 | In every run a task at the lock takes the oldest ten events, or all there are, and stores them, or ends when there are none |
| AuditQueue.EnqueueMeaning | app/core/audit_logging.py:119-130 | An event is appended, a full queue loses its oldest, and a task is spawned if and only if 10 events or more than 0.8 of the maximum are queued and nobody is at work |
| AuditQueue.TasksMeaning | app/core/audit_logging.py:132-154 | A task that starts goes to the lock unless another is at work; one that ends hands its batch over and clears the flag |
| AuditQueue.NothingLostNorReordered | app/core/audit_logging.py:119-154 | In every interleaving stored ++ in flight ++ queued is exactly the enqueue history minus the dropped events, in order |
| AuditQueue.DropsOldestWhenFull | app/core/audit_logging.py:114-122 | An event is dropped if and only if one meets a full queue, and it is the oldest still queued |
| AuditQueue.StuckExactly | app/core/audit_logging.py:125-154 | In every run: a queue is ready with no task at work or coming if and only if it was so and nothing changed, or a batch just ended with no task spawned and enough events queued |
| AuditQueue.EnqueueMovesOn | app/core/audit_logging.py:125-130 | The next event always spawns a task for such a queue |
| AuditQueue.BurstLeavesTail | app/core/audit_logging.py:125-135 | A whole full queue can be left with no task to take it if and only if the maximum size is at least 1 |
| AuditQueue.RunKeepsInvariant | app/core/audit_logging.py:119-154 | The invariant of every interleaving: the flag counts the one worker, the queue is the end of the history, drops lie before it |
| MigrationLock.MigrationManager.constructor | scripts/migration_manager.py:60-71 | The lock table holds whatever rows earlier processes left |
| MigrationLock.MigrationManager.Insert | scripts/migration_manager.py:156-175 | The primary key: succeeds if and only if no row has the name |
| MigrationLock.MigrationManager.Acquire | scripts/migration_manager.py:146-234 | Without interference: refused if and only if an unexpired row has the name, which stays; otherwise the row is the caller's own; rows of other names go exactly when they have expired |
| MigrationLock.MigrationManager.Release | scripts/migration_manager.py:238-242 | Deletes the row of the name, whoever owns it |
| MigrationLock.MutualExclusion | scripts/migration_manager.py:139-242 | In every interleaving of the statements where every conflicting INSERT is refused and every holder leaves in time: one process per name in the body, and each release deletes the releaser's own row |
| MigrationLock.AloneAcquires | scripts/migration_manager.py:146-234 | A process that runs by itself gets into the body if and only if no unexpired row has its name, with a row of its own; rows of other names go exactly when they have expired |
| MigrationLock.OwnershipIsExact | scripts/migration_manager.py:179-242 | In timely runs without crashes, everyone in the body always owns its row if and only if no process finds no row in the SELECT after its conflict |
| MigrationLock.RowsOwnedUntilFallThrough | scripts/migration_manager.py:179-242 | Until the first such SELECT every row belongs to a process in the body, so takeover by force never starts |
| MigrationLock.ExclusionIsExact | scripts/migration_manager.py:139-242 | For every choice of conditions on the runs: no reachable state has two processes in the body of one lock if and only if holders leave in time, and every conflict is refused or nobody crashes and nobody falls through |
| MigrationLock.FallThroughBreaksExclusion | scripts/migration_manager.py:179-237 | Counterexample: the row released between INSERT and SELECT lets two processes in |
| MigrationLock.ForcedTakeoverBreaksExclusion | scripts/migration_manager.py:205-230 | Counterexample: two forced takeovers of one expired row let two processes in |
| MigrationLock.LateHolderBreaksExclusion | scripts/migration_manager.py:149 | Counterexample: a holder that outstays its expiry loses its row to the next one's clean-up |
| MigrationLock.RulesMeaning | scripts/migration_manager.py:139-242 | The conditions used in the counterexamples are those of the theorems |
| ReceiptCategorizer.ReceiptCategorizationService.constructor | app/categorization/receipt_categorization_service.py:13-202 | The service uses its own keyword tables |
| ReceiptCategorizer.ReceiptCategorizationService.AnyKeyword | app/categorization/receipt_categorization_service.py:235-238 | The keyword loop with its break finds whether any keyword occurs in the text |
| ReceiptCategorizer.ReceiptCategorizationService.MerchantScores | app/categorization/receipt_categorization_service.py:232-239 | Every category starts with 3 or 0, once however many keywords match |
| ReceiptCategorizer.ReceiptCategorizationService.AddHint | app/categorization/receipt_categorization_service.py:241-246 | Adds 1 to exactly the categories whose keywords match the hint |
| ReceiptCategorizer.ReceiptCategorizationService.AddItemsOf | app/categorization/receipt_categorization_service.py:251-258 | Adds 0.5 for each item with a matching keyword |
| ReceiptCategorizer.ReceiptCategorizationService.AddItems | app/categorization/receipt_categorization_service.py:248-258 | Adds the items' halves in each category with item keywords, and nothing elsewhere |
| ReceiptCategorizer.ReceiptCategorizationService.AddAmount | app/categorization/receipt_categorization_service.py:260-273 | The two amount bands and nothing else |
| ReceiptCategorizer.ReceiptCategorizationService.FirstMax | app/categorization/receipt_categorization_service.py:275-277 | The first category in table order with the highest score |
| ReceiptCategorizer.ReceiptCategorizationService.Categorize | app/categorization/receipt_categorization_service.py:204-281 | For every receipt: the first category in table order with the maximal positive score, the default when all scores are 0 |
| ReceiptCategorizer.ChoiceIsUnique | app/categorization/receipt_categorization_service.py:275-281 | Scores determine the category |
| ReceiptCategorizer.MatchesMeaning | app/categorization/receipt_categorization_service.py:235-238 | A text matches if and only if it is some text, a keyword and some text |
| ReceiptCategorizer.ScoreMeaning | app/categorization/receipt_categorization_service.py:232-273 | In tenths: 30 for the merchant, 10 for the hint, 5 for each item, and 3 or 2 for the amount |
| ReceiptCategorizer.AmountAlone | app/categorization/receipt_categorization_service.py:260-281 | With nothing else to go by, an amount below 10 gives restaurants, below 100 groceries and any other the default |
| ReceiptCategorizer.ItemOrderIsIrrelevant | app/categorization/receipt_categorization_service.py:248-258 | Permuting the items leaves the category as it is |
| ReceiptCategorizer.MerchantDominates | app/categorization/receipt_categorization_service.py:233-279 | With at most three items, if any category matches the merchant the chosen one does |
| ReceiptCategorizer.DominanceIsExact | app/categorization/receipt_categorization_service.py:233-279 | With any tables that have three words speaking for one category each: that holds for all receipts with n items if and only if n <= 3 |
| ReceiptCategorizer.ItemsOutweighMerchant | app/categorization/receipt_categorization_service.py:241-273 | For every n >= 4 and any such tables and words: hint, small change and items outweigh the merchant |
| ReceiptCategorizer.MerchantWord | app/categorization/receipt_categorization_service.py:15-160 | Of the merchant keywords, those in "amc" are entertainment only |
| ReceiptCategorizer.HintWord | app/categorization/receipt_categorization_service.py:15-160 | Of the merchant keywords, those in "kfc" are for restaurants only |
| ReceiptCategorizer.ItemWord | app/categorization/receipt_categorization_service.py:162-199 | Of the item keywords, those in "tea" are for restaurants only |
| ReceiptCategorizer.SourceDominance | app/categorization/receipt_categorization_service.py:15-281 | With the service's own tables the merchant decides on every receipt with n items if and only if n <= 3 |

## Left out

- Clock readings inside one locked operation: the code reads the clock several times, the models once.
- `MultiTierCache.Set` with some of the levels only, and interleavings inside a promoting read, in the freshness theorem: the code guarantees no freshness there. `Memoisation` covers both.
- A negative `max_size`: the eviction loop would not end; the model's capacity is a natural number.
- Cache keys as md5 digests, and pickled values: keys are taken as injective, values as abstract; sizes, the Redis access-metadata hash and hit ratios are not modelled.
- Redis errors other than a refused TTL: a lost value is covered in `Memoisation` (`RedisLoses`), a lost connection in the middle of an operation is not.
- Keys in Redis that something else than these caches writes: a run begins with an empty server and, restarts included, covers its life.
- The instant of a Redis expiry: a value counts as alive up to and including its expiry time.
- The attempts inside `Call`: the function's behaviour is a parameter; cancellation and an attempt's own timeout are not modelled beyond the exception they raise.
- `CircuitBreaker.Call` is one call by itself; overlapping calls are the event runs of the same module.
- Time zones with daylight saving in `date_trunc` (the session's offset is fixed) and overflow of NUMERIC(12,2) in the aggregate.
- Transactions around the migration's statements: nothing else writes the table meanwhile.
- SQLAlchemy's identity map and relationships, success rate and error texts in the bulk insert.
- Where a batch of audit events goes: storage and its file fallback are a sink.
- Cancellation of a batch task while it waits for the lock.
- Differences between the database's and a process's clock in the migration lock, and `locked_by`, which is replaced by the process that inserted the row.
- Everything else in the migration manager: backups, subprocesses, reports, and its command to force a lock off.
- Lower-casing of merchant, hint and item texts, and amounts finer than a cent.
- Floating point: scores are whole tenths, money is in cents, delays are real numbers.
- The breaker manager, query cache, database monitoring and category priority are not modelled.
- Budget redistribution, calendar and goal services: not part of this model.
