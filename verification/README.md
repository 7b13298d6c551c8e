# A model of the gateway's shared state

This project models the parts of the API gateway that keep state shared by concurrent requests, and
proves what those parts promise over all their runs. It holds:

- the token bucket of the rate limiter, a read-modify-write of one Redis key (`TokenBucket`,
  `TokenBucketLaws`);
- the proxy pipeline with its quota tracker, response cache and request deduplication, as the
  interleaving of any number of requests (`Gateway`), its invariants and theorems (`GatewayLock`,
  `GatewayHistory`, `GatewayReplies`, `GatewayWait`, `GatewayQuota`, `GatewayExpiry`,
  `GatewayOvershoot`, `GatewayCache`, `GatewayAnswers`), the same
  pipeline as an object that changes its fields in place (`GatewayServer`), and the waiting loop on
  top of that object (`GatewayDedupWait`);
- what the pipeline rests on: the civil calendar of quota periods (`Calendar`), the wire format of
  stored responses (`Json`, `Wire`, `Text`), the cache, dedup and quota keys (`Keys`,
  `GatewayKeys`), response headers (`Responses`) and a small Redis (`RedisStore`);
- the SCAN loop that flushes the cache (`Flush`);
- the token refresh of the OAuth2 adapter (`OAuth2`, `OAuth2Adapter`);
- the background job worker (`Jobs`) and the vendor registry (`Registry`).

`dafny verify dfyconfig.toml` checks everything.

## How the code is modelled

The event loop is single-threaded, so the code of one request between two `await`s runs
undisturbed. Each such stretch is one step, and a run is any sequence of steps of any requests,
arrivals of requests, exceptions at an `await`, flushes, and the passing of time. Where a function
reads the clock before it sends a command, the reading is a step of its own, because any time may
pass until Redis serves the command. For the pipeline and for OAuth2 the steps are given twice:
as functions on values, on which invariants over whole runs are stated and proved, and as methods
of a class that update its fields in place and are proved to do exactly what those functions say.
The job manager and the registry are classes only; their invariants are kept by every method, with
other requests acting in between.

Events recorded in a log, positions in it, poll counters, serial numbers of adapters and the mark of a
request that an exception ended are there to state what happened. No step depends on them.

What is assumed of the surroundings:

- Redis commands are atomic and do not fail. A key is gone from the instant of its expiry on.
- SUBSCRIBE is effective when it returns. A publication goes, in order, to the mailboxes of the
  subscribers of that moment. The first poll of a subscription swallows its confirmation.
- Redis and all callers share one clock that does not go backwards. The rate limiter alone
  distinguishes when a caller read the clock from when Redis served its script.
- SHA-256 with its hexadecimal digest is any injective function from bytes to colon-free text.
- An exception may reach a request before its pending command is served or after; but a DEL or
  UNSUBSCRIBE that a `finally` block has begun is not interrupted by a second exception.
- A full SCAN iteration returns every matching key that lives through it at least once, and only
  its last reply has cursor 0.
- Numbers are exact: time, rates and token levels are real numbers, and rates are positive.
- Text has no lone surrogates, header dicts and parameter dicts have distinct keys, and header names
  are ASCII.
- A vendor call, the token endpoint, the job's lookups and the webhook may end in any way: their
  outcomes are parameters or arbitrary choices.

Where the code and its comments differ, the model follows the code. The dedup context says that
waiters are not left hanging when a holder fails, but a holder without a 2xx answer publishes
nothing and its waiters time out. The key functions promise equal keys for identical requests, and
neither key contains the HTTP method. `strftime("%Y")` does not pad years below 1000, so the bucket
text is modelled without padding of the year.

## Model

| member | source | states |
|---|---|---|
| `TokenBucket.BucketKey.Eval` | src/gateway/middleware/rate_limit.py:46-63 | One run of the Lua script on the hash fields and expiry of a key: the reply is 1 exactly when the lazily refilled, capped level holds the requested tokens, and the fields and the new expiry follow from it. |
| `TokenBucket.BucketKey.CheckRateLimit` | src/gateway/middleware/rate_limit.py:85-116 | `check_rate_limit` on one key: the verdict and the new key are those of the bucket at capacity rpm and rate rpm/60; an admitted caller is told 0, and a denied one the least whole number of seconds that refills one token: a second less would not. |
| `TokenBucket.TtlIsSixtyOne` | src/gateway/middleware/rate_limit.py:57-61 | The key lives 61 seconds past its last call, whatever the capacity. |
| `TokenBucket.RunFloored` | src/gateway/middleware/rate_limit.py:50-62 | With ordered clocks the stored level is never negative; with a fixed rate and overtaking calls it is never below what the lateness of the last call refills. |
| `TokenBucket.FullByExpiry` | src/gateway/middleware/rate_limit.py:47-57 | A key that has reached its expiry would be at capacity again had it been kept. |
| `TokenBucket.ExpiryIsUnobservable` | src/gateway/middleware/rate_limit.py:46-63 | Key expiry is unobservable: over every run whose calls reach Redis in order and at most a second late, an expiring key and one kept for ever give the same verdicts and the same level, also when the capacity changes from call to call. |
| `TokenBucket.LatenessBeyondASecondIsVisible` | src/gateway/middleware/rate_limit.py:57-61 | One second of lateness is exactly what the TTL hides: for any larger delay two calls get different verdicts from the expiring key and from the ideal one. |
| `TokenBucket.OvertakingAcrossCapacitiesIsVisible` | src/gateway/middleware/rate_limit.py:46-63 | Clock order is needed when capacities change: three calls on which an overtaking call at a larger capacity makes the expiry visible. |
| `TokenBucketLaws.StoredTokens` | src/gateway/middleware/rate_limit.py:46-63 | Closed form: after any prompt run at a fixed capacity the level that Redis holds is the minimum over the calls i of capacity + rate * (time since i) - (grants from i on). |
| `TokenBucketLaws.DeniedIffSomeWindowIsFull` | src/gateway/middleware/rate_limit.py:52-63 | In every such run a call is denied if and only if granting it would make some window that starts at an earlier or this call hold more than capacity + rate * length. |
| `TokenBucketLaws.RealBucketGrantsMost` | src/gateway/middleware/rate_limit.py:46-63 | Every window that ends at a grant holds at most capacity + rate * length grants; and optimality: after every call, no sequence of verdicts within that window bound has granted more. |
| `TokenBucketLaws.RateEnvelope` | src/gateway/middleware/rate_limit.py:50-62 | Between any two calls the grants are at most the capacity at the first plus the refill up to the second, with a capacity that may change at every call. |
| `TokenBucketLaws.MinuteBound` | src/gateway/middleware/rate_limit.py:96-97 | At a fixed capacity no window of 60 seconds holds more than twice the capacity. |
| `TokenBucketLaws.FreshBurst` | src/gateway/middleware/rate_limit.py:46-63 | A new key grants exactly the first rpm of any number of simultaneous calls, for every rpm. |
| `TokenBucketLaws.RetryAfterSuffices` | src/gateway/middleware/rate_limit.py:114-116 | A denied caller that comes back after the advised seconds with no grant in between is granted. |
| `TokenBucketLaws.RetryAfterIsTight` | src/gateway/middleware/rate_limit.py:114-116 | And the advice cannot be shortened: for every cap there is a prompt run with a denied call whose caller comes back one second earlier than advised and is denied again. |
| `Calendar.DateOfDayNumber` | src/gateway/quota/tracker.py:58-64 | Counting days with the calendar of `timedelta` and `datetime` agrees with the closed form in leap years, for every day. |
| `Calendar.PeriodIndexGrows` | src/gateway/quota/tracker.py:56-64 | The number of the current day or month never decreases, and is the same at a later instant exactly until the reset time. |
| `Calendar.BucketIffIndex` | src/gateway/quota/tracker.py:81-84 | Two instants have the same bucket text exactly when they lie in the same day or month. |
| `Calendar.BucketUntilReset` | src/gateway/quota/tracker.py:50-85 | For all instants t <= u, `period_bucket` is the same at both if and only if u is before `resets_at` at t. |
| `Calendar.BucketReadsBack` | src/gateway/quota/tracker.py:81-84 | The bucket text reads YYYY-MM-DD or YYYY-MM: year, month and day of the instant are read back from it by place, with two digits for month and day and nothing else. |
| `Calendar.TtlCoversPeriod` | src/gateway/quota/tracker.py:88-104 | A counter whose expiry is set inside a period cannot expire before the period resets. |
| `GatewayKeys.QuotaKeysUnambiguous` | src/gateway/quota/tracker.py:107-112 | For ids without a colon two quota keys are the same text exactly when vendor, API key, period and the day or month are the same. |
| `GatewayKeys.QuotaKeysApart` | src/gateway/quota/tracker.py:107-112 | A quota key is never the text of a cache key, a lock or a stored result. |
| `Wire.RoundTrip` | src/gateway/cache/response_cache.py:73-91 | `_deserialise` inverts `_serialise` on every response with a valid UTC time stamp and a header dict: status, headers in order, arbitrary bytes of the body and the time stamp come back. |
| `Wire.SerialiseExample` | src/gateway/cache/response_cache.py:73-81 | The layout, on one response with a header, three body bytes and microseconds: the text of `json.dumps` spelled out, with the body in small hexadecimal digits and the time in ISO form. |
| `Json.UnquoteQuoted` | src/gateway/cache/response_cache.py:73-81 | Any text survives a JSON string literal with ASCII output: escapes, control characters and surrogate pairs are read back (section 7 of RFC 8259). |
| `Json.ShortEscapes` | src/gateway/cache/response_cache.py:73-81 | The two-character escapes are those of section 7 of RFC 8259. |
| `Json.LongEscape` | src/gateway/cache/response_cache.py:73-81 | Any other control or non-ASCII character is a backslash, `u` and its code in four small hexadecimal digits. |
| `Json.SurrogateEscape` | src/gateway/cache/response_cache.py:73-81 | A character beyond the first plane is written as its two surrogates. |
| `Keys.Utf8Injective` | src/gateway/cache/dedup.py:66-77 | Encoding to UTF-8 loses nothing. |
| `Keys.Utf8CharValue` | src/gateway/cache/dedup.py:66-77 | Each character is encoded as section 3 of RFC 3629 says: the length by its code point, a lead byte that tells the length, six bits in each further byte, and the code point is read back. |
| `Keys.SortForgetsOrder` | src/gateway/cache/response_cache.py:38-38 | Sorting forgets exactly the order of the parameters: two lists sort to the same one if and only if they are equal as multisets. |
| `Keys.ParamsExample` | src/gateway/cache/response_cache.py:38-38 | The parameter text of two parameters spelled out: sorted, an array of arrays without blanks. |
| `Keys.ParamsAndBody` | src/gateway/cache/response_cache.py:38-47 | The parameter text is prefix-free: parameter text followed by body bytes determines the parameters and the body, for arbitrary bodies. |
| `Keys.CacheKeysUnambiguous` | src/gateway/cache/response_cache.py:26-52 | For colon-free slugs two cache keys are equal if and only if the slugs are, the paths differ at most in slashes at their ends, the parameters are the same in any order (none is the empty dict), and the bodies are the same bytes (none is the empty body, a text its UTF-8 encoding). |
| `Keys.DedupKeysUnambiguous` | src/gateway/cache/dedup.py:52-79 | The same for dedup keys when the stripped paths are colon-free as well. |
| `Keys.DedupKeysCollideOnColonPaths` | src/gateway/cache/dedup.py:73-79 | That hypothesis is needed: two different requests, one with a colon in its path, share a dedup key under every digest. |
| `Keys.KeySpacesDisjoint` | src/gateway/cache/dedup.py:42-44 | The cache key of one request, the lock of another and the result key of a third are different texts. |
| `Responses.FilterIdempotent` | src/gateway/routes/proxy.py:59-61 | Filtering hop-by-hop headers (section 13.5.1 of RFC 2616) twice is filtering once. |
| `Responses.FilterIsEndToEnd` | src/gateway/routes/proxy.py:45-61 | The filter keeps, in their order, exactly the headers whose name is none of the eight hop-by-hop names in whatever case. |
| `Responses.ServedAsDirect` | src/gateway/routes/proxy.py:59-71 | What a caller is served from the store has the status and body of the holder's own response and its headers with `X-Cache: HIT` set: in the place of that header if the vendor had sent one, else as one new last entry. |
| `RedisStore.Redis.SetIfAbsent` | src/gateway/cache/dedup.py:113-119 | SET NX EX: stores exactly when the key is not live, with the new expiry. |
| `RedisStore.Redis.Increment` | src/gateway/quota/tracker.py:185-189 | INCR: one more than the live count, the expiry of a live key is kept and a dead one starts anew without expiry. |
| `RedisStore.Redis.Delete` | src/gateway/cache/dedup.py:122-124 | DEL removes the keys and returns how many of them were there and not expired. |
| `RedisStore.Redis.PublishTo` | src/gateway/cache/dedup.py:146-146 | PUBLISH makes the message the last one in the mailbox of every subscriber of the channel, and leaves all other mailboxes and the set of subscribers as they were. |
| `Gateway.Resumed` | src/gateway/routes/proxy.py:184-344 | One stretch of any request between two `await`s: it follows the control flow of the proxy, leaves time and every other request alone, writes at most the one key that its position allows, adds at most one event of its own, and delivers publications to every mailbox of the channel. |
| `Gateway.Interrupted` | src/gateway/cache/dedup.py:113-124 | A command that is served although an exception reaches its request before the reply does: the effect is the same as without the exception, and the request goes on through the `finally` block it is in; after SET NX it is in none. |
| `Gateway.Run` | src/gateway/routes/proxy.py:184-344 | All interleavings of arrivals, stretches, exceptions before and after a command is served, flushes and the passing of time; in every one each request has the locals that its position relies on. |
| `GatewayServer.Server.CheckQuota` | src/gateway/routes/proxy.py:184-222 | `check_quota` in place: the counter of the bucket chosen by the clock is compared with the limit, and a full one is refused with the count. |
| `GatewayServer.Server.CheckCache` | src/gateway/routes/proxy.py:233-237 | `get_cached` in place: a live entry is answered, an unreadable one raises, none goes on to the lock. |
| `GatewayServer.Server.AcquireLock` | src/gateway/cache/dedup.py:113-119 | `_acquire_lock` in place, with the branch to the vendor call or to the wait. |
| `GatewayServer.Server.TakeReply` | src/gateway/routes/proxy.py:275-344 | The vendor's reply in place: timeout, connection error and any other failure leave the block, a 2xx answer is kept without hop-by-hop headers, any other answer is handed through. |
| `GatewayServer.Server.SetCached` | src/gateway/cache/response_cache.py:107-124 | `set_cached` in place: written only for a positive TTL and a 2xx status, with that TTL. |
| `GatewayServer.Server.StoreForWaiters` | src/gateway/cache/dedup.py:142-145 | The SET of `dedup_publish` in place, with its 60 seconds. |
| `GatewayServer.Server.PublishToWaiters` | src/gateway/cache/dedup.py:146-146 | The PUBLISH of `dedup_publish` in place, after the SET. |
| `GatewayServer.Server.IncrementQuota` | src/gateway/quota/tracker.py:185-192 | The INCR of `increment_quota` in place, with the branch to EXPIRE on the first write. |
| `GatewayServer.Server.ExpireQuotaKey` | src/gateway/quota/tracker.py:192-194 | The EXPIRE of `increment_quota` in place. |
| `GatewayServer.Server.ReleaseLock` | src/gateway/cache/dedup.py:122-124 | `_release_lock` in place: an unconditional DEL. |
| `GatewayServer.Server.SubscribeToResult` | src/gateway/cache/dedup.py:168-169 | SUBSCRIBE of `dedup_wait` in place. |
| `GatewayServer.Server.ReadStoredResult` | src/gateway/cache/dedup.py:172-174 | The GET of `dedup_wait` in place, after the subscription. |
| `GatewayServer.Server.PollUntilDeadline` | src/gateway/cache/dedup.py:175-179 | The deadline check of `dedup_wait` in place. |
| `GatewayServer.Server.GetMessage` | src/gateway/cache/dedup.py:180-190 | `get_message` in place: the confirmation is swallowed, then the oldest message is returned, or none once the poll times out. |
| `GatewayServer.Server.Cancel` | src/gateway/cache/dedup.py:190-232 | An exception at the current `await`, before the command is served, in place: the `finally` blocks of the lock and of the wait still run. |
| `GatewayServer.Server.Interrupt` | src/gateway/cache/dedup.py:113-232 | An exception after the command was served, in place. |
| `GatewayServer.Server.Serve` | src/gateway/routes/proxy.py:184-344 | The server refines the specification: after any sequence of moves its fields are exactly the specified state, so every theorem about runs holds of it. |
| `GatewayLock.LockIsExclusive` | src/gateway/cache/dedup.py:113-124 | If every holder leaves its block within the lock's 30 seconds, then in every reachable state each holder's lock is in Redis with the expiry it was given, no two requests hold one lock, and a live lock without a holder was left behind by an interrupted SET NX less than 30 seconds ago. |
| `GatewayLock.OneVendorCallInFlight` | src/gateway/routes/proxy.py:245-286 | So a lock is live if and only if one request is between acquire and release or it was left behind, never both, and at most one vendor call per dedup key is in flight. |
| `GatewayLock.LockDecides` | src/gateway/cache/dedup.py:113-119 | A free lock is always taken: the request goes on to its vendor call and its lock is live for exactly 30 seconds; whoever finds the lock live waits and writes nothing. |
| `GatewayLock.InterruptedAcquire` | src/gateway/cache/dedup.py:226-232 | Locks are left behind in real runs: after an interrupted SET NX the lock is live and no request holds it. |
| `GatewayLock.BlockEndsReleased` | src/gateway/cache/dedup.py:227-232 | In every run, whatever move comes next, a request in the block is still in it or is through with its lock deleted: no reply, exception or interruption leads out past the DEL. |
| `GatewayLock.OnlyTheHolderReleases` | src/gateway/cache/dedup.py:122-124 | In every timely run no move of any kind changes a live lock but the release by its own holder. |
| `GatewayHistory.RunHistory` | src/gateway/routes/proxy.py:191-326 | The invariant behind the statements below: what the log of every run says of each request by where it is suspended. |
| `GatewayHistory.VendorCalls` | src/gateway/routes/proxy.py:235-286 | Every request calls its vendor at most once; one answered as a job, by a full quota, from the cache, by another's result or by a timed-out wait never does. |
| `GatewayHistory.JobsAreAccepted` | src/gateway/routes/proxy.py:134-178 | A request for an asynchronous endpoint, and no other one, is accepted as a job, and never calls its vendor itself. |
| `GatewayReplies.ReplyDecides` | src/gateway/routes/proxy.py:275-344 | The vendor's reply decides what its caller is told, and nothing else does: a request that is through and was replied to returns a 2xx answer as its own and any other answer as refused, with exactly its status, its body and its end-to-end headers in order, and tells a timeout, a failed connection and an abort as such, unless an exception came between a 2xx answer and the end; and no request tells of a reply it did not get. |
| `GatewayReplies.RepliesAreMoves` | src/gateway/routes/proxy.py:275-288 | A request is replied to at most once, by the very reply that a move brought to it while it waited for its vendor. |
| `GatewayReplies.ReplyMoves` | src/gateway/routes/proxy.py:275-288 | And every reply brought to a request that waits for its vendor is recorded as it is. |
| `GatewayReplies.ExceptionsAreMoves` | src/gateway/cache/dedup.py:226-232 | Only an exception ends a request by an exception. |
| `GatewayReplies.ExceptionEnds` | src/gateway/cache/dedup.py:190-232 | And every exception does: in the block of the lock it leads to the DEL, in a wait to the UNSUBSCRIBE, anywhere else out at once; one that comes before the pending command is served changes nothing else. |
| `GatewayReplies.FetchedIsShared` | src/gateway/routes/proxy.py:294-326 | A request that returns its own 2xx answer has stored it for waiters and published it, and has cached it if and only if the TTL that applies is positive: its vendor's status, body and end-to-end headers with the time they came. |
| `GatewayReplies.OutputsAreFetched` | src/gateway/routes/proxy.py:294-326 | Everything cached, stored, published or counted comes from a request that had taken its lock before, and is the 2xx answer its vendor gave it. |
| `GatewayAnswers.EveryAnswerWasGiven` | src/gateway/routes/proxy.py:59-344 | Every 2xx answer any caller is given, by its own call, from the cache or from another request's result, was given by a vendor to a request with the same cache key or dedup key: the same status, the same body, and its end-to-end headers, marked `X-Cache: HIT` unless it is the caller's own. |
| `GatewayWait.NoLostWakeup` | src/gateway/cache/dedup.py:168-194 | No lost wakeup: a waiter's mailbox holds everything published for its lock since it subscribed; a wait that times out does so 30 seconds or more after the GET, with every result stored before the GET expired and every publication either before the subscription or after the last empty poll. |
| `GatewayWait.PollTakesOldest` | src/gateway/cache/dedup.py:180-189 | A poll with a message in the mailbox leaves with the oldest one, which is readable; one without lasts until its timeout and then pauses for ten milliseconds. |
| `GatewayWait.WaitIsBounded` | src/gateway/cache/dedup.py:175-191 | At most 3000 polls, whatever the other requests do; none lasts longer than a tenth of a second or past the deadline, and no pause longer than a hundredth. |
| `GatewayWait.WaitEndsUnsubscribed` | src/gateway/cache/dedup.py:168-194 | In every run, whatever move comes next, a request with a mailbox does not end before its mailbox is gone. |
| `GatewayWait.Provenance` | src/gateway/cache/dedup.py:142-189 | What a waiter returns was published after it subscribed, or stored before its GET and less than 60 seconds earlier, by a request that had taken the same lock and got a 2xx answer; and it is that holder's response but for `X-Cache`. |
| `GatewayDedupWait.DedupWait` | src/gateway/cache/dedup.py:149-194 | `dedup_wait` as its loop, among arbitrary other requests: it terminates, is unsubscribed at the end, and returns a response of such an origin, or none under the conditions of the timeout; it never ends in an exception of its own. |
| `GatewayDedupWait.PollOnce` | src/gateway/cache/dedup.py:176-191 | One round of the loop leaves, or brings the deadline at least ten milliseconds closer. |
| `GatewayQuota.RunQuota` | src/gateway/quota/tracker.py:185-204 | The invariant of the counters: while its period lasts a counter equals the increments of its bucket, and it has no expiry before its period ends. |
| `GatewayQuota.QuotaConserved` | src/gateway/routes/proxy.py:307-320 | Conservation: in every run the counter read inside its period is the number of requests counted in that bucket, each with that key, a 2xx reply of its vendor and no other way of having been answered. |
| `GatewayQuota.QuotaDecides` | src/gateway/quota/tracker.py:130-161 | The check, both ways: a request whose check looks at the current period goes on exactly when fewer requests of its key than its limit were counted in it, and else is refused and told exactly how many were. |
| `GatewayQuota.FirstSetsExpiry` | src/gateway/quota/tracker.py:185-194 | Exactly the request that counts first in its period goes on to set the counter's expiry. |
| `GatewayQuota.AnsweredIsCounted` | src/gateway/routes/proxy.py:307-320 | Conversely every request with a quota that returned its own 2xx answer was counted, in exactly one bucket. |
| `GatewayExpiry.CountersExpire` | src/gateway/quota/tracker.py:185-194 | In every run a quota counter is gone within a day, or 31 days, from now; or it has no expiry because a request that counted in it is about to set it or was kept from it by an exception. |
| `GatewayQuota.RunStaysWithin` | src/gateway/routes/proxy.py:191-222 | The invariant of the bound: the counter plus the requests that no check of the current bucket can refuse any more stays within limit + k - 1. |
| `GatewayQuota.QuotaOvershoot` | src/gateway/quota/tracker.py:159-161 | If at most k requests of a key are past their check or hold a check of a bucket that is over, the current counter never exceeds limit + k - 1, in any interleaving and across any roll-over, with any number of requests waiting for their check; with a limit of at most zero it stays zero. |
| `GatewayQuota.OvershootOfFreshChecks` | src/gateway/quota/tracker.py:159-161 | Where no period rolls over between a clock reading and its GET, it is enough to count the requests between a passed check and their increment. |
| `GatewayOvershoot.OvershootIsReached` | src/gateway/quota/tracker.py:159-194 | The bound is tight: for every limit and every k of at least one some run keeps to the hypothesis and ends with the counter at limit + k - 1. |
| `GatewayOvershoot.PassedChecksAreNotEnough` | src/gateway/quota/tracker.py:130-161 | Without fresh checks, counting passed ones is not enough: a run with limit 1 and never more than one request past its check that ends with the new day's counter at 2. |
| `GatewayOvershoot.StaleCheckOvershoots` | src/gateway/quota/tracker.py:130-161 | A check whose bucket ended before its GET passes by the old counter, and its request then raises the current bucket's counter by one, however far that is over the limit. |
| `GatewayCache.RunCache` | src/gateway/cache/response_cache.py:99-124 | In every reachable state each cache key holds exactly what its last write or flush in the log left there. |
| `GatewayCache.EntriesAreFetched` | src/gateway/routes/proxy.py:302-304 | Every cache entry is the readable 2xx answer of some request with that cache key and a positive resolved TTL, fetched under its lock, and it expires exactly that TTL after its store: the endpoint's override if there is one, else the vendor's. |
| `GatewayCache.HitGuarantee` | src/gateway/routes/proxy.py:233-237 | Hit guarantee, both ways: a request whose cache check falls between the last store under its key and that entry's expiry or flush is answered with the stored response, which is what its holder returned plus `X-Cache`; any other request goes on to the lock. |
| `GatewayCache.HitsNeverCall` | src/gateway/routes/proxy.py:233-237 | A request answered from the cache stays so and never calls its vendor, however the run goes on. |
| `Flush.DeleteByPattern` | src/gateway/cache/response_cache.py:150-160 | The SCAN loop for any page sequence with duplicates and expiring keys: no matching key is live at the end, every other key is untouched, and the count is the number of matching keys at the start, less at most those that expired meanwhile. |
| `Flush.FlushVendor` | src/gateway/cache/response_cache.py:132-138 | The same for a vendor's pattern. |
| `Flush.FlushAll` | src/gateway/cache/response_cache.py:141-147 | The same for the pattern of all cache keys. |
| `Flush.VendorPatternIsExact` | src/gateway/cache/response_cache.py:132-138 | With colon-free slugs and no glob character in the flushed one, the pattern matches that vendor's cache keys and no other vendor's. |
| `Flush.FlushReachesFurther` | src/gateway/cache/response_cache.py:132-138 | Both hypotheses are needed: flushing `a*` also matches the keys of `ab`, and flushing `a` those of `a:b`. |
| `Flush.PatternStaysInCache` | src/gateway/cache/response_cache.py:132-138 | Whatever the slug, a vendor's pattern matches only keys that start with `cache:`. |
| `Flush.VendorFlushed` | src/gateway/cache/response_cache.py:132-160 | After a finished flush no cache key of the vendor is live and every cache key of any other vendor is as it was. |
| `Flush.AllFlushed` | src/gateway/cache/response_cache.py:141-160 | After a full flush no cache key is live and every other key is as it was. |
| `OAuth2.SingleFlight` | src/gateway/vendors/adapters/oauth2.py:73-93 | Single flight over all interleavings of `_ensure_token` and `refresh_credentials`: at most one fetch runs, the lock is held exactly while one does, and in the history each fetch ends before the next begins. |
| `OAuth2.FetchesAreSpaced` | src/gateway/vendors/adapters/oauth2.py:73-80 | After a grant, a fetch that is not forced starts no earlier than 30 seconds before the end of the last lifetime granted, unless the last token received was null. |
| `OAuth2.NullTokenIsFetchedAgain` | src/gateway/vendors/adapters/oauth2.py:64-80 | That exception is real: a null token fails its own caller and makes the next one fetch at once. |
| `OAuth2.HandedWithMargin` | src/gateway/vendors/adapters/oauth2.py:44-80 | Every token handed out was either granted to that very caller in the same stretch, with its whole lifetime left, or more than 30 seconds are left of the last lifetime granted; that lifetime is the token's own exactly when no reply with an unreadable lifetime came since. |
| `OAuth2.UsableTokenIsHandedOut` | src/gateway/vendors/adapters/oauth2.py:44-80 | The converse: as long as there is a token and more than 30 seconds are left of the last lifetime granted, a caller that does not force a refresh is handed that token at its next check and no fetch is made; any other caller goes on to the lock and, once no fetch is in flight, starts one. |
| `OAuth2.ReplyDecides` | src/gateway/vendors/adapters/oauth2.py:59-71 | What a reply leaves: a document's token replaces the old one, its lifetime counts from now, an hour when it states none, and the old end stays when it cannot be read; the caller is handed the token, or has refreshed it, exactly when the document has a readable lifetime and, to be handed, a token; any other caller fails. |
| `OAuth2.CancelEnds` | src/gateway/vendors/adapters/oauth2.py:75-93 | An exception ends its own call, and its fetch if it was fetching, and changes neither token nor lifetime. |
| `OAuth2.UnreadableRefresh` | src/gateway/vendors/adapters/oauth2.py:64-66 | That exception is real: a forced refresh whose reply has a token but no readable lifetime replaces the token and keeps the old lifetime, and the next caller is handed it. |
| `OAuth2.RunKeepsInv` | src/gateway/vendors/adapters/oauth2.py:64-93 | The invariant: the fields are what the history of replies says, and every event was justified when it happened. |
| `OAuth2Adapter.Adapter.LookFirst` | src/gateway/vendors/adapters/oauth2.py:73-74 | The first check of `_ensure_token` in place. |
| `OAuth2Adapter.Adapter.EnterLock` | src/gateway/vendors/adapters/oauth2.py:75-78 | The lock and the second check in place. |
| `OAuth2Adapter.Adapter.FetchToken` | src/gateway/vendors/adapters/oauth2.py:59-80 | The end of `_fetch_token` in place, with null tokens and lifetimes that are omitted or unreadable: the token is assigned before the lifetime is read. |
| `OAuth2Adapter.Adapter.Serve` | src/gateway/vendors/adapters/oauth2.py:44-93 | The adapter refines the specification over any interleaving of callers, replies and exceptions. |
| `Jobs.Manager.CreateJob` | src/gateway/jobs/manager.py:30-50 | `create_job`: one new row, pending, without error or response; all others unchanged. |
| `Jobs.Manager.RunJob` | src/gateway/jobs/manager.py:64-158 | `run_job` among other requests: a row that is still there is completed if and only if the vendor answered below 400; it has a response exactly when the vendor answered, with that code; its error is the HTTP error exactly for a code of 400 or more, the failed call exactly when the call raised, and the missing endpoint, vendor or adapter exactly when that lookup found nothing; it stays in_progress exactly when building the adapter raised. The run raises exactly then or when the webhook does after a call; the vendor is called once exactly when the run comes to it; no other row is touched. |
| `Jobs.Manager.ProcessPendingJobs` | src/gateway/jobs/manager.py:203-221 | One pass: it runs at most 50 of the pending jobs, at least one if there is any, and all of the batch unless a run raises; only the last one can be stranded, and only by a raise. |
| `Jobs.Manager.Work` | src/gateway/jobs/manager.py:192-221 | Any number of passes: statuses of every job follow pending, in_progress, completed-or-failed and no vendor is called twice for a job; without arrivals a pass that raises takes at least one job off the pending ones and any other 50, until none is left. |
| `Jobs.PassDrains` | src/gateway/jobs/manager.py:203-221 | A pass without arrivals takes the jobs it ran off the pending ones, and nothing else when no row was deleted. |
| `Jobs.OnlyARaiseStrands` | src/gateway/jobs/manager.py:96-101 | Every job that a pass ran and whose row is there is finished, except the one a raise may have stranded. |
| `Registry.ConfigsAreRows` | src/gateway/vendors/registry.py:52-70 | With the table's unique ids and slugs the loaded configs are exactly the active rows, field by field. |
| `Registry.ConfigsHaveUniqueIds` | src/gateway/vendors/registry.py:52-70 | And no two of them have the same id. |
| `Registry.BuildConfigs` | src/gateway/vendors/registry.py:57-69 | The loop of `load` builds the map in which a later row wins. |
| `Registry.AdapterNeeds` | src/gateway/vendors/adapters/__init__.py:18-31 | What each auth type requires of its config for an adapter to be built; an unknown one never builds. |
| `Registry.FetchIsStable` | src/gateway/vendors/registry.py:85-93 | `get_adapter` keeps the tables coherent, touches no other vendor's adapter, and a second call gives the same and builds nothing. What it finds is the adapter that is in the table afterwards, the one there was or a new object; it finds one exactly for a known vendor whose adapter can be built, and a raise changes no table. |
| `Registry.VendorRegistry.ReloadIfStale` | src/gateway/vendors/registry.py:78-80 | A load starts exactly when the last one is longer ago than the refresh interval. |
| `Registry.VendorRegistry.ResumeLoad` | src/gateway/vendors/registry.py:50-76 | A load suspended at its query: it enters when the lock is free, its query reads the current version of the table, and in one stretch it installs exactly the active rows of that version and an empty adapter table, sets the load time and releases the lock; before that it changes nothing. |
| `Registry.VendorRegistry.GetAdapter` | src/gateway/vendors/registry.py:85-93 | `get_adapter` in place: the cached object, or a new one built from the current config, or a raise that changes nothing. |
| `Registry.VendorRegistry.GetById` | src/gateway/vendors/registry.py:95-100 | The loop of `get_by_id`: a config with that id if and only if there is one. |
| `Registry.VendorRegistry.GetAdapterById` | src/gateway/vendors/registry.py:102-107 | Given unique ids, `get_adapter_by_id` does what `get_adapter` does for the vendor with that id, and finds nothing when there is none. |
| `Registry.VendorRegistry.Invalidate` | src/gateway/vendors/registry.py:112-119 | `invalidate`: one or all adapters are dropped and the next staleness check sees time zero. |
| `Registry.VendorRegistry.Serve` | src/gateway/vendors/registry.py:50-119 | Over every interleaving of table writes, suspended loads, lookups and evictions, adapters exist only for known vendors, each built from its vendor's current config; the configs are exactly the active rows of one version of the table, never an older one than before; and a load that had not been answered before, once through, has installed a version no older than the table was then. |

## Left out

- TokenBucket.ExpiryIsUnobservable: a caller reads its clock before Redis serves the script, and the statement covers calls served in order and at most one second late; `TokenBucket.LatenessBeyondASecondIsVisible` and `TokenBucket.OvertakingAcrossCapacitiesIsVisible` show that it fails beyond that.
- GatewayQuota.QuotaOvershoot: a request whose check is stale counts with those past their check; `GatewayOvershoot.PassedChecksAreNotEnough` is a run that needs this, and `GatewayQuota.OvershootOfFreshChecks` the condition under which nothing needs it.
- GatewayLock.LockIsExclusive: assumes that holders leave within the lock's TTL; past it the release is unconditional and nothing is claimed.
- Wire.RoundTrip: the reader accepts only the layout that the writer produces, not every JSON text that means the same; a text it rejects stands for the decoding error.
- Flush.DeleteByPattern: other writers are absent during the loop.
- GatewayDedupWait.DedupWait: no exception reaches the waiting request itself; exceptions at its `await`s are moves of the pipeline (`GatewayServer.Server.Cancel`, `GatewayServer.Server.Interrupt`).
- Jobs.Manager.Work: the endless worker loop is cut off after an arbitrary number of passes.
- Jobs.Manager.RunJob: the request payload, the parameters of the call and the webhook's content are not modelled, only how the run may end.
- Capacity zero, where the refill rate is zero and the script divides by it.
- Floating-point rounding in Lua and Python.
- Failures of Redis and the fail-open paths of the rate limiter and the quota check.
- An unknown quota period, for which the tracker raises.
- The HTTP request to the vendor: URL, forwarded headers and parameters.
- Request bodies and parameters inside the pipeline: a request carries the keys computed from them.
- Authentication, admin routes, the other adapters, schemas, migrations, logging, metrics and usage statistics, each of which is settled by one branch or belongs to a library.
