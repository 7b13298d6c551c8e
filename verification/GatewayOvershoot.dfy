/** How far the quota bound is reached and what it needs: runs that end exactly at limit + k - 1,
    and a run on which a stale check breaks the bound that counts passed checks only. */
module GatewayOvershoot {
  import opened Numbers
  import opened Wrappers
  import opened RedisStore
  import opened Wire
  import opened Responses
  import opened Calendar
  import opened Gateway
  import opened GatewayQuota

  // ----------------------------------------------------------------------------------------
  // One request on its own
  // ----------------------------------------------------------------------------------------

  /** Request `id` goes on alone for `n` steps. */
  function Alone(s: Sys, id: nat, reply: VendorReply, n: nat): (s': Sys)
    requires id < |s.tasks| && Sound(s.tasks[id]) && Proper(reply)
    ensures |s'.tasks| == |s.tasks| && s'.now == s.now && s'.tasks[id].req == s.tasks[id].req
    ensures forall j :: 0 <= j < |s.tasks| && j != id ==> s'.tasks[j] == s.tasks[j]
    decreases n
  {
    if n == 0 then s else Alone(Resumed(s, id, reply), id, reply, n - 1)
  }

  function CounterOf(s: Sys, ref: QuotaRef, index: int): int {
    CountAt(s.store, QuotaKey(ref, index), s.now)
  }

  /** The counter of the current bucket. */
  function Counter(s: Sys, ref: QuotaRef): int {
    CounterOf(s, ref, PeriodIndex(ref.period, s.now))
  }

  predicate Uncached(s: Sys, req: Request) {
    CacheKey(req.cacheKey) !in s.store
  }

  /** What steps of request `id` before its increment leave as it was. */
  ghost predicate SameCounters(s: Sys, s': Sys, id: nat) {
    && id < |s.tasks| && id < |s'.tasks| && s'.now == s.now && s'.tasks[id].req == s.tasks[id].req
    && forall ref, index :: CounterOf(s', ref, index) == CounterOf(s, ref, index)
  }

  lemma OneStep(s: Sys, s': Sys, id: nat, reply: VendorReply, n: nat)
    requires id < |s.tasks| && Sound(s.tasks[id]) && Proper(reply) && s' == Resumed(s, id, reply) && 0 < n
    requires !s.tasks[id].pc.IncrQuota? && !s.tasks[id].pc.ExpireQuota?
    ensures Alone(s, id, reply, n) == Alone(s', id, reply, n - 1) && SameCounters(s, s', id)
    ensures !s.tasks[id].pc.CacheSet? && Uncached(s, s.tasks[id].req) ==> Uncached(s', s.tasks[id].req)
  {
    OtherStepsKeepQuotas(s, s', id);
    forall ref, index
      ensures CounterOf(s', ref, index) == CounterOf(s, ref, index)
    {
      assert Same(s.store, s'.store, QuotaKey(ref, index));
    }
    if !s.tasks[id].pc.CacheSet? {
      assert Target(s.tasks[id]) != Some(CacheKey(s.tasks[id].req.cacheKey));
      assert Same(s.store, s'.store, CacheKey(s.tasks[id].req.cacheKey));
    }
  }

  /** The check passes below the limit, whichever bucket it looks at. */
  lemma CheckPasses(s: Sys, id: nat, index: int, reply: VendorReply, n: nat) returns (s': Sys)
    requires At(s, id, QuotaGet(index)) && Proper(reply) && 1 <= n
    requires CounterOf(s, s.tasks[id].req.quota.value.ref, index) < s.tasks[id].req.quota.value.limit
    ensures At(s', id, CacheGet) && s'.store == s.store && SameCounters(s, s', id)
    ensures Alone(s, id, reply, n) == Alone(s', id, reply, n - 1)
  {
    s' := CheckQuota(s, id, index);
    OneStep(s, s', id, reply, n);
  }

  /** A request that finds no cached response and the lock free calls its vendor. */
  lemma ComesToCall(s: Sys, id: nat, reply: VendorReply, n: nat) returns (s': Sys)
    requires At(s, id, CacheGet) && Proper(reply) && 3 <= n
    requires !Alive(s.store, CacheKey(s.tasks[id].req.cacheKey), s.now)
    requires !Alive(s.store, LockKey(s.tasks[id].req.dedupKey), s.now)
    ensures At(s', id, Calling) && SameCounters(s, s', id) && (Uncached(s, s.tasks[id].req) ==> Uncached(s', s.tasks[id].req))
    ensures Alone(s, id, reply, n) == Alone(s', id, reply, n - 3)
  {
    var s1 := CheckCache(s, id);
    OneStep(s, s1, id, reply, n);
    var s2 := TakeLock(s1, id);
    OneStep(s1, s2, id, reply, n - 1);
    s' := StartCall(s2, id);
    OneStep(s2, s', id, reply, n - 2);
  }

  /** A 2xx reply is cached if the TTL says so. */
  lemma ComesToStore(s: Sys, id: nat, reply: VendorReply, n: nat) returns (s': Sys)
    requires At(s, id, Calling) && Proper(reply) && reply.Answer? && Ok(reply.statusCode) && 2 <= n
    ensures At(s', id, StoreResult) && SameCounters(s, s', id)
    ensures CacheTtl(s.tasks[id].req) <= 0 && Uncached(s, s.tasks[id].req) ==> Uncached(s', s.tasks[id].req)
    ensures Alone(s, id, reply, n) == Alone(s', id, reply, n - 2)
  {
    var s1 := EndCall(s, id, reply);
    OneStep(s, s1, id, reply, n);
    s' := WriteCache(s1, id);
    OneStep(s1, s', id, reply, n - 1);
  }

  /** It is stored and published, and then the quota clock is read again. */
  lemma ComesToCount(s: Sys, id: nat, reply: VendorReply, n: nat) returns (s': Sys)
    requires At(s, id, StoreResult) && Proper(reply) && s.tasks[id].req.quota.Some? && 3 <= n
    ensures At(s', id, IncrQuota(PeriodIndex(s.tasks[id].req.quota.value.ref.period, s.now))) && SameCounters(s, s', id)
    ensures Uncached(s, s.tasks[id].req) ==> Uncached(s', s.tasks[id].req)
    ensures Alone(s, id, reply, n) == Alone(s', id, reply, n - 3)
  {
    var s2 := ComesToClock(s, id, reply, n);
    s' := ReadIncrClock(s2, id);
    OneStep(s2, s', id, reply, n - 2);
  }

  lemma ComesToClock(s: Sys, id: nat, reply: VendorReply, n: nat) returns (s': Sys)
    requires At(s, id, StoreResult) && Proper(reply) && s.tasks[id].req.quota.Some? && 2 <= n
    ensures At(s', id, IncrClock) && SameCounters(s, s', id) && (Uncached(s, s.tasks[id].req) ==> Uncached(s', s.tasks[id].req))
    ensures Alone(s, id, reply, n) == Alone(s', id, reply, n - 2)
  {
    var s1 := WriteResult(s, id);
    OneStep(s, s1, id, reply, n);
    s' := SendResult(s1, id);
    OneStep(s1, s', id, reply, n - 1);
  }

  /** The increment adds one to the counter of its bucket and nothing to any other. */
  ghost predicate CountedOnce(s: Sys, s': Sys, ref: QuotaRef, index: int) {
    && s'.now == s.now
    && CounterOf(s', ref, index) == CounterOf(s, ref, index) + 1
    && forall i :: i != index ==> CounterOf(s', ref, i) == CounterOf(s, ref, i)
  }

  lemma IncrementCounts(s: Sys, id: nat, index: int)
    requires At(s, id, IncrQuota(index))
    ensures var s' := Increment(s, id, index);
            && CountedOnce(s, s', s.tasks[id].req.quota.value.ref, index)
            && (Uncached(s, s.tasks[id].req) ==> Uncached(s', s.tasks[id].req))
  {
  }

  lemma ExpiryKeepsCounters(s: Sys, id: nat, index: int)
    requires At(s, id, ExpireQuota(index))
    ensures var s' := SetQuotaExpiry(s, id, index);
            && SameCounters(s, s', id) && (Uncached(s, s.tasks[id].req) ==> Uncached(s', s.tasks[id].req))
  {
  }

  lemma Releases(s: Sys, id: nat, out: Outcome, reply: VendorReply, n: nat) returns (s': Sys)
    requires At(s, id, Unlock(out)) && Proper(reply) && 1 <= n
    ensures id < |s'.tasks| && s'.tasks[id].pc.Done? && Sound(s'.tasks[id]) && SameCounters(s, s', id)
    ensures LockKey(s.tasks[id].req.dedupKey) !in s'.store
    ensures Uncached(s, s.tasks[id].req) ==> Uncached(s', s.tasks[id].req)
    ensures Alone(s, id, reply, n) == Alone(s', id, reply, n - 1)
  {
    s' := ReleaseLock(s, id, out);
    OneStep(s, s', id, reply, n);
  }

  lemma {:induction false} DoneRests(s: Sys, id: nat, reply: VendorReply, n: nat)
    requires id < |s.tasks| && Sound(s.tasks[id]) && s.tasks[id].pc.Done? && Proper(reply)
    ensures Alone(s, id, reply, n) == s
  {
    if n > 0 {
      assert Resumed(s, id, reply) == s;
      DoneRests(s, id, reply, n - 1);
    }
  }

  /** What a request that runs alone from its increment to its end leaves behind. */
  ghost predicate Counted(s: Sys, s': Sys, id: nat, index: int) {
    && id < |s.tasks| && id < |s'.tasks| && s.tasks[id].req.quota.Some?
    && s'.tasks[id].pc.Done? && LockKey(s.tasks[id].req.dedupKey) !in s'.store
    && CountedOnce(s, s', s.tasks[id].req.quota.value.ref, index)
    && (Uncached(s, s.tasks[id].req) ==> Uncached(s', s.tasks[id].req))
  }

  /** The increment was made: the counters say so, and the request is about to leave. */
  ghost predicate JustCounted(s: Sys, s1: Sys, id: nat, index: int) {
    && id < |s.tasks| && id < |s1.tasks| && Sound(s1.tasks[id])
    && s1.tasks[id].req == s.tasks[id].req && s.tasks[id].req.quota.Some?
    && CountedOnce(s, s1, s.tasks[id].req.quota.value.ref, index)
    && (Uncached(s, s.tasks[id].req) ==> Uncached(s1, s.tasks[id].req))
  }

  lemma IncrementCounted(s: Sys, id: nat, index: int)
    requires At(s, id, IncrQuota(index))
    ensures var s1 := Increment(s, id, index);
            JustCounted(s, s1, id, index) && (s1.tasks[id].pc == ExpireQuota(index) || s1.tasks[id].pc.Unlock?)
  {
    IncrementCounts(s, id, index);
  }

  lemma ExpiryCounted(s: Sys, s1: Sys, id: nat, index: int)
    requires JustCounted(s, s1, id, index) && At(s1, id, ExpireQuota(index))
    ensures var s2 := SetQuotaExpiry(s1, id, index);
            JustCounted(s, s2, id, index) && s2.tasks[id].pc.Unlock?
  {
    ExpiryKeepsCounters(s1, id, index);
  }

  lemma CountedThenDone(s: Sys, s1: Sys, s2: Sys, id: nat, index: int)
    requires JustCounted(s, s1, id, index) && SameCounters(s1, s2, id)
    requires s2.tasks[id].pc.Done? && LockKey(s1.tasks[id].req.dedupKey) !in s2.store
    requires Uncached(s1, s1.tasks[id].req) ==> Uncached(s2, s1.tasks[id].req)
    ensures Counted(s, s2, id, index)
  {
  }

  lemma Leaves(s: Sys, s1: Sys, id: nat, index: int, reply: VendorReply, n: nat)
    requires JustCounted(s, s1, id, index) && s1.tasks[id].pc.Unlock? && Proper(reply) && 1 <= n
    ensures Counted(s, Alone(s1, id, reply, n), id, index)
  {
    var s2 := ReleasesAndRests(s1, id, reply, n);
    CountedThenDone(s, s1, s2, id, index);
  }

  lemma ReleasesAndRests(s: Sys, id: nat, reply: VendorReply, n: nat) returns (s': Sys)
    requires id < |s.tasks| && Sound(s.tasks[id]) && s.tasks[id].pc.Unlock? && Proper(reply) && 1 <= n
    ensures Alone(s, id, reply, n) == s' && SameCounters(s, s', id) && s'.tasks[id].pc.Done?
    ensures LockKey(s.tasks[id].req.dedupKey) !in s'.store
    ensures Uncached(s, s.tasks[id].req) ==> Uncached(s', s.tasks[id].req)
  {
    s' := Releases(s, id, s.tasks[id].pc.out, reply, n);
    DoneRests(s', id, reply, n - 1);
  }

  lemma SetsExpiry(s: Sys, s1: Sys, id: nat, index: int, reply: VendorReply, n: nat) returns (s2: Sys)
    requires JustCounted(s, s1, id, index) && At(s1, id, ExpireQuota(index)) && Proper(reply) && 1 <= n
    ensures JustCounted(s, s2, id, index) && s2.tasks[id].pc.Unlock?
    ensures Alone(s1, id, reply, n) == Alone(s2, id, reply, n - 1)
  {
    s2 := SetQuotaExpiry(s1, id, index);
    ExpiryCounted(s, s1, id, index);
  }

  /** From the increment to the end: EXPIRE on the first write, and the release of the lock. */
  lemma CountsAndLeaves(s: Sys, id: nat, index: int, reply: VendorReply, n: nat)
    requires At(s, id, IncrQuota(index)) && Proper(reply) && 3 <= n
    ensures Counted(s, Alone(s, id, reply, n), id, index)
  {
    var s1 := Increment(s, id, index);
    IncrementCounted(s, id, index);
    assert Alone(s, id, reply, n) == Alone(s1, id, reply, n - 1);
    if s1.tasks[id].pc.ExpireQuota? {
      var s2 := SetsExpiry(s, s1, id, index, reply, n - 1);
      Leaves(s, s2, id, index, reply, n - 2);
    } else {
      Leaves(s, s1, id, index, reply, n - 1);
    }
  }

  /** A request that passed its check, with no cached response and the lock free, is counted once,
      in the bucket of the present moment, and is through after eleven steps. */
  lemma PassedIsCounted(s: Sys, id: nat, reply: VendorReply, n: nat)
    requires At(s, id, CacheGet) && Proper(reply) && reply.Answer? && Ok(reply.statusCode) && n == 11
    requires s.tasks[id].req.quota.Some?
    requires !Alive(s.store, CacheKey(s.tasks[id].req.cacheKey), s.now)
    requires !Alive(s.store, LockKey(s.tasks[id].req.dedupKey), s.now)
    ensures var s', req := Alone(s, id, reply, n), s.tasks[id].req;
            var ref := req.quota.value.ref;
            && s'.tasks[id].pc.Done? && LockKey(req.dedupKey) !in s'.store
            && CountedOnce(s, s', ref, PeriodIndex(ref.period, s.now))
            && (CacheTtl(req) <= 0 && Uncached(s, req) ==> Uncached(s', req))
  {
    var s3 := ComesToCall(s, id, reply, n);
    var s5 := ComesToStore(s3, id, reply, n - 3);
    var s8 := ComesToCount(s5, id, reply, n - 5);
    CountsAndLeaves(s8, id, PeriodIndex(s.tasks[id].req.quota.value.ref.period, s.now), reply, n - 8);
  }

  /** A check whose bucket ended before its GET passes by the old bucket's counter, and the
      request then raises the current bucket's counter by one, however far that is over the
      limit. */
  lemma StaleCheckOvershoots(s: Sys, id: nat, index: int, reply: VendorReply, n: nat)
    requires At(s, id, QuotaGet(index)) && Proper(reply) && reply.Answer? && Ok(reply.statusCode) && n == 12
    requires var t := s.tasks[id];
             && index != PeriodIndex(t.req.quota.value.ref.period, s.now)
             && CounterOf(s, t.req.quota.value.ref, index) < t.req.quota.value.limit
             && !Alive(s.store, CacheKey(t.req.cacheKey), s.now) && !Alive(s.store, LockKey(t.req.dedupKey), s.now)
    ensures var s', ref := Alone(s, id, reply, n), s.tasks[id].req.quota.value.ref;
            s'.tasks[id].pc.Done? && Counter(s', ref) == Counter(s, ref) + 1
  {
    var s1 := CheckPasses(s, id, index, reply, n);
    PassedIsCounted(s1, id, reply, n - 1);
  }

  // ----------------------------------------------------------------------------------------
  // Building runs
  // ----------------------------------------------------------------------------------------

  const REPLY := Answer(200, [], [], Stamp(2024, 1, 1, 0, 0, 0, 0))

  /** A request of one key; its responses are not cached. */
  function RequestOf(ref: QuotaRef, limit: int): Request {
    Request("cache:key", "dedup:key", 0, None, Some(Quota(ref, limit)), false)
  }

  ghost predicate AllAlike(s: Sys, ref: QuotaRef, limit: int) {
    forall id :: 0 <= id < |s.tasks| ==> s.tasks[id].req == RequestOf(ref, limit)
  }

  /** No response is cached and no one holds the lock. */
  predicate Idle(s: Sys) {
    CacheKey("cache:key") !in s.store && LockKey("dedup:key") !in s.store
  }

  function Ids(low: nat, high: nat): (ids: set<nat>)
    requires low <= high
    ensures |ids| == high - low && forall id :: id in ids <==> low <= id < high
    decreases high
  {
    if low == high then {} else Ids(low, high - 1) + {high - 1}
  }

  /** All requests of a run are alike, those before `base` are through, and there are at most `k`
      others. */
  ghost predicate Crowd(s: Sys, ref: QuotaRef, limit: int, base: nat, k: nat) {
    && AllAlike(s, ref, limit) && base <= |s.tasks| <= base + k
    && forall id :: 0 <= id < base ==> s.tasks[id].pc.Done?
  }

  lemma CrowdIsBounded(s: Sys, ref: QuotaRef, limit: int, base: nat, k: nat)
    requires Crowd(s, ref, limit, base, k)
    ensures Bounded(s, ref, limit, k)
  {
    var others := Ids(base, |s.tasks|);
    assert Unstoppable(s, ref) <= others;
    SubsetSize(Unstoppable(s, ref), others);
  }

  lemma BoundedSnoc(start: Instant, moves: seq<Move>, m: Move, ref: QuotaRef, limit: int, k: nat)
    requires BoundedRun(start, moves, ref, limit, k) && Bounded(Run(start, moves + [m]), ref, limit, k)
    ensures BoundedRun(start, moves + [m], ref, limit, k)
  {
    var all := moves + [m];
    forall n | 0 <= n <= |all|
      ensures Bounded(Run(start, all[..n]), ref, limit, k)
    {
      if n == |all| {
        assert all[..n] == all;
      } else {
        assert all[..n] == moves[..n];
      }
    }
  }

  /** A new request arrives in a crowd that has room for it. */
  lemma ArrivalFits(start: Instant, moves: seq<Move>, ref: QuotaRef, limit: int, base: nat, k: nat) returns (moves': seq<Move>)
    requires BoundedRun(start, moves, ref, limit, k) && Crowd(Run(start, moves), ref, limit, base, k)
    requires |Run(start, moves).tasks| < base + k
    ensures var s, s' := Run(start, moves), Run(start, moves');
            && s' == s.(tasks := s.tasks + [Arrival(RequestOf(ref, limit))])
            && BoundedRun(start, moves', ref, limit, k) && Crowd(s', ref, limit, base, k)
  {
    var m := Arrive(RequestOf(ref, limit));
    moves' := moves + [m];
    RunSnoc(start, moves, m);
    CrowdIsBounded(Run(start, moves'), ref, limit, base, k);
    BoundedSnoc(start, moves, m, ref, limit, k);
  }

  /** One of the crowd makes a step. */
  lemma StepFits(start: Instant, moves: seq<Move>, id: nat, ref: QuotaRef, limit: int, base: nat, k: nat)
    requires BoundedRun(start, moves, ref, limit, k) && Crowd(Run(start, moves), ref, limit, base, k)
    requires base <= id < |Run(start, moves).tasks|
    ensures var all := moves + [Resume(id, REPLY)];
            && BoundedRun(start, all, ref, limit, k) && Crowd(Run(start, all), ref, limit, base, k)
            && |Run(start, all).tasks| == |Run(start, moves).tasks|
  {
    var m := Resume(id, REPLY);
    RunSnoc(start, moves, m);
    CrowdStays(Run(start, moves), id, ref, limit, base, k);
    CrowdIsBounded(Run(start, moves + [m]), ref, limit, base, k);
    BoundedSnoc(start, moves, m, ref, limit, k);
  }

  /** `n` steps of request `id`. */
  function Steps(id: nat, n: nat): seq<Move> {
    seq(n, _ => Resume(id, REPLY))
  }

  lemma StepsSplit(moves: seq<Move>, id: nat, n: nat)
    requires 0 < n
    ensures moves + Steps(id, n) == (moves + [Resume(id, REPLY)]) + Steps(id, n - 1)
    ensures moves + Steps(id, n) == (moves + Steps(id, n - 1)) + [Resume(id, REPLY)]
  {
  }

  lemma {:induction false} StepsAreAlone(start: Instant, moves: seq<Move>, s: Sys, id: nat, n: nat)
    requires s == Run(start, moves) && AllSound(s) && id < |s.tasks|
    ensures Run(start, moves + Steps(id, n)) == Alone(s, id, REPLY, n)
    decreases n
  {
    if n == 0 {
      assert moves + Steps(id, n) == moves;
    } else {
      StepsSplit(moves, id, n);
      RunSnoc(start, moves, Resume(id, REPLY));
      StepsAreAlone(start, moves + [Resume(id, REPLY)], Resumed(s, id, REPLY), id, n - 1);
    }
  }

  lemma {:induction false} StepsFit(start: Instant, moves: seq<Move>, id: nat, n: nat, ref: QuotaRef, limit: int, base: nat, k: nat)
    requires BoundedRun(start, moves, ref, limit, k) && Crowd(Run(start, moves), ref, limit, base, k)
    requires base <= id < |Run(start, moves).tasks|
    ensures var all := moves + Steps(id, n);
            BoundedRun(start, all, ref, limit, k) && Crowd(Run(start, all), ref, limit, base, k) && id < |Run(start, all).tasks|
    decreases n
  {
    if n == 0 {
      assert moves + Steps(id, n) == moves;
    } else {
      StepsFit(start, moves, id, n - 1, ref, limit, base, k);
      StepsSplit(moves, id, n);
      StepFits(start, moves + Steps(id, n - 1), id, ref, limit, base, k);
    }
  }

  /** One of the crowd goes on alone. */
  lemma AloneFits(start: Instant, moves: seq<Move>, s: Sys, id: nat, n: nat, ref: QuotaRef, limit: int, base: nat, k: nat)
    returns (moves': seq<Move>)
    requires BoundedRun(start, moves, ref, limit, k) && s == Run(start, moves) && AllSound(s) && Crowd(s, ref, limit, base, k)
    requires base <= id < |s.tasks|
    ensures Run(start, moves') == Alone(s, id, REPLY, n)
    ensures BoundedRun(start, moves', ref, limit, k) && Crowd(Run(start, moves'), ref, limit, base, k)
  {
    moves' := moves + Steps(id, n);
    StepsAreAlone(start, moves, s, id, n);
    StepsFit(start, moves, id, n, ref, limit, base, k);
  }

  lemma CrowdStays(s: Sys, id: nat, ref: QuotaRef, limit: int, base: nat, k: nat)
    requires AllSound(s) && Crowd(s, ref, limit, base, k) && base <= id < |s.tasks|
    ensures Apply(s, Resume(id, REPLY)) == Resumed(s, id, REPLY)
    ensures Crowd(Resumed(s, id, REPLY), ref, limit, base, k)
  {
    assert OnlyTask(s, Resumed(s, id, REPLY), id);
  }

  // ----------------------------------------------------------------------------------------
  // The bound is reached
  // ----------------------------------------------------------------------------------------

  /** `done` requests are through, `passed` more are past their check, and the counter is theirs. */
  ghost predicate Stage(s: Sys, start: Instant, ref: QuotaRef, limit: int, k: nat, base: nat, done: nat, passed: nat) {
    && s.now == start && Idle(s) && Crowd(s, ref, limit, base, k) && |s.tasks| == done + passed
    && (forall id :: 0 <= id < done ==> s.tasks[id].pc.Done?)
    && (forall id :: done <= id < done + passed ==> s.tasks[id].pc.CacheGet?)
    && Counter(s, ref) == done
  }

  /** A newcomer passes its check while the counter is below the limit. */
  lemma OneMorePasses(start: Instant, moves: seq<Move>, ref: QuotaRef, limit: int, k: nat, base: nat, done: nat, passed: nat)
    returns (moves': seq<Move>)
    requires BoundedRun(start, moves, ref, limit, k) && Stage(Run(start, moves), start, ref, limit, k, base, done, passed)
    requires done + passed < base + k && done < limit && base <= done
    ensures BoundedRun(start, moves', ref, limit, k) && Stage(Run(start, moves'), start, ref, limit, k, base, done, passed + 1)
  {
    var moves1 := ArrivalFits(start, moves, ref, limit, base, k);
    var id, n := done + passed, 2;
    moves' := AloneFits(start, moves1, Run(start, moves1), id, n, ref, limit, base, k);
    NewcomerPasses(Run(start, moves1), id, n);
  }

  lemma NewcomerPasses(s: Sys, id: nat, n: nat)
    requires At(s, id, QuotaClock) && n == 2 && Proper(REPLY)
    requires Counter(s, s.tasks[id].req.quota.value.ref) < s.tasks[id].req.quota.value.limit
    ensures var s' := Alone(s, id, REPLY, n);
            s'.tasks[id].pc.CacheGet? && s'.store == s.store
  {
    var s1 := ReadQuotaClock(s, id);
    OneStep(s, s1, id, REPLY, n);
    var s2 := CheckPasses(s1, id, s1.tasks[id].pc.index, REPLY, n - 1);
  }

  lemma StageAdvances(s: Sys, s': Sys, start: Instant, ref: QuotaRef, limit: int, k: nat, base: nat, done: nat, passed: nat)
    requires Stage(s, start, ref, limit, k, base, done, passed) && 0 < passed && base <= done
    requires Crowd(s', ref, limit, base, k) && |s'.tasks| == |s.tasks| && s'.now == s.now
    requires forall j :: 0 <= j < |s.tasks| && j != done ==> s'.tasks[j] == s.tasks[j]
    requires s'.tasks[done].pc.Done? && Idle(s') && Counter(s', ref) == Counter(s, ref) + 1
    ensures Stage(s', start, ref, limit, k, base, done + 1, passed - 1)
  {
  }

  lemma FirstCounts(s: Sys, start: Instant, ref: QuotaRef, limit: int, k: nat, base: nat, done: nat, passed: nat, n: nat)
    requires Stage(s, start, ref, limit, k, base, done, passed) && 0 < passed && n == 11 && AllSound(s)
    ensures var s' := Alone(s, done, REPLY, n);
            s'.tasks[done].pc.Done? && Idle(s') && Counter(s', ref) == Counter(s, ref) + 1
  {
    assert s.tasks[done].req == RequestOf(ref, limit);
    PassedIsCounted(s, done, REPLY, n);
  }

  /** The first of those that passed runs to its end. */
  lemma OneMoreCounts(start: Instant, moves: seq<Move>, ref: QuotaRef, limit: int, k: nat, base: nat, done: nat, passed: nat)
    returns (moves': seq<Move>)
    requires BoundedRun(start, moves, ref, limit, k) && Stage(Run(start, moves), start, ref, limit, k, base, done, passed)
    requires 0 < passed && base <= done
    ensures BoundedRun(start, moves', ref, limit, k) && Stage(Run(start, moves'), start, ref, limit, k, base, done + 1, passed - 1)
  {
    var n := 11;
    moves' := AloneFits(start, moves, Run(start, moves), done, n, ref, limit, base, k);
    FirstCounts(Run(start, moves), start, ref, limit, k, base, done, passed, n);
    StageAdvances(Run(start, moves), Run(start, moves'), start, ref, limit, k, base, done, passed);
  }

  lemma Nothing(start: Instant, ref: QuotaRef, limit: int, k: nat)
    ensures BoundedRun(start, [], ref, limit, k) && Stage(Run(start, []), start, ref, limit, k, 0, 0, 0)
  {
    var none: seq<Move> := [];
    CrowdIsBounded(Run(start, none), ref, limit, 0, k);
    assert forall n :: 0 <= n <= |none| ==> none[..n] == none;
  }

  /** The base moves up when everyone is through. */
  lemma Rebase(s: Sys, start: Instant, ref: QuotaRef, limit: int, k: nat, base: nat, done: nat)
    requires Stage(s, start, ref, limit, k, base, done, 0)
    ensures Stage(s, start, ref, limit, k, done, done, 0)
  {
  }

  /** Some requests go through one after the other. */
  lemma {:induction false} OneByOne(start: Instant, ref: QuotaRef, limit: int, k: nat, done: nat) returns (moves: seq<Move>)
    requires 1 <= k && done < limit
    ensures BoundedRun(start, moves, ref, limit, k) && Stage(Run(start, moves), start, ref, limit, k, done, done, 0)
  {
    if done == 0 {
      moves := [];
      Nothing(start, ref, limit, k);
    } else {
      var before := done - 1;
      moves := OneByOne(start, ref, limit, k, before);
      moves := OneMorePasses(start, moves, ref, limit, k, before, before, 0);
      moves := OneMoreCounts(start, moves, ref, limit, k, before, before, 1);
      Rebase(Run(start, moves), start, ref, limit, k, before, done);
    }
  }

  /** Then some pass their check at the last free place. */
  lemma {:induction false} AllPass(start: Instant, ref: QuotaRef, limit: int, k: nat, passed: nat) returns (moves: seq<Move>)
    requires 1 <= k && 1 <= limit && passed <= k
    ensures BoundedRun(start, moves, ref, limit, k) && Stage(Run(start, moves), start, ref, limit, k, limit - 1, limit - 1, passed)
  {
    if passed == 0 {
      moves := OneByOne(start, ref, limit, k, limit - 1);
    } else {
      moves := AllPass(start, ref, limit, k, passed - 1);
      moves := OneMorePasses(start, moves, ref, limit, k, limit - 1, limit - 1, passed - 1);
    }
  }

  /** And then they are counted. */
  lemma {:induction false} AllCount(start: Instant, ref: QuotaRef, limit: int, k: nat, counted: nat) returns (moves: seq<Move>)
    requires 1 <= k && 1 <= limit && counted <= k
    ensures BoundedRun(start, moves, ref, limit, k)
    ensures Stage(Run(start, moves), start, ref, limit, k, limit - 1, limit - 1 + counted, k - counted)
  {
    if counted == 0 {
      moves := AllPass(start, ref, limit, k, k);
    } else {
      var before := counted - 1;
      moves := AllCount(start, ref, limit, k, before);
      moves := OneMoreCounts(start, moves, ref, limit, k, limit - 1, limit - 1 + before, k - before);
    }
  }

  /** The overshoot bound is tight: for every limit and every `k` of at least one some run keeps to
      its hypothesis and ends with the counter at limit + k - 1. */
  lemma OvershootIsReached(start: Instant, ref: QuotaRef, limit: int, k: nat) returns (moves: seq<Move>)
    requires 1 <= limit && 1 <= k
    ensures BoundedRun(start, moves, ref, limit, k)
    ensures var s := Run(start, moves);
            CountAt(s.store, QuotaKey(ref, PeriodIndex(ref.period, s.now)), s.now) == limit + k - 1
  {
    moves := AllCount(start, ref, limit, k, k);
  }

  // ----------------------------------------------------------------------------------------
  // Counting passed checks only is not enough
  // ----------------------------------------------------------------------------------------

  const BEFORE_MIDNIGHT: Instant := 86399.0

  /** All requests are alike and none but `active` is past its check. */
  ghost predicate OneActive(s: Sys, ref: QuotaRef, limit: int, active: nat) {
    && AllAlike(s, ref, limit)
    && forall j :: 0 <= j < |s.tasks| && j != active ==> !PastCheck(s.tasks[j].pc)
  }

  lemma OneActiveMove(start: Instant, moves: seq<Move>, m: Move, ref: QuotaRef, limit: int, active: nat)
    requires PassedRun(start, moves, ref, limit, 1) && OneActive(Run(start, moves + [m]), ref, limit, active)
    ensures PassedRun(start, moves + [m], ref, limit, 1) && Run(start, moves + [m]) == Apply(Run(start, moves), m)
  {
    var all := moves + [m];
    RunSnoc(start, moves, m);
    SubsetSize(Passed(Run(start, all), ref), {active});
    forall n | 0 <= n <= |all|
      ensures OneLimit(Run(start, all[..n]), ref, limit) && |Passed(Run(start, all[..n]), ref)| <= 1
    {
      if n == |all| {
        assert all[..n] == all;
      } else {
        assert all[..n] == moves[..n];
      }
    }
  }

  lemma StaysOneActive(s: Sys, ref: QuotaRef, limit: int, active: nat)
    requires AllSound(s) && OneActive(s, ref, limit, active) && active < |s.tasks|
    ensures Apply(s, Resume(active, REPLY)) == Resumed(s, active, REPLY)
    ensures OneActive(Resumed(s, active, REPLY), ref, limit, active)
  {
    assert OnlyTask(s, Resumed(s, active, REPLY), active);
  }

  lemma {:induction false} AloneActive(start: Instant, moves: seq<Move>, n: nat, ref: QuotaRef, limit: int, active: nat)
    returns (moves': seq<Move>)
    requires PassedRun(start, moves, ref, limit, 1) && OneActive(Run(start, moves), ref, limit, active)
    requires active < |Run(start, moves).tasks|
    ensures AllSound(Run(start, moves)) && Run(start, moves') == Alone(Run(start, moves), active, REPLY, n)
    ensures PassedRun(start, moves', ref, limit, 1) && OneActive(Run(start, moves'), ref, limit, active)
    decreases n
  {
    if n == 0 {
      moves' := moves;
    } else {
      var m := Resume(active, REPLY);
      RunSnoc(start, moves, m);
      StaysOneActive(Run(start, moves), ref, limit, active);
      OneActiveMove(start, moves, m, ref, limit, active);
      moves' := AloneActive(start, moves + [m], n - 1, ref, limit, active);
    }
  }

  lemma Midnight()
    ensures PeriodIndex(Daily, BEFORE_MIDNIGHT) == 0 && PeriodIndex(Daily, 86400.0) == 1
  {
    assert DayOf(BEFORE_MIDNIGHT) == 0 && DayOf(86400.0) == 1;
  }

  function Newcomer(ref: QuotaRef, pc: Pc): Task {
    Arrival(RequestOf(ref, 1)).(pc := pc)
  }

  /** One or two requests that have not passed a check, and nothing else. */
  function Early(ref: QuotaRef, now: Instant, first: Pc, second: Option<Pc>): (s: Sys)
    requires first.QuotaClock? || first.QuotaGet?
    requires second.Some? ==> second.value.QuotaClock?
    ensures AllSound(s)
  {
    Sys(now, map[], map[], [Newcomer(ref, first)] + (if second.Some? then [Newcomer(ref, second.value)] else []), [])
  }

  /** One more move of a run none of whose requests has passed a check. */
  lemma EarlyMove(moves: seq<Move>, m: Move, ref: QuotaRef, now: Instant, first: Pc, second: Option<Pc>, s': Sys) returns (moves': seq<Move>)
    requires PassedRun(BEFORE_MIDNIGHT, moves, ref, 1, 1) && s' == Apply(Run(BEFORE_MIDNIGHT, moves), m)
    requires (first.QuotaClock? || first.QuotaGet?) && (second.Some? ==> second.value.QuotaClock?)
    requires s' == Early(ref, now, first, second)
    ensures PassedRun(BEFORE_MIDNIGHT, moves', ref, 1, 1) && Run(BEFORE_MIDNIGHT, moves') == s'
  {
    moves' := moves + [m];
    RunSnoc(BEFORE_MIDNIGHT, moves, m);
    OneActiveMove(BEFORE_MIDNIGHT, moves, m, ref, 1, 0);
  }

  lemma FirstArrives(ref: QuotaRef)
    ensures Apply(Initial(BEFORE_MIDNIGHT), Arrive(RequestOf(ref, 1))) == Early(ref, BEFORE_MIDNIGHT, QuotaClock, None)
  {
    assert Initial(BEFORE_MIDNIGHT).tasks + [Arrival(RequestOf(ref, 1))] == Early(ref, BEFORE_MIDNIGHT, QuotaClock, None).tasks;
  }

  lemma FirstReadsClock(ref: QuotaRef)
    requires ref.period == Daily
    ensures Apply(Early(ref, BEFORE_MIDNIGHT, QuotaClock, None), Resume(0, REPLY)) == Early(ref, BEFORE_MIDNIGHT, QuotaGet(0), None)
  {
    Midnight();
    var s := Early(ref, BEFORE_MIDNIGHT, QuotaClock, None);
    assert Resumed(s, 0, REPLY) == ReadQuotaClock(s, 0);
    assert ReadQuotaClock(s, 0).tasks == Early(ref, BEFORE_MIDNIGHT, QuotaGet(0), None).tasks;
  }

  lemma SecondArrives(ref: QuotaRef)
    ensures Apply(Early(ref, 86400.0, QuotaGet(0), None), Arrive(RequestOf(ref, 1))) == Early(ref, 86400.0, QuotaGet(0), Some(QuotaClock))
  {
    assert Early(ref, 86400.0, QuotaGet(0), None).tasks + [Arrival(RequestOf(ref, 1))]
        == Early(ref, 86400.0, QuotaGet(0), Some(QuotaClock)).tasks;
  }

  /** Two days meet: the first request waits with the old day's bucket, the second one arrives. */
  lemma FirstMoves(ref: QuotaRef) returns (moves: seq<Move>)
    requires ref.period == Daily
    ensures PassedRun(BEFORE_MIDNIGHT, moves, ref, 1, 1)
    ensures Run(BEFORE_MIDNIGHT, moves) == Early(ref, 86400.0, QuotaGet(0), Some(QuotaClock))
  {
    var arrive := Arrive(RequestOf(ref, 1));
    moves := [];
    assert moves[..0] == moves && Passed(Run(BEFORE_MIDNIGHT, moves), ref) == {};
    FirstArrives(ref);
    moves := EarlyMove(moves, arrive, ref, BEFORE_MIDNIGHT, QuotaClock, None, Early(ref, BEFORE_MIDNIGHT, QuotaClock, None));
    FirstReadsClock(ref);
    moves := EarlyMove(moves, Resume(0, REPLY), ref, BEFORE_MIDNIGHT, QuotaGet(0), None, Early(ref, BEFORE_MIDNIGHT, QuotaGet(0), None));
    moves := EarlyMove(moves, Tick(1.0), ref, 86400.0, QuotaGet(0), None, Early(ref, 86400.0, QuotaGet(0), None));
    SecondArrives(ref);
    moves := EarlyMove(moves, arrive, ref, 86400.0, QuotaGet(0), Some(QuotaClock), Early(ref, 86400.0, QuotaGet(0), Some(QuotaClock)));
  }

  lemma SecondReadsClock(s: Sys, ref: QuotaRef, n: nat) returns (s': Sys)
    requires ref.period == Daily && s == Early(ref, 86400.0, QuotaGet(0), Some(QuotaClock)) && 1 <= n
    ensures At(s', 1, QuotaGet(1)) && s'.tasks[1].req == RequestOf(ref, 1) && s'.now == 86400.0 && s'.store == map[]
    ensures Alone(s, 1, REPLY, n) == Alone(s', 1, REPLY, n - 1)
  {
    Midnight();
    s' := ReadQuotaClock(s, 1);
    OneStep(s, s', 1, REPLY, n);
  }

  lemma SecondPasses(s: Sys, ref: QuotaRef, n: nat) returns (s': Sys)
    requires At(s, 1, QuotaGet(1)) && s.tasks[1].req == RequestOf(ref, 1) && s.now == 86400.0 && s.store == map[] && 1 <= n
    ensures At(s', 1, CacheGet) && s'.tasks[1].req == RequestOf(ref, 1) && s'.now == 86400.0 && Idle(s')
    ensures CounterOf(s', ref, 0) == 0 && CounterOf(s', ref, 1) == 0
    ensures Alone(s, 1, REPLY, n) == Alone(s', 1, REPLY, n - 1)
  {
    s' := CheckPasses(s, 1, 1, REPLY, n);
  }

  /** The second request fills the new day's bucket. */
  lemma SecondCounts(s: Sys, ref: QuotaRef, n: nat)
    requires ref.period == Daily && s == Early(ref, 86400.0, QuotaGet(0), Some(QuotaClock)) && n == 13
    ensures var s' := Alone(s, 1, REPLY, n);
            && s'.tasks[1].pc.Done? && Idle(s')
            && CounterOf(s', ref, 1) == 1 && CounterOf(s', ref, 0) == 0
  {
    var s1 := SecondReadsClock(s, ref, n);
    var s2 := SecondPasses(s1, ref, n - 1);
    SecondIsCounted(s2, ref, n - 2);
  }

  lemma SecondIsCounted(s: Sys, ref: QuotaRef, n: nat)
    requires ref.period == Daily && At(s, 1, CacheGet) && s.tasks[1].req == RequestOf(ref, 1) && s.now == 86400.0
    requires Idle(s) && CounterOf(s, ref, 0) == 0 && CounterOf(s, ref, 1) == 0 && n == 11
    ensures var s' := Alone(s, 1, REPLY, n);
            && s'.tasks[1].pc.Done? && Idle(s')
            && CounterOf(s', ref, 1) == 1 && CounterOf(s', ref, 0) == 0
  {
    Midnight();
    PassedIsCounted(s, 1, REPLY, n);
  }

  /** A run with limit 1 in which never more than one request is between its passed check and its
      increment, and which ends with the current day's counter at 2: a second before midnight the
      first request reads the clock; after midnight the second one uses up the new day; and then
      the first one's check looks at the old day's counter and passes. */
  lemma PassedChecksAreNotEnough(ref: QuotaRef) returns (moves: seq<Move>)
    requires ref.period == Daily
    ensures PassedRun(BEFORE_MIDNIGHT, moves, ref, 1, 1)
    ensures var s := Run(BEFORE_MIDNIGHT, moves);
            CountAt(s.store, QuotaKey(ref, PeriodIndex(ref.period, s.now)), s.now) == 2
  {
    moves := FirstMoves(ref);
    var s, n := Run(BEFORE_MIDNIGHT, moves), 13;
    moves := AloneActive(BEFORE_MIDNIGHT, moves, n, ref, 1, 1);
    SecondCounts(s, ref, n);
    moves := FirstOvershoots(moves, Run(BEFORE_MIDNIGHT, moves), ref);
  }

  /** The first request's check is stale and passes. */
  lemma FirstOvershoots(moves: seq<Move>, s: Sys, ref: QuotaRef) returns (moves': seq<Move>)
    requires PassedRun(BEFORE_MIDNIGHT, moves, ref, 1, 1) && s == Run(BEFORE_MIDNIGHT, moves)
    requires ref.period == Daily && AllAlike(s, ref, 1) && |s.tasks| == 2 && s.now == 86400.0
    requires s.tasks[0].pc == QuotaGet(0) && s.tasks[1].pc.Done? && Idle(s)
    requires CounterOf(s, ref, 1) == 1 && CounterOf(s, ref, 0) == 0
    ensures PassedRun(BEFORE_MIDNIGHT, moves', ref, 1, 1)
    ensures Counter(Run(BEFORE_MIDNIGHT, moves'), ref) == 2
  {
    Midnight();
    var n := 12;
    moves' := AloneActive(BEFORE_MIDNIGHT, moves, n, ref, 1, 0);
    assert At(s, 0, QuotaGet(0)) && s.tasks[0].req == RequestOf(ref, 1);
    StaleCheckOvershoots(s, 0, 0, REPLY, n);
  }
}
