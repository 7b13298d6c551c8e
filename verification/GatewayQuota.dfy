/** Quota counters over every interleaving: conservation of the counter of the current period,
    and how far concurrent requests can push it past the limit. */
module GatewayQuota {
  import opened Numbers
  import opened Wrappers
  import opened RedisStore
  import opened Calendar
  import opened Responses
  import opened Gateway
  import opened GatewayHistory
  import opened GatewayReplies

  /** The number of times the counter of one bucket was incremented. */
  function Increments(log: seq<Event>, ref: QuotaRef, index: int): nat {
    if log == [] then 0
    else
      var n := |log| - 1;
      Increments(log[..n], ref, index)
        + if log[n].Incremented? && log[n].ref == ref && log[n].index == index then 1 else 0
  }

  lemma IncrementsSnoc(log: seq<Event>, e: Event, ref: QuotaRef, index: int)
    ensures Increments(log + [e], ref, index)
         == Increments(log, ref, index) + if e.Incremented? && e.ref == ref && e.index == index then 1 else 0
  {
    assert (log + [e])[..|log|] == log;
  }

  // ----------------------------------------------------------------------------------------
  // Buckets and the clock
  // ----------------------------------------------------------------------------------------

  /** The bucket was that of some instant no later than `now`. */
  ghost predicate Begun(p: Period, index: int, now: Instant) {
    exists t: Instant :: t <= now && PeriodIndex(p, t) == index
  }

  /** An expiry that no instant up to the end of the bucket's period reaches. */
  ghost predicate Outlives(expiresAt: Option<real>, p: Period, index: int) {
    expiresAt.Some? ==> forall t: Instant :: PeriodIndex(p, t) <= index ==> t < expiresAt.value
  }

  lemma BegunStays(p: Period, index: int, now: Instant, later: Instant)
    requires Begun(p, index, now) && now <= later
    ensures Begun(p, index, later)
  {
    var t: Instant :| t <= now && PeriodIndex(p, t) == index;
  }

  lemma BegunNow(p: Period, now: Instant)
    ensures Begun(p, PeriodIndex(p, now), now)
  {
  }

  lemma BegunIsPast(p: Period, index: int, now: Instant)
    requires Begun(p, index, now)
    ensures index <= PeriodIndex(p, now)
  {
    var t: Instant :| t <= now && PeriodIndex(p, t) == index;
    PeriodIndexGrows(p, t, now);
  }

  /** An EXPIRE sent for a bucket that had begun outlives its period, however late it is served. */
  lemma ExpiryOutlives(p: Period, index: int, now: Instant)
    requires Begun(p, index, now)
    ensures Outlives(Some(now + PeriodTtl(p) as real), p, index)
  {
    var b: Instant :| b <= now && PeriodIndex(p, b) == index;
    TtlCoversPeriod(p, b);
    forall t: Instant | PeriodIndex(p, t) <= index
      ensures t < now + PeriodTtl(p) as real
    {
      if b <= t {
        PeriodIndexGrows(p, b, t);
      }
    }
  }

  // ----------------------------------------------------------------------------------------
  // Conservation
  // ----------------------------------------------------------------------------------------

  /** While a bucket's period is not over, its counter is the number of increments, and cannot
      expire before the period does. */
  ghost predicate Tracked(s: Sys, ref: QuotaRef, index: int) {
    PeriodIndex(ref.period, s.now) <= index ==>
      var key := QuotaKey(ref, index);
      var n := Increments(s.log, ref, index);
      if key in s.store then
        s.store[key].value == Count(n) && 0 < n && Outlives(s.store[key].expiresAt, ref.period, index)
      else n == 0
  }

  ghost predicate Stamped(t: Task, now: Instant) {
    match t.pc
    case QuotaGet(index) => t.req.quota.Some? && Begun(t.req.quota.value.ref.period, index, now)
    case IncrQuota(index) => t.req.quota.Some? && Begun(t.req.quota.value.ref.period, index, now)
    case ExpireQuota(index) => t.req.quota.Some? && Begun(t.req.quota.value.ref.period, index, now)
    case _ => true
  }

  ghost predicate QuotaTracked(s: Sys) {
    && (forall ref, index :: Tracked(s, ref, index))
    && (forall id :: 0 <= id < |s.tasks| ==> Stamped(s.tasks[id], s.now))
    && (forall p :: 0 <= p < |s.log| && s.log[p].Incremented? ==> Begun(s.log[p].ref.period, s.log[p].index, s.now))
  }

  /** A tracked counter is live as long as its period lasts. */
  lemma TrackedCount(s: Sys, ref: QuotaRef, index: int)
    requires Tracked(s, ref, index) && PeriodIndex(ref.period, s.now) <= index
    ensures CountAt(s.store, QuotaKey(ref, index), s.now) == Increments(s.log, ref, index)
    ensures Alive(s.store, QuotaKey(ref, index), s.now) <==> QuotaKey(ref, index) in s.store
  {
  }

  lemma IncrementTracks(s: Sys, id: nat, index: int, ref: QuotaRef, i: int)
    requires At(s, id, IncrQuota(index)) && Tracked(s, ref, i)
    ensures Tracked(Increment(s, id, index), ref, i)
  {
    var s' := Increment(s, id, index);
    var e := Incremented(id, s.tasks[id].req.quota.value.ref, index);
    IncrementsSnoc(s.log, e, ref, i);
    if PeriodIndex(ref.period, s.now) <= i {
      TrackedCount(s, ref, i);
    }
  }

  lemma SetExpiryTracks(s: Sys, id: nat, index: int, ref: QuotaRef, i: int)
    requires At(s, id, ExpireQuota(index)) && Tracked(s, ref, i) && Stamped(s.tasks[id], s.now)
    ensures Tracked(SetQuotaExpiry(s, id, index), ref, i)
  {
    var mine := s.tasks[id].req.quota.value.ref;
    ExpiryOutlives(mine.period, index, s.now);
    if PeriodIndex(ref.period, s.now) <= i {
      TrackedCount(s, ref, i);
    }
  }

  ghost predicate SameQuotas(a: map<Key, Entry>, b: map<Key, Entry>) {
    forall ref, index :: Same(a, b, QuotaKey(ref, index))
  }

  lemma OtherStepsKeepQuotas(s: Sys, s': Sys, id: nat)
    requires id < |s.tasks| && OnlyTask(s, s', id)
    requires !s.tasks[id].pc.IncrQuota? && !s.tasks[id].pc.ExpireQuota?
    ensures SameQuotas(s.store, s'.store)
  {
    forall ref, index
      ensures Same(s.store, s'.store, QuotaKey(ref, index))
    {
      assert Target(s.tasks[id]) != Some(QuotaKey(ref, index));
    }
  }

  lemma UncountedKeepsTracked(s: Sys, s': Sys, ref: QuotaRef, index: int)
    requires Tracked(s, ref, index) && SameQuotas(s.store, s'.store) && s.now <= s'.now
    requires Grew(s, s') && (Added(s, s').Some? ==> !Added(s, s').value.Incremented?)
    ensures Tracked(s', ref, index)
  {
    assert Same(s.store, s'.store, QuotaKey(ref, index));
    PeriodIndexGrows(ref.period, s.now, s'.now);
    if s'.log != s.log {
      assert s'.log == s.log + [s'.log[|s.log|]];
      IncrementsSnoc(s.log, s'.log[|s.log|], ref, index);
    }
  }

  lemma ClockStamps(s: Sys, id: nat, reply: VendorReply)
    requires id < |s.tasks| && Sound(s.tasks[id]) && Proper(reply) && Stamped(s.tasks[id], s.now)
    ensures Stamped(Resumed(s, id, reply).tasks[id], s.now)
  {
    var t := s.tasks[id];
    if t.req.quota.Some? {
      BegunNow(t.req.quota.value.ref.period, s.now);
    }
  }

  lemma OtherStepTracks(s: Sys, s': Sys, id: nat, ref: QuotaRef, index: int)
    requires id < |s.tasks| && OnlyTask(s, s', id) && Tracked(s, ref, index)
    requires !s.tasks[id].pc.IncrQuota? && !s.tasks[id].pc.ExpireQuota?
    ensures Tracked(s', ref, index)
  {
    OtherStepsKeepQuotas(s, s', id);
    UncountedKeepsTracked(s, s', ref, index);
  }

  lemma StepTracksEach(s: Sys, id: nat, reply: VendorReply, ref: QuotaRef, index: int)
    requires id < |s.tasks| && Sound(s.tasks[id]) && Proper(reply)
    requires Tracked(s, ref, index) && Stamped(s.tasks[id], s.now)
    ensures Tracked(Resumed(s, id, reply), ref, index)
  {
    if s.tasks[id].pc.IncrQuota? {
      IncrementTracks(s, id, s.tasks[id].pc.index, ref, index);
    } else if s.tasks[id].pc.ExpireQuota? {
      SetExpiryTracks(s, id, s.tasks[id].pc.index, ref, index);
    } else {
      OtherStepTracks(s, Resumed(s, id, reply), id, ref, index);
    }
  }

  lemma StepKeepsQuota(s: Sys, id: nat, reply: VendorReply)
    requires AllSound(s) && QuotaTracked(s) && id < |s.tasks| && Proper(reply)
    ensures QuotaTracked(Resumed(s, id, reply))
  {
    var s' := Resumed(s, id, reply);
    GrewKeepsEvents(s, s');
    ClockStamps(s, id, reply);
    forall ref, index
      ensures Tracked(s', ref, index)
    {
      assert Tracked(s, ref, index);
      StepTracksEach(s, id, reply, ref, index);
    }
  }

  /** An increment counts even if its request is aborted before it learns of it. */
  lemma InterruptTracks(s: Sys, id: nat, ref: QuotaRef, index: int)
    requires id < |s.tasks| && Sound(s.tasks[id]) && Interruptible(s.tasks[id].pc)
    requires Tracked(s, ref, index) && Stamped(s.tasks[id], s.now)
    ensures Tracked(Interrupted(s, id), ref, index)
  {
    var t, s' := s.tasks[id], Interrupted(s, id);
    if t.pc.IncrQuota? {
      IncrementTracks(s, id, t.pc.index, ref, index);
      TrackedAlike(Increment(s, id, t.pc.index), s', ref, index);
    } else if t.pc.ExpireQuota? {
      SetExpiryTracks(s, id, t.pc.index, ref, index);
      TrackedAlike(SetQuotaExpiry(s, id, t.pc.index), s', ref, index);
    } else {
      OtherStepTracks(s, s', id, ref, index);
    }
  }

  lemma TrackedAlike(s: Sys, s': Sys, ref: QuotaRef, index: int)
    requires Tracked(s, ref, index) && s'.log == s.log && s'.store == s.store && s'.now == s.now
    ensures Tracked(s', ref, index)
  {
  }

  lemma InterruptKeepsQuota(s: Sys, id: nat)
    requires AllSound(s) && QuotaTracked(s) && id < |s.tasks| && Interruptible(s.tasks[id].pc)
    ensures QuotaTracked(Interrupted(s, id))
  {
    var s' := Interrupted(s, id);
    GrewKeepsEvents(s, s');
    forall ref, index
      ensures Tracked(s', ref, index)
    {
      assert Tracked(s, ref, index);
      InterruptTracks(s, id, ref, index);
    }
  }

  lemma OtherMovesKeepQuota(s: Sys, m: Move)
    requires AllSound(s) && QuotaTracked(s) && !Acts(s, m)
    ensures QuotaTracked(Apply(s, m))
  {
    var s' := Apply(s, m);
    QuietMoves(s, m);
    GrewKeepsEvents(s, s');
    forall ref, index
      ensures Tracked(s', ref, index)
    {
      assert Tracked(s, ref, index);
      UncountedKeepsTracked(s, s', ref, index);
    }
    forall id | 0 <= id < |s'.tasks|
      ensures Stamped(s'.tasks[id], s'.now)
    {
      if id < |s.tasks| {
        assert Stamped(s.tasks[id], s.now);
        StampStays(s.tasks[id], s.now, s'.now);
      }
    }
    forall p | 0 <= p < |s'.log| && s'.log[p].Incremented?
      ensures Begun(s'.log[p].ref.period, s'.log[p].index, s'.now)
    {
      BegunStays(s.log[p].ref.period, s.log[p].index, s.now, s'.now);
    }
  }

  lemma StampStays(t: Task, now: Instant, later: Instant)
    requires Stamped(t, now) && now <= later
    ensures Stamped(t, later)
  {
    match t.pc
    case QuotaGet(index) => BegunStays(t.req.quota.value.ref.period, index, now, later);
    case IncrQuota(index) => BegunStays(t.req.quota.value.ref.period, index, now, later);
    case ExpireQuota(index) => BegunStays(t.req.quota.value.ref.period, index, now, later);
    case _ =>
  }

  lemma {:induction false} RunQuota(start: Instant, moves: seq<Move>)
    ensures QuotaTracked(Run(start, moves))
  {
    if moves != [] {
      var n := |moves| - 1;
      var s, m := Run(start, moves[..n]), moves[n];
      RunQuota(start, moves[..n]);
      if Acts(s, m) {
        if m.Resume? {
          StepKeepsQuota(s, m.id, m.reply);
        } else {
          InterruptKeepsQuota(s, m.id);
        }
      } else {
        OtherMovesKeepQuota(s, m);
      }
    }
  }

  /** The requests that were counted in a bucket. */
  function CountedIn(log: seq<Event>, ref: QuotaRef, index: int): set<nat> {
    set p | 0 <= p < |log| && log[p].Incremented? && log[p].ref == ref && log[p].index == index :: log[p].id
  }

  predicate Counts(e: Event, ref: QuotaRef, index: int) {
    e.Incremented? && e.ref == ref && e.index == index
  }

  lemma CountedSnoc(log: seq<Event>, e: Event, ref: QuotaRef, index: int)
    ensures CountedIn(log + [e], ref, index) == CountedIn(log, ref, index) + if Counts(e, ref, index) then {e.id} else {}
  {
    var all := log + [e];
    forall p | 0 <= p < |log| && Counts(log[p], ref, index)
      ensures log[p].id in CountedIn(all, ref, index)
    {
      assert all[p] == log[p];
    }
    if Counts(e, ref, index) {
      assert all[|log|] == e;
    }
  }

  /** No request is counted twice, so increments are counted requests. */
  lemma {:induction false} IncrementsAreRequests(log: seq<Event>, ref: QuotaRef, index: int)
    requires forall p, q :: 0 <= p < q < |log| && log[p].Incremented? && log[q].Incremented? ==> log[p].id != log[q].id
    ensures Increments(log, ref, index) == |CountedIn(log, ref, index)|
  {
    if log != [] {
      var n := |log| - 1;
      IncrementsAreRequests(log[..n], ref, index);
      assert log == log[..n] + [log[n]];
      CountedSnoc(log[..n], log[n], ref, index);
      assert Counts(log[n], ref, index) ==> log[n].id !in CountedIn(log[..n], ref, index);
    }
  }

  /** A counted request of this key called its vendor and got a 2xx answer. */
  ghost predicate Earned(s: Sys, id: nat, ref: QuotaRef) {
    && id < |s.tasks| && s.tasks[id].req.quota.Some? && s.tasks[id].req.quota.value.ref == ref
    && exists reply :: Replied(id, reply) in s.log && Positive(reply)
  }

  lemma CountedIsEarned(s: Sys, ref: QuotaRef, index: int, id: nat)
    requires History(s) && RepliesFit(s) && id in CountedIn(s.log, ref, index)
    ensures Earned(s, id, ref) && !NeverCalled(s.tasks[id].pc)
  {
    var p :| 0 <= p < |s.log| && s.log[p].Incremented? && s.log[p].ref == ref && s.log[p].index == index && s.log[p].id == id;
    assert Authored(s, p);
    assert Consistent(s, id) && ReplyFits(s, id);
    var reply := ReplyTo(s, id);
    KeptFor(s, id, reply);
  }

  /** Conservation. In every run the counter read inside its period is the number of requests
      counted in it, each of which has the key and got a 2xx answer from its vendor. */
  lemma QuotaConserved(start: Instant, moves: seq<Move>, ref: QuotaRef)
    ensures var s := Run(start, moves);
            var index := PeriodIndex(ref.period, s.now);
            && CountAt(s.store, QuotaKey(ref, index), s.now) == |CountedIn(s.log, ref, index)|
            && forall id <- CountedIn(s.log, ref, index) :: Earned(s, id, ref) && !NeverCalled(s.tasks[id].pc)
  {
    RunQuota(start, moves);
    RunHistory(start, moves);
    RunReplies(start, moves);
    var s := Run(start, moves);
    var index := PeriodIndex(ref.period, s.now);
    assert Tracked(s, ref, index);
    TrackedCount(s, ref, index);
    IncrementsAreRequests(s.log, ref, index);
    forall id | id in CountedIn(s.log, ref, index)
      ensures Earned(s, id, ref) && !NeverCalled(s.tasks[id].pc)
    {
      CountedIsEarned(s, ref, index, id);
    }
  }

  /** The quota check, both ways. A request whose check looks at the current period's counter goes on
      exactly when fewer requests of its key than its limit were counted in the period; else it is
      refused and told how many were. */
  lemma QuotaDecides(start: Instant, moves: seq<Move>, id: nat, reply: VendorReply)
    requires var s := Run(start, moves);
             && id < |s.tasks| && s.tasks[id].req.quota.Some? && Proper(reply)
             && s.tasks[id].pc == QuotaGet(PeriodIndex(s.tasks[id].req.quota.value.ref.period, s.now))
    ensures var s, s' := Run(start, moves), Run(start, moves + [Resume(id, reply)]);
            var quota := s.tasks[id].req.quota.value;
            var n := |CountedIn(s.log, quota.ref, PeriodIndex(quota.ref.period, s.now))|;
            && s'.tasks[id].pc == (if n < quota.limit then CacheGet else Done(QuotaExceeded(n)))
            && s'.store == s.store && s'.log == s.log
  {
    var s := Run(start, moves);
    var quota := s.tasks[id].req.quota.value;
    QuotaConserved(start, moves, quota.ref);
    RunSnoc(start, moves, Resume(id, reply));
    assert Resumed(s, id, reply) == CheckQuota(s, id, PeriodIndex(quota.ref.period, s.now));
  }

  /** Who counts first in a period sets the counter's expiry, and no one else does. */
  lemma FirstSetsExpiry(start: Instant, moves: seq<Move>, id: nat, reply: VendorReply)
    requires var s := Run(start, moves);
             && id < |s.tasks| && s.tasks[id].req.quota.Some? && Proper(reply)
             && s.tasks[id].pc == IncrQuota(PeriodIndex(s.tasks[id].req.quota.value.ref.period, s.now))
    ensures var s, s' := Run(start, moves), Run(start, moves + [Resume(id, reply)]);
            var ref := s.tasks[id].req.quota.value.ref;
            var index := PeriodIndex(ref.period, s.now);
            && CountAt(s'.store, QuotaKey(ref, index), s.now) == |CountedIn(s.log, ref, index)| + 1
            && if |CountedIn(s.log, ref, index)| == 0 then s'.tasks[id].pc == ExpireQuota(index) else s'.tasks[id].pc.Unlock?
  {
    var s := Run(start, moves);
    var ref := s.tasks[id].req.quota.value.ref;
    QuotaConserved(start, moves, ref);
    RunSnoc(start, moves, Resume(id, reply));
    IncrementBranches(s, id, PeriodIndex(ref.period, s.now), reply);
  }

  lemma IncrementBranches(s: Sys, id: nat, index: int, reply: VendorReply)
    requires At(s, id, IncrQuota(index)) && Proper(reply)
    ensures var s', key := Resumed(s, id, reply), QuotaKey(s.tasks[id].req.quota.value.ref, index);
            var n := CountAt(s.store, key, s.now);
            && CountAt(s'.store, key, s.now) == n + 1
            && if n == 0 then s'.tasks[id].pc == ExpireQuota(index) else s'.tasks[id].pc.Unlock?
  {
  }

  lemma CountedInOneBucket(s: Sys, id: nat, ref: QuotaRef, index: int)
    requires History(s) && Incremented(id, ref, index) in s.log
    ensures id in CountedIn(s.log, ref, index)
    ensures forall other :: other != index ==> id !in CountedIn(s.log, ref, other)
  {
    var p :| 0 <= p < |s.log| && s.log[p] == Incremented(id, ref, index);
  }

  /** Conversely every request with a quota that returned a 2xx answer was counted, in one
      bucket. */
  lemma AnsweredIsCounted(start: Instant, moves: seq<Move>, id: nat) returns (index: int)
    requires var s := Run(start, moves);
             && id < |s.tasks| && s.tasks[id].req.quota.Some?
             && s.tasks[id].pc.Done? && s.tasks[id].pc.out.Fetched?
    ensures var s := Run(start, moves);
            var ref := s.tasks[id].req.quota.value.ref;
            && id in CountedIn(s.log, ref, index)
            && forall other :: other != index ==> id !in CountedIn(s.log, ref, other)
  {
    RunHistory(start, moves);
    var s := Run(start, moves);
    var ref := s.tasks[id].req.quota.value.ref;
    assert CountedWhenThrough(s, id);
    index :| Incremented(id, ref, index) in s.log;
    CountedInOneBucket(s, id, ref, index);
  }

  // ----------------------------------------------------------------------------------------
  // Overshoot
  // ----------------------------------------------------------------------------------------

  predicate Limited(t: Task, ref: QuotaRef) {
    t.req.quota.Some? && t.req.quota.value.ref == ref
  }

  /** A request between its passed check and its increment, or the last point from which it could
      still come to one. */
  predicate PastCheck(pc: Pc) {
    || pc.CacheGet? || pc.Lock? || pc.CallVendor? || pc.Calling? || pc.CacheSet?
    || pc.StoreResult? || pc.PublishResult? || pc.IncrClock? || pc.IncrQuota?
  }

  /** A request that waits for the counter of a bucket that is not the current one: the period
      rolled over between its reading of the clock and its GET. */
  predicate HoldsStaleCheck(pc: Pc, current: int) {
    pc.QuotaGet? && pc.index != current
  }

  /** The requests of a key that no check of the current bucket can refuse any more: those past
      their check, and those whose check is stale. One that waits for the counter of the current
      bucket is not among them. */
  function Unstoppable(s: Sys, ref: QuotaRef): set<nat> {
    set id: nat | id < |s.tasks| && Limited(s.tasks[id], ref)
      && (PastCheck(s.tasks[id].pc) || HoldsStaleCheck(s.tasks[id].pc, PeriodIndex(ref.period, s.now)))
  }

  ghost predicate OneLimit(s: Sys, ref: QuotaRef, limit: int) {
    forall id :: 0 <= id < |s.tasks| && Limited(s.tasks[id], ref) ==> s.tasks[id].req.quota.value.limit == limit
  }

  /** One limit for the key, and at most `k` requests that cannot be refused any more. */
  ghost predicate Bounded(s: Sys, ref: QuotaRef, limit: int, k: nat) {
    OneLimit(s, ref, limit) && |Unstoppable(s, ref)| <= k
  }

  /** The counter of the current bucket, with everyone who may still add to it, stays in bounds. */
  ghost predicate WithinBound(s: Sys, ref: QuotaRef, limit: int, k: nat) {
    Increments(s.log, ref, PeriodIndex(ref.period, s.now)) + |Unstoppable(s, ref)| <= limit + k - 1
  }

  /** No increment has been made for a bucket that is yet to begin. */
  lemma {:induction false} FutureIsEmpty(log: seq<Event>, ref: QuotaRef, index: int, now: Instant)
    requires forall p :: 0 <= p < |log| && log[p].Incremented? ==> Begun(log[p].ref.period, log[p].index, now)
    requires PeriodIndex(ref.period, now) < index
    ensures Increments(log, ref, index) == 0
  {
    if log != [] {
      var n := |log| - 1;
      assert forall p :: 0 <= p < n ==> log[..n][p] == log[p];
      FutureIsEmpty(log[..n], ref, index, now);
      if log[n].Incremented? && log[n].ref == ref && log[n].index == index {
        BegunIsPast(ref.period, index, now);
      }
    }
  }

  lemma CheckStaysWithin(s: Sys, id: nat, index: int, ref: QuotaRef, limit: int, k: nat)
    requires At(s, id, QuotaGet(index)) && QuotaTracked(s) && WithinBound(s, ref, limit, k)
    requires Bounded(s, ref, limit, k) && Bounded(CheckQuota(s, id, index), ref, limit, k)
    ensures WithinBound(CheckQuota(s, id, index), ref, limit, k)
  {
    var s' := CheckQuota(s, id, index);
    var current := PeriodIndex(ref.period, s.now);
    if id in Unstoppable(s', ref) && id !in Unstoppable(s, ref) {
      assert Tracked(s, ref, current);
      TrackedCount(s, ref, current);
    } else {
      SubsetSize(Unstoppable(s', ref), Unstoppable(s, ref));
    }
  }

  lemma LeavesUnstoppable(s: Sys, s': Sys, id: nat, ref: QuotaRef)
    requires id < |s.tasks| && |s'.tasks| == |s.tasks| && s'.now == s.now
    requires forall j :: 0 <= j < |s.tasks| && j != id ==> s'.tasks[j] == s.tasks[j]
    requires id in Unstoppable(s, ref) && id !in Unstoppable(s', ref)
    ensures |Unstoppable(s', ref)| == |Unstoppable(s, ref)| - 1
  {
    assert Unstoppable(s', ref) == Unstoppable(s, ref) - {id};
  }

  lemma IncrementLeaves(s: Sys, id: nat, index: int, ref: QuotaRef)
    requires At(s, id, IncrQuota(index))
    ensures |Unstoppable(Increment(s, id, index), ref)|
         == |Unstoppable(s, ref)| - (if Limited(s.tasks[id], ref) then 1 else 0)
  {
    var s' := Increment(s, id, index);
    if Limited(s.tasks[id], ref) {
      LeavesUnstoppable(s, s', id, ref);
    } else {
      assert Unstoppable(s', ref) == Unstoppable(s, ref);
    }
  }

  lemma IncrementStaysWithin(s: Sys, id: nat, index: int, ref: QuotaRef, limit: int, k: nat)
    requires At(s, id, IncrQuota(index)) && WithinBound(s, ref, limit, k)
    ensures WithinBound(Increment(s, id, index), ref, limit, k)
  {
    IncrementLeaves(s, id, index, ref);
    IncrementsSnoc(s.log, Incremented(id, s.tasks[id].req.quota.value.ref, index), ref, PeriodIndex(ref.period, s.now));
  }

  /** Any other step lets no request join the unstoppable ones and increments nothing. */
  lemma OtherStepStaysWithin(s: Sys, s': Sys, id: nat, ref: QuotaRef, limit: int, k: nat)
    requires id < |s.tasks| && OnlyTask(s, s', id) && WithinBound(s, ref, limit, k)
    requires !s.tasks[id].pc.QuotaGet? && !s.tasks[id].pc.IncrQuota?
    requires s.tasks[id].pc.QuotaClock? && Limited(s.tasks[id], ref) ==> s'.tasks[id].pc == QuotaGet(PeriodIndex(ref.period, s.now))
    ensures WithinBound(s', ref, limit, k)
  {
    if s'.log != s.log {
      assert s'.log == s.log + [s'.log[|s.log|]];
      IncrementsSnoc(s.log, s'.log[|s.log|], ref, PeriodIndex(ref.period, s.now));
    }
    assert Unstoppable(s', ref) <= Unstoppable(s, ref);
    SubsetSize(Unstoppable(s', ref), Unstoppable(s, ref));
  }

  lemma StepStaysWithin(s: Sys, id: nat, reply: VendorReply, ref: QuotaRef, limit: int, k: nat)
    requires AllSound(s) && QuotaTracked(s) && WithinBound(s, ref, limit, k) && id < |s.tasks| && Proper(reply)
    requires Bounded(s, ref, limit, k) && Bounded(Resumed(s, id, reply), ref, limit, k)
    ensures WithinBound(Resumed(s, id, reply), ref, limit, k)
  {
    match s.tasks[id].pc
    case QuotaGet(index) => CheckStaysWithin(s, id, index, ref, limit, k);
    case IncrQuota(index) => IncrementStaysWithin(s, id, index, ref, limit, k);
    case _ => OtherStepStaysWithin(s, Resumed(s, id, reply), id, ref, limit, k);
  }

  lemma AbortedAfterIncrement(s: Sys, id: nat, index: int, ref: QuotaRef)
    requires At(s, id, IncrQuota(index))
    ensures var s1, s' := Increment(s, id, index), Interrupted(s, id);
            s'.log == s1.log && s'.now == s1.now && Unstoppable(s', ref) == Unstoppable(s1, ref)
  {
    var s1, s' := Increment(s, id, index), Interrupted(s, id);
    assert forall j :: 0 <= j < |s.tasks| && j != id ==> s'.tasks[j] == s1.tasks[j];
  }

  lemma InterruptStaysWithin(s: Sys, id: nat, ref: QuotaRef, limit: int, k: nat)
    requires AllSound(s) && id < |s.tasks| && Interruptible(s.tasks[id].pc) && WithinBound(s, ref, limit, k)
    ensures WithinBound(Interrupted(s, id), ref, limit, k)
  {
    var t, s' := s.tasks[id], Interrupted(s, id);
    if t.pc.IncrQuota? {
      IncrementStaysWithin(s, id, t.pc.index, ref, limit, k);
      AbortedAfterIncrement(s, id, t.pc.index, ref);
    } else {
      OtherStepStaysWithin(s, s', id, ref, limit, k);
    }
  }

  /** A new bucket starts empty. */
  lemma NewBucketWithin(s: Sys, s': Sys, ref: QuotaRef, limit: int, k: nat)
    requires QuotaTracked(s) && Quietly(s, s') && 1 <= limit && Bounded(s', ref, limit, k)
    requires PeriodIndex(ref.period, s.now) < PeriodIndex(ref.period, s'.now)
    ensures WithinBound(s', ref, limit, k)
  {
    var after := PeriodIndex(ref.period, s'.now);
    if s'.log != s.log {
      assert s'.log == s.log + [s'.log[|s.log|]];
      IncrementsSnoc(s.log, s'.log[|s.log|], ref, after);
    }
    FutureIsEmpty(s.log, ref, after, s.now);
  }

  lemma SameBucketWithin(s: Sys, s': Sys, ref: QuotaRef, limit: int, k: nat)
    requires Quietly(s, s') && WithinBound(s, ref, limit, k)
    requires PeriodIndex(ref.period, s.now) == PeriodIndex(ref.period, s'.now)
    ensures WithinBound(s', ref, limit, k)
  {
    if s'.log != s.log {
      assert s'.log == s.log + [s'.log[|s.log|]];
      IncrementsSnoc(s.log, s'.log[|s.log|], ref, PeriodIndex(ref.period, s.now));
    }
    forall id | id in Unstoppable(s', ref)
      ensures id in Unstoppable(s, ref)
    {
      assert id < |s.tasks|;
    }
    SubsetSize(Unstoppable(s', ref), Unstoppable(s, ref));
  }

  lemma QuietMoveStaysWithin(s: Sys, m: Move, ref: QuotaRef, limit: int, k: nat)
    requires AllSound(s) && QuotaTracked(s) && WithinBound(s, ref, limit, k)
    requires !Acts(s, m)
    requires 1 <= limit && Bounded(Apply(s, m), ref, limit, k)
    ensures WithinBound(Apply(s, m), ref, limit, k)
  {
    var s' := Apply(s, m);
    QuietMoves(s, m);
    PeriodIndexGrows(ref.period, s.now, s'.now);
    if PeriodIndex(ref.period, s.now) < PeriodIndex(ref.period, s'.now) {
      NewBucketWithin(s, s', ref, limit, k);
    } else {
      SameBucketWithin(s, s', ref, limit, k);
    }
  }

  ghost predicate BoundedRun(start: Instant, moves: seq<Move>, ref: QuotaRef, limit: int, k: nat) {
    forall n :: 0 <= n <= |moves| ==> Bounded(Run(start, moves[..n]), ref, limit, k)
  }

  lemma BoundedPrefix(start: Instant, moves: seq<Move>, ref: QuotaRef, limit: int, k: nat)
    requires BoundedRun(start, moves, ref, limit, k) && moves != []
    ensures BoundedRun(start, moves[..|moves| - 1], ref, limit, k)
    ensures Bounded(Run(start, moves), ref, limit, k)
    ensures Bounded(Run(start, moves[..|moves| - 1]), ref, limit, k)
  {
    var prior := moves[..|moves| - 1];
    forall n | 0 <= n <= |prior|
      ensures Bounded(Run(start, prior[..n]), ref, limit, k)
    {
      assert prior[..n] == moves[..n];
    }
    assert moves[..|moves|] == moves;
    assert Bounded(Run(start, moves[..|prior|]), ref, limit, k);
  }

  lemma {:induction false} RunStaysWithin(start: Instant, moves: seq<Move>, ref: QuotaRef, limit: int, k: nat)
    requires BoundedRun(start, moves, ref, limit, k) && 1 <= limit && 1 <= k
    ensures WithinBound(Run(start, moves), ref, limit, k)
  {
    if moves == [] {
      assert Unstoppable(Run(start, moves), ref) == {};
    } else {
      var n := |moves| - 1;
      var s, m := Run(start, moves[..n]), moves[n];
      BoundedPrefix(start, moves, ref, limit, k);
      RunStaysWithin(start, moves[..n], ref, limit, k);
      RunQuota(start, moves[..n]);
      if Acts(s, m) {
        if m.Resume? {
          StepStaysWithin(s, m.id, m.reply, ref, limit, k);
        } else {
          InterruptStaysWithin(s, m.id, ref, limit, k);
        }
      } else {
        QuietMoveStaysWithin(s, m, ref, limit, k);
      }
    }
  }

  /** With a limit of at most zero no check passes and nothing is ever counted. */
  ghost predicate NothingPasses(s: Sys, ref: QuotaRef) {
    && (forall index :: QuotaKey(ref, index) !in s.store)
    && (forall id :: 0 <= id < |s.tasks| && Limited(s.tasks[id], ref) ==>
          s.tasks[id].pc.QuotaClock? || s.tasks[id].pc.QuotaGet? || s.tasks[id].pc.Done?)
  }

  lemma StepPassesNothing(s: Sys, id: nat, reply: VendorReply, ref: QuotaRef, limit: int)
    requires AllSound(s) && NothingPasses(s, ref) && id < |s.tasks| && Proper(reply) && limit <= 0
    requires forall j :: 0 <= j < |s.tasks| && Limited(s.tasks[j], ref) ==> s.tasks[j].req.quota.value.limit == limit
    ensures NothingPasses(Resumed(s, id, reply), ref)
  {
    var s' := Resumed(s, id, reply);
    forall index
      ensures QuotaKey(ref, index) !in s'.store
    {
      StepAddsNoKey(s, id, reply, ref, index);
    }
    if s.tasks[id].pc.QuotaGet? {
      assert CountAt(s.store, QuotaKey(ref, s.tasks[id].pc.index), s.now) == 0;
      assert s' == CheckQuota(s, id, s.tasks[id].pc.index);
    }
  }

  lemma StepAddsNoKey(s: Sys, id: nat, reply: VendorReply, ref: QuotaRef, index: int)
    requires id < |s.tasks| && Sound(s.tasks[id]) && Proper(reply) && QuotaKey(ref, index) !in s.store
    requires Limited(s.tasks[id], ref) ==> !s.tasks[id].pc.IncrQuota?
    ensures QuotaKey(ref, index) !in Resumed(s, id, reply).store
  {
    var t := s.tasks[id];
    if t.pc.ExpireQuota? {
      assert Resumed(s, id, reply) == SetQuotaExpiry(s, id, t.pc.index);
    } else {
      assert Target(t) != Some(QuotaKey(ref, index));
      assert Same(s.store, Resumed(s, id, reply).store, QuotaKey(ref, index));
    }
  }

  lemma InterruptPassesNothing(s: Sys, id: nat, ref: QuotaRef)
    requires AllSound(s) && NothingPasses(s, ref) && id < |s.tasks| && Interruptible(s.tasks[id].pc)
    ensures NothingPasses(Interrupted(s, id), ref)
  {
    var s' := Interrupted(s, id);
    forall index
      ensures QuotaKey(ref, index) !in s'.store
    {
      if s.tasks[id].pc.ExpireQuota? {
        assert s'.store == SetQuotaExpiry(s, id, s.tasks[id].pc.index).store;
      } else {
        assert Target(s.tasks[id]) != Some(QuotaKey(ref, index));
        assert Same(s.store, s'.store, QuotaKey(ref, index));
      }
    }
  }

  lemma QuietPassesNothing(s: Sys, m: Move, ref: QuotaRef)
    requires AllSound(s) && NothingPasses(s, ref) && !Acts(s, m)
    ensures NothingPasses(Apply(s, m), ref)
  {
  }

  lemma {:induction false} RunPassesNothing(start: Instant, moves: seq<Move>, ref: QuotaRef, limit: int, k: nat)
    requires BoundedRun(start, moves, ref, limit, k) && limit <= 0
    ensures NothingPasses(Run(start, moves), ref)
  {
    if moves != [] {
      var n := |moves| - 1;
      var s, m := Run(start, moves[..n]), moves[n];
      BoundedPrefix(start, moves, ref, limit, k);
      RunPassesNothing(start, moves[..n], ref, limit, k);
      if Acts(s, m) {
        if m.Resume? {
          StepPassesNothing(s, m.id, m.reply, ref, limit);
        } else {
          InterruptPassesNothing(s, m.id, ref);
        }
      } else {
        QuietPassesNothing(s, m, ref);
      }
    }
  }

  /** Overshoot. If every request of a key has the same limit and at no time more than `k` of them
      are past their check or hold a stale one, the counter of the current bucket never exceeds
      limit + k - 1, and is zero for a limit of at most zero; days and months may roll over at
      any point, and any number of requests may wait for their check. */
  lemma QuotaOvershoot(start: Instant, moves: seq<Move>, ref: QuotaRef, limit: int, k: nat)
    requires BoundedRun(start, moves, ref, limit, k) && 1 <= k
    ensures var s := Run(start, moves);
            var counter := CountAt(s.store, QuotaKey(ref, PeriodIndex(ref.period, s.now)), s.now);
            if 1 <= limit then counter <= limit + k - 1 else counter == 0
  {
    var s := Run(start, moves);
    var index := PeriodIndex(ref.period, s.now);
    if 1 <= limit {
      RunQuota(start, moves);
      RunStaysWithin(start, moves, ref, limit, k);
      assert Tracked(s, ref, index);
      TrackedCount(s, ref, index);
    } else {
      RunPassesNothing(start, moves, ref, limit, k);
    }
  }

  ghost predicate ChecksAreFresh(s: Sys, ref: QuotaRef) {
    forall id :: 0 <= id < |s.tasks| && Limited(s.tasks[id], ref) ==>
      !HoldsStaleCheck(s.tasks[id].pc, PeriodIndex(ref.period, s.now))
  }

  /** The requests of a key between a passed check and their increment or exit. */
  function Passed(s: Sys, ref: QuotaRef): set<nat> {
    set id: nat | id < |s.tasks| && Limited(s.tasks[id], ref) && PastCheck(s.tasks[id].pc)
  }

  ghost predicate PassedRun(start: Instant, moves: seq<Move>, ref: QuotaRef, limit: int, k: nat) {
    forall n :: 0 <= n <= |moves| ==>
      var s := Run(start, moves[..n]);
      OneLimit(s, ref, limit) && |Passed(s, ref)| <= k
  }

  /** Where no period rolls over between a request's clock reading and its GET, it is enough to
      count the requests between a passed check and their increment. */
  lemma OvershootOfFreshChecks(start: Instant, moves: seq<Move>, ref: QuotaRef, limit: int, k: nat)
    requires PassedRun(start, moves, ref, limit, k) && 1 <= k
    requires forall n :: 0 <= n <= |moves| ==> ChecksAreFresh(Run(start, moves[..n]), ref)
    ensures var s := Run(start, moves);
            var counter := CountAt(s.store, QuotaKey(ref, PeriodIndex(ref.period, s.now)), s.now);
            if 1 <= limit then counter <= limit + k - 1 else counter == 0
  {
    forall n | 0 <= n <= |moves|
      ensures Bounded(Run(start, moves[..n]), ref, limit, k)
    {
      var s := Run(start, moves[..n]);
      assert ChecksAreFresh(s, ref);
      assert Unstoppable(s, ref) == Passed(s, ref);
    }
    QuotaOvershoot(start, moves, ref, limit, k);
  }
}
