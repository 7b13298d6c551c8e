/** The expiry of quota counters over every interleaving: each is gone within its period's TTL from
    now, but for one whose first INCR was served and whose EXPIRE is yet to come, or never comes
    because of an exception. */
module GatewayExpiry {
  import opened Wrappers
  import opened RedisStore
  import opened Calendar
  import opened Gateway
  import opened GatewayHistory
  import opened GatewayQuota

  /** A day, or 31 days, in seconds. */
  function Lifetime(p: Period): real {
    if p.Daily? then 86400.0 else 2678400.0
  }

  /** Request `id` incremented the counter and is about to set its expiry, or an exception came
      before it could. */
  predicate Owes(s: Sys, ref: QuotaRef, index: int, id: nat) {
    && id < |s.tasks| && Limited(s.tasks[id], ref) && Incremented(id, ref, index) in s.log
    && (s.tasks[id].pc == ExpireQuota(index) || s.tasks[id].excepted)
  }

  ghost predicate Owed(s: Sys, ref: QuotaRef, index: int) {
    exists id: nat :: Owes(s, ref, index, id)
  }

  ghost predicate Expires(s: Sys, ref: QuotaRef, index: int) {
    var key := QuotaKey(ref, index);
    key in s.store ==>
      if s.store[key].expiresAt.Some? then s.store[key].expiresAt.value <= s.now + Lifetime(ref.period)
      else Owed(s, ref, index)
  }

  predicate CountedBefore(s: Sys, id: nat)
    requires id < |s.tasks|
  {
    var t := s.tasks[id];
    t.pc.ExpireQuota? && t.req.quota.Some? ==> Incremented(id, t.req.quota.value.ref, t.pc.index) in s.log
  }

  ghost predicate AllExpire(s: Sys) {
    && (forall ref, index :: Expires(s, ref, index))
    && (forall id :: 0 <= id < |s.tasks| ==> CountedBefore(s, id))
  }

  // ----------------------------------------------------------------------------------------
  // Preservation
  // ----------------------------------------------------------------------------------------

  lemma StillOwed(s: Sys, s': Sys, ref: QuotaRef, index: int, id: nat)
    requires Owes(s, ref, index, id) && Grew(s, s') && id < |s'.tasks| && s'.tasks[id].req == s.tasks[id].req
    requires s'.tasks[id].excepted || s'.tasks[id] == s.tasks[id]
    ensures Owed(s', ref, index)
  {
    GrewKeepsEvents(s, s');
    assert Owes(s', ref, index, id);
  }

  lemma SameKeyExpires(s: Sys, s': Sys, ref: QuotaRef, index: int)
    requires Expires(s, ref, index) && s.now <= s'.now && Same(s.store, s'.store, QuotaKey(ref, index))
    requires Owed(s, ref, index) ==> Owed(s', ref, index)
    ensures Expires(s', ref, index)
  {
  }

  /** No step but its own EXPIRE settles what a request owes. */
  lemma StepKeepsOwed(s: Sys, s': Sys, id: nat, ref: QuotaRef, index: int)
    requires id < |s.tasks| && OnlyTask(s, s', id) && Owed(s, ref, index)
    requires !(s.tasks[id].pc == ExpireQuota(index) && Limited(s.tasks[id], ref))
    ensures Owed(s', ref, index)
  {
    var o: nat :| Owes(s, ref, index, o);
    StillOwed(s, s', ref, index, o);
  }

  lemma StepKeepsCountedBefore(s: Sys, s': Sys, id: nat, j: nat)
    requires id < |s.tasks| && OnlyTask(s, s', id) && j < |s.tasks| && CountedBefore(s, j)
    requires s.tasks[id].pc.IncrQuota? && s'.tasks[id].pc.ExpireQuota? ==> s'.tasks[id].pc == ExpireQuota(s.tasks[id].pc.index)
    ensures CountedBefore(s', j)
  {
    GrewKeepsEvents(s, s');
    if j == id && s.tasks[id].pc.IncrQuota? && s.tasks[id].req.quota.Some? && s.tasks[id].fetched.Some? {
      assert s'.log[|s.log|] in s'.log;
    }
  }

  /** An INCR that makes the counter leaves its author owing the expiry. */
  lemma IncrementExpires(s: Sys, s': Sys, id: nat, i: int, ref: QuotaRef, index: int)
    requires At(s, id, IncrQuota(i)) && OnlyTask(s, s', id) && s.tasks[id].fetched.Some? && Expires(s, ref, index)
    requires s'.store == Incr(s.store, QuotaKey(s.tasks[id].req.quota.value.ref, i), s.now)
    requires CountAt(s.store, QuotaKey(s.tasks[id].req.quota.value.ref, i), s.now) == 0 ==>
               s'.tasks[id].pc == ExpireQuota(i) || s'.tasks[id].excepted
    ensures Expires(s', ref, index)
  {
    var key := QuotaKey(s.tasks[id].req.quota.value.ref, i);
    if Owed(s, ref, index) {
      StepKeepsOwed(s, s', id, ref, index);
    }
    if QuotaKey(ref, index) != key {
      SameKeyExpires(s, s', ref, index);
    } else if !Alive(s.store, key, s.now) {
      assert s'.log[|s.log|] in s'.log;
      assert Owes(s', ref, index, id);
    }
  }

  lemma ExpiryExpires(s: Sys, s': Sys, id: nat, i: int, ref: QuotaRef, index: int)
    requires At(s, id, ExpireQuota(i)) && OnlyTask(s, s', id) && Expires(s, ref, index)
    requires var mine := s.tasks[id].req.quota.value.ref;
             s'.store == Expire(s.store, QuotaKey(mine, i), s.now, PeriodTtl(mine.period))
    ensures Expires(s', ref, index)
  {
    if QuotaKey(ref, index) != QuotaKey(s.tasks[id].req.quota.value.ref, i) {
      if Owed(s, ref, index) {
        StepKeepsOwed(s, s', id, ref, index);
      }
      SameKeyExpires(s, s', ref, index);
    }
  }

  lemma OtherStepExpires(s: Sys, s': Sys, id: nat, ref: QuotaRef, index: int)
    requires id < |s.tasks| && OnlyTask(s, s', id) && Expires(s, ref, index)
    requires !s.tasks[id].pc.IncrQuota? && !s.tasks[id].pc.ExpireQuota?
    ensures Expires(s', ref, index)
  {
    OtherStepsKeepQuotas(s, s', id);
    assert Same(s.store, s'.store, QuotaKey(ref, index));
    if Owed(s, ref, index) {
      StepKeepsOwed(s, s', id, ref, index);
    }
    SameKeyExpires(s, s', ref, index);
  }

  /** What a step that counts or sets an expiry writes, interrupted or not. */
  lemma CountingWrites(s: Sys, m: Move)
    requires AllSound(s) && Acts(s, m) && (s.tasks[m.id].pc.IncrQuota? || s.tasks[m.id].pc.ExpireQuota?)
    ensures var s', t := Apply(s, m), s.tasks[m.id];
            var key := QuotaKey(t.req.quota.value.ref, t.pc.index);
            && s'.store == (if t.pc.IncrQuota? then Incr(s.store, key, s.now)
                            else Expire(s.store, key, s.now, PeriodTtl(key.ref.period)))
            && (t.pc.IncrQuota? && s'.tasks[m.id].pc.ExpireQuota? ==> s'.tasks[m.id].pc == ExpireQuota(t.pc.index))
            && (t.pc.IncrQuota? && CountAt(s.store, key, s.now) == 0 ==>
                  s'.tasks[m.id].pc == ExpireQuota(t.pc.index) || s'.tasks[m.id].excepted)
  {
  }

  lemma StepExpires(s: Sys, m: Move, ref: QuotaRef, index: int)
    requires AllSound(s) && Acts(s, m) && Expires(s, ref, index)
    ensures Expires(Apply(s, m), ref, index)
  {
    var t, s' := s.tasks[m.id], Apply(s, m);
    if t.pc.IncrQuota? {
      CountingWrites(s, m);
      IncrementExpires(s, s', m.id, t.pc.index, ref, index);
    } else if t.pc.ExpireQuota? {
      CountingWrites(s, m);
      ExpiryExpires(s, s', m.id, t.pc.index, ref, index);
    } else {
      OtherStepExpires(s, s', m.id, ref, index);
    }
  }

  lemma StepKeepsExpiry(s: Sys, m: Move)
    requires AllSound(s) && Acts(s, m) && AllExpire(s)
    ensures AllExpire(Apply(s, m))
  {
    forall ref, index
      ensures Expires(Apply(s, m), ref, index)
    {
      assert Expires(s, ref, index);
      StepExpires(s, m, ref, index);
    }
    if s.tasks[m.id].pc.IncrQuota? {
      CountingWrites(s, m);
    }
    forall j | 0 <= j < |s.tasks|
      ensures CountedBefore(Apply(s, m), j)
    {
      StepKeepsCountedBefore(s, Apply(s, m), m.id, j);
    }
  }

  lemma QuietExpires(s: Sys, m: Move, ref: QuotaRef, index: int)
    requires AllSound(s) && !Acts(s, m) && Expires(s, ref, index)
    ensures Expires(Apply(s, m), ref, index)
  {
    var s' := Apply(s, m);
    QuietMoves(s, m);
    assert Same(s.store, s'.store, QuotaKey(ref, index));
    if Owed(s, ref, index) {
      var o: nat :| Owes(s, ref, index, o);
      StillOwed(s, s', ref, index, o);
    }
    SameKeyExpires(s, s', ref, index);
  }

  lemma QuietKeepsCountedBefore(s: Sys, s': Sys, j: nat)
    requires Quietly(s, s') && j < |s'.tasks| && (j < |s.tasks| ==> CountedBefore(s, j))
    ensures CountedBefore(s', j)
  {
    GrewKeepsEvents(s, s');
  }

  lemma {:induction false} RunExpires(start: Instant, moves: seq<Move>)
    ensures AllExpire(Run(start, moves))
  {
    if moves != [] {
      var n := |moves| - 1;
      var s, m := Run(start, moves[..n]), moves[n];
      RunExpires(start, moves[..n]);
      if Acts(s, m) {
        StepKeepsExpiry(s, m);
      } else {
        forall ref, index
          ensures Expires(Apply(s, m), ref, index)
        {
          assert Expires(s, ref, index);
          QuietExpires(s, m, ref, index);
        }
        QuietMoves(s, m);
        forall j | 0 <= j < |Apply(s, m).tasks|
          ensures CountedBefore(Apply(s, m), j)
        {
          QuietKeepsCountedBefore(s, Apply(s, m), j);
        }
      }
    }
  }

  /** Counters do not pile up. In every run a quota key expires within a day, or 31 days, from now on;
      or it has no expiry because a request that counted in it is just about to set it, or was kept
      from doing so by an exception. */
  lemma CountersExpire(start: Instant, moves: seq<Move>, ref: QuotaRef, index: int)
    requires QuotaKey(ref, index) in Run(start, moves).store
    ensures var s := Run(start, moves);
            var expiresAt := s.store[QuotaKey(ref, index)].expiresAt;
            if expiresAt.Some? then expiresAt.value <= s.now + (if ref.period.Daily? then 86400.0 else 2678400.0)
            else exists id: nat :: Owes(s, ref, index, id)
  {
    RunExpires(start, moves);
    assert Expires(Run(start, moves), ref, index);
  }
}
