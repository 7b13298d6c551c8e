/** Mutual exclusion of the dedup lock over every interleaving of the pipeline. */
module GatewayLock {
  import opened Wrappers
  import opened RedisStore
  import opened Gateway

  predicate HoldsLock(s: Sys, id: nat, lock: string) {
    id < |s.tasks| && Holds(s.tasks[id].pc) && s.tasks[id].req.dedupKey == lock
  }

  /** The assumption on a run: every holder is out of its block within the lock's TTL. */
  ghost predicate Timely(s: Sys) {
    forall id :: 0 <= id < |s.tasks| && Holds(s.tasks[id].pc) ==> s.now < s.tasks[id].heldSince + 30.0
  }

  /** A holder's lock is in Redis, with the expiry it was given, and is held by no one else. */
  ghost predicate HoldersLock(s: Sys) {
    && (forall id :: 0 <= id < |s.tasks| && Holds(s.tasks[id].pc) ==>
          var key := LockKey(s.tasks[id].req.dedupKey);
          key in s.store && s.store[key].expiresAt == Some(s.tasks[id].heldSince + 30.0))
    && (forall i, j :: 0 <= i < |s.tasks| && HoldsLock(s, j, s.tasks[i].req.dedupKey) && Holds(s.tasks[i].pc) ==> i == j)
  }

  ghost predicate Held(s: Sys, lock: string) {
    exists id: nat :: HoldsLock(s, id, lock)
  }

  /** A SET NX less than 30 seconds ago was served but never answered. */
  predicate Orphan(s: Sys, p: nat, lock: string) {
    p < |s.log| && s.log[p].Orphaned? && s.log[p].lock == lock && s.now < s.log[p].at + 30.0
  }

  ghost predicate Abandoned(s: Sys, lock: string) {
    exists p: nat :: Orphan(s, p, lock)
  }

  ghost predicate LiveLocksKnown(s: Sys) {
    forall lock :: Alive(s.store, LockKey(lock), s.now) ==> Held(s, lock) || Abandoned(s, lock)
  }

  /** An abandoned lock is in Redis until it expires, and no one holds it. */
  ghost predicate OrphansKept(s: Sys) {
    forall p: nat, lock :: Orphan(s, p, lock) ==>
      && LockKey(lock) in s.store && s.store[LockKey(lock)].expiresAt == Some(s.log[p].at + 30.0)
      && !Held(s, lock)
  }

  ghost predicate MutualExclusion(s: Sys) {
    HoldersLock(s) && LiveLocksKnown(s) && OrphansKept(s)
  }

  /** A step that leaves every lock and every holder alone. */
  ghost predicate LocksUntouched(s: Sys, s': Sys) {
    && s.now <= s'.now && |s.tasks| <= |s'.tasks|
    && Grew(s, s') && (Added(s, s').Some? ==> !Added(s, s').value.Orphaned?)
    && (forall lock :: Same(s.store, s'.store, LockKey(lock)))
    && (forall id :: 0 <= id < |s.tasks| ==>
          && s'.tasks[id].req == s.tasks[id].req
          && Holds(s'.tasks[id].pc) == Holds(s.tasks[id].pc)
          && s'.tasks[id].heldSince == s.tasks[id].heldSince)
    && (forall id :: |s.tasks| <= id < |s'.tasks| ==> !Holds(s'.tasks[id].pc))
  }

  lemma UntouchedKeepsHolders(s: Sys, s': Sys)
    requires HoldersLock(s) && LocksUntouched(s, s')
    ensures HoldersLock(s') && forall lock :: Held(s', lock) <==> Held(s, lock)
  {
    forall lock
      ensures Held(s', lock) <==> Held(s, lock)
    {
      if Held(s, lock) {
        var h: nat :| HoldsLock(s, h, lock);
        assert HoldsLock(s', h, lock);
      }
      if Held(s', lock) {
        var h: nat :| HoldsLock(s', h, lock);
        assert HoldsLock(s, h, lock);
      }
    }
    forall id | 0 <= id < |s'.tasks| && Holds(s'.tasks[id].pc)
      ensures var key := LockKey(s'.tasks[id].req.dedupKey);
              key in s'.store && s'.store[key].expiresAt == Some(s'.tasks[id].heldSince + 30.0)
    {
      assert Same(s.store, s'.store, LockKey(s'.tasks[id].req.dedupKey));
    }
    forall i, j | 0 <= i < |s'.tasks| && HoldsLock(s', j, s'.tasks[i].req.dedupKey) && Holds(s'.tasks[i].pc)
      ensures i == j
    {
      assert HoldsLock(s, j, s.tasks[i].req.dedupKey);
    }
  }

  lemma EarlierOrphan(s: Sys, s': Sys, p: nat, lock: string)
    requires Grew(s, s') && (Added(s, s').Some? ==> !Added(s, s').value.Orphaned?) && s.now <= s'.now
    requires Orphan(s', p, lock)
    ensures Orphan(s, p, lock) && s.log[p] == s'.log[p]
  {
    if s'.log != s.log {
      assert p < |s.log| ==> s'.log[..|s.log|][p] == s.log[p];
    }
  }

  lemma StillOrphan(s: Sys, s': Sys, p: nat, lock: string)
    requires Grew(s, s') && Orphan(s, p, lock) && s'.now < s.log[p].at + 30.0
    ensures Orphan(s', p, lock)
  {
    if s'.log != s.log {
      assert s'.log[..|s.log|][p] == s.log[p];
    }
  }

  lemma UntouchedKeepsExclusion(s: Sys, s': Sys)
    requires MutualExclusion(s) && LocksUntouched(s, s')
    ensures MutualExclusion(s')
  {
    UntouchedKeepsHolders(s, s');
    forall p: nat, lock | Orphan(s', p, lock)
      ensures LockKey(lock) in s'.store && s'.store[LockKey(lock)].expiresAt == Some(s'.log[p].at + 30.0)
      ensures !Held(s', lock)
    {
      EarlierOrphan(s, s', p, lock);
      assert Same(s.store, s'.store, LockKey(lock));
    }
    forall lock | Alive(s'.store, LockKey(lock), s'.now)
      ensures Held(s', lock) || Abandoned(s', lock)
    {
      assert Same(s.store, s'.store, LockKey(lock));
      assert Alive(s.store, LockKey(lock), s.now);
      if !Held(s, lock) {
        var p: nat :| Orphan(s, p, lock);
        StillOrphan(s, s', p, lock);
      }
    }
  }

  lemma OtherStepsLeaveLocks(s: Sys, s': Sys, id: nat)
    requires id < |s.tasks| && OnlyTask(s, s', id)
    requires !s.tasks[id].pc.Lock? && !s.tasks[id].pc.Unlock?
    ensures LocksUntouched(s, s')
  {
    forall lock
      ensures Same(s.store, s'.store, LockKey(lock))
    {
      assert Target(s.tasks[id]) != Some(LockKey(lock));
    }
  }

  /** Taking or leaving behind a lock touches no other lock and no other holder. */
  ghost predicate OnlyLock(s: Sys, s': Sys, id: nat, mine: string)
    requires id < |s.tasks|
  {
    && |s'.tasks| == |s.tasks| && s'.now == s.now && Grew(s, s')
    && (forall j :: 0 <= j < |s.tasks| && j != id ==> s'.tasks[j] == s.tasks[j])
    && s'.tasks[id].req == s.tasks[id].req && s.tasks[id].req.dedupKey == mine
    && (forall lock :: lock != mine ==> Same(s.store, s'.store, LockKey(lock)))
    && (Added(s, s').Some? && Added(s, s').value.Orphaned? ==> Added(s, s').value.lock == mine)
  }

  lemma OtherHolders(s: Sys, s': Sys, id: nat, mine: string, lock: string)
    requires id < |s.tasks| && OnlyLock(s, s', id, mine) && lock != mine
    ensures Held(s', lock) <==> Held(s, lock)
    ensures forall p: nat :: Orphan(s', p, lock) <==> Orphan(s, p, lock)
    ensures forall p: nat :: Orphan(s, p, lock) ==> s'.log[p] == s.log[p]
  {
    if Held(s, lock) {
      var h: nat :| HoldsLock(s, h, lock);
      assert HoldsLock(s', h, lock);
    }
    if Held(s', lock) {
      var h: nat :| HoldsLock(s', h, lock);
      assert HoldsLock(s, h, lock);
    }
    if s'.log != s.log {
      assert s'.log == s.log + [s'.log[|s.log|]];
    }
  }

  /** The other locks stay known when one changes. */
  lemma OtherLocksKnown(s: Sys, s': Sys, id: nat, mine: string)
    requires id < |s.tasks| && MutualExclusion(s) && OnlyLock(s, s', id, mine)
    requires Alive(s'.store, LockKey(mine), s.now) ==> Held(s', mine) || Abandoned(s', mine)
    requires forall p: nat :: Orphan(s', p, mine) ==>
               && LockKey(mine) in s'.store && s'.store[LockKey(mine)].expiresAt == Some(s'.log[p].at + 30.0)
               && !Held(s', mine)
    ensures LiveLocksKnown(s') && OrphansKept(s')
  {
    forall lock | Alive(s'.store, LockKey(lock), s'.now)
      ensures Held(s', lock) || Abandoned(s', lock)
    {
      if lock != mine {
        assert Same(s.store, s'.store, LockKey(lock));
        OtherHolders(s, s', id, mine, lock);
        if !Held(s, lock) {
          var p: nat :| Orphan(s, p, lock);
          assert Orphan(s', p, lock);
        }
      }
    }
    forall p: nat, lock | Orphan(s', p, lock)
      ensures LockKey(lock) in s'.store && s'.store[LockKey(lock)].expiresAt == Some(s'.log[p].at + 30.0)
      ensures !Held(s', lock)
    {
      if lock != mine {
        OtherHolders(s, s', id, mine, lock);
        assert Orphan(s, p, lock) && Same(s.store, s'.store, LockKey(lock));
      }
    }
  }

  lemma FreeLock(s: Sys, mine: string)
    requires MutualExclusion(s) && Timely(s) && !Alive(s.store, LockKey(mine), s.now)
    ensures !Held(s, mine) && !Abandoned(s, mine)
  {
    assert forall p: nat :: Orphan(s, p, mine) ==> Alive(s.store, LockKey(mine), s.now);
    assert forall h: nat :: HoldsLock(s, h, mine) ==> Alive(s.store, LockKey(mine), s.now);
  }

  lemma TakingKeepsExclusion(s: Sys, id: nat)
    requires At(s, id, Lock)
    requires MutualExclusion(s) && Timely(s)
    ensures MutualExclusion(TakeLock(s, id))
  {
    var s', mine := TakeLock(s, id), s.tasks[id].req.dedupKey;
    if Alive(s.store, LockKey(mine), s.now) {
      UntouchedKeepsExclusion(s, s');
    } else {
      FreeLock(s, mine);
      TakenIsExclusive(s, id);
      TakenIsKnown(s, id);
    }
  }

  lemma TakenIsKnown(s: Sys, id: nat)
    requires At(s, id, Lock) && MutualExclusion(s) && !Alive(s.store, LockKey(s.tasks[id].req.dedupKey), s.now)
    requires !Abandoned(s, s.tasks[id].req.dedupKey)
    ensures LiveLocksKnown(TakeLock(s, id)) && OrphansKept(TakeLock(s, id))
  {
    var s', mine := TakeLock(s, id), s.tasks[id].req.dedupKey;
    assert HoldsLock(s', id, mine);
    forall p: nat | Orphan(s', p, mine)
      ensures false
    {
      EarlierOrphan(s, s', p, mine);
    }
    OtherLocksKnown(s, s', id, mine);
  }

  lemma NotAmongHolders(s: Sys, mine: string)
    requires !Held(s, mine)
    ensures forall h :: 0 <= h < |s.tasks| && Holds(s.tasks[h].pc) ==> s.tasks[h].req.dedupKey != mine
  {
    forall h: nat | h < |s.tasks| && Holds(s.tasks[h].pc)
      ensures s.tasks[h].req.dedupKey != mine
    {
      assert !HoldsLock(s, h, mine);
    }
  }

  lemma TakenIsExclusive(s: Sys, id: nat)
    requires At(s, id, Lock) && HoldersLock(s) && !Held(s, s.tasks[id].req.dedupKey)
    requires !Alive(s.store, LockKey(s.tasks[id].req.dedupKey), s.now)
    ensures HoldersLock(TakeLock(s, id))
  {
    var s', mine := TakeLock(s, id), s.tasks[id].req.dedupKey;
    NotAmongHolders(s, mine);
    forall i, j | 0 <= i < |s'.tasks| && HoldsLock(s', j, s'.tasks[i].req.dedupKey) && Holds(s'.tasks[i].pc)
      ensures i == j
    {
      if i != id && j != id {
        assert HoldsLock(s, j, s.tasks[i].req.dedupKey);
      }
    }
  }

  lemma OrphaningKeepsExclusion(s: Sys, id: nat)
    requires At(s, id, Lock)
    requires MutualExclusion(s) && Timely(s)
    ensures MutualExclusion(OrphanLock(s, id))
  {
    var s', mine := OrphanLock(s, id), s.tasks[id].req.dedupKey;
    if Alive(s.store, LockKey(mine), s.now) {
      UntouchedKeepsExclusion(s, s');
    } else {
      FreeLock(s, mine);
      OrphanedIsExclusive(s, id);
      OrphanedIsKnown(s, id);
    }
  }

  lemma OrphanedIsExclusive(s: Sys, id: nat)
    requires At(s, id, Lock) && HoldersLock(s) && !Held(s, s.tasks[id].req.dedupKey)
    ensures HoldersLock(OrphanLock(s, id)) && !Held(OrphanLock(s, id), s.tasks[id].req.dedupKey)
  {
    var s', mine := OrphanLock(s, id), s.tasks[id].req.dedupKey;
    NotAmongHolders(s, mine);
    assert forall h: nat :: !HoldsLock(s', h, mine);
    forall i, j | 0 <= i < |s'.tasks| && HoldsLock(s', j, s'.tasks[i].req.dedupKey) && Holds(s'.tasks[i].pc)
      ensures i == j
    {
      assert HoldsLock(s, j, s.tasks[i].req.dedupKey);
    }
  }

  lemma OrphanedIsKnown(s: Sys, id: nat)
    requires At(s, id, Lock) && MutualExclusion(s) && !Alive(s.store, LockKey(s.tasks[id].req.dedupKey), s.now)
    requires !Abandoned(s, s.tasks[id].req.dedupKey) && !Held(OrphanLock(s, id), s.tasks[id].req.dedupKey)
    ensures LiveLocksKnown(OrphanLock(s, id)) && OrphansKept(OrphanLock(s, id))
  {
    var s', mine := OrphanLock(s, id), s.tasks[id].req.dedupKey;
    assert s'.log == s.log + [Orphaned(id, mine, s.now)];
    assert Orphan(s', |s.log|, mine);
    forall p: nat | Orphan(s', p, mine)
      ensures p == |s.log|
    {
      assert p < |s.log| ==> Orphan(s, p, mine);
    }
    OtherLocksKnown(s, s', id, mine);
  }

  lemma ReleasingKeepsExclusion(s: Sys, id: nat, out: Outcome)
    requires At(s, id, Unlock(out))
    requires MutualExclusion(s)
    ensures MutualExclusion(ReleaseLock(s, id, out))
  {
    var s', mine := ReleaseLock(s, id, out), s.tasks[id].req.dedupKey;
    assert HoldsLock(s, id, mine);
    ReleasedIsExclusive(s, id, out);
    forall p: nat | Orphan(s', p, mine)
      ensures false
    {
      assert Orphan(s, p, mine);
    }
    OtherLocksKnown(s, s', id, mine);
  }

  lemma ReleasedIsExclusive(s: Sys, id: nat, out: Outcome)
    requires At(s, id, Unlock(out)) && HoldersLock(s)
    ensures HoldersLock(ReleaseLock(s, id, out))
  {
    var s', mine := ReleaseLock(s, id, out), s.tasks[id].req.dedupKey;
    forall h: nat | HoldsLock(s, h, mine)
      ensures h == id
    {
      assert HoldsLock(s, h, s.tasks[id].req.dedupKey);
    }
    forall i, j | 0 <= i < |s'.tasks| && HoldsLock(s', j, s'.tasks[i].req.dedupKey) && Holds(s'.tasks[i].pc)
      ensures i == j
    {
      assert HoldsLock(s, j, s.tasks[i].req.dedupKey);
    }
    forall h: nat | h < |s'.tasks| && Holds(s'.tasks[h].pc)
      ensures s'.tasks[h].req.dedupKey != mine
    {
      assert s'.tasks[h].req.dedupKey == mine ==> HoldsLock(s, h, mine);
    }
  }

  lemma StepKeepsExclusion(s: Sys, m: Move)
    requires AllSound(s) && Acts(s, m) && MutualExclusion(s) && Timely(s)
    ensures MutualExclusion(Apply(s, m))
  {
    if s.tasks[m.id].pc.Lock? {
      if m.Resume? {
        TakingKeepsExclusion(s, m.id);
      } else {
        OrphaningKeepsExclusion(s, m.id);
      }
    } else if s.tasks[m.id].pc.Unlock? {
      ReleasingKeepsExclusion(s, m.id, s.tasks[m.id].pc.out);
    } else {
      OtherStepKeepsExclusion(s, Apply(s, m), m.id);
    }
  }

  lemma OtherStepKeepsExclusion(s: Sys, s': Sys, id: nat)
    requires id < |s.tasks| && OnlyTask(s, s', id) && MutualExclusion(s)
    requires !s.tasks[id].pc.Lock? && !s.tasks[id].pc.Unlock?
    ensures MutualExclusion(s')
  {
    OtherStepsLeaveLocks(s, s', id);
    UntouchedKeepsExclusion(s, s');
  }

  lemma ApplyKeepsExclusion(s: Sys, m: Move)
    requires AllSound(s) && MutualExclusion(s) && Timely(s)
    ensures MutualExclusion(Apply(s, m))
  {
    if Acts(s, m) {
      StepKeepsExclusion(s, m);
    } else {
      OtherMovesLeaveLocks(s, m);
      UntouchedKeepsExclusion(s, Apply(s, m));
    }
  }

  lemma OtherMovesLeaveLocks(s: Sys, m: Move)
    requires AllSound(s) && !Acts(s, m)
    ensures LocksUntouched(s, Apply(s, m))
  {
    if m.Flush? {
      FlushLeavesLocks(s, m.names);
    } else if (m.Cancel? || m.Interrupt?) && m.id < |s.tasks| {
      ExceptionLeavesLocks(s, m.id);
    }
  }

  lemma FlushLeavesLocks(s: Sys, names: set<string>)
    requires AllSound(s)
    ensures LocksUntouched(s, Apply(s, Flush(names)))
  {
  }

  lemma ExceptionLeavesLocks(s: Sys, id: nat)
    requires id < |s.tasks| && Sound(s.tasks[id])
    ensures LocksUntouched(s, Cancelled(s, id))
  {
  }

  ghost predicate TimelyRun(start: Instant, moves: seq<Move>) {
    forall n :: 0 <= n <= |moves| ==> Timely(Run(start, moves[..n]))
  }

  /** In every state of a timely run no two requests hold one lock, every holder's lock is in Redis
      with the expiry it was given, and a live lock without a holder was left behind by an
      interrupted SET NX less than 30 seconds ago. */
  lemma {:induction false} LockIsExclusive(start: Instant, moves: seq<Move>)
    requires TimelyRun(start, moves)
    ensures MutualExclusion(Run(start, moves))
  {
    if moves != [] {
      var n := |moves| - 1;
      var prior := moves[..n];
      forall k | 0 <= k <= n
        ensures Timely(Run(start, prior[..k]))
      {
        assert prior[..k] == moves[..k];
      }
      LockIsExclusive(start, prior);
      assert moves[..|moves|] == moves;
      ApplyKeepsExclusion(Run(start, prior), moves[n]);
    }
  }

  /** Stated for a caller: the lock is live if and only if a request holds it or it was left behind,
      never both; and two holders of one lock are the same request, so at most one vendor call per
      dedup key is in flight. */
  lemma OneVendorCallInFlight(start: Instant, moves: seq<Move>, i: nat, j: nat, lock: string)
    requires TimelyRun(start, moves)
    ensures var s := Run(start, moves);
            && (Alive(s.store, LockKey(lock), s.now) <==> Held(s, lock) || Abandoned(s, lock))
            && !(Held(s, lock) && Abandoned(s, lock))
            && (HoldsLock(s, i, lock) && HoldsLock(s, j, lock) ==> i == j)
  {
    LockIsExclusive(start, moves);
    assert moves[..|moves|] == moves;
    assert Timely(Run(start, moves));
    LocksOfHolders(Run(start, moves), lock);
  }

  lemma LocksOfHolders(s: Sys, lock: string)
    requires MutualExclusion(s) && Timely(s)
    ensures Held(s, lock) || Abandoned(s, lock) ==> Alive(s.store, LockKey(lock), s.now)
    ensures !(Held(s, lock) && Abandoned(s, lock))
  {
    if !Alive(s.store, LockKey(lock), s.now) {
      FreeLock(s, lock);
    }
  }

  /** The lock is taken whenever it is free: the request calls its vendor, and the lock is live for
      30 seconds. Whoever finds it live waits, and writes nothing. */
  lemma LockDecides(start: Instant, moves: seq<Move>, id: nat, reply: VendorReply)
    requires At(Run(start, moves), id, Lock) && Proper(reply)
    ensures var s, s' := Run(start, moves), Run(start, moves + [Resume(id, reply)]);
            var lock := s.tasks[id].req.dedupKey;
            if Alive(s.store, LockKey(lock), s.now) then
              s'.tasks[id].pc == Subscribing && s'.store == s.store
            else
              && s'.tasks[id].pc == CallVendor && HoldsLock(s', id, lock)
              && Alive(s'.store, LockKey(lock), s'.now)
              && s'.store[LockKey(lock)].expiresAt == Some(s.now + 30.0)
  {
    RunSnoc(start, moves, Resume(id, reply));
    LockTaken(Run(start, moves), id, reply);
  }

  lemma LockTaken(s: Sys, id: nat, reply: VendorReply)
    requires At(s, id, Lock) && Proper(reply)
    ensures var s', lock := Resumed(s, id, reply), s.tasks[id].req.dedupKey;
            if Alive(s.store, LockKey(lock), s.now) then s'.tasks[id].pc == Subscribing && s'.store == s.store
            else
              && s'.tasks[id].pc == CallVendor && HoldsLock(s', id, lock)
              && s'.store == s.store[LockKey(lock) := Entry(Text("1"), Some(s.now + 30.0))] && s'.now == s.now
  {
  }

  // ----------------------------------------------------------------------------------------
  // Release
  // ----------------------------------------------------------------------------------------

  /** Whatever happens next in any run, a request in the block is still in it, or it is through and
      its lock is gone: no reply, exception or interruption leads out of the block past the DEL. */
  lemma BlockEndsReleased(start: Instant, moves: seq<Move>, m: Move, id: nat)
    requires id < |Run(start, moves).tasks| && Holds(Run(start, moves).tasks[id].pc)
    ensures var s, s' := Run(start, moves), Run(start, moves + [m]);
            && id < |s'.tasks| && s'.tasks[id].req == s.tasks[id].req
            && (Holds(s'.tasks[id].pc) || (s'.tasks[id].pc.Done? && LockKey(s.tasks[id].req.dedupKey) !in s'.store))
  {
    var s, s' := Run(start, moves), Run(start, moves + [m]);
    RunSnoc(start, moves, m);
    if Acts(s, m) {
      StepEndsReleased(s, m, id);
    }
  }

  lemma StepEndsReleased(s: Sys, m: Move, id: nat)
    requires AllSound(s) && Acts(s, m) && id < |s.tasks| && Holds(s.tasks[id].pc)
    ensures var s' := Apply(s, m);
            && id < |s'.tasks| && s'.tasks[id].req == s.tasks[id].req
            && (Holds(s'.tasks[id].pc) || (s'.tasks[id].pc.Done? && LockKey(s.tasks[id].req.dedupKey) !in s'.store))
  {
    assert OnlyTask(s, Apply(s, m), m.id);
    if m.id == id && s.tasks[id].pc.Unlock? {
      assert Apply(s, m) == ReleaseLock(s, id, s.tasks[id].pc.out);
    }
  }

  /** In a timely run no move changes a live lock but its own holder's release. */
  lemma OnlyTheHolderReleases(start: Instant, moves: seq<Move>, m: Move, lock: string)
    requires TimelyRun(start, moves) && Alive(Run(start, moves).store, LockKey(lock), Run(start, moves).now)
    ensures var s, s' := Run(start, moves), Run(start, moves + [m]);
            || Same(s.store, s'.store, LockKey(lock))
            || (m.Resume? && HoldsLock(s, m.id, lock) && s.tasks[m.id].pc.Unlock? && LockKey(lock) !in s'.store)
  {
    var s, s' := Run(start, moves), Run(start, moves + [m]);
    RunSnoc(start, moves, m);
    if Acts(s, m) {
      LockStep(s, m, lock);
    } else {
      OtherMovesLeaveLocks(s, m);
    }
  }

  lemma LockStep(s: Sys, m: Move, lock: string)
    requires AllSound(s) && Acts(s, m) && Alive(s.store, LockKey(lock), s.now)
    ensures var s' := Apply(s, m);
            || Same(s.store, s'.store, LockKey(lock))
            || (m.Resume? && HoldsLock(s, m.id, lock) && s.tasks[m.id].pc.Unlock? && LockKey(lock) !in s'.store)
  {
    if s.tasks[m.id].pc.Lock? {
      if m.Resume? {
        assert Apply(s, m) == TakeLock(s, m.id);
      } else {
        assert Apply(s, m) == OrphanLock(s, m.id);
      }
    } else if s.tasks[m.id].pc.Unlock? {
      assert Apply(s, m) == ReleaseLock(s, m.id, s.tasks[m.id].pc.out);
    } else {
      OtherStepsLeaveLocks(s, Apply(s, m), m.id);
    }
  }

  /** A lock is abandoned in real runs: a request whose SET NX was served is aborted before it learns
      of it, and for 30 seconds its lock is live and no one will release it. */
  lemma InterruptedAcquire(start: Instant, req: Request)
    requires req.quota.None? && !req.isAsyncJob
    ensures var s := Run(start, [Arrive(req), Resume(0, Broken), Interrupt(0)]);
            && |s.tasks| == 1 && s.tasks[0].pc == Done(Aborted)
            && Alive(s.store, LockKey(req.dedupKey), s.now) && !Held(s, req.dedupKey)
  {
    var none: seq<Move> := [];
    RunSnoc(start, none, Arrive(req));
    var s1 := Run(start, none + [Arrive(req)]);
    RunSnoc(start, none + [Arrive(req)], Resume(0, Broken));
    var s2 := CheckCache(s1, 0);
    assert Resumed(s1, 0, Broken) == s2;
    RunSnoc(start, none + [Arrive(req)] + [Resume(0, Broken)], Interrupt(0));
    assert none + [Arrive(req)] + [Resume(0, Broken)] + [Interrupt(0)] == [Arrive(req), Resume(0, Broken), Interrupt(0)];
  }
}
