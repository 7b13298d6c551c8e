/** What the log of a run says about its requests: everything stored, published or counted comes
    from a request that took the lock, called its vendor once and got a 2xx answer. */
module GatewayHistory {
  import opened Wrappers
  import opened RedisStore
  import opened Responses
  import opened Gateway

  /** Events that only a lock holder with a 2xx answer causes. */
  predicate IsOutput(e: Event) {
    e.CacheWritten? || e.Stored? || e.Published? || e.Incremented?
  }

  /** An output event carries its author's own keys and the response its vendor call fetched. */
  predicate CarriesFetched(t: Task, e: Event)
    requires IsOutput(e)
  {
    && t.fetched.Some? && Storable(t.fetched.value)
    && match e
       case CacheWritten(_, name, c, _, ttl) => name == t.req.cacheKey && c == t.fetched.value && 0 < ttl == CacheTtl(t.req)
       case Stored(_, lock, c, _) => lock == t.req.dedupKey && c == t.fetched.value
       case Published(_, lock, c) => lock == t.req.dedupKey && c == t.fetched.value
       case Incremented(_, ref, _) => t.req.quota.Some? && ref == t.req.quota.value.ref
  }

  predicate Authored(s: Sys, p: nat)
    requires p < |s.log| && IsOutput(s.log[p])
  {
    var e := s.log[p];
    e.id < |s.tasks| &&
    var t := s.tasks[e.id];
    CarriesFetched(t, e) && t.acquiredAt < p && s.log[t.acquiredAt] == Acquired(e.id, t.req.dedupKey)
  }

  /** A request that has no 2xx answer yet. */
  predicate Early(pc: Pc) {
    || pc.QuotaClock? || pc.QuotaGet? || pc.CacheGet? || pc.Lock? || pc.CallVendor? || pc.Calling?
  }

  /** A request that cannot have called its vendor: it has not come that far, it waits for
      another's result, or it was answered without a call. */
  predicate NeverCalled(pc: Pc) {
    || pc.QuotaClock? || pc.QuotaGet? || pc.CacheGet? || pc.Lock? || pc.CallVendor?
    || pc.Subscribing? || Waits(pc) || pc.Leaving?
    || (pc.Done? && (pc.out.Accepted? || pc.out.QuotaExceeded? || pc.out.Hit? || pc.out.Waited? || pc.out.WaitTimedOut?))
  }

  predicate NotYetCounted(pc: Pc) {
    Early(pc) || pc.CacheSet? || pc.StoreResult? || pc.PublishResult? || pc.IncrClock? || pc.IncrQuota?
  }

  /** A request with a quota that is through, or has its answer ready to return, was counted. */
  ghost predicate CountedWhenThrough(s: Sys, id: nat)
    requires id < |s.tasks|
  {
    var t := s.tasks[id];
    t.req.quota.Some? && (t.pc.ExpireQuota? || ((t.pc.Unlock? || t.pc.Done?) && t.pc.out.Fetched?)) ==>
      exists index :: Incremented(id, t.req.quota.value.ref, index) in s.log
  }

  /** What the log says of a request by where it is suspended. */
  ghost predicate LogFits(s: Sys, id: nat)
    requires id < |s.tasks|
  {
    OutputsFit(s, id) && CallsFit(s, id)
  }

  ghost predicate OutputsFit(s: Sys, id: nat)
    requires id < |s.tasks|
  {
    var t := s.tasks[id];
    && (Holds(t.pc) ==> t.acquiredAt < |s.log| && s.log[t.acquiredAt] == Acquired(id, t.req.dedupKey))
    && (Early(t.pc) ==> forall p :: 0 <= p < |s.log| && IsOutput(s.log[p]) ==> s.log[p].id != id)
    && (NotYetCounted(t.pc) ==> forall p :: 0 <= p < |s.log| && s.log[p].Incremented? ==> s.log[p].id != id)
  }

  ghost predicate CallsFit(s: Sys, id: nat)
    requires id < |s.tasks|
  {
    var t := s.tasks[id];
    && (NeverCalled(t.pc) ==> Called(id) !in s.log)
    && (t.pc.Calling? || t.fetched.Some? ==> Called(id) in s.log)
  }

  /** What its locals are by where it is suspended. */
  predicate LocalsFit(t: Task) {
    && (t.req.isAsyncJob <==> t.pc == Done(Accepted))
    && (AfterAnswer(t.pc) ==> t.fetched.Some? && Storable(t.fetched.value))
    && (Early(t.pc) ==> t.fetched.None?)
    && (t.pc.Unlock? ==> WithoutAnswer(t.pc.out) || (t.fetched.Some? && t.pc.out == Answered(t)))
    && (t.pc.Leaving? ==> t.pc.out.Waited? || t.pc.out.WaitTimedOut? || t.pc.out.Aborted?)
    && (t.pc.Done? && t.pc.out.Fetched? ==> t.fetched.Some? && t.pc.out == Answered(t))
  }

  ghost predicate Consistent(s: Sys, id: nat)
    requires id < |s.tasks|
  {
    LogFits(s, id) && LocalsFit(s.tasks[id])
  }

  ghost predicate History(s: Sys) {
    && (forall id :: 0 <= id < |s.tasks| ==> Consistent(s, id))
    && (forall id :: 0 <= id < |s.tasks| ==> CountedWhenThrough(s, id))
    && (forall p :: 0 <= p < |s.log| && IsOutput(s.log[p]) ==> Authored(s, p))
    && (forall p :: 0 <= p < |s.log| && s.log[p].Called? ==> s.log[p].id < |s.tasks|)
    && (forall p, q :: 0 <= p < q < |s.log| && s.log[p].Called? && s.log[q].Called? ==> s.log[p].id != s.log[q].id)
    && (forall p, q :: 0 <= p < q < |s.log| && s.log[p].Incremented? && s.log[q].Incremented? ==> s.log[p].id != s.log[q].id)
  }

  // ----------------------------------------------------------------------------------------
  // Preservation
  // ----------------------------------------------------------------------------------------

  /** Earlier events stay where they were. */
  lemma GrewKeepsEvents(s: Sys, s': Sys)
    requires Grew(s, s')
    ensures forall p :: 0 <= p < |s.log| ==> s'.log[p] == s.log[p]
    ensures forall p :: |s.log| <= p < |s'.log| ==> p == |s.log| && Added(s, s') == Some(s'.log[p])
    ensures forall e :: e in s'.log ==> e in s.log || Added(s, s') == Some(e)
    ensures forall e :: e in s.log ==> e in s'.log
  {
    if s'.log != s.log {
      assert s'.log == s.log + [s'.log[|s.log|]];
    }
  }

  lemma OthersStayConsistent(s: Sys, s': Sys, id: nat, j: nat)
    requires History(s) && id < |s.tasks| && OnlyTask(s, s', id) && j < |s.tasks| && j != id
    ensures Consistent(s', j)
  {
    GrewKeepsEvents(s, s');
    assert Consistent(s, j);
  }

  lemma MoverLocalsFit(s: Sys, s': Sys, id: nat)
    requires id < |s.tasks| && LocalsFit(s.tasks[id]) && OnlyTask(s, s', id)
    ensures LocalsFit(s'.tasks[id])
  {
  }

  lemma MoverOutputsFit(s: Sys, s': Sys, id: nat)
    requires id < |s.tasks| && OutputsFit(s, id) && OnlyTask(s, s', id)
    ensures OutputsFit(s', id)
  {
    GrewKeepsEvents(s, s');
  }

  lemma MoverCallsFit(s: Sys, s': Sys, id: nat)
    requires id < |s.tasks| && CallsFit(s, id) && LocalsFit(s.tasks[id]) && OnlyTask(s, s', id)
    ensures CallsFit(s', id)
  {
    GrewKeepsEvents(s, s');
  }

  lemma MoverStaysConsistent(s: Sys, s': Sys, id: nat)
    requires History(s) && id < |s.tasks| && OnlyTask(s, s', id)
    ensures Consistent(s', id)
  {
    assert Consistent(s, id);
    MoverLocalsFit(s, s', id);
    MoverOutputsFit(s, s', id);
    MoverCallsFit(s, s', id);
  }

  lemma StepKeepsCounted(s: Sys, s': Sys, id: nat, j: nat)
    requires History(s) && id < |s.tasks| && OnlyTask(s, s', id) && j < |s.tasks|
    ensures CountedWhenThrough(s', j)
  {
    GrewKeepsEvents(s, s');
    assert Consistent(s, j) && CountedWhenThrough(s, j);
    if j == id && s.tasks[id].pc.IncrQuota? && s.tasks[id].req.quota.Some? {
      assert s'.log[|s.log|] in s'.log;
    }
  }

  lemma EventsStayAuthored(s: Sys, s': Sys, id: nat, p: nat)
    requires History(s) && id < |s.tasks| && OnlyTask(s, s', id) && p < |s'.log| && IsOutput(s'.log[p])
    ensures Authored(s', p)
  {
    GrewKeepsEvents(s, s');
    assert Consistent(s, id);
    if p < |s.log| {
      assert Authored(s, p);
    }
  }

  lemma StepKeepsHistory(s: Sys, s': Sys, id: nat)
    requires History(s) && id < |s.tasks| && OnlyTask(s, s', id)
    ensures History(s')
  {
    forall j | 0 <= j < |s'.tasks|
      ensures Consistent(s', j)
    {
      if j == id {
        MoverStaysConsistent(s, s', id);
      } else {
        OthersStayConsistent(s, s', id, j);
      }
    }
    forall j | 0 <= j < |s'.tasks|
      ensures CountedWhenThrough(s', j)
    {
      StepKeepsCounted(s, s', id, j);
    }
    forall p | 0 <= p < |s'.log| && IsOutput(s'.log[p])
      ensures Authored(s', p)
    {
      EventsStayAuthored(s, s', id, p);
    }
    GrewKeepsEvents(s, s');
    assert Consistent(s, id);
    assert forall p :: 0 <= p < |s.log| && s.log[p].Called? ==> s.log[p] in s.log;
  }

  /** Moves that add no output event and change no request but for ending it without one. */
  ghost predicate Quietly(s: Sys, s': Sys) {
    && Grew(s, s') && (Added(s, s').Some? ==> Added(s, s').value.CacheFlushed?)
    && |s.tasks| <= |s'.tasks|
    && (forall id :: 0 <= id < |s.tasks| ==>
          s'.tasks[id] == s.tasks[id] || (exists pc :: s'.tasks[id] == s.tasks[id].(pc := pc, excepted := true) && Ends(s.tasks[id].pc, pc)))
    && (forall id :: |s.tasks| <= id < |s'.tasks| ==> exists req :: s'.tasks[id] == Arrival(req))
  }

  /** What an exception makes of a suspended request. */
  predicate Ends(pc: Pc, pc': Pc) {
    !pc.Done? && !pc.Unlock? && !pc.Leaving? && pc' == AbortedAt(pc)
  }

  lemma QuietMoves(s: Sys, m: Move)
    requires AllSound(s) && !Acts(s, m)
    ensures Quietly(s, Apply(s, m))
  {
    var s' := Apply(s, m);
    if (m.Cancel? || m.Interrupt?) && m.id < |s.tasks| && s' != s {
      assert s'.tasks[m.id] == s.tasks[m.id].(pc := s'.tasks[m.id].pc, excepted := true);
    } else if m.Arrive? {
      assert s'.tasks[|s.tasks|] == Arrival(m.req);
    }
  }

  lemma QuietKeepsConsistent(s: Sys, s': Sys, id: nat)
    requires History(s) && Quietly(s, s') && id < |s.tasks|
    ensures Consistent(s', id)
  {
    GrewKeepsEvents(s, s');
    assert Consistent(s, id);
  }

  lemma ArrivalIsConsistent(s: Sys, s': Sys, id: nat)
    requires History(s) && Quietly(s, s') && |s.tasks| <= id < |s'.tasks|
    ensures Consistent(s', id)
  {
    GrewKeepsEvents(s, s');
    forall p | 0 <= p < |s'.log| && (IsOutput(s'.log[p]) || s'.log[p].Called?)
      ensures s'.log[p].id != id
    {
      assert IsOutput(s'.log[p]) ==> Authored(s, p);
    }
  }

  lemma QuietKeepsCounted(s: Sys, s': Sys, id: nat)
    requires History(s) && Quietly(s, s') && id < |s'.tasks|
    ensures CountedWhenThrough(s', id)
  {
    GrewKeepsEvents(s, s');
    if id < |s.tasks| {
      assert CountedWhenThrough(s, id);
    }
  }

  lemma QuietKeepsHistory(s: Sys, s': Sys)
    requires History(s) && Quietly(s, s')
    ensures History(s')
  {
    GrewKeepsEvents(s, s');
    forall id | 0 <= id < |s'.tasks|
      ensures CountedWhenThrough(s', id)
    {
      QuietKeepsCounted(s, s', id);
    }
    forall id | 0 <= id < |s'.tasks|
      ensures Consistent(s', id)
    {
      if id < |s.tasks| {
        QuietKeepsConsistent(s, s', id);
      } else {
        ArrivalIsConsistent(s, s', id);
      }
    }
    forall p | 0 <= p < |s'.log| && IsOutput(s'.log[p])
      ensures Authored(s', p)
    {
      assert Authored(s, p);
      assert s'.tasks[s.log[p].id].fetched == s.tasks[s.log[p].id].fetched;
    }
  }

  lemma {:induction false} RunHistory(start: Instant, moves: seq<Move>)
    ensures History(Run(start, moves))
  {
    if moves != [] {
      var n := |moves| - 1;
      var s, m := Run(start, moves[..n]), moves[n];
      RunHistory(start, moves[..n]);
      if Acts(s, m) {
        StepKeepsHistory(s, Apply(s, m), m.id);
      } else {
        QuietMoves(s, m);
        QuietKeepsHistory(s, Apply(s, m));
      }
    }
  }

  // ----------------------------------------------------------------------------------------
  // What it means
  // ----------------------------------------------------------------------------------------

  /** A request answered from the cache, from another's result, by a full quota, as a job, or by
      a wait that timed out never called its vendor; any request called it at most once. */
  lemma VendorCalls(start: Instant, moves: seq<Move>, id: nat)
    requires id < |Run(start, moves).tasks|
    ensures var s := Run(start, moves);
            && (NeverCalled(s.tasks[id].pc) ==> Called(id) !in s.log)
            && (forall p, q :: 0 <= p < q < |s.log| && s.log[p] == Called(id) ==> s.log[q] != Called(id))
  {
    RunHistory(start, moves);
    assert Consistent(Run(start, moves), id);
  }

  /** A request for an asynchronous endpoint is accepted as a job, and no other one is. */
  lemma JobsAreAccepted(start: Instant, moves: seq<Move>, id: nat)
    requires id < |Run(start, moves).tasks|
    ensures var t := Run(start, moves).tasks[id];
            && (t.req.isAsyncJob <==> t.pc == Done(Accepted))
            && (t.req.isAsyncJob ==> Called(id) !in Run(start, moves).log)
  {
    RunHistory(start, moves);
    assert Consistent(Run(start, moves), id);
  }
}
