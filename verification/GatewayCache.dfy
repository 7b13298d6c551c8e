/** The response cache over every interleaving: what its entries are, and when a request must be
    answered from them. */
module GatewayCache {
  import opened Wrappers
  import opened RedisStore
  import opened Wire
  import opened Responses
  import opened Gateway
  import opened GatewayHistory

  predicate Rewrites(e: Event, name: string) {
    (e.CacheWritten? && e.name == name) || (e.CacheFlushed? && name in e.names)
  }

  /** The position of the last write or flush of a cache key, or -1. */
  function LastWrite(log: seq<Event>, name: string): (p: int)
    ensures -1 <= p < |log|
    ensures 0 <= p ==> Rewrites(log[p], name)
    ensures forall q :: p < q < |log| ==> !Rewrites(log[q], name)
  {
    if log == [] then -1
    else if Rewrites(log[|log| - 1], name) then |log| - 1
    else LastWrite(log[..|log| - 1], name)
  }

  /** An entry lives for the TTL it was written with. */
  function ExpiryOf(e: Event): real
    requires e.CacheWritten?
  {
    e.at + e.ttl as real
  }

  /** The entry the log calls for. */
  function Expected(log: seq<Event>, name: string): Option<Entry> {
    var p := LastWrite(log, name);
    if p < 0 || log[p].CacheFlushed? then None
    else Some(Entry(Text(Serialise(log[p].stored)), Some(ExpiryOf(log[p]))))
  }

  predicate EntryMatches(s: Sys, name: string) {
    match Expected(s.log, name)
    case None => CacheKey(name) !in s.store
    case Some(entry) => CacheKey(name) in s.store && s.store[CacheKey(name)] == entry
  }

  ghost predicate CacheTracked(s: Sys) {
    forall name :: EntryMatches(s, name)
  }

  lemma ExpectedSnoc(log: seq<Event>, e: Event, name: string)
    ensures Expected(log + [e], name)
         == if !Rewrites(e, name) then Expected(log, name)
            else if e.CacheFlushed? then None
            else Some(Entry(Text(Serialise(e.stored)), Some(ExpiryOf(e))))
  {
    assert (log + [e])[..|log|] == log;
    var p := LastWrite(log, name);
    assert LastWrite(log + [e], name) == if Rewrites(e, name) then |log| else p;
    if 0 <= p {
      assert (log + [e])[p] == log[p];
    }
  }

  lemma SameEntryMatches(s: Sys, s': Sys, name: string)
    requires EntryMatches(s, name) && Same(s.store, s'.store, CacheKey(name))
    requires Expected(s'.log, name) == Expected(s.log, name)
    ensures EntryMatches(s', name)
  {
  }

  lemma WriteMatches(s: Sys, s': Sys, e: Event, name: string)
    requires EntryMatches(s, name) && e.CacheWritten? && s'.log == s.log + [e]
    requires s'.store == s.store[CacheKey(e.name) := Entry(Text(Serialise(e.stored)), Some(ExpiryOf(e)))]
    ensures EntryMatches(s', name)
  {
    ExpectedSnoc(s.log, e, name);
    if e.name == name {
      assert Expected(s'.log, name) == Some(s'.store[CacheKey(name)]);
    } else {
      assert CacheKey(e.name) != CacheKey(name);
      SameEntryMatches(s, s', name);
    }
  }

  lemma CacheWrite(s: Sys, id: nat, e: Event)
    requires At(s, id, CacheSet) && 0 < CacheTtl(s.tasks[id].req) && Ok(s.tasks[id].fetched.value.statusCode)
    requires e == CacheWritten(id, s.tasks[id].req.cacheKey, s.tasks[id].fetched.value, s.now, CacheTtl(s.tasks[id].req))
    ensures WriteCache(s, id).log == s.log + [e]
    ensures WriteCache(s, id).store == s.store[CacheKey(e.name) := Entry(Text(Serialise(e.stored)), Some(ExpiryOf(e)))]
  {
  }

  lemma WritingTracks(s: Sys, id: nat, name: string)
    requires At(s, id, CacheSet) && EntryMatches(s, name)
    ensures EntryMatches(WriteCache(s, id), name)
  {
    var t, s' := s.tasks[id], WriteCache(s, id);
    if 0 < CacheTtl(t.req) && Ok(t.fetched.value.statusCode) {
      var e := CacheWritten(id, t.req.cacheKey, t.fetched.value, s.now, CacheTtl(t.req));
      CacheWrite(s, id, e);
      WriteMatches(s, s', e, name);
    } else {
      assert s'.log == s.log && s'.store == s.store;
      SameEntryMatches(s, s', name);
    }
  }

  lemma OtherStepTracks(s: Sys, s': Sys, id: nat, name: string)
    requires id < |s.tasks| && OnlyTask(s, s', id) && !s.tasks[id].pc.CacheSet?
    requires EntryMatches(s, name)
    ensures EntryMatches(s', name)
  {
    assert Target(s.tasks[id]) != Some(CacheKey(name));
    if s'.log != s.log {
      assert s'.log == s.log + [s'.log[|s.log|]];
      ExpectedSnoc(s.log, s'.log[|s.log|], name);
    }
    SameEntryMatches(s, s', name);
  }

  lemma CacheSetWrites(s: Sys, m: Move)
    requires AllSound(s) && Acts(s, m) && s.tasks[m.id].pc.CacheSet?
    ensures Apply(s, m).store == WriteCache(s, m.id).store && Apply(s, m).log == WriteCache(s, m.id).log
  {
  }

  lemma StepTracks(s: Sys, m: Move, name: string)
    requires AllSound(s) && Acts(s, m) && EntryMatches(s, name)
    ensures EntryMatches(Apply(s, m), name)
  {
    if s.tasks[m.id].pc.CacheSet? {
      WritingTracks(s, m.id, name);
      CacheSetWrites(s, m);
      SameEntryMatches(WriteCache(s, m.id), Apply(s, m), name);
    } else {
      OtherStepTracks(s, Apply(s, m), m.id, name);
    }
  }

  lemma FlushTracks(s: Sys, s': Sys, names: set<string>, name: string)
    requires EntryMatches(s, name)
    requires s'.log == s.log + [CacheFlushed(names)] && s'.store == s.store - CacheKeys(names)
    ensures EntryMatches(s', name)
  {
    ExpectedSnoc(s.log, CacheFlushed(names), name);
    assert CacheKey(name) in CacheKeys(names) <==> name in names;
  }

  lemma ApplyTracks(s: Sys, m: Move, name: string)
    requires AllSound(s) && EntryMatches(s, name)
    ensures EntryMatches(Apply(s, m), name)
  {
    if Acts(s, m) {
      StepTracks(s, m, name);
    } else if m.Flush? {
      FlushTracks(s, Apply(s, m), m.names, name);
    } else {
      StoreUntouched(s, m);
      SameEntryMatches(s, Apply(s, m), name);
    }
  }

  lemma StoreUntouched(s: Sys, m: Move)
    requires AllSound(s) && !Acts(s, m) && !m.Flush?
    ensures Apply(s, m).store == s.store && Apply(s, m).log == s.log
  {
  }

  /** Writes are logged when they happen. */
  predicate WrittenByNow(s: Sys) {
    forall p :: 0 <= p < |s.log| && s.log[p].CacheWritten? ==> s.log[p].at <= s.now
  }

  lemma StepKeepsWritten(s: Sys, s': Sys, id: nat)
    requires id < |s.tasks| && OnlyTask(s, s', id) && WrittenByNow(s)
    ensures WrittenByNow(s')
  {
    GrewKeepsEvents(s, s');
  }

  lemma QuietKeepsWritten(s: Sys, s': Sys)
    requires Quietly(s, s') && s.now <= s'.now && WrittenByNow(s)
    ensures WrittenByNow(s')
  {
    GrewKeepsEvents(s, s');
  }

  lemma {:induction false} RunCache(start: Instant, moves: seq<Move>)
    ensures CacheTracked(Run(start, moves)) && WrittenByNow(Run(start, moves))
  {
    if moves != [] {
      var n := |moves| - 1;
      var s, m := Run(start, moves[..n]), moves[n];
      RunCache(start, moves[..n]);
      forall name
        ensures EntryMatches(Run(start, moves), name)
      {
        assert EntryMatches(s, name);
        ApplyTracks(s, m, name);
      }
      if Acts(s, m) {
        StepKeepsWritten(s, Apply(s, m), m.id);
      } else {
        QuietMoves(s, m);
        QuietKeepsWritten(s, Apply(s, m));
      }
    }
  }

  /** The entry under a cache key was written by event `p`: the readable 2xx answer that some request
      with that cache key fetched while it held its lock. It expires as long after its store as
      that request's endpoint says, or its vendor if the endpoint says nothing; never at once. */
  predicate WrittenBy(s: Sys, name: string, p: nat) {
    && p < |s.log| && s.log[p].CacheWritten? && s.log[p].name == name && Authored(s, p)
    && var e, req := s.log[p], s.tasks[s.log[p].id].req;
    && CacheKey(name) in s.store && s.store[CacheKey(name)].expiresAt == Some(ExpiryOf(e))
    && Decoded(Some(s.store[CacheKey(name)].value)) == Some(e.stored) && Ok(e.stored.statusCode)
    && e.at <= s.now && 0 < e.ttl && e.ttl == (if req.ttlOverride.Some? then req.ttlOverride.value else req.vendorTtl)
  }

  /** Every cache entry in every reachable state has such an origin. */
  lemma EntriesAreFetched(start: Instant, moves: seq<Move>, name: string) returns (p: nat)
    requires CacheKey(name) in Run(start, moves).store
    ensures WrittenBy(Run(start, moves), name, p)
  {
    RunCache(start, moves);
    RunHistory(start, moves);
    p := EntrySource(Run(start, moves), name);
  }

  lemma Readable(entry: Entry, c: CachedResponse, expiresAt: real)
    requires Storable(c) && entry == Entry(Text(Serialise(c)), Some(expiresAt))
    ensures Decoded(Some(entry.value)) == Some(c)
  {
    RoundTrip(c);
  }

  lemma EntryWritten(s: Sys, name: string)
    requires EntryMatches(s, name) && CacheKey(name) in s.store
    ensures var p := LastWrite(s.log, name);
            && 0 <= p && s.log[p].CacheWritten?
            && s.store[CacheKey(name)] == Entry(Text(Serialise(s.log[p].stored)), Some(ExpiryOf(s.log[p])))
  {
  }

  lemma EntrySource(s: Sys, name: string) returns (p: nat)
    requires CacheTracked(s) && WrittenByNow(s) && History(s) && CacheKey(name) in s.store
    ensures WrittenBy(s, name, p)
  {
    assert EntryMatches(s, name);
    EntryWritten(s, name);
    p := LastWrite(s.log, name);
    assert Authored(s, p);
    Readable(s.store[CacheKey(name)], s.log[p].stored, ExpiryOf(s.log[p]));
    ResolvedTtl(s.tasks[s.log[p].id].req);
  }

  lemma ResolvedTtl(req: Request)
    ensures CacheTtl(req) == if req.ttlOverride.Some? then req.ttlOverride.value else req.vendorTtl
  {
  }

  /** What a cache check finds: the last response written under the key, until it expires. */
  lemma CacheLookup(s: Sys, name: string)
    requires EntryMatches(s, name)
    ensures var p := LastWrite(s.log, name);
            var expected := if 0 <= p && s.log[p].CacheWritten? && s.now < ExpiryOf(s.log[p])
                            then Some(Text(Serialise(s.log[p].stored))) else None;
            Lookup(s.store, CacheKey(name), s.now) == expected
  {
  }

  lemma CheckAnswers(s: Sys, id: nat, c: CachedResponse)
    requires At(s, id, CacheGet) && Storable(c)
    requires Lookup(s.store, CacheKey(s.tasks[id].req.cacheKey), s.now) == Some(Text(Serialise(c)))
    ensures CheckCache(s, id).tasks[id].pc == Done(Hit(FromStore(c)))
  {
    RoundTrip(c);
  }

  lemma AuthorReturned(s: Sys, p: nat)
    requires p < |s.log| && s.log[p].CacheWritten? && Authored(s, p)
    ensures SameButMarked(FromStore(s.log[p].stored), Answered(s.tasks[s.log[p].id]).response)
  {
    MarkedOnce(s.log[p].stored);
  }

  /** Hit guarantee, both ways. A request whose cache check falls between the last store under its
      key and that entry's expiry or flush is answered with the stored response, which is what
      the holder that fetched it returned, marked `X-Cache: HIT`. Any other goes on to the lock. */
  lemma HitGuarantee(start: Instant, moves: seq<Move>, id: nat)
    requires At(Run(start, moves), id, CacheGet)
    ensures var s := Run(start, moves);
            var p := LastWrite(s.log, s.tasks[id].req.cacheKey);
            var next := CheckCache(s, id).tasks[id].pc;
            if 0 <= p && s.log[p].CacheWritten? && s.now < ExpiryOf(s.log[p]) then
              && s.log[p].id < |s.tasks| && s.tasks[s.log[p].id].fetched.Some?
              && next == Done(Hit(FromStore(s.log[p].stored)))
              && SameButMarked(FromStore(s.log[p].stored), Answered(s.tasks[s.log[p].id]).response)
            else next == Lock
  {
    RunCache(start, moves);
    RunHistory(start, moves);
    CheckDecides(Run(start, moves), id);
  }

  lemma CheckDecides(s: Sys, id: nat)
    requires At(s, id, CacheGet) && CacheTracked(s) && History(s)
    ensures var p := LastWrite(s.log, s.tasks[id].req.cacheKey);
            var next := CheckCache(s, id).tasks[id].pc;
            if 0 <= p && s.log[p].CacheWritten? && s.now < ExpiryOf(s.log[p]) then
              && s.log[p].id < |s.tasks| && s.tasks[s.log[p].id].fetched.Some?
              && next == Done(Hit(FromStore(s.log[p].stored)))
              && SameButMarked(FromStore(s.log[p].stored), Answered(s.tasks[s.log[p].id]).response)
            else next == Lock
  {
    var name := s.tasks[id].req.cacheKey;
    assert EntryMatches(s, name);
    CacheLookup(s, name);
    var p := LastWrite(s.log, name);
    if 0 <= p && s.log[p].CacheWritten? && s.now < ExpiryOf(s.log[p]) {
      assert Authored(s, p);
      CheckAnswers(s, id, s.log[p].stored);
      AuthorReturned(s, p);
    }
  }

  /** An answered request stays as it is, so one answered from the cache never calls its vendor. */
  lemma HitsNeverCall(start: Instant, moves: seq<Move>, later: seq<Move>, id: nat)
    requires var s := Run(start, moves);
             id < |s.tasks| && s.tasks[id].pc.Done? && s.tasks[id].pc.out.Hit?
    ensures var s, s' := Run(start, moves), Run(start, moves + later);
            id < |s'.tasks| && s'.tasks[id] == s.tasks[id] && Called(id) !in s'.log
  {
    DoneIsFinal(start, moves, later, id);
    VendorCalls(start, moves + later, id);
  }

  lemma {:induction false} DoneIsFinal(start: Instant, moves: seq<Move>, later: seq<Move>, id: nat)
    requires var s := Run(start, moves);
             id < |s.tasks| && s.tasks[id].pc.Done?
    ensures var s, s' := Run(start, moves), Run(start, moves + later);
            id < |s'.tasks| && s'.tasks[id] == s.tasks[id]
  {
    if later == [] {
      assert moves + later == moves;
    } else {
      var n := |later| - 1;
      DoneIsFinal(start, moves, later[..n], id);
      RunSplit(start, moves, later);
      DoneStays(Run(start, moves + later[..n]), later[n], id);
    }
  }

  lemma RunSplit(start: Instant, moves: seq<Move>, later: seq<Move>)
    requires later != []
    ensures var n := |later| - 1;
            Run(start, moves + later) == Apply(Run(start, moves + later[..n]), later[n])
  {
    var all, n := moves + later, |later| - 1;
    assert all[..|all| - 1] == moves + later[..n];
  }

  lemma DoneStays(s: Sys, m: Move, id: nat)
    requires AllSound(s) && id < |s.tasks| && s.tasks[id].pc.Done?
    ensures var s' := Apply(s, m);
            id < |s'.tasks| && s'.tasks[id] == s.tasks[id]
  {
    if Acts(s, m) {
      assert OnlyTask(s, Apply(s, m), m.id);
    }
  }
}
