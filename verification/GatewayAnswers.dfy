/** Where the answers come from over every interleaving: whatever a caller is given, by its own call,
    from the cache or from another request's result, is what some vendor answered. */
module GatewayAnswers {
  import opened Wrappers
  import opened RedisStore
  import opened Wire
  import opened Responses
  import opened Gateway
  import opened GatewayHistory
  import opened GatewayReplies
  import opened GatewayCache
  import opened GatewayWait

  /** The response of a hit was written under the request's own key. */
  predicate HitBy(log: seq<Event>, p: nat, name: string, r: Response) {
    p < |log| && log[p].CacheWritten? && log[p].name == name && r == FromStore(log[p].stored)
  }

  ghost predicate HitFits(s: Sys, id: nat)
    requires id < |s.tasks|
  {
    var t := s.tasks[id];
    t.pc.Done? && t.pc.out.Hit? ==> exists p: nat :: HitBy(s.log, p, t.req.cacheKey, t.pc.out.response)
  }

  lemma HitStays(s: Sys, s': Sys, name: string, r: Response)
    requires Grew(s, s')
    ensures (exists p: nat :: HitBy(s.log, p, name, r)) ==> (exists p: nat :: HitBy(s'.log, p, name, r))
  {
    GrewKeepsEvents(s, s');
    if p: nat :| HitBy(s.log, p, name, r) {
      assert HitBy(s'.log, p, name, r);
    }
  }

  /** The check that hits. */
  lemma HitFound(s: Sys, id: nat)
    requires At(s, id, CacheGet) && CacheTracked(s) && History(s)
    ensures HitFits(CheckCache(s, id), id)
  {
    var s', name := CheckCache(s, id), s.tasks[id].req.cacheKey;
    CheckDecides(s, id);
    var p := LastWrite(s.log, name);
    if s'.tasks[id].pc.Done? {
      assert HitBy(s'.log, p, name, s'.tasks[id].pc.out.response);
    }
  }

  lemma StepKeepsHits(s: Sys, s': Sys, id: nat, j: nat)
    requires id < |s.tasks| && j < |s.tasks| && OnlyTask(s, s', id) && HitFits(s, j)
    requires j == id ==> !s.tasks[id].pc.CacheGet? && LocalsFit(s.tasks[id])
    ensures HitFits(s', j)
  {
    var t := s.tasks[j];
    if t.pc.Done? && t.pc.out.Hit? {
      HitStays(s, s', t.req.cacheKey, t.pc.out.response);
    }
  }

  lemma QuietKeepsHits(s: Sys, s': Sys, j: nat)
    requires Quietly(s, s') && j < |s'.tasks| && (j < |s.tasks| ==> HitFits(s, j))
    ensures HitFits(s', j)
  {
    if j < |s.tasks| && s.tasks[j].pc.Done? && s.tasks[j].pc.out.Hit? {
      HitStays(s, s', s.tasks[j].req.cacheKey, s.tasks[j].pc.out.response);
    }
  }

  lemma {:induction false} RunHits(start: Instant, moves: seq<Move>, id: nat)
    requires id < |Run(start, moves).tasks|
    ensures HitFits(Run(start, moves), id)
  {
    if moves != [] {
      var n := |moves| - 1;
      var s, m := Run(start, moves[..n]), moves[n];
      if id < |s.tasks| {
        RunHits(start, moves[..n], id);
      }
      RunHistory(start, moves[..n]);
      if !Acts(s, m) {
        QuietMoves(s, m);
        QuietKeepsHits(s, Apply(s, m), id);
      } else if m.id == id && s.tasks[id].pc.CacheGet? {
        RunCache(start, moves[..n]);
        HitFound(s, id);
        assert Apply(s, m) == CheckCache(s, id);
      } else {
        assert Consistent(s, id);
        StepKeepsHits(s, Apply(s, m), m.id, id);
      }
    }
  }

  /** A vendor's answer as it is served from the store: its status, its body, and its end-to-end
      headers with `X-Cache: HIT`. */
  ghost predicate ServedFrom(r: Response, reply: VendorReply) {
    reply.Answer? && exists headers ::
      EndToEnd(reply.headers, headers) && SameButMarked(r, Response(reply.statusCode, headers, reply.body))
  }

  lemma KeptIsServed(c: CachedResponse, reply: VendorReply)
    requires Keeps(c, reply)
    ensures ServedFrom(FromStore(c), reply)
  {
    MarkedOnce(c);
    assert EndToEnd(reply.headers, c.headers);
  }

  /** A shared answer: what its author's vendor answered. */
  lemma SharedIsServed(start: Instant, moves: seq<Move>, p: nat) returns (reply: VendorReply)
    requires var log := Run(start, moves).log;
             p < |log| && (log[p].CacheWritten? || log[p].Stored? || log[p].Published?)
    ensures var s := Run(start, moves);
            && Authored(s, p) && Replied(s.log[p].id, reply) in s.log && Positive(reply)
            && ServedFrom(FromStore(s.log[p].stored), reply)
  {
    reply := OutputsAreFetched(start, moves, p);
    KeptIsServed(Run(start, moves).log[p].stored, reply);
  }

  /** Every 2xx answer that a caller is given was given by a vendor: to its own request, whose answer
      it is in status, body and end-to-end headers; or to a request with the same cache key, or with
      the same dedup key, and then it is that answer marked `X-Cache: HIT`. */
  lemma EveryAnswerWasGiven(start: Instant, moves: seq<Move>, id: nat) returns (author: nat, reply: VendorReply)
    requires var s := Run(start, moves);
             && id < |s.tasks| && s.tasks[id].pc.Done?
             && (s.tasks[id].pc.out.Fetched? || s.tasks[id].pc.out.Hit? || s.tasks[id].pc.out.Waited?)
    ensures var s := Run(start, moves);
            var t, r := s.tasks[id], s.tasks[id].pc.out.response;
            && author < |s.tasks| && Replied(author, reply) in s.log && Positive(reply)
            && match t.pc.out
               case Fetched(_) => author == id && SameAnswer(r, reply)
               case Hit(_) => s.tasks[author].req.cacheKey == t.req.cacheKey && ServedFrom(r, reply)
               case _ => s.tasks[author].req.dedupKey == t.req.dedupKey && ServedFrom(r, reply)
  {
    var s := Run(start, moves);
    var t := s.tasks[id];
    match t.pc.out
    case Fetched(_) =>
      author := id;
      reply := FetchedIsShared(start, moves, id);
    case Hit(r) =>
      RunHits(start, moves, id);
      var p: nat :| HitBy(s.log, p, t.req.cacheKey, r);
      author := s.log[p].id;
      reply := SharedIsServed(start, moves, p);
    case Waited(r) =>
      var p := WaitedSource(start, moves, id, r);
      author := s.log[p].id;
      reply := SharedIsServed(start, moves, p);
  }

  lemma WaitedSource(start: Instant, moves: seq<Move>, id: nat, r: Response) returns (p: nat)
    requires var s := Run(start, moves);
             id < |s.tasks| && s.tasks[id].pc == Done(Waited(r))
    ensures var s := Run(start, moves);
            && p < |s.log| && (s.log[p].Stored? || s.log[p].Published?)
            && s.log[p].lock == s.tasks[id].req.dedupKey && r == FromStore(s.log[p].stored)
  {
    RunWaiters(start, moves);
    var s := Run(start, moves);
    assert Watched(s, id);
    var t := s.tasks[id];
    assert Sourced(s.log, t.req.dedupKey, t.wait, r);
    p :| SourcedAt(s.log, t.req.dedupKey, t.wait, r, p);
  }
}
